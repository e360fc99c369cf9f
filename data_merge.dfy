/**
 * The decision-relevant parts of scripts/data_merge.py: the HS2-chapter to
 * SITC-section table, the ONS name parsers, the HMRC preparation step and
 * the per-chapter coverage rows.
 */
module DataMerge {
  import opened Optional
  import opened Lookup
  import opened CoverageClasses

  // ---------------------------------------------------------------------
  // The HS2_TO_SITC and SITC_NAMES tables
  // ---------------------------------------------------------------------

  /** Python's range(lo, hi). */
  function Range(lo: int, hi: int): (r: seq<int>)
    ensures |r| == if hi <= lo then 0 else hi - lo
    ensures forall i :: 0 <= i < |r| ==> r[i] == lo + i
  {
    if hi <= lo then [] else seq(hi - lo, i => lo + i)
  }

  /** The keys of HS2_TO_SITC in the dictionary's insertion order: 1..76, 78..97 and 99. */
  const Hs2Chapters: seq<int> := Range(1, 77) + Range(78, 98) + [99]

  /**
   * HS2_TO_SITC.get: the parent SITC section of an HS2 chapter, `None` for a
   * chapter the table does not list. The dictionary's entries are grouped
   * here by section.
   */
  function SitcOf(hs2: int): Option<int>
  {
    if 1 <= hs2 <= 21 || hs2 == 23 then Some(0)
    else if hs2 == 22 || hs2 == 24 then Some(1)
    else if hs2 == 25 || hs2 == 26 || hs2 == 41 then Some(2)
    else if hs2 == 27 then Some(3)
    else if 28 <= hs2 <= 38 then Some(5)
    else if hs2 == 39 || hs2 == 40 || 44 <= hs2 <= 48 || 50 <= hs2 <= 60
         || 66 <= hs2 <= 70 || 72 <= hs2 <= 76 || 78 <= hs2 <= 83 then Some(6)
    else if 84 <= hs2 <= 89 then Some(7)
    else if hs2 == 42 || hs2 == 43 || hs2 == 49 || 61 <= hs2 <= 65 || hs2 == 71
         || 90 <= hs2 <= 97 then Some(8)
    else if hs2 == 99 then Some(9)
    else None
  }

  /**
   * HS2_TO_SITC entry by entry, one clause per run of the literal: every
   * chapter of a run gets the run's section, the entries listed out of run
   * (22, 24, 27, 41, 42-43, 49, 61-65, 71) get theirs, and 77, 98 and every
   * chapter outside 1..99 get none.
   */
  lemma SitcOfTable()
    ensures forall h :: h <= 0 || 100 <= h ==> SitcOf(h) == None
    ensures forall h :: 1 <= h <= 21 ==> SitcOf(h) == Some(0)
    ensures SitcOf(22) == Some(1) && SitcOf(23) == Some(0) && SitcOf(24) == Some(1)
    ensures forall h :: 25 <= h <= 26 ==> SitcOf(h) == Some(2)
    ensures SitcOf(27) == Some(3)
    ensures forall h :: 28 <= h <= 38 ==> SitcOf(h) == Some(5)
    ensures forall h :: 39 <= h <= 40 ==> SitcOf(h) == Some(6)
    ensures SitcOf(41) == Some(2)
    ensures forall h :: 42 <= h <= 43 ==> SitcOf(h) == Some(8)
    ensures forall h :: 44 <= h <= 48 ==> SitcOf(h) == Some(6)
    ensures SitcOf(49) == Some(8)
    ensures forall h :: 50 <= h <= 60 ==> SitcOf(h) == Some(6)
    ensures forall h :: 61 <= h <= 65 ==> SitcOf(h) == Some(8)
    ensures forall h :: 66 <= h <= 70 ==> SitcOf(h) == Some(6)
    ensures SitcOf(71) == Some(8)
    ensures forall h :: 72 <= h <= 76 ==> SitcOf(h) == Some(6)
    ensures SitcOf(77) == None
    ensures forall h :: 78 <= h <= 83 ==> SitcOf(h) == Some(6)
    ensures forall h :: 84 <= h <= 89 ==> SitcOf(h) == Some(7)
    ensures forall h :: 90 <= h <= 97 ==> SitcOf(h) == Some(8)
    ensures SitcOf(98) == None && SitcOf(99) == Some(9)
  {
  }

  /** SITC_NAMES: the display name of each SITC section 0..9. */
  const SitcNames: map<int, string> := map[
    0 := "0 Food & live animals",
    1 := "1 Beverages & tobacco",
    2 := "2 Crude materials",
    3 := "3 Fuels",
    4 := "4 Animal & vegetable oils",
    5 := "5 Chemicals",
    6 := "6 Manufactured goods",
    7 := "7 Machinery & transport equipment",
    8 := "8 Miscellaneous manufactures",
    9 := "9 Other commodities"
  ]

  /** SITC_NAMES.get: `None` for a section without a name. */
  function SitcNameOf(section: Option<int>): (r: Option<string>)
    ensures r.Some? <==> section.Some? && section.value in SitcNames
    ensures r.Some? ==> r.value == SitcNames[section.value]
  {
    if section.Some? && section.value in SitcNames then Some(SitcNames[section.value]) else None
  }

  /** Position i of the key list: 1..76 first, then 78..97, then 99. */
  lemma Hs2ChapterAt(i: int)
    requires 0 <= i < |Hs2Chapters|
    ensures |Hs2Chapters| == 97
    ensures Hs2Chapters[i] == if i < 76 then i + 1 else if i < 96 then i + 2 else 99
    ensures SitcOf(Hs2Chapters[i]).Some?
  {
    var a, b := Range(1, 77), Range(78, 98);
    assert Hs2Chapters == a + b + [99];
    if i >= 76 && i < 96 {
      assert Hs2Chapters[i] == b[i - 76];
    }
  }

  /** The table lists exactly the chapters 1..99 other than 77 and 98, in ascending order. */
  lemma Hs2ChaptersAreTheTableKeys()
    ensures |Hs2Chapters| == 97
    ensures forall h :: h in Hs2Chapters <==> SitcOf(h).Some?
    ensures forall h :: h in Hs2Chapters <==> 1 <= h <= 99 && h != 77 && h != 98
    ensures forall i, j :: 0 <= i < j < |Hs2Chapters| ==> Hs2Chapters[i] < Hs2Chapters[j]
  {
    var a, b := Range(1, 77), Range(78, 98);
    assert Hs2Chapters == a + b + [99];
    forall h | 1 <= h <= 99 && h != 77 && h != 98
      ensures h in Hs2Chapters
    {
      if h < 77 {
        assert Hs2Chapters[h - 1] == h;
      } else if h < 98 {
        assert Hs2Chapters[76 + h - 78] == h;
      } else {
        assert Hs2Chapters[96] == h;
      }
    }
  }

  /** One chapter is a key of the table exactly when it has a section. */
  lemma ChapterIsKey(h: int)
    ensures h in Hs2Chapters <==> SitcOf(h).Some?
  {
    Hs2ChaptersAreTheTableKeys();
  }

  /** SITC_NAMES has exactly the sections 0..9. */
  lemma SitcNamesCoverAllSections()
    ensures forall s :: s in SitcNames <==> 0 <= s <= 9
  {
  }

  /** Every section HS2_TO_SITC yields has a name, so the name lookup never misses. */
  lemma EverySectionNamed(hs2: int)
    ensures SitcOf(hs2).Some? ==> 0 <= SitcOf(hs2).value <= 9 && SitcOf(hs2).value in SitcNames
  {
  }

  /** Section 4 (animal and vegetable oils) has a name but no HS2 chapter maps to it. */
  lemma NoChapterMapsToOils(hs2: int)
    ensures SitcOf(hs2) != Some(4)
  {
  }

  // ---------------------------------------------------------------------
  // Character classes (ASCII)
  // ---------------------------------------------------------------------

  predicate IsDigit(c: char) { '0' <= c <= '9' }

  function DigitValue(c: char): (d: int)
    requires IsDigit(c)
    ensures 0 <= d <= 9
  {
    c as int - '0' as int
  }

  predicate IsUpperLetter(c: char) { 'A' <= c <= 'Z' }

  predicate IsLowerLetter(c: char) { 'a' <= c <= 'z' }

  /** str.isupper: at least one cased character and no lower-case one. */
  predicate IsUpper(s: string)
    ensures IsUpper(s) ==> s != []
    ensures s != [] && (forall i :: 0 <= i < |s| ==> IsUpperLetter(s[i])) ==> IsUpper(s)
  {
    assert s != [] && IsUpperLetter(s[0]) ==> exists i :: 0 <= i < |s| && IsUpperLetter(s[i]);
    (exists i :: 0 <= i < |s| && IsUpperLetter(s[i]))
    && forall i :: 0 <= i < |s| ==> !IsLowerLetter(s[i])
  }

  /** The characters str.strip() removes: space, tab to carriage return (9..13) and the separators 28..31. */
  predicate IsSpace(c: char)
  {
    c == ' ' || 9 <= c as int <= 13 || 28 <= c as int <= 31
  }

  // ---------------------------------------------------------------------
  // String helpers
  // ---------------------------------------------------------------------

  /** The part before the first space: element 0 of str.split(' ', 1). */
  function FirstToken(s: string): (t: string)
    ensures |t| <= |s| && t == s[..|t|]
    ensures ' ' !in t
    ensures |t| == |s| || s[|t|] == ' '
  {
    if s == [] || s[0] == ' ' then [] else [s[0]] + FirstToken(s[1..])
  }

  /** Leading whitespace removed. */
  function TrimStart(s: string): (r: string)
    ensures |r| <= |s|
    ensures r == [] || !IsSpace(r[0])
  {
    if s != [] && IsSpace(s[0]) then TrimStart(s[1..]) else s
  }

  /** TrimStart keeps a suffix of `s` and drops only whitespace before it. */
  lemma {:induction false} TrimStartDropsSpaces(s: string)
    ensures TrimStart(s) == s[|s| - |TrimStart(s)|..]
    ensures forall k :: 0 <= k < |s| - |TrimStart(s)| ==> IsSpace(s[k])
  {
    if s != [] && IsSpace(s[0]) {
      TrimStartDropsSpaces(s[1..]);
      assert forall k :: 1 <= k < |s| ==> s[k] == s[1..][k - 1];
    }
  }

  /** Trailing whitespace removed. */
  function TrimEnd(s: string): (r: string)
    ensures |r| <= |s|
    ensures r == [] || !IsSpace(r[|r| - 1])
  {
    if s != [] && IsSpace(s[|s| - 1]) then TrimEnd(s[..|s| - 1]) else s
  }

  /** TrimEnd keeps a prefix of `s` and drops only whitespace after it. */
  lemma {:induction false} TrimEndDropsSpaces(s: string)
    ensures TrimEnd(s) == s[..|TrimEnd(s)|]
    ensures forall k :: |TrimEnd(s)| <= k < |s| ==> IsSpace(s[k])
  {
    if s != [] && IsSpace(s[|s| - 1]) {
      TrimEndDropsSpaces(s[..|s| - 1]);
      assert forall k :: 0 <= k < |s| - 1 ==> s[k] == s[..|s| - 1][k];
    }
  }

  /** How many whitespace characters str.strip() removes at the front. */
  function LeadingSpaces(s: string): (n: nat)
    ensures n <= |s| && forall k :: 0 <= k < n ==> IsSpace(s[k])
    ensures n == |s| || !IsSpace(s[n])
  {
    TrimStartDropsSpaces(s);
    assert |TrimStart(s)| > 0 ==> s[|s| - |TrimStart(s)|] == TrimStart(s)[0];
    |s| - |TrimStart(s)|
  }

  /** TrimEnd(TrimStart(s)) is the slice of `s` right after its leading whitespace. */
  lemma TrimBothIsSlice(s: string)
    ensures LeadingSpaces(s) + |TrimEnd(TrimStart(s))| <= |s|
    ensures TrimEnd(TrimStart(s)) == s[LeadingSpaces(s)..LeadingSpaces(s) + |TrimEnd(TrimStart(s))|]
  {
    var t := TrimStart(s);
    var r := TrimEnd(t);
    var i := |s| - |t|;
    TrimStartDropsSpaces(s);
    TrimEndDropsSpaces(t);
    assert r == t[..|r|] == s[i..][..|r|];
    assert s[i..][..|r|] == s[i..i + |r|];
  }

  /** Everything after TrimEnd(TrimStart(s)) in `s` is whitespace. */
  lemma TrimBothDropsTrailing(s: string)
    ensures forall k :: LeadingSpaces(s) + |TrimEnd(TrimStart(s))| <= k < |s| ==> IsSpace(s[k])
  {
    var t := TrimStart(s);
    var r := TrimEnd(t);
    var i := |s| - |t|;
    TrimStartDropsSpaces(s);
    TrimEndDropsSpaces(t);
    forall k | i + |r| <= k < |s|
      ensures IsSpace(s[k])
    {
      assert IsSpace(t[k - i]);
      assert t[k - i] == s[k];
    }
  }

  /** TrimEnd(TrimStart(s)) neither starts nor ends with whitespace. */
  lemma TrimBothEnds(s: string)
    ensures var r := TrimEnd(TrimStart(s)); r == [] || (!IsSpace(r[0]) && !IsSpace(r[|r| - 1]))
  {
    var t := TrimStart(s);
    TrimEndDropsSpaces(t);
    assert TrimEnd(t) != [] ==> TrimEnd(t)[0] == t[0];
  }

  /**
   * str.strip(): the slice of `s` after its leading whitespace that neither
   * starts nor ends with whitespace, with whitespace only after it.
   */
  function Strip(s: string): (r: string)
    ensures r == [] || (!IsSpace(r[0]) && !IsSpace(r[|r| - 1]))
    ensures LeadingSpaces(s) + |r| <= |s|
    ensures r == s[LeadingSpaces(s)..LeadingSpaces(s) + |r|]
    ensures forall k :: LeadingSpaces(s) + |r| <= k < |s| ==> IsSpace(s[k])
  {
    TrimBothEnds(s);
    TrimBothIsSlice(s);
    TrimBothDropsTrailing(s);
    TrimEnd(TrimStart(s))
  }

  /** str.startswith. */
  predicate StartsWith(s: string, prefix: string)
  {
    |prefix| <= |s| && s[..|prefix|] == prefix
  }

  // ---------------------------------------------------------------------
  // extract_country_code_from_name and extract_main_sitc_section
  // ---------------------------------------------------------------------

  /**
   * extract_country_code_from_name: the first space-separated token of an ONS
   * country name when it is two characters long and upper case; a missing
   * name (NaN) yields `None`.
   */
  function ExtractCountryCode(countryName: Option<string>): (r: Option<string>)
    ensures r.Some? <==>
              && countryName.Some? && |countryName.value| >= 2
              && (|countryName.value| == 2 || countryName.value[2] == ' ')
              && ' ' !in countryName.value[..2] && IsUpper(countryName.value[..2])
    ensures r.Some? ==> r.value == countryName.value[..2]
  {
    match countryName
    case None => None
    case Some(name) =>
      var first := FirstToken(name);
      if |first| == 2 && IsUpper(first) then
        Some(first)
      else
        assert |name| >= 2 && (|name| == 2 || name[2] == ' ') && ' ' !in name[..2] ==> first == name[..2];
        None
  }

  /** An ONS country name yields its ISO code. */
  lemma CountryCodeExample()
    ensures ExtractCountryCode(Some("AE United Arab Emirates")) == Some("AE")
  {
    var s := "AE United Arab Emirates";
    assert s[..2] == "AE" && IsUpperLetter(s[0]) && s[2] == ' ';
  }

  /** A totals row or a lower-case token yields no code. */
  lemma CountryCodeRejected()
    ensures ExtractCountryCode(Some("Total")) == None
    ensures ExtractCountryCode(Some("ae United Arab Emirates")) == None
  {
    assert "Total"[2] != ' ';
    assert IsLowerLetter("ae United Arab Emirates"[0]);
  }

  /** A token such as "A1" counts as upper case, so it is accepted as a code. */
  lemma DigitInCountryCodeAccepted()
    ensures ExtractCountryCode(Some("A1 Somewhere")) == Some("A1")
  {
    var s := "A1 Somewhere";
    assert s[..2] == "A1" && IsUpperLetter(s[0]);
  }

  /**
   * extract_main_sitc_section: after stripping, totals rows ("T ...") yield
   * `None`; otherwise the first digit of the leading run of digits is the
   * section, and a name without a leading digit yields `None`.
   */
  function ExtractMainSitcSection(sitcName: Option<string>): (r: Option<int>)
    ensures r.Some? <==> sitcName.Some? && |Strip(sitcName.value)| > 0 && IsDigit(Strip(sitcName.value)[0])
    ensures r.Some? ==> 0 <= r.value <= 9 && r.value == DigitValue(Strip(sitcName.value)[0])
  {
    match sitcName
    case None => None
    case Some(raw) =>
      var nameStr := Strip(raw);
      if StartsWith(nameStr, "T ") || nameStr == "T Total" then
        None
      else if |nameStr| > 0 && IsDigit(nameStr[0]) then
        Some(DigitValue(nameStr[0]))
      else
        None
  }

  /** A sub-category maps to its main section; the totals row is dropped. */
  lemma SitcSectionExamples()
    ensures ExtractMainSitcSection(Some("01 Meat")) == Some(0)
    ensures ExtractMainSitcSection(Some("T Total")) == None
  {
    assert TrimStart("01 Meat") == "01 Meat";
    assert TrimStart("T Total") == "T Total";
  }

  /** Surrounding whitespace is ignored. */
  lemma SitcSectionStripped()
    ensures ExtractMainSitcSection(Some(" 7 Machinery ")) == Some(7)
  {
    var m := " 7 Machinery ";
    assert IsSpace(m[0]) && !IsSpace(m[1..][0]);
    assert TrimStart(m) == TrimStart(m[1..]) == m[1..];
    assert LeadingSpaces(m) == 1;
    var r := Strip(m);
    assert |r| > 0 by {
      assert !IsSpace(m[1]);
    }
    assert r[0] == m[1] == '7';
  }

  // ---------------------------------------------------------------------
  // get_hs2_chapter
  // ---------------------------------------------------------------------

  function DigitChar(d: int): (c: char)
    requires 0 <= d <= 9
    ensures IsDigit(c) && DigitValue(c) == d
  {
    ('0' as int + d) as char
  }

  /** str() of a non-negative integer: its decimal digits, most significant first. */
  function DecimalString(n: nat): (s: string)
    ensures |s| >= 1 && forall i :: 0 <= i < |s| ==> IsDigit(s[i])
    ensures n >= 10 ==> |s| >= 2
    ensures n > 0 ==> s[0] != '0'
  {
    if n < 10 then [DigitChar(n)] else DecimalString(n / 10) + [DigitChar(n % 10)]
  }

  /** int() of a string of decimal digits. */
  function DigitsValue(s: string): (v: nat)
    requires forall i :: 0 <= i < |s| ==> IsDigit(s[i])
    ensures s == [] ==> v == 0
    ensures |s| == 1 ==> v == DigitValue(s[0])
    ensures |s| == 2 ==> v == 10 * DigitValue(s[0]) + DigitValue(s[1])
  {
    if s == [] then 0
    else
      assert |s| == 2 ==> s[..|s| - 1] == [s[0]];
      DigitsValue(s[..|s| - 1]) * 10 + DigitValue(s[|s| - 1])
  }

  /** int(str(n)) == n. */
  lemma {:induction false} DigitsValueOfDecimalString(n: nat)
    ensures DigitsValue(DecimalString(n)) == n
  {
    if n >= 10 {
      var s := DecimalString(n);
      assert s[..|s| - 1] == DecimalString(n / 10);
      DigitsValueOfDecimalString(n / 10);
    }
  }

  /** The leading two decimal digits of n >= 10, computed arithmetically. */
  function LeadingTwoDigits(n: nat): (d: nat)
    requires n >= 10
    ensures 10 <= d <= 99
  {
    if n < 100 then n else LeadingTwoDigits(n / 10)
  }

  /** The first two characters of str(n) read back as a number are n's leading two digits. */
  lemma {:induction false} DecimalPrefixIsLeadingDigits(n: nat)
    requires n >= 10
    ensures DigitsValue(DecimalString(n)[..2]) == LeadingTwoDigits(n)
  {
    if n < 100 {
      assert DecimalString(n)[..2] == DecimalString(n);
      DigitsValueOfDecimalString(n);
    } else {
      assert DecimalString(n)[..2] == DecimalString(n / 10)[..2];
      DecimalPrefixIsLeadingDigits(n / 10);
    }
  }

  /**
   * get_hs2_chapter, on the result of int(): a code below 100 is its own
   * chapter (negative codes included), a larger one gives the first two
   * digits of its decimal form, and a code int() rejects (`None`) gives `None`.
   */
  function Hs2Chapter(code: Option<int>): (r: Option<int>)
    ensures r.Some? <==> code.Some?
    ensures code.Some? && code.value < 100 ==> r == code
    ensures code.Some? && code.value >= 100 ==> 10 <= r.value <= 99 && r.value == LeadingTwoDigits(code.value)
  {
    match code
    case None => None
    case Some(c) =>
      if c < 100 then Some(c)
      else
        DecimalPrefixIsLeadingDigits(c);
        Some(DigitsValue(DecimalString(c)[..2]))
  }

  /** An 8-digit code yields its chapter; a leading zero lost by int() shifts the digits. */
  lemma Hs2ChapterExamples()
    ensures Hs2Chapter(Some(85)) == Some(85)
    ensures Hs2Chapter(Some(84713000)) == Some(84)
    ensures Hs2Chapter(Some(1012100)) == Some(10)
  {
    assert LeadingTwoDigits(84713000) == 84;
    assert LeadingTwoDigits(1012100) == 10;
  }

  // ---------------------------------------------------------------------
  // prepare_hmrc
  // ---------------------------------------------------------------------

  /** One HMRC row: the partner country code (None for NaN) and the commodity code after int(). */
  datatype HmrcRow = HmrcRow(countryCode: Option<string>, commodity: Option<int>, year: int, value: real)

  /** An HMRC row after preparation, with the derived chapter, section and section name. */
  datatype PreparedRow = PreparedRow(
    countryCode: string, commodity: Option<int>, year: int, value: real,
    hs2Chapter: Option<int>, sitcSection: Option<int>, sitcName: Option<string>)

  /** The placeholder partner codes prepare_hmrc removes. */
  const BadCodes: seq<string> := ["YY", "ZZ", "XX", "", "UNK"]

  /** A row survives both filters: its code is present and not a placeholder. */
  predicate ValidCountryCode(code: Option<string>)
    ensures ValidCountryCode(code) <==>
              code.Some? && code.value != "YY" && code.value != "ZZ" && code.value != "XX"
              && code.value != "" && code.value != "UNK"
  {
    code.Some? && code.value !in BadCodes
  }

  /** The rows that survive prepare_hmrc's two filters, in their original order. */
  function KeepValid(rows: seq<HmrcRow>): (kept: seq<HmrcRow>)
    ensures |kept| <= |rows|
  {
    if rows == [] then []
    else if ValidCountryCode(rows[|rows| - 1].countryCode) then KeepValid(rows[..|rows| - 1]) + [rows[|rows| - 1]]
    else KeepValid(rows[..|rows| - 1])
  }

  /**
   * The filter works row by row: the rows kept from two consecutive blocks
   * are the rows kept from each, in order, and a single row is kept exactly
   * when its code is valid. With these, KeepValid is the order- and
   * multiplicity-preserving filter of the boolean mask.
   */
  lemma {:induction false} KeepValidConcat(a: seq<HmrcRow>, b: seq<HmrcRow>)
    ensures KeepValid(a + b) == KeepValid(a) + KeepValid(b)
    ensures KeepValid([]) == []
    ensures forall r :: KeepValid([r]) == (if ValidCountryCode(r.countryCode) then [r] else [])
    decreases |b|
  {
    assert forall r: HmrcRow :: [r][..0] == [];
    if b == [] {
      assert a + b == a;
    } else {
      var b' := b[..|b| - 1];
      KeepValidConcat(a, b');
      assert (a + b)[..|a + b| - 1] == a + b';
      assert (a + b)[|a + b| - 1] == b[|b| - 1];
    }
  }

  /** A row is kept exactly when it is an input row with a valid code. */
  lemma {:induction false} KeepValidMembership(rows: seq<HmrcRow>, row: HmrcRow)
    ensures row in KeepValid(rows) <==> row in rows && ValidCountryCode(row.countryCode)
  {
    if rows != [] {
      KeepValidMembership(rows[..|rows| - 1], row);
      assert rows == rows[..|rows| - 1] + [rows[|rows| - 1]];
    }
  }

  /** The derived columns of one row: chapter, then section, then section name. */
  function Prepare(row: HmrcRow): (p: PreparedRow)
    requires ValidCountryCode(row.countryCode)
    ensures p.countryCode == row.countryCode.value && p.commodity == row.commodity
    ensures p.hs2Chapter == Hs2Chapter(row.commodity)
    ensures p.sitcSection.Some? <==> p.hs2Chapter.Some? && p.hs2Chapter.value in Hs2Chapters
    ensures p.sitcSection.Some? ==> p.sitcSection == SitcOf(p.hs2Chapter.value)
    ensures p.sitcName.Some? <==> p.sitcSection.Some?
    ensures p.sitcName.Some? ==> p.sitcName.value == SitcNames[p.sitcSection.value]
    ensures p.year == row.year && p.value == row.value
  {
    var chapter := Hs2Chapter(row.commodity);
    assert chapter.Some? ==> (chapter.value in Hs2Chapters <==> SitcOf(chapter.value).Some?) by {
      if chapter.Some? {
        ChapterIsKey(chapter.value);
      }
    }
    var section := if chapter.Some? then SitcOf(chapter.value) else None;
    assert section.Some? ==> section.value in SitcNames by {
      if chapter.Some? {
        EverySectionNamed(chapter.value);
      }
    }
    PreparedRow(row.countryCode.value, row.commodity, row.year, row.value,
                chapter, section, SitcNameOf(section))
  }

  /**
   * prepare_hmrc: drop the rows whose partner code is a placeholder, then
   * those whose code is missing, then derive chapter, section and name.
   */
  method PrepareHmrc(hmrc: seq<HmrcRow>) returns (prepared: seq<PreparedRow>)
    ensures |prepared| == |KeepValid(hmrc)|
    ensures forall i :: 0 <= i < |prepared| ==>
              ValidCountryCode(KeepValid(hmrc)[i].countryCode) && prepared[i] == Prepare(KeepValid(hmrc)[i])
    ensures forall i :: 0 <= i < |prepared| ==> prepared[i].countryCode !in BadCodes
  {
    var kept: seq<HmrcRow> := [];
    for i := 0 to |hmrc|
      invariant kept == KeepValid(hmrc[..i])
      invariant forall j :: 0 <= j < |kept| ==> ValidCountryCode(kept[j].countryCode)
    {
      assert hmrc[..i + 1][..i] == hmrc[..i];
      if ValidCountryCode(hmrc[i].countryCode) {
        kept := kept + [hmrc[i]];
      }
    }
    assert hmrc[..|hmrc|] == hmrc;
    prepared := [];
    for i := 0 to |kept|
      invariant |prepared| == i
      invariant forall j :: 0 <= j < i ==> prepared[j] == Prepare(kept[j])
    {
      prepared := prepared + [Prepare(kept[i])];
    }
  }

  // ---------------------------------------------------------------------
  // create_hs2_coverage_from_sitc
  // ---------------------------------------------------------------------

  /** One row of the SITC coverage table. */
  datatype SitcCoverageRow = SitcCoverageRow(sitcSection: int, sitcName: string, yearsWithData: int, coveragePct: real)

  /** One output row: an HS2 chapter with the coverage of its SITC section. */
  datatype Hs2CoverageRow = Hs2CoverageRow(
    commodity: int, hs2Chapter: int, sitcSection: int, sitcCategory: string,
    totalYears: int, onsCoveredYears: int, onsCoveragePct: real, coverageClass: string)

  /**
   * The classifier inlined in create_hs2_coverage_from_sitc: at least 80 is
   * High, at least 50 Partial, above 0 Low, anything else No coverage.
   */
  function ClassifySitcCoverage(pct: real): (c: Coverage)
    ensures c == HighCoverage <==> 80.0 <= pct
    ensures c == PartialCoverage <==> 50.0 <= pct < 80.0
    ensures c == LowCoverage <==> 0.0 < pct < 50.0
    ensures c == NoCoverage <==> pct <= 0.0
  {
    if pct >= 80.0 then HighCoverage
    else if pct >= 50.0 then PartialCoverage
    else if pct > 0.0 then LowCoverage
    else NoCoverage
  }

  /** More coverage never gives a lower class. */
  lemma ClassifySitcCoverageMonotone(p1: real, p2: real)
    requires p1 <= p2
    ensures Rank(ClassifySitcCoverage(p1)) <= Rank(ClassifySitcCoverage(p2))
  {
  }

  /** The two classifiers disagree: at 45%, at 80% and on negative percentages. */
  lemma ClassifiersDisagree()
    ensures ClassifySitcCoverage(45.0) == LowCoverage && ClassifyCoverage(45.0) == PartialCoverage
    ensures ClassifySitcCoverage(80.0) == HighCoverage && ClassifyCoverage(80.0) == PartialCoverage
    ensures ClassifySitcCoverage(-1.0) == NoCoverage && ClassifyCoverage(-1.0) == LowCoverage
  {
  }

  /** They agree at 0%, the value the missing-section default uses. */
  lemma ClassifiersAgreeOnZero()
    ensures ClassifySitcCoverage(0.0) == ClassifyCoverage(0.0) == NoCoverage
  {
  }

  /** The column sitc_coverage is searched on. */
  function SectionKey(r: SitcCoverageRow): int
  {
    r.sitcSection
  }

  /**
   * The output row of one chapter: its section's first coverage row, or, when
   * the section has no row, coverage 0, no covered years and the section's
   * name from SITC_NAMES ("Unknown" without one).
   */
  function ChapterCoverage(table: seq<SitcCoverageRow>, totalYears: int, hs2: int, section: int): (row: Hs2CoverageRow)
    ensures row.commodity == hs2 && row.hs2Chapter == hs2 && row.sitcSection == section
    ensures row.totalYears == totalYears
    ensures row.coverageClass == Label(ClassifySitcCoverage(row.onsCoveragePct))
    ensures FirstWhere(table, SectionKey, section).None? ==>
              && row.onsCoveragePct == 0.0 && row.onsCoveredYears == 0
              && row.coverageClass == "No coverage"
              && row.sitcCategory == (if section in SitcNames then SitcNames[section] else "Unknown")
    ensures FirstWhere(table, SectionKey, section).Some? ==>
              var found := FirstWhere(table, SectionKey, section).value;
              && row.onsCoveragePct == found.coveragePct
              && row.onsCoveredYears == found.yearsWithData
              && row.sitcCategory == found.sitcName
  {
    var sitcRow := FirstWhere(table, SectionKey, section);
    var coveragePct := if sitcRow.Some? then sitcRow.value.coveragePct else 0.0;
    var sitcName := if sitcRow.Some? then sitcRow.value.sitcName
                    else if section in SitcNames then SitcNames[section] else "Unknown";
    var yearsCovered := if sitcRow.Some? then sitcRow.value.yearsWithData else 0;
    Hs2CoverageRow(hs2, hs2, section, sitcName, totalYears, yearsCovered, coveragePct,
                   Label(ClassifySitcCoverage(coveragePct)))
  }

  /** The rows of the first |rows| table keys, in order. */
  predicate CoverageRowsUpTo(rows: seq<Hs2CoverageRow>, table: seq<SitcCoverageRow>, totalYears: int)
  {
    && |rows| <= |Hs2Chapters|
    && forall j :: 0 <= j < |rows| ==>
         SitcOf(Hs2Chapters[j]).Some?
         && rows[j] == ChapterCoverage(table, totalYears, Hs2Chapters[j], SitcOf(Hs2Chapters[j]).value)
  }

  /** Appending the next key's row keeps the rows those of the leading keys. */
  lemma CoverageRowsExtend(rows: seq<Hs2CoverageRow>, table: seq<SitcCoverageRow>, totalYears: int,
                           next: Hs2CoverageRow)
    requires CoverageRowsUpTo(rows, table, totalYears) && |rows| < |Hs2Chapters|
    requires SitcOf(Hs2Chapters[|rows|]).Some?
    requires next == ChapterCoverage(table, totalYears, Hs2Chapters[|rows|], SitcOf(Hs2Chapters[|rows|]).value)
    ensures CoverageRowsUpTo(rows + [next], table, totalYears)
  {
    var ext := rows + [next];
    forall j | 0 <= j < |ext|
      ensures SitcOf(Hs2Chapters[j]).Some?
              && ext[j] == ChapterCoverage(table, totalYears, Hs2Chapters[j], SitcOf(Hs2Chapters[j]).value)
    {
      if j < |rows| {
        assert ext[j] == rows[j];
      } else {
        assert ext[j] == next;
      }
    }
  }

  /**
   * create_hs2_coverage_from_sitc: one row per HS2_TO_SITC entry, in the
   * table's order, each inheriting its section's coverage.
   */
  method CreateHs2CoverageFromSitc(sitcCoverage: seq<SitcCoverageRow>, totalYears: int)
    returns (hs2Coverage: seq<Hs2CoverageRow>)
    ensures |hs2Coverage| == |Hs2Chapters|
    ensures forall i :: 0 <= i < |hs2Coverage| ==>
              SitcOf(Hs2Chapters[i]).Some?
              && hs2Coverage[i] == ChapterCoverage(sitcCoverage, totalYears, Hs2Chapters[i], SitcOf(Hs2Chapters[i]).value)
    ensures forall i, j :: 0 <= i < j < |hs2Coverage| ==> hs2Coverage[i].commodity < hs2Coverage[j].commodity
  {
    hs2Coverage := [];
    for i := 0 to |Hs2Chapters|
      invariant |hs2Coverage| == i
      invariant CoverageRowsUpTo(hs2Coverage, sitcCoverage, totalYears)
    {
      var hs2 := Hs2Chapters[i];
      Hs2ChapterAt(i);
      var sitcSection := SitcOf(hs2).value;
      var sitcRow := FirstWhere(sitcCoverage, SectionKey, sitcSection);
      var coveragePct: real, sitcName: string, yearsCovered: int;
      if sitcRow.Some? {
        coveragePct := sitcRow.value.coveragePct;
        sitcName := sitcRow.value.sitcName;
        yearsCovered := sitcRow.value.yearsWithData;
      } else {
        coveragePct := 0.0;
        sitcName := if sitcSection in SitcNames then SitcNames[sitcSection] else "Unknown";
        yearsCovered := 0;
      }
      var coverageClass: string;
      if coveragePct >= 80.0 {
        coverageClass := "High coverage";
      } else if coveragePct >= 50.0 {
        coverageClass := "Partial coverage";
      } else if coveragePct > 0.0 {
        coverageClass := "Low coverage";
      } else {
        coverageClass := "No coverage";
      }
      var next := Hs2CoverageRow(hs2, hs2, sitcSection, sitcName, totalYears,
                                 yearsCovered, coveragePct, coverageClass);
      assert next == ChapterCoverage(sitcCoverage, totalYears, hs2, sitcSection);
      CoverageRowsExtend(hs2Coverage, sitcCoverage, totalYears, next);
      hs2Coverage := hs2Coverage + [next];
    }
    Hs2CoverageSorted(hs2Coverage);
  }

  /**
   * The rows of create_hs2_coverage_from_sitc are already in strictly
   * ascending commodity order, so the final sort by commodity keeps them as
   * they are, and each chapter appears once.
   */
  lemma Hs2CoverageSorted(rows: seq<Hs2CoverageRow>)
    requires |rows| == |Hs2Chapters|
    requires forall i :: 0 <= i < |rows| ==> rows[i].commodity == Hs2Chapters[i]
    ensures forall i, j :: 0 <= i < j < |rows| ==> rows[i].commodity < rows[j].commodity
    ensures forall h :: (exists i :: 0 <= i < |rows| && rows[i].commodity == h) <==> SitcOf(h).Some?
  {
    Hs2ChaptersAreTheTableKeys();
    forall h | SitcOf(h).Some?
      ensures exists i :: 0 <= i < |rows| && rows[i].commodity == h
    {
      var i :| 0 <= i < |Hs2Chapters| && Hs2Chapters[i] == h;
      assert rows[i].commodity == h;
    }
  }
}
