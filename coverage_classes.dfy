/**
 * The four ONS data-coverage classes and the percentage classifier of
 * scripts/classify_ons_coverage_by_commodity.py.
 */
module CoverageClasses {
  import opened Optional

  /** Ordered NoCoverage < LowCoverage < PartialCoverage < HighCoverage (see Rank). */
  datatype Coverage = NoCoverage | LowCoverage | PartialCoverage | HighCoverage

  /** Position of a class on the coverage order. */
  function Rank(c: Coverage): nat
  {
    match c
    case NoCoverage => 0
    case LowCoverage => 1
    case PartialCoverage => 2
    case HighCoverage => 3
  }

  /** The text the pipeline writes into its `coverage_class` column. */
  function Label(c: Coverage): string
  {
    match c
    case NoCoverage => "No coverage"
    case LowCoverage => "Low coverage"
    case PartialCoverage => "Partial coverage"
    case HighCoverage => "High coverage"
  }

  /**
   * Recognising a coverage label, as the dictionary lookups keyed by the four
   * labels do; any other text (or a missing value) is `None`.
   */
  function Parse(s: string): (r: Option<Coverage>)
    ensures r.Some? ==> Label(r.value) == s
    ensures r.None? ==> forall c :: Label(c) != s
  {
    if s == "No coverage" then Some(NoCoverage)
    else if s == "Low coverage" then Some(LowCoverage)
    else if s == "Partial coverage" then Some(PartialCoverage)
    else if s == "High coverage" then Some(HighCoverage)
    else None
  }

  /** Every class's label is recognised as that class. */
  lemma ParseLabel(c: Coverage)
    ensures Parse(Label(c)) == Some(c)
  {
  }

  /**
   * classify_coverage: 0 is No coverage, anything else up to 40 (negative
   * values included) is Low, up to 80 Partial, above 80 High.
   */
  function ClassifyCoverage(pct: real): (c: Coverage)
    ensures c == NoCoverage <==> pct == 0.0
    ensures c == LowCoverage <==> pct != 0.0 && pct <= 40.0
    ensures c == PartialCoverage <==> 40.0 < pct <= 80.0
    ensures c == HighCoverage <==> 80.0 < pct
  {
    if pct == 0.0 then NoCoverage
    else if pct <= 40.0 then LowCoverage
    else if pct <= 80.0 then PartialCoverage
    else HighCoverage
  }

  /** On non-negative percentages, more coverage never gives a lower class. */
  lemma ClassifyCoverageMonotone(p1: real, p2: real)
    requires 0.0 <= p1 <= p2
    ensures Rank(ClassifyCoverage(p1)) <= Rank(ClassifyCoverage(p2))
  {
  }

  /** Below zero the order breaks: -1 is classed above 0. */
  lemma ClassifyCoverageNegativeNotMonotone()
    ensures Rank(ClassifyCoverage(-1.0)) > Rank(ClassifyCoverage(0.0))
  {
  }
}
