/**
 * The decision logic of app.py: the commodity coverage lookup, the risk
 * pipeline applied to the base scenario, and the confidence-band columns
 * added to the scenario grid.
 */
module Dashboard {
  import opened Optional
  import opened Lookup
  import opened CoverageClasses
  import opened RiskTiers
  import opened RiskAdjuster
  import opened ConfidenceBands
  import opened MarginModel
  import opened ScenarioRunner

  // ---------------------------------------------------------------------
  // get_commodity_info
  // ---------------------------------------------------------------------

  /**
   * One row of the coverage table the dashboard loads. A field is `None`
   * when the table has no such column.
   */
  datatype CoverageRecord = CoverageRecord(
    commodity: int,
    sitcCategory: Option<string>,
    coverageClass: Option<string>,
    onsCoveragePct: Option<real>,
    totalYears: Option<int>,
    onsCoveredYears: Option<int>)

  /** What the sidebar shows for the selected commodity. */
  datatype CommodityInfo = CommodityInfo(
    description: string,
    sitcCategory: string,
    coverageClass: string,
    coveragePct: real,
    totalYears: int,
    coveredYears: int)

  /** Series.get(column, default): the column's value, or the default when the column is absent. */
  function GetOr<T>(field: Option<T>, default: T): (v: T)
    ensures field.Some? ==> v == field.value
    ensures field.None? ==> v == default
  {
    if field.Some? then field.value else default
  }

  /** The column coverage_df is searched on. */
  function CommodityKey(r: CoverageRecord): int
  {
    r.commodity
  }

  /**
   * get_commodity_info: the commodity's description (HS2_DESCRIPTIONS, here
   * the `descriptions` map, "Unknown" without an entry) and the coverage of
   * its first record. Absent columns take their defaults; a commodity with no
   * record gets "Unknown", "No coverage", 0% and 0 of 0 years.
   */
  function GetCommodityInfo(hsCode: int, coverage: seq<CoverageRecord>, descriptions: map<int, string>): (info: CommodityInfo)
    ensures info.description == if hsCode in descriptions then descriptions[hsCode] else "Unknown"
    ensures FirstWhere(coverage, CommodityKey, hsCode).None? ==>
              && info.sitcCategory == "Unknown" && info.coverageClass == "No coverage"
              && info.coveragePct == 0.0 && info.totalYears == 0 && info.coveredYears == 0
    ensures FirstWhere(coverage, CommodityKey, hsCode).Some? ==>
              var rec := FirstWhere(coverage, CommodityKey, hsCode).value;
              && rec.commodity == hsCode
              && info.sitcCategory == GetOr(rec.sitcCategory, "Unknown")
              && info.coverageClass == GetOr(rec.coverageClass, "No coverage")
              && info.coveragePct == GetOr(rec.onsCoveragePct, 0.0)
              && info.totalYears == GetOr(rec.totalYears, 0)
              && info.coveredYears == GetOr(rec.onsCoveredYears, 0)
  {
    var description := if hsCode in descriptions then descriptions[hsCode] else "Unknown";
    match FirstWhere(coverage, CommodityKey, hsCode)
    case Some(row) =>
      CommodityInfo(description,
                    GetOr(row.sitcCategory, "Unknown"),
                    GetOr(row.coverageClass, "No coverage"),
                    GetOr(row.onsCoveragePct, 0.0),
                    GetOr(row.totalYears, 0),
                    GetOr(row.onsCoveredYears, 0))
    case None =>
      CommodityInfo(description, "Unknown", "No coverage", 0.0, 0, 0)
  }

  /** Without a record the coverage class is one the risk pipeline treats as poor. */
  lemma MissingCommodityIsPoorlyCovered(hsCode: int, coverage: seq<CoverageRecord>, descriptions: map<int, string>)
    requires forall i :: 0 <= i < |coverage| ==> coverage[i].commodity != hsCode
    ensures Parse(GetCommodityInfo(hsCode, coverage, descriptions).coverageClass) == Some(NoCoverage)
    ensures PoorCoverage(Parse(GetCommodityInfo(hsCode, coverage, descriptions).coverageClass))
  {
  }

  // ---------------------------------------------------------------------
  // The risk pipeline on the base scenario
  // ---------------------------------------------------------------------

  /** The margin shown and classified: a missing margin (revenue <= 0) becomes 0.0. */
  function DisplayMargin(marginPct: Option<real>): (m: real)
    ensures marginPct.Some? ==> m == marginPct.value
    ensures marginPct.None? ==> m == 0.0
  {
    if marginPct.Some? then marginPct.value else 0.0
  }

  /** The coercion never changes the tier: a missing margin and 0.0 are both HIGH risk. */
  lemma DisplayMarginKeepsTier(marginPct: Option<real>)
    ensures RiskLabel(Some(DisplayMargin(marginPct))) == RiskLabel(marginPct)
    ensures marginPct.None? ==> RiskLabel(Some(DisplayMargin(marginPct))) == High
  {
  }

  /** The three results of the risk assessment, as the dashboard holds them. */
  datatype RiskAssessment = RiskAssessment(baseRisk: string, finalRisk: string, uncertainty: real)

  /**
   * The dashboard's risk pipeline: risk_label on the coerced margin, then
   * adjust_risk with the commodity's coverage class, and the uncertainty
   * fraction of that class. The textual pipeline agrees with the typed one
   * and can only raise the risk.
   */
  function AssessRisk(base: ScenarioResult, coverageClass: string): (a: RiskAssessment)
    ensures a.baseRisk == Name(RiskLabel(base.marginPct))
    ensures a.finalRisk == Name(AdjustRisk(RiskLabel(base.marginPct), Parse(coverageClass)))
    ensures Severity(RiskLabel(base.marginPct)) <= Severity(AdjustRisk(RiskLabel(base.marginPct), Parse(coverageClass)))
    ensures base.marginPct.None? ==> a.finalRisk == "HIGH"
    ensures a.uncertainty == ConfidenceMultiplier(Parse(coverageClass))
    ensures 0.05 <= a.uncertainty <= 0.40
  {
    var marginPct := DisplayMargin(base.marginPct);
    var baseRisk := Name(RiskLabel(Some(marginPct)));
    DisplayMarginKeepsTier(base.marginPct);
    var finalRisk := AdjustRiskLabel(baseRisk, coverageClass);
    assert ParseTier(baseRisk) == Some(RiskLabel(base.marginPct));
    RiskAssessment(baseRisk, finalRisk, ConfidenceMultiplier(Parse(coverageClass)))
  }

  /**
   * A scenario without a margin stays HIGH risk even with high coverage; the
   * worked example's 20% margin is LOW risk, raised to MODERATE by low coverage.
   */
  lemma AssessRiskExamples(costs: CostBreakdown)
    ensures AssessRisk(ScenarioResult(costs, None), "High coverage") == RiskAssessment("HIGH", "HIGH", 0.05)
    ensures AssessRisk(ScenarioResult(costs, Some(20.0)), "Low coverage") == RiskAssessment("LOW", "MODERATE", 0.25)
  {
  }

  // ---------------------------------------------------------------------
  // The confidence-band columns of the scenario grid
  // ---------------------------------------------------------------------

  function Abs(x: real): (a: real)
    ensures a >= 0.0 && (a == x || a == -x)
  {
    if x >= 0.0 then x else -x
  }

  /** value - |value| * u. */
  function BandLower(x: real, u: real): (l: real)
    ensures 0.0 <= u ==> l <= x
    ensures u == 0.0 ==> l == x
  {
    assert 0.0 <= u ==> Abs(x) * u >= 0.0;
    x - Abs(x) * u
  }

  /** value + |value| * u. */
  function BandUpper(x: real, u: real): (h: real)
    ensures 0.0 <= u ==> x <= h
    ensures u == 0.0 ==> h == x
  {
    assert 0.0 <= u ==> Abs(x) * u >= 0.0;
    x + Abs(x) * u
  }

  /**
   * The grid band brackets the value whatever its sign, is symmetric about
   * it, and is 2 |value| u wide.
   */
  lemma GridBandBrackets(x: real, u: real)
    requires 0.0 <= u
    ensures BandLower(x, u) <= x <= BandUpper(x, u)
    ensures BandUpper(x, u) - x == x - BandLower(x, u) == Abs(x) * u
    ensures BandUpper(x, u) - BandLower(x, u) == 2.0 * Abs(x) * u
  {
    assert Abs(x) * u >= 0.0;
  }

  /**
   * The grid band is compute_confidence_band's signed band put in order: the
   * same pair for a profit of at least 0, the pair swapped for a loss.
   */
  lemma GridBandIsOrderedSignedBand(profit: real, coverage: Option<Coverage>)
    ensures profit >= 0.0 ==>
              (BandLower(profit, ConfidenceMultiplier(coverage)), BandUpper(profit, ConfidenceMultiplier(coverage)))
              == ComputeConfidenceBand(profit, coverage)
    ensures profit < 0.0 ==>
              (BandUpper(profit, ConfidenceMultiplier(coverage)), BandLower(profit, ConfidenceMultiplier(coverage)))
              == ComputeConfidenceBand(profit, coverage)
  {
    var m := ConfidenceMultiplier(coverage);
    assert profit * (1.0 - m) == profit - profit * m;
    assert profit * (1.0 + m) == profit + profit * m;
    assert profit < 0.0 ==> Abs(profit) * m == -(profit * m);
  }

  /**
   * The margin bands: margin -/+ |margin| u. The `None` case stands for a
   * margin compute_margin leaves as None (revenue <= 0); the model gives no
   * band there, and the data-frame arithmetic of app.py on such a column is
   * not covered.
   */
  function MarginBand(marginPct: Option<real>, u: real, upper: bool): (b: Option<real>)
    ensures b.Some? <==> marginPct.Some?
    ensures b.Some? && upper ==> b.value == BandUpper(marginPct.value, u)
    ensures b.Some? && !upper ==> b.value == BandLower(marginPct.value, u)
  {
    if marginPct.None? then None
    else if upper then Some(BandUpper(marginPct.value, u))
    else Some(BandLower(marginPct.value, u))
  }

  /** The scenario data frame: the grid rows and the four band columns added to it. */
  class ScenarioFrame {
    var rows: seq<ScenarioRow>
    var profitLower: seq<real>
    var profitUpper: seq<real>
    var marginLower: seq<Option<real>>
    var marginUpper: seq<Option<real>>

    /** Every band column has one entry per row and brackets that row's value. */
    predicate BandsEnclose()
      reads this
    {
      && |profitLower| == |profitUpper| == |marginLower| == |marginUpper| == |rows|
      && (forall i :: 0 <= i < |rows| ==> profitLower[i] <= rows[i].profit <= profitUpper[i])
      && (forall i :: 0 <= i < |rows| ==>
            (marginLower[i].Some? <==> rows[i].marginPct.Some?)
            && (marginUpper[i].Some? <==> rows[i].marginPct.Some?))
      && (forall i :: 0 <= i < |rows| && rows[i].marginPct.Some? ==>
            marginLower[i].value <= rows[i].marginPct.value <= marginUpper[i].value)
    }

    /** The frame run_sensitivity_scenarios returns: rows only, no band columns yet. */
    constructor (rows: seq<ScenarioRow>)
      ensures this.rows == rows
      ensures profitLower == [] && profitUpper == [] && marginLower == [] && marginUpper == []
    {
      this.rows := rows;
      profitLower := [];
      profitUpper := [];
      marginLower := [];
      marginUpper := [];
    }

    /**
     * The four column assignments: profit and margin each widened by
     * |value| * uncertainty on both sides. The rows stay as they were.
     */
    method AddConfidenceBands(uncertainty: real)
      modifies this
      ensures rows == old(rows)
      ensures |profitLower| == |profitUpper| == |marginLower| == |marginUpper| == |rows|
      ensures forall i :: 0 <= i < |rows| ==>
                && profitLower[i] == BandLower(rows[i].profit, uncertainty)
                && profitUpper[i] == BandUpper(rows[i].profit, uncertainty)
                && marginLower[i] == MarginBand(rows[i].marginPct, uncertainty, false)
                && marginUpper[i] == MarginBand(rows[i].marginPct, uncertainty, true)
      ensures 0.0 <= uncertainty ==> BandsEnclose()
    {
      var df := rows;
      profitLower := seq(|df|, i requires 0 <= i < |df| => BandLower(df[i].profit, uncertainty));
      profitUpper := seq(|df|, i requires 0 <= i < |df| => BandUpper(df[i].profit, uncertainty));
      marginLower := seq(|df|, i requires 0 <= i < |df| => MarginBand(df[i].marginPct, uncertainty, false));
      marginUpper := seq(|df|, i requires 0 <= i < |df| => MarginBand(df[i].marginPct, uncertainty, true));
      if 0.0 <= uncertainty {
        forall i | 0 <= i < |df|
          ensures profitLower[i] <= df[i].profit <= profitUpper[i]
          ensures df[i].marginPct.Some? ==> marginLower[i].value <= df[i].marginPct.value <= marginUpper[i].value
        {
          GridBandBrackets(df[i].profit, uncertainty);
          if df[i].marginPct.Some? {
            GridBandBrackets(df[i].marginPct.value, uncertainty);
          }
        }
      }
    }
  }
}
