/** The coverage-based risk escalation of scripts/risk_adjuster.py. */
module RiskAdjuster {
  import opened Optional
  import opened CoverageClasses
  import opened RiskTiers

  /** "No coverage" and "Low coverage" are the classes that escalate risk. */
  predicate PoorCoverage(coverage: Option<Coverage>)
    ensures PoorCoverage(coverage) <==> coverage.Some? && Rank(coverage.value) <= Rank(LowCoverage)
  {
    coverage == Some(NoCoverage) || coverage == Some(LowCoverage)
  }

  /**
   * adjust_risk on a recognised margin tier: poor coverage raises the tier by
   * one step (HIGH is already the top), anything else, an unrecognised class
   * included, leaves it alone.
   */
  function AdjustRisk(marginRisk: RiskTier, coverage: Option<Coverage>): (r: RiskTier)
    ensures Severity(marginRisk) <= Severity(r) <= Severity(marginRisk) + 1
    ensures r != marginRisk <==> marginRisk != High && PoorCoverage(coverage)
    ensures marginRisk == High ==> r == High
    ensures marginRisk == Moderate ==> (r == High <==> PoorCoverage(coverage))
    ensures marginRisk == Low ==> (r == Moderate <==> PoorCoverage(coverage))
  {
    match marginRisk
    case High => High
    case Moderate => if PoorCoverage(coverage) then High else Moderate
    case Low => if PoorCoverage(coverage) then Moderate else Low
  }

  /**
   * adjust_risk as written, on the two strings it receives: the three tier
   * names are adjusted by AdjustRisk; any other `margin_risk` text comes back
   * unchanged.
   */
  function AdjustRiskLabel(marginRisk: string, coverageClass: string): (r: string)
    ensures ParseTier(marginRisk).None? ==> r == marginRisk
    ensures ParseTier(marginRisk).Some? ==>
              r == Name(AdjustRisk(ParseTier(marginRisk).value, Parse(coverageClass)))
  {
    if marginRisk == "HIGH" then "HIGH"
    else if marginRisk == "MODERATE" then
      (if coverageClass == "No coverage" || coverageClass == "Low coverage" then "HIGH" else "MODERATE")
    else if marginRisk == "LOW" then
      (if coverageClass == "No coverage" || coverageClass == "Low coverage" then "MODERATE" else "LOW")
    else marginRisk
  }

  /** A riskier margin tier stays at least as risky after adjustment. */
  lemma AdjustRiskMonotone(t1: RiskTier, t2: RiskTier, coverage: Option<Coverage>)
    requires Severity(t1) <= Severity(t2)
    ensures Severity(AdjustRisk(t1, coverage)) <= Severity(AdjustRisk(t2, coverage))
  {
  }

  /** Better coverage never gives a riskier adjusted tier. */
  lemma AdjustRiskAntitoneInCoverage(t: RiskTier, c1: Coverage, c2: Coverage)
    requires Rank(c1) <= Rank(c2)
    ensures Severity(AdjustRisk(t, Some(c2))) <= Severity(AdjustRisk(t, Some(c1)))
  {
  }
}
