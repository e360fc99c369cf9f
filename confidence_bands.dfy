/** The coverage-driven uncertainty multiplier and band of scripts/confidence_band.py. */
module ConfidenceBands {
  import opened Optional
  import opened CoverageClasses

  /**
   * confidence_multiplier: 0.40, 0.25, 0.15 and 0.05 for No, Low, Partial and
   * High coverage, and 0.30 for anything else.
   */
  function ConfidenceMultiplier(coverage: Option<Coverage>): (m: real)
    ensures 0.05 <= m <= 0.40
    ensures coverage == Some(NoCoverage) ==> m == 0.40
    ensures coverage == Some(LowCoverage) ==> m == 0.25
    ensures coverage == Some(PartialCoverage) ==> m == 0.15
    ensures coverage == Some(HighCoverage) ==> m == 0.05
    ensures coverage.None? ==> m == 0.30
  {
    match coverage
    case Some(NoCoverage) => 0.40
    case Some(LowCoverage) => 0.25
    case Some(PartialCoverage) => 0.15
    case Some(HighCoverage) => 0.05
    case None => 0.30
  }

  /** Better coverage gives a strictly narrower multiplier. */
  lemma MultiplierStrictlyDecreasing(c1: Coverage, c2: Coverage)
    requires Rank(c1) < Rank(c2)
    ensures ConfidenceMultiplier(Some(c2)) < ConfidenceMultiplier(Some(c1))
  {
  }

  /** The fallback is wider than every recognised class except No coverage. */
  lemma FallbackIsPessimistic(c: Coverage)
    requires c != NoCoverage
    ensures ConfidenceMultiplier(Some(c)) < ConfidenceMultiplier(None)
    ensures ConfidenceMultiplier(None) < ConfidenceMultiplier(Some(NoCoverage))
  {
  }

  /**
   * compute_confidence_band: the multiplier scales the signed profit, so the
   * two bounds average to the profit and lie on either side of it, in the
   * order given by the profit's sign.
   */
  function ComputeConfidenceBand(profit: real, coverage: Option<Coverage>): (band: (real, real))
    ensures band.0 == profit * (1.0 - ConfidenceMultiplier(coverage))
    ensures band.1 == profit * (1.0 + ConfidenceMultiplier(coverage))
    ensures band.0 + band.1 == 2.0 * profit
    ensures 0.0 <= profit ==> band.0 <= profit <= band.1
    ensures profit < 0.0 ==> band.1 <= profit <= band.0
  {
    var m := ConfidenceMultiplier(coverage);
    (profit * (1.0 - m), profit * (1.0 + m))
  }

  /** Profit 100000 with High coverage gives the band (95000, 105000). */
  lemma BandExample()
    ensures ComputeConfidenceBand(100000.0, Parse("High coverage")) == (95000.0, 105000.0)
  {
  }
}
