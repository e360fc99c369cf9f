/** The margin-only risk classifier of scripts/risk_label.py. */
module RiskTiers {
  import opened Optional

  /** Ordered Low < Moderate < High (see Severity). */
  datatype RiskTier = Low | Moderate | High

  /** Position of a tier on the risk order. */
  function Severity(t: RiskTier): nat
  {
    match t
    case Low => 0
    case Moderate => 1
    case High => 2
  }

  /** The text the source uses for a tier. */
  function Name(t: RiskTier): string
  {
    match t
    case Low => "LOW"
    case Moderate => "MODERATE"
    case High => "HIGH"
  }

  /** Recognising a tier name; any other text is `None`. */
  function ParseTier(s: string): (r: Option<RiskTier>)
    ensures r.Some? ==> Name(r.value) == s
    ensures r.None? ==> forall t :: Name(t) != s
  {
    if s == "HIGH" then Some(High)
    else if s == "MODERATE" then Some(Moderate)
    else if s == "LOW" then Some(Low)
    else None
  }

  /**
   * risk_label: no margin, or a margin under 5%, is HIGH; 5% up to (not
   * including) 10% is MODERATE; 10% and above is LOW.
   */
  function RiskLabel(marginPct: Option<real>): (t: RiskTier)
    ensures t == High <==> marginPct.None? || marginPct.value < 5.0
    ensures t == Moderate <==> marginPct.Some? && 5.0 <= marginPct.value < 10.0
    ensures t == Low <==> marginPct.Some? && 10.0 <= marginPct.value
  {
    if marginPct.None? || marginPct.value < 5.0 then High
    else if marginPct.value < 10.0 then Moderate
    else Low
  }

  /** A larger margin is never riskier. */
  lemma RiskLabelAntitone(m1: real, m2: real)
    requires m1 <= m2
    ensures Severity(RiskLabel(Some(m2))) <= Severity(RiskLabel(Some(m1)))
  {
  }

  /** A missing margin is as risky as any margin can be. */
  lemma MissingMarginIsWorst(m: real)
    ensures Severity(RiskLabel(Some(m))) <= Severity(RiskLabel(None))
  {
  }
}
