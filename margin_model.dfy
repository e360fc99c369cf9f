/** The landed-cost and margin calculation of scripts/margin_model.py. */
module MarginModel {
  import opened Optional

  /** The six monetary values compute_margin returns, before rounding. */
  datatype CostBreakdown = CostBreakdown(
    goodsCost: real,
    shippingCost: real,
    insuranceCost: real,
    tariffCost: real,
    landedCost: real,
    profit: real)

  /** Everything compute_margin returns: the costs and the optional margin. */
  datatype ScenarioResult = ScenarioResult(costs: CostBreakdown, marginPct: Option<real>)

  /** Landed cost is never allowed above this multiple of the import value. */
  const MaxCostMultiplier: real := 2.0

  function Min(a: real, b: real): real { if a <= b then a else b }
  function Max(a: real, b: real): real { if a >= b then a else b }

  /** The landed cost before the safety cap: goods plus the three cost lines. */
  function CostLines(c: CostBreakdown): real
  {
    c.goodsCost + c.shippingCost + c.insuranceCost + c.tariffCost
  }

  /** compute_margin's goods cost: the import value after the FX shock. */
  function GoodsCost(importValue: real, fxShockPct: real): (g: real)
    ensures fxShockPct == 0.0 ==> g == importValue
    ensures fxShockPct == -1.0 ==> g == 0.0
  {
    importValue * (1.0 + fxShockPct)
  }

  /**
   * The cost part of compute_margin, from the FX-adjusted goods cost.
   * Shipping, insurance and tariff are fractions of the goods cost; landed
   * cost is the sum of the four, capped at twice the import value; profit is
   * revenue less landed cost, floored at losing the whole import value.
   */
  function CostsFromGoods(importValue: real, revenue: real, goodsCost: real, shippingPct: real,
                          insurancePct: real, tariffPct: real): (c: CostBreakdown)
    ensures c.goodsCost == goodsCost
    ensures c.shippingCost == goodsCost * shippingPct
    ensures c.insuranceCost == goodsCost * insurancePct
    ensures c.tariffCost == goodsCost * tariffPct
    // landed cost: the largest value within both the cost lines and the cap
    ensures c.landedCost <= CostLines(c) && c.landedCost <= MaxCostMultiplier * importValue
    ensures c.landedCost == CostLines(c) || c.landedCost == MaxCostMultiplier * importValue
    // profit: the smallest value at least the raw profit and the loss floor
    ensures c.profit >= revenue - c.landedCost && c.profit >= -importValue
    ensures c.profit == revenue - c.landedCost || c.profit == -importValue
  {
    var shippingCost := goodsCost * shippingPct;
    var insuranceCost := goodsCost * insurancePct;
    var tariffCost := goodsCost * tariffPct;
    var landedCost := Min(goodsCost + shippingCost + insuranceCost + tariffCost,
                          importValue * MaxCostMultiplier);
    var profit := Max(revenue - landedCost, -importValue);
    CostBreakdown(goodsCost, shippingCost, insuranceCost, tariffCost, landedCost, profit)
  }

  /** The cost part of compute_margin, from its own six inputs. */
  function ComputeCosts(importValue: real, revenue: real, fxShockPct: real, shippingPct: real,
                        insurancePct: real, tariffPct: real): (c: CostBreakdown)
    ensures c.goodsCost == importValue * (1.0 + fxShockPct)
    ensures c == CostsFromGoods(importValue, revenue, c.goodsCost, shippingPct, insurancePct, tariffPct)
  {
    CostsFromGoods(importValue, revenue, GoodsCost(importValue, fxShockPct), shippingPct, insurancePct, tariffPct)
  }

  /**
   * The margin part of compute_margin: only positive revenue has a margin,
   * profit as a percentage of revenue, floored at -100.
   */
  function MarginPct(profit: real, revenue: real): (m: Option<real>)
    ensures m.Some? <==> revenue > 0.0
    ensures m.Some? ==>
              m.value >= profit / revenue * 100.0 && m.value >= -100.0 &&
              (m.value == profit / revenue * 100.0 || m.value == -100.0)
  {
    if revenue > 0.0 then Some(Max(profit / revenue * 100.0, -100.0)) else None
  }

  /** compute_margin: the costs, then the margin of the resulting profit. */
  function ComputeMargin(
    importValue: real,
    revenue: real,
    fxShockPct: real := 0.0,
    shippingPct: real := 0.0,
    insurancePct: real := 0.0,
    tariffPct: real := 0.0): (r: ScenarioResult)
    ensures r.costs == ComputeCosts(importValue, revenue, fxShockPct, shippingPct, insurancePct, tariffPct)
    ensures r.costs.profit >= -importValue
    ensures r.costs.landedCost <= MaxCostMultiplier * importValue
    ensures r.marginPct == MarginPct(r.costs.profit, revenue)
    ensures r.marginPct.Some? <==> revenue > 0.0
    ensures r.marginPct.Some? ==> r.marginPct.value >= -100.0
  {
    var costs := ComputeCosts(importValue, revenue, fxShockPct, shippingPct, insurancePct, tariffPct);
    ScenarioResult(costs, MarginPct(costs.profit, revenue))
  }

  /** Below the cap, landed cost is exactly the sum of the four cost lines. */
  lemma LandedCostBelowCap(iv: real, rev: real, fx: real, ship: real, ins: real, tar: real)
    requires CostLines(ComputeCosts(iv, rev, fx, ship, ins, tar)) <= MaxCostMultiplier * iv
    ensures ComputeCosts(iv, rev, fx, ship, ins, tar).landedCost
            == CostLines(ComputeCosts(iv, rev, fx, ship, ins, tar))
  {
  }

  /** Profit falls (weakly) and landed cost rises as the uncapped cost-line sum rises. */
  lemma ProfitAntitoneInCostLines(iv: real, rev: real, g1: real, ship1: real, ins1: real, tar1: real,
                                  g2: real, ship2: real, ins2: real, tar2: real)
    requires CostLines(CostsFromGoods(iv, rev, g1, ship1, ins1, tar1))
             <= CostLines(CostsFromGoods(iv, rev, g2, ship2, ins2, tar2))
    ensures CostsFromGoods(iv, rev, g2, ship2, ins2, tar2).profit
            <= CostsFromGoods(iv, rev, g1, ship1, ins1, tar1).profit
    ensures CostsFromGoods(iv, rev, g2, ship2, ins2, tar2).landedCost
            >= CostsFromGoods(iv, rev, g1, ship1, ins1, tar1).landedCost
  {
  }

  /** The uncapped landed cost is the goods cost plus its three fractions. */
  lemma CostLinesOf(iv: real, rev: real, g: real, s: real, i: real, t: real)
    ensures CostLines(CostsFromGoods(iv, rev, g, s, i, t)) == g + g * s + g * i + g * t
  {
    var c := CostsFromGoods(iv, rev, g, s, i, t);
    assert c.goodsCost == g && c.shippingCost == g * s && c.insuranceCost == g * i && c.tariffCost == g * t;
  }

  /**
   * u <= v when u is x * a and v is x * b, for x >= 0 and a <= b. Naming the
   * two products lets callers use the fact without multiplying themselves.
   */
  lemma ScaleMonotone(x: real, a: real, b: real, u: real, v: real)
    requires 0.0 <= x && a <= b
    requires u == x * a && v == x * b
    ensures u <= v
  {
    assert v - u == x * (b - a);
  }

  /** For a non-negative import value the goods cost grows with the FX shock. */
  lemma GoodsCostMonotone(iv: real, fx1: real, fx2: real)
    requires 0.0 <= iv && fx1 <= fx2
    ensures GoodsCost(iv, fx1) <= GoodsCost(iv, fx2)
  {
    ScaleMonotone(iv, 1.0 + fx1, 1.0 + fx2, GoodsCost(iv, fx1), GoodsCost(iv, fx2));
  }

  /**
   * With a non-negative goods cost, raising the shipping, insurance or tariff
   * fraction never raises profit.
   */
  lemma ProfitNonIncreasingInCostFractions(iv: real, rev: real, fx: real,
                                           ship1: real, ins1: real, tar1: real,
                                           ship2: real, ins2: real, tar2: real)
    requires 0.0 <= iv && -1.0 <= fx
    requires ship1 <= ship2 && ins1 <= ins2 && tar1 <= tar2
    ensures ComputeCosts(iv, rev, fx, ship2, ins2, tar2).profit
            <= ComputeCosts(iv, rev, fx, ship1, ins1, tar1).profit
  {
    ScaleMonotone(iv, 0.0, 1.0 + fx, 0.0, GoodsCost(iv, fx));
    ProfitNonIncreasingInFractionsOfGoods(iv, rev, GoodsCost(iv, fx), ship1, ins1, tar1, ship2, ins2, tar2);
  }

  /** The same over a given non-negative goods cost. */
  lemma ProfitNonIncreasingInFractionsOfGoods(iv: real, rev: real, g: real,
                                              ship1: real, ins1: real, tar1: real,
                                              ship2: real, ins2: real, tar2: real)
    requires 0.0 <= g
    requires ship1 <= ship2 && ins1 <= ins2 && tar1 <= tar2
    ensures CostsFromGoods(iv, rev, g, ship2, ins2, tar2).profit
            <= CostsFromGoods(iv, rev, g, ship1, ins1, tar1).profit
  {
    var c1, c2 := CostsFromGoods(iv, rev, g, ship1, ins1, tar1), CostsFromGoods(iv, rev, g, ship2, ins2, tar2);
    ScaleMonotone(g, ship1, ship2, c1.shippingCost, c2.shippingCost);
    ScaleMonotone(g, ins1, ins2, c1.insuranceCost, c2.insuranceCost);
    ScaleMonotone(g, tar1, tar2, c1.tariffCost, c2.tariffCost);
    ProfitAntitoneInCostLines(iv, rev, g, ship1, ins1, tar1, g, ship2, ins2, tar2);
  }

  /** Goods plus fixed fractions of it grows with the goods cost when 1 + fractions >= 0. */
  lemma LinesGrowWithGoods(g1: real, g2: real, s: real, i: real, t: real, u: real, v: real)
    requires g1 <= g2 && 0.0 <= 1.0 + s + i + t
    requires u == g1 + g1 * s + g1 * i + g1 * t && v == g2 + g2 * s + g2 * i + g2 * t
    ensures u <= v
  {
    ScaleMonotone(1.0 + s + i + t, g1, g2, u, v);
  }

  /**
   * With cost fractions that do not sum below -1, a larger goods cost never
   * raises profit.
   */
  lemma ProfitNonIncreasingInGoodsCost(iv: real, rev: real, g1: real, g2: real,
                                       ship: real, ins: real, tar: real)
    requires g1 <= g2 && 0.0 <= 1.0 + ship + ins + tar
    ensures CostsFromGoods(iv, rev, g2, ship, ins, tar).profit
            <= CostsFromGoods(iv, rev, g1, ship, ins, tar).profit
  {
    var c1, c2 := CostsFromGoods(iv, rev, g1, ship, ins, tar), CostsFromGoods(iv, rev, g2, ship, ins, tar);
    CostLinesOf(iv, rev, g1, ship, ins, tar);
    CostLinesOf(iv, rev, g2, ship, ins, tar);
    LinesGrowWithGoods(g1, g2, ship, ins, tar, CostLines(c1), CostLines(c2));
    ProfitAntitoneInCostLines(iv, rev, g1, ship, ins, tar, g2, ship, ins, tar);
  }

  /**
   * With a non-negative import value and cost fractions that do not sum below
   * -1, a larger FX shock never raises profit.
   */
  lemma ProfitNonIncreasingInFx(iv: real, rev: real, fx1: real, fx2: real,
                                ship: real, ins: real, tar: real)
    requires 0.0 <= iv && 0.0 <= 1.0 + ship + ins + tar
    requires fx1 <= fx2
    ensures ComputeCosts(iv, rev, fx2, ship, ins, tar).profit
            <= ComputeCosts(iv, rev, fx1, ship, ins, tar).profit
  {
    GoodsCostMonotone(iv, fx1, fx2);
    ProfitNonIncreasingInGoodsCost(iv, rev, GoodsCost(iv, fx1), GoodsCost(iv, fx2), ship, ins, tar);
  }

  /** Once both scenarios hit the landed-cost cap, profit no longer moves. */
  lemma ProfitConstantAtCap(iv: real, rev: real, fx1: real, ship1: real, ins1: real, tar1: real,
                            fx2: real, ship2: real, ins2: real, tar2: real)
    requires MaxCostMultiplier * iv <= CostLines(ComputeCosts(iv, rev, fx1, ship1, ins1, tar1))
    requires MaxCostMultiplier * iv <= CostLines(ComputeCosts(iv, rev, fx2, ship2, ins2, tar2))
    ensures ComputeCosts(iv, rev, fx1, ship1, ins1, tar1).profit
            == ComputeCosts(iv, rev, fx2, ship2, ins2, tar2).profit
  {
  }

  /** On positive revenue a larger profit never gives a smaller margin. */
  lemma MarginMonotoneInProfit(p1: real, p2: real, rev: real)
    requires 0.0 < rev && p1 <= p2
    ensures MarginPct(p1, rev).value <= MarginPct(p2, rev).value
  {
    assert p2 / rev - p1 / rev == (p2 - p1) / rev;
  }

  /**
   * A zero import value zeroes every cost line and the landed cost, and
   * leaves profit at revenue floored at zero.
   */
  lemma ZeroImportValue(rev: real, fx: real, ship: real, ins: real, tar: real)
    ensures var c := ComputeCosts(0.0, rev, fx, ship, ins, tar);
            c.goodsCost == 0.0 && c.shippingCost == 0.0 && c.insuranceCost == 0.0 &&
            c.tariffCost == 0.0 && c.landedCost == 0.0 && c.profit == Max(rev, 0.0)
  {
  }

  /** Import 1,000,000, revenue 1,350,000, shipping 5%, insurance 1%, tariff 2%. */
  lemma WorkedExampleCosts()
    ensures ComputeMargin(1000000.0, 1350000.0, 0.0, 0.05, 0.01, 0.02)
            == ScenarioResult(CostBreakdown(1000000.0, 50000.0, 10000.0, 20000.0, 1080000.0, 270000.0),
                              Some(20.0))
  {
  }

  /** Import 1,000,000, revenue 1,350,000 and a 10% FX shock alone. */
  lemma WorkedExampleFx()
    ensures ComputeMargin(1000000.0, 1350000.0, 0.10)
            == ScenarioResult(CostBreakdown(1100000.0, 0.0, 0.0, 0.0, 1100000.0, 250000.0),
                              Some(500.0 / 27.0))
  {
  }
}
