/** The FX-by-shipping sensitivity grid of scripts/scenario_runner.py. */
module ScenarioRunner {
  import opened Optional
  import opened MarginModel

  /** One row of the grid: the two varied inputs as percentages, and the outcome. */
  datatype ScenarioRow = ScenarioRow(fxShockPct: real, shippingPct: real, profit: real, marginPct: Option<real>)

  /** The inputs held fixed across the whole grid. */
  datatype FixedInputs = FixedInputs(importValue: real, revenue: real, tariffPct: real, insurancePct: real)

  /** `steps == 1` makes the sample spacing divide by zero. */
  datatype GridError = ZeroDivision

  /** Python's range(steps) length: negative counts give no samples. */
  function SampleCount(steps: int): nat
  {
    if steps < 0 then 0 else steps
  }

  /** Sample i of a range: `i * (hi - lo) / (steps - 1)` above `lo`. */
  function Sample(lo: real, hi: real, steps: int, i: int): real
    requires steps != 1
  {
    lo + (i as real) * (hi - lo) / ((steps - 1) as real)
  }

  /**
   * The sample list for i in range(steps). `steps == 1` is excluded because
   * it divides by zero.
   */
  function EvenlySpaced(lo: real, hi: real, steps: int): (vs: seq<real>)
    requires steps != 1
    ensures |vs| == SampleCount(steps)
    ensures forall i :: 0 <= i < |vs| ==> vs[i] == Sample(lo, hi, steps, i)
  {
    seq(SampleCount(steps), i => Sample(lo, hi, steps, i))
  }

  /** Spreading a difference d over n parts, one more part adds d / n. */
  lemma DivStep(x: real, d: real, n: real)
    requires n != 0.0
    ensures (x + 1.0) * d / n - x * d / n == d / n
    ensures n * d / n == d
  {
    assert (x + 1.0) * d == x * d + d;
  }

  /** Consecutive samples are (hi - lo) / (steps - 1) apart. */
  lemma SampleStep(lo: real, hi: real, steps: int, i: int)
    requires steps != 1
    ensures Sample(lo, hi, steps, i + 1) - Sample(lo, hi, steps, i) == (hi - lo) / ((steps - 1) as real)
  {
    var n := (steps - 1) as real;
    DivStep(i as real, hi - lo, n);
    assert ((i + 1) as real) == (i as real) + 1.0;
  }

  /** The samples start at `lo`, end at `hi` and are a constant step apart. */
  lemma EvenlySpacedEndpoints(lo: real, hi: real, steps: int)
    requires steps >= 2
    ensures EvenlySpaced(lo, hi, steps)[0] == lo
    ensures EvenlySpaced(lo, hi, steps)[steps - 1] == hi
    ensures forall i :: 0 <= i < steps - 1 ==>
              EvenlySpaced(lo, hi, steps)[i + 1] - EvenlySpaced(lo, hi, steps)[i]
              == (hi - lo) / ((steps - 1) as real)
  {
    var vs := EvenlySpaced(lo, hi, steps);
    var n := (steps - 1) as real;
    DivStep(0.0, hi - lo, n);
    assert vs[0] == Sample(lo, hi, steps, 0) == lo;
    assert vs[steps - 1] == Sample(lo, hi, steps, steps - 1) == hi;
    forall i | 0 <= i < steps - 1
      ensures vs[i + 1] - vs[i] == (hi - lo) / n
    {
      SampleStep(lo, hi, steps, i);
    }
  }

  /** a * d / n <= b * d / n for a <= b and d / n >= 0. */
  lemma ScaledDivMonotone(a: real, b: real, d: real, n: real)
    requires a <= b && 0.0 <= d && 0.0 < n
    ensures a * d / n <= b * d / n
  {
    ScaleMonotone(d, a, b, a * d, b * d);
  }

  /** With `lo <= hi` a later sample is no smaller. */
  lemma SampleMonotone(lo: real, hi: real, steps: int, i: int, j: int)
    requires steps >= 2 && lo <= hi && i <= j
    ensures Sample(lo, hi, steps, i) <= Sample(lo, hi, steps, j)
  {
    assert (i as real) <= (j as real);
    ScaledDivMonotone(i as real, j as real, hi - lo, (steps - 1) as real);
  }

  /** With `lo <= hi` the samples ascend. */
  lemma EvenlySpacedAscending(lo: real, hi: real, steps: int, i: int, j: int)
    requires steps >= 2 && lo <= hi && 0 <= i <= j < steps
    ensures EvenlySpaced(lo, hi, steps)[i] <= EvenlySpaced(lo, hi, steps)[j]
  {
    SampleMonotone(lo, hi, steps, i, j);
  }

  /** The row for one (FX, shipping) pair: compute_margin on it, inputs reported x100. */
  function RowFor(fixed: FixedInputs, fx: real, ship: real): (row: ScenarioRow)
    ensures row.fxShockPct == fx * 100.0 && row.shippingPct == ship * 100.0
    ensures row.profit == ComputeCosts(fixed.importValue, fixed.revenue, fx, ship,
                                       fixed.insurancePct, fixed.tariffPct).profit
    ensures row.marginPct == MarginPct(row.profit, fixed.revenue)
  {
    var result := ComputeMargin(fixed.importValue, fixed.revenue, fx, ship, fixed.insurancePct, fixed.tariffPct);
    ScenarioRow(fx * 100.0, ship * 100.0, result.costs.profit, result.marginPct)
  }

  /** The rows of one outer iteration: one FX value against each shipping value in turn. */
  function Sweep<R>(row: (real, real) -> R, fx: real, ships: seq<real>): seq<R>
  {
    if ships == [] then []
    else Sweep(row, fx, ships[..|ships| - 1]) + [row(fx, ships[|ships| - 1])]
  }

  /** The whole grid: FX in the outer loop, shipping in the inner loop. */
  function Grid<R>(row: (real, real) -> R, fxs: seq<real>, ships: seq<real>): seq<R>
  {
    if fxs == [] then []
    else Grid(row, fxs[..|fxs| - 1], ships) + Sweep(row, fxs[|fxs| - 1], ships)
  }

  /** Row j of a sweep is the pair (fx, ships[j]). */
  lemma {:induction false} SweepAt<R>(row: (real, real) -> R, fx: real, ships: seq<real>)
    ensures |Sweep(row, fx, ships)| == |ships|
    ensures forall j :: 0 <= j < |ships| ==> Sweep(row, fx, ships)[j] == row(fx, ships[j])
  {
    if ships != [] {
      SweepAt(row, fx, ships[..|ships| - 1]);
    }
  }

  /** One more shipping value appends its row to the sweep. */
  lemma SweepSnoc<R>(row: (real, real) -> R, fx: real, ships: seq<real>, b: int)
    requires 0 <= b < |ships|
    ensures Sweep(row, fx, ships[..b + 1]) == Sweep(row, fx, ships[..b]) + [row(fx, ships[b])]
  {
    assert ships[..b + 1][..b] == ships[..b];
  }

  /** One more FX value appends its whole sweep to the grid. */
  lemma GridSnoc<R>(row: (real, real) -> R, fxs: seq<real>, ships: seq<real>, a: int)
    requires 0 <= a < |fxs|
    ensures Grid(row, fxs[..a + 1], ships) == Grid(row, fxs[..a], ships) + Sweep(row, fxs[a], ships)
  {
    var p := fxs[..a + 1];
    assert p != [] && p[..|p| - 1] == fxs[..a] && p[|p| - 1] == fxs[a];
  }

  /** Multiplying by a non-negative factor keeps the order. */
  lemma MulMonotone(x: int, y: int, n: int)
    ensures x <= y && 0 <= n ==> x * n <= y * n
  {
    if x <= y && 0 <= n {
      assert y * n - x * n == (y - x) * n;
    }
  }

  /**
   * Row-major indexing: with n columns, index k lies in row k / n at column
   * k % n (Euclidean division).
   */
  lemma RowMajorSplit(k: int, n: int)
    requires 0 <= k && 0 < n
    ensures k == (k / n) * n + k % n && 0 <= k / n && 0 <= k % n < n
  {
  }

  /** The grid has one row per pair. */
  lemma {:induction false} GridLength<R>(row: (real, real) -> R, fxs: seq<real>, ships: seq<real>)
    ensures |Grid(row, fxs, ships)| == |fxs| * |ships|
  {
    if fxs != [] {
      GridLength(row, fxs[..|fxs| - 1], ships);
      SweepAt(row, fxs[|fxs| - 1], ships);
      assert (|fxs| - 1 + 1) * |ships| == (|fxs| - 1) * |ships| + |ships|;
    }
  }

  /** Row a * |ships| + b of the grid is the pair (fxs[a], ships[b]). */
  lemma {:induction false} GridAtPair<R>(row: (real, real) -> R, fxs: seq<real>, ships: seq<real>, a: int, b: int)
    requires 0 <= a < |fxs| && 0 <= b < |ships|
    ensures a * |ships| + b < |Grid(row, fxs, ships)|
    ensures Grid(row, fxs, ships)[a * |ships| + b] == row(fxs[a], ships[b])
  {
    var m, n := |fxs| - 1, |ships|;
    var front := fxs[..m];
    var k := a * n + b;
    GridLength(row, fxs, ships);
    GridLength(row, front, ships);
    SweepAt(row, fxs[m], ships);
    assert (a + 1) * n == a * n + n;
    assert (m + 1) * n == m * n + n;
    MulMonotone(a + 1, m, n);
    MulMonotone(a, m, n);
    assert Grid(row, fxs, ships) == Grid(row, front, ships) + Sweep(row, fxs[m], ships);
    if a < m {
      GridAtPair(row, front, ships, a, b);
      assert front[a] == fxs[a];
    } else {
      assert k - m * n == b;
    }
  }

  /** Row k of the grid is the pair (fxs[k / |ships|], ships[k % |ships|]). */
  lemma GridAtIndex<R>(row: (real, real) -> R, fxs: seq<real>, ships: seq<real>, k: int)
    requires 0 <= k < |Grid(row, fxs, ships)|
    ensures 0 < |ships| && 0 <= k / |ships| < |fxs| && 0 <= k % |ships| < |ships|
    ensures |Grid(row, fxs, ships)| == |fxs| * |ships|
    ensures Grid(row, fxs, ships)[k] == row(fxs[k / |ships|], ships[k % |ships|])
  {
    var n := |ships|;
    GridLength(row, fxs, ships);
    assert |fxs| * 0 == 0;
    assert n != 0;
    var a, b := k / n, k % n;
    RowMajorSplit(k, n);
    MulMonotone(|fxs|, a, n);
    GridAtPair(row, fxs, ships, a, b);
  }

  /**
   * The grid has |fxs| * |ships| rows and row k is the pair
   * (fxs[k / |ships|], ships[k % |ships|]): FX outer, shipping inner.
   */
  lemma GridAt<R>(row: (real, real) -> R, fxs: seq<real>, ships: seq<real>)
    ensures |Grid(row, fxs, ships)| == |fxs| * |ships|
    ensures forall k :: 0 <= k < |Grid(row, fxs, ships)| ==>
              && 0 < |ships| && 0 <= k / |ships| < |fxs| && 0 <= k % |ships| < |ships|
              && Grid(row, fxs, ships)[k] == row(fxs[k / |ships|], ships[k % |ships|])
  {
    GridLength(row, fxs, ships);
    forall k | 0 <= k < |Grid(row, fxs, ships)|
      ensures && 0 < |ships| && 0 <= k / |ships| < |fxs| && 0 <= k % |ships| < |ships|
              && Grid(row, fxs, ships)[k] == row(fxs[k / |ships|], ships[k % |ships|])
    {
      GridAtIndex(row, fxs, ships, k);
    }
  }

  /** On a steps-by-steps grid, row k is the pair (fxs[k / steps], ships[k % steps]). */
  lemma SquareGridAt<R>(row: (real, real) -> R, fxs: seq<real>, ships: seq<real>, steps: int)
    requires steps != 1 && |fxs| == |ships| == SampleCount(steps)
    ensures |Grid(row, fxs, ships)| == SampleCount(steps) * SampleCount(steps)
    ensures forall k :: 0 <= k < |Grid(row, fxs, ships)| ==>
              && 2 <= steps && 0 <= k / steps < |fxs| && 0 <= k % steps < |ships|
              && Grid(row, fxs, ships)[k] == row(fxs[k / steps], ships[k % steps])
  {
    GridLength(row, fxs, ships);
    forall k | 0 <= k < |Grid(row, fxs, ships)|
      ensures && 2 <= steps && 0 <= k / steps < |fxs| && 0 <= k % steps < |ships|
              && Grid(row, fxs, ships)[k] == row(fxs[k / steps], ships[k % steps])
    {
      GridAtIndex(row, fxs, ships, k);
      assert |fxs| * 0 == 0 && 1 * |fxs| == |fxs|;
    }
  }

  /**
   * The nested loops of run_sensitivity_scenarios: compute_margin on every
   * (FX, shipping) pair, FX in the outer loop and shipping in the inner loop.
   */
  method SweepGrid(fixed: FixedInputs, fxValues: seq<real>, shipValues: seq<real>) returns (rows: seq<ScenarioRow>)
    ensures rows == Grid((fx, ship) => RowFor(fixed, fx, ship), fxValues, shipValues)
  {
    ghost var row := (fx, ship) => RowFor(fixed, fx, ship);
    rows := [];
    for a := 0 to |fxValues|
      invariant rows == Grid(row, fxValues[..a], shipValues)
    {
      var fx := fxValues[a];
      ghost var done := rows;
      for b := 0 to |shipValues|
        invariant rows == done + Sweep(row, fx, shipValues[..b])
      {
        var ship := shipValues[b];
        var result := ComputeMargin(fixed.importValue, fixed.revenue, fx, ship, fixed.insurancePct, fixed.tariffPct);
        var next := ScenarioRow(fx * 100.0, ship * 100.0, result.costs.profit, result.marginPct);
        assert next == row(fx, ship);
        SweepSnoc(row, fx, shipValues, b);
        rows := rows + [next];
      }
      assert shipValues[..|shipValues|] == shipValues;
      GridSnoc(row, fxValues, shipValues, a);
    }
    assert fxValues[..|fxValues|] == fxValues;
  }

  /**
   * The grid run_sensitivity_scenarios promises: compute_margin on every
   * pair of `steps` evenly spaced FX shocks and shipping fractions, FX outer.
   */
  ghost function SensitivityGrid(fixed: FixedInputs, fxRange: (real, real), shippingRange: (real, real),
                                 steps: int): seq<ScenarioRow>
    requires steps != 1
  {
    Grid((fx, ship) => RowFor(fixed, fx, ship),
         EvenlySpaced(fxRange.0, fxRange.1, steps), EvenlySpaced(shippingRange.0, shippingRange.1, steps))
  }

  /**
   * The sensitivity grid has steps x steps rows, and row k holds FX sample
   * k / steps against shipping sample k % steps.
   */
  lemma SensitivityGridAt(fixed: FixedInputs, fxRange: (real, real), shippingRange: (real, real), steps: int)
    requires steps != 1
    ensures var g := SensitivityGrid(fixed, fxRange, shippingRange, steps);
            var fxs := EvenlySpaced(fxRange.0, fxRange.1, steps);
            var ships := EvenlySpaced(shippingRange.0, shippingRange.1, steps);
            && |g| == SampleCount(steps) * SampleCount(steps)
            && forall k :: 0 <= k < |g| ==>
                 && 2 <= steps && 0 <= k / steps < |fxs| && 0 <= k % steps < |ships|
                 && g[k] == RowFor(fixed, fxs[k / steps], ships[k % steps])
  {
    SquareGridAt((fx, ship) => RowFor(fixed, fx, ship),
                 EvenlySpaced(fxRange.0, fxRange.1, steps), EvenlySpaced(shippingRange.0, shippingRange.1, steps),
                 steps);
  }

  /**
   * run_sensitivity_scenarios: `steps` evenly spaced FX shocks and shipping
   * fractions over the two ranges, compute_margin on every pair, FX in the
   * outer loop and shipping in the inner loop. `steps == 1` raises a
   * division by zero.
   */
  method RunSensitivityScenarios(
    importValue: real,
    revenue: real,
    fxRange: (real, real) := (-0.1, 0.1),
    shippingRange: (real, real) := (0.0, 0.3),
    steps: int := 11,
    tariffPct: real := 0.0,
    insurancePct: real := 0.0)
    returns (r: Result<seq<ScenarioRow>, GridError>)
    ensures r.Failure? <==> steps == 1
    ensures r.Success? ==>
              r.value == SensitivityGrid(FixedInputs(importValue, revenue, tariffPct, insurancePct),
                                         fxRange, shippingRange, steps)
    ensures r.Success? ==>
              var fxs := EvenlySpaced(fxRange.0, fxRange.1, steps);
              var ships := EvenlySpaced(shippingRange.0, shippingRange.1, steps);
              var fixed := FixedInputs(importValue, revenue, tariffPct, insurancePct);
              && |r.value| == SampleCount(steps) * SampleCount(steps)
              && forall k :: 0 <= k < |r.value| ==>
                   && 2 <= steps && 0 <= k / steps < |fxs| && 0 <= k % steps < |ships|
                   && r.value[k] == RowFor(fixed, fxs[k / steps], ships[k % steps])
  {
    if steps == 1 {
      return Failure(ZeroDivision);
    }
    var fxValues := EvenlySpaced(fxRange.0, fxRange.1, steps);
    var shipValues := EvenlySpaced(shippingRange.0, shippingRange.1, steps);
    var fixed := FixedInputs(importValue, revenue, tariffPct, insurancePct);
    var rows := SweepGrid(fixed, fxValues, shipValues);
    assert rows == SensitivityGrid(fixed, fxRange, shippingRange, steps);
    SensitivityGridAt(fixed, fxRange, shippingRange, steps);
    return Success(rows);
  }

  /**
   * With the default ranges and 11 steps, FX runs -10, -8, ..., 10 and
   * shipping 0, 3, ..., 30, as percentages.
   */
  lemma DefaultAxes(i: int)
    requires 0 <= i < 11
    ensures EvenlySpaced(-0.1, 0.1, 11)[i] * 100.0 == -10.0 + 2.0 * (i as real)
    ensures EvenlySpaced(0.0, 0.3, 11)[i] * 100.0 == 3.0 * (i as real)
  {
  }
}
