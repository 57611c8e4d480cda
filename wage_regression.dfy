/**
 * Weighted log-linear regression of wage against x: a straight line is
 * fitted to log10(y) as a function of x, each observation weighted by its
 * employment, and the line's two ends over the display domain are mapped
 * back to wage units.
 *
 * Arithmetic is exact (`real`). `log10` and `pow10` stand for the host's
 * `Math.log10` and `Math.pow(10, _)`; they are parameters about which
 * nothing is assumed.
 */
module WageRegression {
  import opened ChartTypes

  /** A valid datum with its weight resolved (employment, or 1 if absent). */
  datatype WeightedPoint = WeightedPoint(x: real, y: real, weight: real)

  /** A weighted point after the log transform; `y` holds log10 of the wage. */
  datatype LogPoint = LogPoint(x: real, y: real, w: real)

  /** The five running sums of the accumulation pass. */
  datatype Sums = Sums(w: real, wx: real, wy: real, wxy: real, wx2: real)

  // ---------------------------------------------------------------------
  // Filtering and weighting
  // ---------------------------------------------------------------------

  /** Both coordinates finite and the wage positive (its log must exist). */
  predicate IsValidRegressionPoint(p: ChartDatum) {
    IsFinite(p.x) && IsFinite(p.y) && p.y.value > 0.0
  }

  /** The weight of a datum: its employment, and 1 only when it has none. */
  function Weight(p: ChartDatum): (w: real)
    ensures p.employment.Some? ==> w == p.employment.value
    ensures p.employment.None? ==> w == 1.0
  {
    p.employment.GetOr(1.0)
  }

  function ToWeighted(p: ChartDatum): WeightedPoint
    requires IsValidRegressionPoint(p)
  {
    WeightedPoint(p.x.value, p.y.value, Weight(p))
  }

  /** The valid data, in their original order, with weights attached. */
  function ValidPoints(data: seq<ChartDatum>): (r: seq<WeightedPoint>)
    ensures |r| <= |data|
    ensures forall k :: 0 <= k < |r| ==> r[k].y > 0.0
  {
    if |data| == 0 then []
    else
      (if IsValidRegressionPoint(data[0]) then [ToWeighted(data[0])] else [])
      + ValidPoints(data[1..])
  }

  function XValues(valid: seq<WeightedPoint>): seq<real> {
    seq(|valid|, k requires 0 <= k < |valid| => valid[k].x)
  }

  // ---------------------------------------------------------------------
  // Display domain
  // ---------------------------------------------------------------------

  /** `Math.min(...xs)` on a non-empty list. */
  function Min(xs: seq<real>): (m: real)
    requires |xs| > 0
    ensures m in xs
    ensures forall k :: 0 <= k < |xs| ==> m <= xs[k]
  {
    if |xs| == 1 then xs[0]
    else
      var rest := Min(xs[1..]);
      if xs[0] <= rest then xs[0] else rest
  }

  /** `Math.max(...xs)` on a non-empty list. */
  function Max(xs: seq<real>): (m: real)
    requires |xs| > 0
    ensures m in xs
    ensures forall k :: 0 <= k < |xs| ==> xs[k] <= m
  {
    if |xs| == 1 then xs[0]
    else
      var rest := Max(xs[1..]);
      if xs[0] >= rest then xs[0] else rest
  }

  /**
   * The x range of the drawn line: each supplied bound (0 included) is
   * kept, a missing start becomes the smallest valid x and a missing end
   * the largest.
   */
  function ResolveDomain(valid: seq<WeightedPoint>, xDomain: Domain): (bounds: (real, real))
    requires |valid| > 0
    ensures xDomain.0.Some? ==> bounds.0 == xDomain.0.value
    ensures xDomain.1.Some? ==> bounds.1 == xDomain.1.value
    ensures xDomain.0.None? ==>
      (exists k :: 0 <= k < |valid| && valid[k].x == bounds.0) &&
      forall k :: 0 <= k < |valid| ==> bounds.0 <= valid[k].x
    ensures xDomain.1.None? ==>
      (exists k :: 0 <= k < |valid| && valid[k].x == bounds.1) &&
      forall k :: 0 <= k < |valid| ==> valid[k].x <= bounds.1
  {
    var xValues := XValues(valid);
    var minX := Min(xValues);
    var maxX := Max(xValues);
    assert forall k :: 0 <= k < |valid| ==> xValues[k] == valid[k].x;
    (xDomain.0.GetOr(minX), xDomain.1.GetOr(maxX))
  }

  // ---------------------------------------------------------------------
  // Log transform
  // ---------------------------------------------------------------------

  /** `Math.max(weight, 0)`. */
  function ClampWeight(weight: real): (w: real)
    ensures w >= 0.0 && w >= weight
    ensures w == weight || w == 0.0
  {
    if weight > 0.0 then weight else 0.0
  }

  predicate NonNegativeWeights(ps: seq<LogPoint>) {
    forall k :: 0 <= k < |ps| ==> ps[k].w >= 0.0
  }

  /**
   * Each valid point with its wage replaced by log10 of the wage and its
   * weight clamped at 0: a non-negative weight is kept, a negative one
   * becomes 0.
   */
  function LogPoints(valid: seq<WeightedPoint>, log10: real -> real): (r: seq<LogPoint>)
    ensures |r| == |valid|
    ensures NonNegativeWeights(r)
    ensures forall k :: 0 <= k < |r| ==>
      r[k].x == valid[k].x && r[k].y == log10(valid[k].y) &&
      (valid[k].weight >= 0.0 ==> r[k].w == valid[k].weight) &&
      (valid[k].weight < 0.0 ==> r[k].w == 0.0)
  {
    var r := seq(|valid|, k requires 0 <= k < |valid| =>
      LogPoint(valid[k].x, log10(valid[k].y), ClampWeight(valid[k].weight)));
    assert forall k :: 0 <= k < |r| ==> r[k].w == ClampWeight(valid[k].weight);
    r
  }

  // ---------------------------------------------------------------------
  // The sums, as mathematical sums over the log points (last point last,
  // the order in which the loops visit them)
  // ---------------------------------------------------------------------

  /** One point's terms in each of the five sums. */
  function Terms(p: LogPoint): Sums {
    Sums(p.w, p.w * p.x, p.w * p.y, p.w * p.x * p.y, p.w * p.x * p.x)
  }

  function AddSums(a: Sums, b: Sums): Sums {
    Sums(a.w + b.w, a.wx + b.wx, a.wy + b.wy, a.wxy + b.wxy, a.wx2 + b.wx2)
  }

  /** Σw, Σw·x, Σw·y, Σw·x·y and Σw·x² over `ps`. */
  function SumsOf(ps: seq<LogPoint>): Sums {
    if |ps| == 0 then Sums(0.0, 0.0, 0.0, 0.0, 0.0)
    else AddSums(SumsOf(ps[..|ps| - 1]), Terms(ps[|ps| - 1]))
  }

  /** `Math.pow(v, 2)`. */
  function Square(v: real): (r: real)
    ensures r >= 0.0
  {
    v * v
  }

  /** `w * Math.pow(d, 2)`: one point's weighted squared deviation. */
  function WeightedSquare(w: real, d: real): real {
    w * Square(d)
  }

  /** The determinant of the 2×2 normal equations. */
  function Denominator(s: Sums): real {
    s.w * s.wx2 - s.wx * s.wx
  }

  /** The slope solving the normal equations. */
  function Slope(s: Sums): real
    requires Denominator(s) != 0.0
  {
    (s.w * s.wxy - s.wx * s.wy) / Denominator(s)
  }

  /** The intercept solving the normal equations, given the slope. */
  function Intercept(s: Sums, slope: real): real
    requires s.w != 0.0
  {
    (s.wy - slope * s.wx) / s.w
  }

  /** Weighted total sum of squares Σw·(y − meanY)². */
  function TotalSS(ps: seq<LogPoint>, meanY: real): real
  {
    if |ps| == 0 then 0.0
    else
      var p := ps[|ps| - 1];
      TotalSS(ps[..|ps| - 1], meanY) + WeightedSquare(p.w, p.y - meanY)
  }

  /** The line's value (in log10 space) at `x`. */
  function Predicted(intercept: real, slope: real, x: real): real {
    intercept + slope * x
  }

  /** Weighted residual sum of squares Σw·(y − (intercept + slope·x))². */
  function ResidualSS(ps: seq<LogPoint>, intercept: real, slope: real): real
  {
    if |ps| == 0 then 0.0
    else
      var p := ps[|ps| - 1];
      ResidualSS(ps[..|ps| - 1], intercept, slope) + WeightedSquare(p.w, p.y - Predicted(intercept, slope, p.x))
  }

  // ---------------------------------------------------------------------
  // The fit
  // ---------------------------------------------------------------------

  /** The weighted mean of the log wages. */
  function MeanY(s: Sums): real
    requires s.w != 0.0
  {
    s.wy / s.w
  }

  /** R² from the two sums of squares; 0 when there is no variance to explain. */
  function RSquared(totalSumSquares: real, residualSumSquares: real): real {
    if totalSumSquares > 0.0 then 1.0 - residualSumSquares / totalSumSquares else 0.0
  }

  /**
   * The closed-form weighted least-squares fit of the log points, with R²
   * and the two endpoints at `xStart` and `xEnd` mapped back by `pow10`;
   * None when the total weight or the determinant is zero.
   */
  function FitLogPoints(ps: seq<LogPoint>, xStart: real, xEnd: real, pow10: real -> real)
    : (r: Option<RegressionResult>)
    ensures r.None? <==> SumsOf(ps).w == 0.0 || Denominator(SumsOf(ps)) == 0.0
    ensures r.Some? ==>
      r.value.points.0 == RegressionPoint(xStart, pow10(Predicted(r.value.intercept, r.value.slope, xStart))) &&
      r.value.points.1 == RegressionPoint(xEnd, pow10(Predicted(r.value.intercept, r.value.slope, xEnd)))
  {
    var s := SumsOf(ps);
    if s.w == 0.0 then None
    else
      if Denominator(s) == 0.0 then None
      else
        var slope := Slope(s);
        var intercept := Intercept(s, slope);
        var meanY := MeanY(s);
        var rSquared := RSquared(TotalSS(ps, meanY), ResidualSS(ps, intercept, slope));
        Some(RegressionResult(
          (RegressionPoint(xStart, pow10(Predicted(intercept, slope, xStart))),
           RegressionPoint(xEnd, pow10(Predicted(intercept, slope, xEnd)))),
          slope, intercept, rSquared))
  }

  /** What `computeLogWageRegressionLine` returns, as a function of its inputs. */
  function LogWageRegression(data: seq<ChartDatum>, xDomain: Domain,
                             log10: real -> real, pow10: real -> real)
    : (r: Option<RegressionResult>)
    ensures |ValidPoints(data)| < 2 ==> r.None?
    ensures r.Some? ==>
      |ValidPoints(data)| >= 2 &&
      r.value.points.0.x == ResolveDomain(ValidPoints(data), xDomain).0 &&
      r.value.points.1.x == ResolveDomain(ValidPoints(data), xDomain).1 &&
      r.value.points.0.y == pow10(Predicted(r.value.intercept, r.value.slope, r.value.points.0.x)) &&
      r.value.points.1.y == pow10(Predicted(r.value.intercept, r.value.slope, r.value.points.1.x))
  {
    var validPoints := ValidPoints(data);
    if |validPoints| < 2 then None
    else
      var bounds := ResolveDomain(validPoints, xDomain);
      FitLogPoints(LogPoints(validPoints, log10), bounds.0, bounds.1, pow10)
  }

  /** Extending a prefix by one point adds that point's terms to the sums. */
  lemma SumsOfExtend(ps: seq<LogPoint>, i: nat)
    requires i < |ps|
    ensures SumsOf(ps[..i + 1]) == AddSums(SumsOf(ps[..i]), Terms(ps[i]))
  {
    assert ps[..i + 1][..i] == ps[..i];
  }

  /** The first pass: the five running sums over the log points. */
  method AccumulateSums(logYValues: seq<LogPoint>)
    returns (sumW: real, sumWX: real, sumWY: real, sumWXY: real, sumWX2: real)
    ensures Sums(sumW, sumWX, sumWY, sumWXY, sumWX2) == SumsOf(logYValues)
  {
    sumW, sumWX, sumWY, sumWXY, sumWX2 := 0.0, 0.0, 0.0, 0.0, 0.0;
    for i := 0 to |logYValues|
      invariant Sums(sumW, sumWX, sumWY, sumWXY, sumWX2) == SumsOf(logYValues[..i])
    {
      // This point's weight and its products weight·x, weight·y, weight·x·y and weight·x².
      var terms := Terms(logYValues[i]);
      SumsOfExtend(logYValues, i);
      sumW := sumW + terms.w;
      sumWX := sumWX + terms.wx;
      sumWY := sumWY + terms.wy;
      sumWXY := sumWXY + terms.wxy;
      sumWX2 := sumWX2 + terms.wx2;
    }
    assert logYValues[..|logYValues|] == logYValues;
  }

  /** The second pass: total and residual sums of squares of the fit. */
  method AccumulateSumsOfSquares(logYValues: seq<LogPoint>, meanY: real, intercept: real, slope: real)
    returns (totalSumSquares: real, residualSumSquares: real)
    ensures totalSumSquares == TotalSS(logYValues, meanY)
    ensures residualSumSquares == ResidualSS(logYValues, intercept, slope)
  {
    totalSumSquares, residualSumSquares := 0.0, 0.0;
    for i := 0 to |logYValues|
      invariant totalSumSquares == TotalSS(logYValues[..i], meanY)
      invariant residualSumSquares == ResidualSS(logYValues[..i], intercept, slope)
    {
      var point := logYValues[i];
      assert logYValues[..i + 1][..i] == logYValues[..i];
      totalSumSquares := totalSumSquares + WeightedSquare(point.w, point.y - meanY);
      residualSumSquares := residualSumSquares + WeightedSquare(point.w, point.y - Predicted(intercept, slope, point.x));
    }
    assert logYValues[..|logYValues|] == logYValues;
  }

  /**
   * The regression as the program computes it: filter and weight, resolve
   * the domain, log transform, the accumulation pass, the degenerate-case
   * checks, the closed-form solution, the sums-of-squares pass and the
   * back-transform of the two endpoints.
   */
  method ComputeLogWageRegressionLine(data: seq<ChartDatum>, xDomain: Domain,
                                      log10: real -> real, pow10: real -> real)
    returns (result: Option<RegressionResult>)
    ensures result == LogWageRegression(data, xDomain, log10, pow10)
  {
    var validPoints := ValidPoints(data);
    if |validPoints| < 2 {
      return None;
    }
    var bounds := ResolveDomain(validPoints, xDomain);
    var xStart, xEnd := bounds.0, bounds.1;
    var logYValues := LogPoints(validPoints, log10);

    var sumW, sumWX, sumWY, sumWXY, sumWX2 := AccumulateSums(logYValues);
    var sums := Sums(sumW, sumWX, sumWY, sumWXY, sumWX2);
    if sumW == 0.0 {
      return None;
    }
    var denominator := Denominator(sums);
    if denominator == 0.0 {
      return None;
    }
    var slope := Slope(sums);
    var intercept := Intercept(sums, slope);

    var meanY := MeanY(sums);
    var totalSumSquares, residualSumSquares :=
      AccumulateSumsOfSquares(logYValues, meanY, intercept, slope);

    var rSquared := RSquared(totalSumSquares, residualSumSquares);
    var startY := pow10(Predicted(intercept, slope, xStart));
    var endY := pow10(Predicted(intercept, slope, xEnd));
    result := Some(RegressionResult(
      (RegressionPoint(xStart, startY), RegressionPoint(xEnd, endY)),
      slope, intercept, rSquared));
  }
}
