/**
 * The regression on small concrete inputs. `log10` and `pow10` are only
 * required to agree with the true functions at the points used.
 */
module WorkedExamples {
  import opened ChartTypes
  import opened WageRegression
  import opened RegressionProperties
  import opened FitProperties

  /** A finite observation without employment (weight 1). */
  function Datum(x: real, y: real): ChartDatum {
    ChartDatum(Finite(x), Finite(y), None)
  }

  /** Three positive-wage observations without employment become three unit-weight log points. */
  lemma ThreeUnitPoints(x0: real, y0: real, x1: real, y1: real, x2: real, y2: real, log10: real -> real)
    requires y0 > 0.0 && y1 > 0.0 && y2 > 0.0
    ensures ValidPoints([Datum(x0, y0), Datum(x1, y1), Datum(x2, y2)]) ==
      [WeightedPoint(x0, y0, 1.0), WeightedPoint(x1, y1, 1.0), WeightedPoint(x2, y2, 1.0)]
    ensures LogPoints(ValidPoints([Datum(x0, y0), Datum(x1, y1), Datum(x2, y2)]), log10) ==
      [LogPoint(x0, log10(y0), 1.0), LogPoint(x1, log10(y1), 1.0), LogPoint(x2, log10(y2), 1.0)]
  {
    var data := [Datum(x0, y0), Datum(x1, y1), Datum(x2, y2)];
    assert data[1..] == [Datum(x1, y1), Datum(x2, y2)] && data[1..][1..] == [Datum(x2, y2)];
    assert data[1..][1..][1..] == [];
    assert ValidPoints(data[1..][1..]) == [WeightedPoint(x2, y2, 1.0)];
    assert ValidPoints(data[1..]) == [WeightedPoint(x1, y1, 1.0), WeightedPoint(x2, y2, 1.0)];
  }

  /** Three unit-weight log points whose first two x values differ give a non-degenerate fit. */
  lemma ThreeUnitPointsNonDegenerate(ps: seq<LogPoint>)
    requires |ps| == 3 && NonNegativeWeights(ps)
    requires ps[0].x != ps[1].x && ps[0].w == 1.0 && ps[1].w == 1.0
    ensures SumsOf(ps).w != 0.0 && Denominator(SumsOf(ps)) != 0.0
  {
    TotalWeightZeroIff(ps);
    assert ps[0].w != 0.0;
    DegenerateIffSingleX(ps);
  }

  /** Without supplied bounds, points at x = 1, 2, 3 give the segment [1, 3]. */
  lemma DataRangeOneToThree(v: seq<WeightedPoint>)
    requires |v| == 3 && v[0].x == 1.0 && v[1].x == 2.0 && v[2].x == 3.0
    ensures ResolveDomain(v, (None, None)) == (1.0, 3.0)
  {
    var bounds := ResolveDomain(v, (None, None));
    assert bounds.0 <= v[0].x && bounds.1 >= v[2].x;
  }

  /** Wages 10, 100, 1000 at x = 0, 1, 2 over the domain [0, 2]: log10(wage) = 1 + x exactly. */
  lemma TenfoldPerStepOverSuppliedDomain(log10: real -> real, pow10: real -> real)
    requires log10(10.0) == 1.0 && log10(100.0) == 2.0 && log10(1000.0) == 3.0
    requires pow10(1.0) == 10.0 && pow10(3.0) == 1000.0
    ensures LogWageRegression([Datum(0.0, 10.0), Datum(1.0, 100.0), Datum(2.0, 1000.0)],
                              (Some(0.0), Some(2.0)), log10, pow10) ==
      Some(RegressionResult((RegressionPoint(0.0, 10.0), RegressionPoint(2.0, 1000.0)), 1.0, 1.0, 1.0))
  {
    ThreeUnitPoints(0.0, 10.0, 1.0, 100.0, 2.0, 1000.0, log10);
    var ps := LogPoints(ValidPoints([Datum(0.0, 10.0), Datum(1.0, 100.0), Datum(2.0, 1000.0)]), log10);
    ThreeUnitPointsNonDegenerate(ps);
    assert OnLine(ps, 1.0, 1.0);
    PerfectFitRecovered(ps, 1.0, 1.0, 0.0, 2.0, pow10);
    assert Predicted(1.0, 1.0, 0.0) == 1.0 && Predicted(1.0, 1.0, 2.0) == 3.0;
  }

  /**
   * Wages 10, 100, 1000 at x = 1, 2, 3 with no domain bounds: slope 1,
   * intercept 0, R² 1, and the segment spans the data from x = 1 to x = 3.
   */
  lemma TenfoldPerStepOverDataRange(log10: real -> real, pow10: real -> real)
    requires log10(10.0) == 1.0 && log10(100.0) == 2.0 && log10(1000.0) == 3.0
    requires pow10(1.0) == 10.0 && pow10(3.0) == 1000.0
    ensures LogWageRegression([Datum(1.0, 10.0), Datum(2.0, 100.0), Datum(3.0, 1000.0)],
                              (None, None), log10, pow10) ==
      Some(RegressionResult((RegressionPoint(1.0, 10.0), RegressionPoint(3.0, 1000.0)), 1.0, 0.0, 1.0))
  {
    ThreeUnitPoints(1.0, 10.0, 2.0, 100.0, 3.0, 1000.0, log10);
    var v := ValidPoints([Datum(1.0, 10.0), Datum(2.0, 100.0), Datum(3.0, 1000.0)]);
    DataRangeOneToThree(v);
    var ps := LogPoints(v, log10);
    ThreeUnitPointsNonDegenerate(ps);
    assert OnLine(ps, 0.0, 1.0);
    PerfectFitRecovered(ps, 0.0, 1.0, 1.0, 3.0, pow10);
    assert Predicted(0.0, 1.0, 1.0) == 1.0 && Predicted(0.0, 1.0, 3.0) == 3.0;
  }

  /**
   * Equal wages 10 at x = 1, 2, 3: a flat line at 10 with slope 0,
   * intercept 1 and R² 0 (no variance to explain).
   */
  lemma EqualWagesExample(log10: real -> real, pow10: real -> real)
    requires log10(10.0) == 1.0 && pow10(1.0) == 10.0
    ensures LogWageRegression([Datum(1.0, 10.0), Datum(2.0, 10.0), Datum(3.0, 10.0)],
                              (None, None), log10, pow10) ==
      Some(RegressionResult((RegressionPoint(1.0, 10.0), RegressionPoint(3.0, 10.0)), 0.0, 1.0, 0.0))
  {
    ThreeUnitPoints(1.0, 10.0, 2.0, 10.0, 3.0, 10.0, log10);
    var v := ValidPoints([Datum(1.0, 10.0), Datum(2.0, 10.0), Datum(3.0, 10.0)]);
    DataRangeOneToThree(v);
    var ps := LogPoints(v, log10);
    ThreeUnitPointsNonDegenerate(ps);
    assert OnLine(ps, 1.0, 0.0);
    PerfectFitRecovered(ps, 1.0, 0.0, 1.0, 3.0, pow10);
    assert Predicted(1.0, 0.0, 1.0) == 1.0 && Predicted(1.0, 0.0, 3.0) == 1.0;
  }

  /** One valid point among invalid ones (non-finite x, non-positive wage) gives no line. */
  lemma SingleValidPointExample(log10: real -> real, pow10: real -> real)
    ensures LogWageRegression([Datum(1.0, 10.0), ChartDatum(NaN, Finite(20.0), None),
                               ChartDatum(Finite(2.0), Infinity, None), Datum(3.0, 0.0),
                               Datum(4.0, -5.0)],
                              (None, None), log10, pow10) == None
  {
    var data := [Datum(1.0, 10.0), ChartDatum(NaN, Finite(20.0), None),
                 ChartDatum(Finite(2.0), Infinity, None), Datum(3.0, 0.0), Datum(4.0, -5.0)];
    assert data[1..][1..][1..][1..][1..] == [];
    assert ValidPoints(data) == [WeightedPoint(1.0, 10.0, 1.0)];
  }
}
