/**
 * Properties of the whole regression, stated on the chart data: how
 * invalid points, missing and negative employment, and degenerate inputs
 * show in the result.
 */
module DataProperties {
  import opened ChartTypes
  import opened WageRegression
  import opened RegressionProperties
  import opened FitProperties

  // ---------------------------------------------------------------------
  // The filter
  // ---------------------------------------------------------------------

  /** Filtering distributes over concatenation: order is kept. */
  lemma {:induction false} ValidPointsAppend(a: seq<ChartDatum>, b: seq<ChartDatum>)
    ensures ValidPoints(a + b) == ValidPoints(a) + ValidPoints(b)
  {
    if |a| > 0 {
      assert (a + b)[1..] == a[1..] + b;
      ValidPointsAppend(a[1..], b);
    } else {
      assert a + b == b;
    }
  }

  /** Every valid point comes from a valid datum, and every valid datum yields one. */
  lemma {:induction false} ValidPointsOrigin(data: seq<ChartDatum>)
    ensures forall k :: 0 <= k < |ValidPoints(data)| ==>
      exists j :: 0 <= j < |data| && IsValidRegressionPoint(data[j]) && ToWeighted(data[j]) == ValidPoints(data)[k]
    ensures forall j :: 0 <= j < |data| && IsValidRegressionPoint(data[j]) ==> ToWeighted(data[j]) in ValidPoints(data)
  {
    if |data| > 0 {
      ValidPointsOrigin(data[1..]);
      var head := if IsValidRegressionPoint(data[0]) then [ToWeighted(data[0])] else [];
      var rest := ValidPoints(data[1..]);
      assert ValidPoints(data) == head + rest;
      forall k | 0 <= k < |ValidPoints(data)|
        ensures exists j :: 0 <= j < |data| && IsValidRegressionPoint(data[j]) && ToWeighted(data[j]) == ValidPoints(data)[k]
      {
        if k < |head| {
          assert IsValidRegressionPoint(data[0]) && ToWeighted(data[0]) == ValidPoints(data)[k];
        } else {
          var j :| 0 <= j < |data[1..]| && IsValidRegressionPoint(data[1..][j]) && ToWeighted(data[1..][j]) == rest[k - |head|];
          assert data[1..][j] == data[j + 1];
        }
      }
      assert forall k :: 0 <= k < |ValidPoints(data)| ==>
        exists j :: 0 <= j < |data| && IsValidRegressionPoint(data[j]) && ToWeighted(data[j]) == ValidPoints(data)[k];
      forall j | 0 <= j < |data| && IsValidRegressionPoint(data[j])
        ensures ToWeighted(data[j]) in ValidPoints(data)
      {
        if j == 0 {
          assert ValidPoints(data)[0] == ToWeighted(data[0]);
        } else {
          assert data[1..][j - 1] == data[j];
          assert ToWeighted(data[j]) in rest;
        }
      }
    } else {
      assert ValidPoints(data) == [];
    }
  }

  /** The result depends on the data only through the valid points. */
  lemma SameValidPointsSameResult(d1: seq<ChartDatum>, d2: seq<ChartDatum>, xDomain: Domain,
                                  log10: real -> real, pow10: real -> real)
    requires ValidPoints(d1) == ValidPoints(d2)
    ensures LogWageRegression(d1, xDomain, log10, pow10) == LogWageRegression(d2, xDomain, log10, pow10)
  {
  }

  /** Filtering drops a datum that is not a valid regression point and keeps the rest in order. */
  lemma ValidPointsSkipInvalid(before: seq<ChartDatum>, d: ChartDatum, after: seq<ChartDatum>)
    requires !IsValidRegressionPoint(d)
    ensures ValidPoints(before + [d] + after) == ValidPoints(before + after)
  {
    ValidPointsAppend([d], after);
    assert ValidPoints([d]) == [] + ValidPoints([d][1..]);
    assert before + [d] + after == before + ([d] + after);
    ValidPointsAppend(before, [d] + after);
    ValidPointsAppend(before, after);
  }

  /** Inserting a datum that is not a valid regression point anywhere changes nothing. */
  lemma InvalidPointIgnored(before: seq<ChartDatum>, d: ChartDatum, after: seq<ChartDatum>,
                            xDomain: Domain, log10: real -> real, pow10: real -> real)
    requires !IsValidRegressionPoint(d)
    ensures LogWageRegression(before + [d] + after, xDomain, log10, pow10) ==
      LogWageRegression(before + after, xDomain, log10, pow10)
  {
    ValidPointsSkipInvalid(before, d, after);
    SameValidPointsSameResult(before + [d] + after, before + after, xDomain, log10, pow10);
  }

  // ---------------------------------------------------------------------
  // Weights
  // ---------------------------------------------------------------------

  /** Two data that the regression cannot tell apart: same validity, position and clamped weight. */
  ghost predicate SameWeightedView(p: ChartDatum, q: ChartDatum) {
    IsValidRegressionPoint(p) == IsValidRegressionPoint(q) &&
    (IsValidRegressionPoint(p) ==>
      p.x == q.x && p.y == q.y && ClampWeight(Weight(p)) == ClampWeight(Weight(q)))
  }

  lemma {:induction false} ValidPointsCorrespond(d1: seq<ChartDatum>, d2: seq<ChartDatum>)
    requires |d1| == |d2|
    requires forall k :: 0 <= k < |d1| ==> SameWeightedView(d1[k], d2[k])
    ensures |ValidPoints(d1)| == |ValidPoints(d2)|
    ensures forall k :: 0 <= k < |ValidPoints(d1)| ==>
      ValidPoints(d1)[k].x == ValidPoints(d2)[k].x &&
      ValidPoints(d1)[k].y == ValidPoints(d2)[k].y &&
      ClampWeight(ValidPoints(d1)[k].weight) == ClampWeight(ValidPoints(d2)[k].weight)
  {
    if |d1| > 0 {
      assert SameWeightedView(d1[0], d2[0]);
      assert forall k :: 0 <= k < |d1[1..]| ==> d1[1..][k] == d1[k + 1] && d2[1..][k] == d2[k + 1];
      ValidPointsCorrespond(d1[1..], d2[1..]);
    }
  }

  /** Data the regression cannot tell apart, point by point, give the same result. */
  lemma SameWeightedViewSameResult(d1: seq<ChartDatum>, d2: seq<ChartDatum>, xDomain: Domain,
                                   log10: real -> real, pow10: real -> real)
    requires |d1| == |d2|
    requires forall k :: 0 <= k < |d1| ==> SameWeightedView(d1[k], d2[k])
    ensures LogWageRegression(d1, xDomain, log10, pow10) == LogWageRegression(d2, xDomain, log10, pow10)
  {
    ValidPointsCorrespond(d1, d2);
    var v1, v2 := ValidPoints(d1), ValidPoints(d2);
    if |v1| >= 2 {
      assert XValues(v1) == XValues(v2);
      assert ResolveDomain(v1, xDomain) == ResolveDomain(v2, xDomain);
      var l1, l2 := LogPoints(v1, log10), LogPoints(v2, log10);
      forall k | 0 <= k < |l1| ensures l1[k] == l2[k] {
        assert ClampWeight(v1[k].weight) == ClampWeight(v2[k].weight);
      }
      assert l1 == l2;
    }
  }

  /** A datum without employment counts exactly like one with employment 1. */
  lemma MissingWeightCountsAsOne(data: seq<ChartDatum>, i: nat, xDomain: Domain,
                                 log10: real -> real, pow10: real -> real)
    requires i < |data| && data[i].employment.None?
    ensures LogWageRegression(data[i := data[i].(employment := Some(1.0))], xDomain, log10, pow10) ==
      LogWageRegression(data, xDomain, log10, pow10)
  {
    var changed := data[i := data[i].(employment := Some(1.0))];
    assert forall k :: 0 <= k < |changed| ==> SameWeightedView(changed[k], data[k]);
    SameWeightedViewSameResult(changed, data, xDomain, log10, pow10);
  }

  /** A datum with negative employment counts exactly like one with employment 0. */
  lemma NegativeWeightCountsAsZero(data: seq<ChartDatum>, i: nat, xDomain: Domain,
                                   log10: real -> real, pow10: real -> real)
    requires i < |data| && data[i].employment.Some? && data[i].employment.value < 0.0
    ensures LogWageRegression(data[i := data[i].(employment := Some(0.0))], xDomain, log10, pow10) ==
      LogWageRegression(data, xDomain, log10, pow10)
  {
    var changed := data[i := data[i].(employment := Some(0.0))];
    assert forall k :: 0 <= k < |changed| ==> SameWeightedView(changed[k], data[k]);
    SameWeightedViewSameResult(changed, data, xDomain, log10, pow10);
  }

  /** A log point with weight 0 adds nothing to any of the sums, so the fit ignores it. */
  lemma ZeroWeightPointDoesNotMoveFit(ps: seq<LogPoint>, x: real, y: real,
                                      xStart: real, xEnd: real, pow10: real -> real)
    ensures FitLogPoints(ps + [LogPoint(x, y, 0.0)], xStart, xEnd, pow10) ==
      FitLogPoints(ps, xStart, xEnd, pow10)
  {
    var p := LogPoint(x, y, 0.0);
    var q := ps + [p];
    assert q[..|q| - 1] == ps && q[|q| - 1] == p;
    assert SumsOf(q) == SumsOf(ps);
    var s := SumsOf(ps);
    if s.w != 0.0 && Denominator(s) != 0.0 {
      var b := Slope(s);
      var a := Intercept(s, b);
      assert TotalSS(q, MeanY(s)) == TotalSS(ps, MeanY(s)) + WeightedSquare(0.0, y - MeanY(s));
      assert ResidualSS(q, a, b) == ResidualSS(ps, a, b) + WeightedSquare(0.0, y - Predicted(a, b, x));
    }
  }

  lemma ValidPointsAppendValid(data: seq<ChartDatum>, d: ChartDatum)
    requires IsValidRegressionPoint(d)
    ensures ValidPoints(data + [d]) == ValidPoints(data) + [ToWeighted(d)]
  {
    ValidPointsAppend(data, [d]);
    assert ValidPoints([d]) == [ToWeighted(d)] + ValidPoints([d][1..]);
  }

  lemma LogPointsAppend(v: seq<WeightedPoint>, p: WeightedPoint, log10: real -> real)
    ensures LogPoints(v + [p], log10) == LogPoints(v, log10) + [LogPoint(p.x, log10(p.y), ClampWeight(p.weight))]
  {
    var l, l2 := LogPoints(v, log10), LogPoints(v + [p], log10);
    assert forall k :: 0 <= k < |v| ==> (v + [p])[k] == v[k];
    assert l2[|v|] == LogPoint(p.x, log10(p.y), ClampWeight(p.weight));
    assert l2 == l + [l2[|v|]];
  }

  /**
   * An explicit employment of 0 is kept as weight 0 (not replaced by the
   * default 1): with both domain bounds supplied, adding such a datum to
   * data that already give a line changes nothing.
   */
  lemma ZeroEmploymentDatumDoesNotMoveLine(data: seq<ChartDatum>, d: ChartDatum, xDomain: Domain,
                                           log10: real -> real, pow10: real -> real)
    requires IsValidRegressionPoint(d) && d.employment == Some(0.0)
    requires |ValidPoints(data)| >= 2 && xDomain.0.Some? && xDomain.1.Some?
    ensures LogWageRegression(data + [d], xDomain, log10, pow10) == LogWageRegression(data, xDomain, log10, pow10)
  {
    ValidPointsAppendValid(data, d);
    LogPointsAppend(ValidPoints(data), ToWeighted(d), log10);
    assert ResolveDomain(ValidPoints(data + [d]), xDomain) == ResolveDomain(ValidPoints(data), xDomain);
    ZeroWeightPointDoesNotMoveFit(LogPoints(ValidPoints(data), log10), d.x.value, log10(d.y.value),
                                  xDomain.0.value, xDomain.1.value, pow10);
  }

  // ---------------------------------------------------------------------
  // When there is no line
  // ---------------------------------------------------------------------

  /** No line exactly when there are fewer than two valid points, no total weight, or a zero determinant. */
  lemma NoLineIff(data: seq<ChartDatum>, xDomain: Domain, log10: real -> real, pow10: real -> real)
    ensures LogWageRegression(data, xDomain, log10, pow10).None? <==>
      |ValidPoints(data)| < 2 ||
      SumsOf(LogPoints(ValidPoints(data), log10)).w == 0.0 ||
      Denominator(SumsOf(LogPoints(ValidPoints(data), log10))) == 0.0
  {
  }

  /** If no valid datum has positive employment, there is no line. */
  lemma AllWeightsNonPositiveGiveNoLine(data: seq<ChartDatum>, xDomain: Domain,
                                        log10: real -> real, pow10: real -> real)
    requires forall k :: 0 <= k < |data| && IsValidRegressionPoint(data[k]) ==> Weight(data[k]) <= 0.0
    ensures LogWageRegression(data, xDomain, log10, pow10).None?
  {
    var v := ValidPoints(data);
    if |v| >= 2 {
      ValidPointsOrigin(data);
      var ps := LogPoints(v, log10);
      forall k | 0 <= k < |ps| ensures ps[k].w == 0.0 {
        var j :| 0 <= j < |data| && IsValidRegressionPoint(data[j]) && ToWeighted(data[j]) == v[k];
      }
      TotalWeightZeroIff(ps);
    }
  }

  /** If all valid data share one x value, there is no line (the slope is undetermined). */
  lemma SharedXGivesNoLine(data: seq<ChartDatum>, c: real, xDomain: Domain,
                           log10: real -> real, pow10: real -> real)
    requires forall k :: 0 <= k < |data| && IsValidRegressionPoint(data[k]) ==> data[k].x.value == c
    ensures LogWageRegression(data, xDomain, log10, pow10).None?
  {
    var v := ValidPoints(data);
    if |v| >= 2 {
      ValidPointsOrigin(data);
      var ps := LogPoints(v, log10);
      forall k | 0 <= k < |ps| && ps[k].w != 0.0 ensures ps[k].x == c {
        var j :| 0 <= j < |data| && IsValidRegressionPoint(data[j]) && ToWeighted(data[j]) == v[k];
      }
      assert SingleX(ps, c);
      if SumsOf(ps).w != 0.0 {
        DegenerateIffSingleX(ps);
      }
    }
  }

  /**
   * If all valid data have the same wage, any line is flat at log10 of
   * that wage and has R² 0.
   */
  lemma EqualWagesGiveFlatLine(data: seq<ChartDatum>, wage: real, xDomain: Domain,
                               log10: real -> real, pow10: real -> real)
    requires forall k :: 0 <= k < |data| && IsValidRegressionPoint(data[k]) ==> data[k].y.value == wage
    ensures LogWageRegression(data, xDomain, log10, pow10).Some? ==>
      LogWageRegression(data, xDomain, log10, pow10).value.slope == 0.0 &&
      LogWageRegression(data, xDomain, log10, pow10).value.intercept == log10(wage) &&
      LogWageRegression(data, xDomain, log10, pow10).value.rSquared == 0.0
  {
    var v := ValidPoints(data);
    if |v| >= 2 {
      ValidPointsOrigin(data);
      var ps := LogPoints(v, log10);
      forall k | 0 <= k < |ps| && ps[k].w != 0.0 ensures ps[k].y == log10(wage) {
        var j :| 0 <= j < |data| && IsValidRegressionPoint(data[j]) && ToWeighted(data[j]) == v[k];
      }
      var bounds := ResolveDomain(v, xDomain);
      if FitLogPoints(ps, bounds.0, bounds.1, pow10).Some? {
        ConstantLogWageGivesFlatLine(ps, log10(wage), bounds.0, bounds.1, pow10);
      }
    }
  }

  // ---------------------------------------------------------------------
  // The drawn segment
  // ---------------------------------------------------------------------

  /** Without supplied bounds the segment runs from the smallest to the largest valid x. */
  lemma DefaultDomainSpansData(data: seq<ChartDatum>, log10: real -> real, pow10: real -> real)
    requires LogWageRegression(data, (None, None), log10, pow10).Some?
    ensures LogWageRegression(data, (None, None), log10, pow10).value.points.0.x <=
      LogWageRegression(data, (None, None), log10, pow10).value.points.1.x
    ensures forall k :: 0 <= k < |ValidPoints(data)| ==>
      LogWageRegression(data, (None, None), log10, pow10).value.points.0.x <= ValidPoints(data)[k].x <=
      LogWageRegression(data, (None, None), log10, pow10).value.points.1.x
    ensures exists k :: 0 <= k < |ValidPoints(data)| &&
              ValidPoints(data)[k].x == LogWageRegression(data, (None, None), log10, pow10).value.points.0.x
    ensures exists k :: 0 <= k < |ValidPoints(data)| &&
              ValidPoints(data)[k].x == LogWageRegression(data, (None, None), log10, pow10).value.points.1.x
  {
    var bounds := ResolveDomain(ValidPoints(data), (None, None));
    var j :| 0 <= j < |ValidPoints(data)| && ValidPoints(data)[j].x == bounds.1;
    assert bounds.0 <= ValidPoints(data)[j].x;
  }
}
