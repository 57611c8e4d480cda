/**
 * Properties of the fitted line: it solves the normal equations, it passes
 * through the weighted mean, it recovers a line the points lie on
 * exactly, and its R² lies in [0, 1].
 */
module FitProperties {
  import opened WageRegression
  import opened RegressionProperties

  // ---------------------------------------------------------------------
  // Scalar algebra
  // ---------------------------------------------------------------------

  lemma DivideOut(n: real, d: real, q: real)
    requires d != 0.0 && n == q * d
    ensures n / d == q
  {
  }

  lemma ProductZero(a: real, b: real)
    requires a == 0.0 || b == 0.0
    ensures a * b == 0.0
  {
  }

  /** The line through (wx / w, ·) with intercept (wy − b·wx) / w takes the value wy / w there. */
  lemma MeanOnLine(w: real, wx: real, wy: real, b: real)
    requires w != 0.0
    ensures Predicted((wy - b * wx) / w, b, wx / w) == wy / w
  {
    assert ((wy - b * wx) / w) * w == wy - b * wx;
    assert (wx / w) * w == wx;
    assert ((wy - b * wx) / w + b * (wx / w)) * w == wy;
    DivideOut(wy, w, (wy - b * wx) / w + b * (wx / w));
  }

  /** The components of a fit, named by the closed-form helpers. */
  lemma FitComponents(ps: seq<LogPoint>, xStart: real, xEnd: real, pow10: real -> real)
    requires FitLogPoints(ps, xStart, xEnd, pow10).Some?
    ensures SumsOf(ps).w != 0.0 && Denominator(SumsOf(ps)) != 0.0
    ensures FitLogPoints(ps, xStart, xEnd, pow10).value.slope == Slope(SumsOf(ps))
    ensures FitLogPoints(ps, xStart, xEnd, pow10).value.intercept == Intercept(SumsOf(ps), Slope(SumsOf(ps)))
    ensures FitLogPoints(ps, xStart, xEnd, pow10).value.rSquared ==
      RSquared(TotalSS(ps, MeanY(SumsOf(ps))),
               ResidualSS(ps, Intercept(SumsOf(ps), Slope(SumsOf(ps))), Slope(SumsOf(ps))))
  {
  }

  /** For any slope b, the line with the closed-form intercept passes through the weighted mean. */
  lemma MeanOnFitLine(s: Sums, b: real)
    requires s.w != 0.0
    ensures Predicted(Intercept(s, b), b, s.wx / s.w) == MeanY(s)
  {
    MeanOnLine(s.w, s.wx, s.wy, b);
  }

  // ---------------------------------------------------------------------
  // The line through the weighted mean
  // ---------------------------------------------------------------------

  /** The fitted line passes through the weighted mean (Σw·x / Σw, Σw·y / Σw). */
  lemma FitPassesThroughWeightedMean(ps: seq<LogPoint>, xStart: real, xEnd: real, pow10: real -> real)
    requires FitLogPoints(ps, xStart, xEnd, pow10).Some?
    ensures SumsOf(ps).w != 0.0
    ensures Predicted(FitLogPoints(ps, xStart, xEnd, pow10).value.intercept,
                      FitLogPoints(ps, xStart, xEnd, pow10).value.slope,
                      SumsOf(ps).wx / SumsOf(ps).w) == MeanY(SumsOf(ps))
  {
    FitComponents(ps, xStart, xEnd, pow10);
    MeanOnFitLine(SumsOf(ps), Slope(SumsOf(ps)));
  }

  // ---------------------------------------------------------------------
  // The normal equations
  // ---------------------------------------------------------------------

  /** Σw·(y − (a + b·x)), in terms of the sums. */
  ghost function FirstNormal(s: Sums, a: real, b: real): real {
    s.wy - a * s.w - b * s.wx
  }

  /** Σw·x·(y − (a + b·x)), in terms of the sums. */
  ghost function SecondNormal(s: Sums, a: real, b: real): real {
    s.wxy - a * s.wx - b * s.wx2
  }

  lemma NormalTerms(p: LogPoint, a: real, b: real)
    ensures FirstNormal(Terms(p), a, b) == p.w * (p.y - Predicted(a, b, p.x))
    ensures SecondNormal(Terms(p), a, b) == p.w * p.x * (p.y - Predicted(a, b, p.x))
  {
  }

  lemma NormalAdd(s: Sums, t: Sums, a: real, b: real)
    ensures FirstNormal(AddSums(s, t), a, b) == FirstNormal(s, a, b) + FirstNormal(t, a, b)
    ensures SecondNormal(AddSums(s, t), a, b) == SecondNormal(s, a, b) + SecondNormal(t, a, b)
  {
  }

  lemma OnLinePrefix(ps: seq<LogPoint>, a: real, b: real)
    requires |ps| > 0 && OnLine(ps, a, b)
    ensures OnLine(ps[..|ps| - 1], a, b)
    ensures ps[|ps| - 1].w != 0.0 ==> ps[|ps| - 1].y == Predicted(a, b, ps[|ps| - 1].x)
  {
    var init := ps[..|ps| - 1];
    forall k | 0 <= k < |init| && init[k].w != 0.0
      ensures init[k].y == Predicted(a, b, init[k].x)
    {
      assert init[k] == ps[k];
    }
  }

  /** Points that all lie on y = a + b·x satisfy both normal equations of that line. */
  lemma {:induction false} OnLineNormal(ps: seq<LogPoint>, a: real, b: real)
    requires OnLine(ps, a, b)
    ensures FirstNormal(SumsOf(ps), a, b) == 0.0
    ensures SecondNormal(SumsOf(ps), a, b) == 0.0
  {
    if |ps| > 0 {
      var init, p := ps[..|ps| - 1], ps[|ps| - 1];
      assert SumsOf(ps) == AddSums(SumsOf(init), Terms(p));
      OnLinePrefix(ps, a, b);
      OnLineNormal(init, a, b);
      NormalTerms(p, a, b);
      NormalAdd(SumsOf(init), Terms(p), a, b);
      ProductZero(p.w, p.y - Predicted(a, b, p.x));
      if p.w == 0.0 {
        ProductZero(p.w, p.x);
      }
      ProductZero(p.w * p.x, p.y - Predicted(a, b, p.x));
    }
  }

  lemma NumeratorOnLine(w: real, wx: real, wy: real, wxy: real, wx2: real, a: real, b: real)
    requires wy == a * w + b * wx && wxy == a * wx + b * wx2
    ensures w * wxy - wx * wy == b * (w * wx2 - wx * wx)
  {
  }

  /** The closed-form slope of sums that satisfy the normal equations of y = a + b·x is b. */
  lemma SlopeOfExactLine(s: Sums, a: real, b: real)
    requires FirstNormal(s, a, b) == 0.0 && SecondNormal(s, a, b) == 0.0 && Denominator(s) != 0.0
    ensures Slope(s) == b
  {
    NumeratorOnLine(s.w, s.wx, s.wy, s.wxy, s.wx2, a, b);
    DivideOut(s.w * s.wxy - s.wx * s.wy, Denominator(s), b);
  }

  /** The closed-form intercept, given slope b, of sums satisfying the first normal equation is a. */
  lemma InterceptOfExactLine(s: Sums, a: real, b: real)
    requires FirstNormal(s, a, b) == 0.0 && s.w != 0.0
    ensures Intercept(s, b) == a
  {
    DivideOut(s.wy - b * s.wx, s.w, a);
  }

  /**
   * The closed-form slope and intercept solve both normal equations: the
   * weighted residuals sum to zero, and so do the residuals weighted by x.
   */
  lemma NormalEquationsAtFit(s: Sums)
    requires s.w != 0.0 && Denominator(s) != 0.0
    ensures FirstNormal(s, Intercept(s, Slope(s)), Slope(s)) == 0.0
    ensures SecondNormal(s, Intercept(s, Slope(s)), Slope(s)) == 0.0
  {
    var b := Slope(s);
    var a := Intercept(s, b);
    assert a * s.w == s.wy - b * s.wx;
    assert b * Denominator(s) == s.w * s.wxy - s.wx * s.wy;
    calc {
      s.w * SecondNormal(s, a, b);
      s.w * s.wxy - s.wx * (a * s.w) - b * (s.w * s.wx2);
      s.w * s.wxy - s.wx * (s.wy - b * s.wx) - b * (s.w * s.wx2);
      (s.w * s.wxy - s.wx * s.wy) - b * Denominator(s);
      0.0;
    }
    ZeroFactorOf(s.w, SecondNormal(s, a, b));
  }

  /**
   * Every fit solves the weighted least-squares normal equations for its
   * own intercept and slope; with a non-zero determinant these determine
   * the line (`SlopeOfExactLine`, `InterceptOfExactLine`).
   */
  lemma FitSolvesNormalEquations(ps: seq<LogPoint>, xStart: real, xEnd: real, pow10: real -> real)
    requires FitLogPoints(ps, xStart, xEnd, pow10).Some?
    ensures FirstNormal(SumsOf(ps), FitLogPoints(ps, xStart, xEnd, pow10).value.intercept,
                        FitLogPoints(ps, xStart, xEnd, pow10).value.slope) == 0.0
    ensures SecondNormal(SumsOf(ps), FitLogPoints(ps, xStart, xEnd, pow10).value.intercept,
                         FitLogPoints(ps, xStart, xEnd, pow10).value.slope) == 0.0
  {
    FitComponents(ps, xStart, xEnd, pow10);
    NormalEquationsAtFit(SumsOf(ps));
  }

  lemma SquareZero(v: real)
    requires v == 0.0
    ensures Square(v) == 0.0
  {
  }

  lemma WeightedSquareOfZero(w: real, d: real)
    requires w == 0.0 || d == 0.0
    ensures WeightedSquare(w, d) == 0.0
  {
    if d == 0.0 {
      SquareZero(d);
    }
    ProductZero(w, Square(d));
  }

  /** The residual sum of squares of a line all points lie on is zero. */
  lemma {:induction false} OnLineResidualZero(ps: seq<LogPoint>, a: real, b: real)
    requires OnLine(ps, a, b)
    ensures ResidualSS(ps, a, b) == 0.0
  {
    if |ps| > 0 {
      var init, p := ps[..|ps| - 1], ps[|ps| - 1];
      assert ResidualSS(ps, a, b) == ResidualSS(init, a, b) + WeightedSquare(p.w, p.y - Predicted(a, b, p.x));
      OnLinePrefix(ps, a, b);
      OnLineResidualZero(init, a, b);
      WeightedSquareOfZero(p.w, p.y - Predicted(a, b, p.x));
    }
  }

  // ---------------------------------------------------------------------
  // Explained and unexplained variance
  // ---------------------------------------------------------------------

  lemma MultiplyEqual(k: real, x: real, y: real)
    requires x == y
    ensures k * x == k * y
  {
  }

  /** w·RSS written out once the intercept satisfies a·w = Σw·y − b·Σw·x. */
  lemma ResidualAtIntercept(s: Sums, syy: real, a: real, b: real)
    requires a * s.w == s.wy - b * s.wx
    ensures s.w * ResidualQuadratic(s, syy, a, b) ==
      s.w * syy - s.wy * s.wy - 2.0 * b * (s.w * s.wxy - s.wx * s.wy) + b * b * Denominator(s)
  {
    calc {
      s.w * ResidualQuadratic(s, syy, a, b);
    ==
      s.w * syy - 2.0 * (a * s.w) * s.wy - 2.0 * b * (s.w * s.wxy) + (a * s.w) * (a * s.w)
        + 2.0 * b * (a * s.w) * s.wx + b * b * (s.w * s.wx2);
    ==
      s.w * syy - 2.0 * (s.wy - b * s.wx) * s.wy - 2.0 * b * (s.w * s.wxy)
        + (s.wy - b * s.wx) * (s.wy - b * s.wx)
        + 2.0 * b * (s.wy - b * s.wx) * s.wx + b * b * (s.w * s.wx2);
    }
  }

  /** w·TSS around the mean m (m·w = Σw·y) is w·Σw·y² − (Σw·y)². */
  lemma TotalAtMean(s: Sums, syy: real, m: real)
    requires m * s.w == s.wy
    ensures s.w * TotalQuadratic(s, syy, m) == s.w * syy - s.wy * s.wy
  {
    assert s.w * TotalQuadratic(s, syy, m) == s.w * syy - 2.0 * (m * s.w) * s.wy + (m * s.w) * (m * s.w);
  }

  /**
   * For the least-squares line (a·w = Σw·y − b·Σw·x, b·D = Σw·Σw·x·y − Σw·x·Σw·y)
   * and the mean m (m·w = Σw·y): w·RSS = w·TSS − b²·D.
   */
  lemma ResidualIdentity(s: Sums, syy: real, a: real, b: real, m: real)
    requires a * s.w == s.wy - b * s.wx
    requires b * Denominator(s) == s.w * s.wxy - s.wx * s.wy
    requires m * s.w == s.wy
    ensures s.w * ResidualQuadratic(s, syy, a, b) ==
      s.w * TotalQuadratic(s, syy, m) - Square(b) * Denominator(s)
  {
    ResidualAtIntercept(s, syy, a, b);
    TotalAtMean(s, syy, m);
    MultiplyEqual(b, s.w * s.wxy - s.wx * s.wy, b * Denominator(s));
    assert Square(b) == b * b;
  }

  /** The identity at the closed-form intercept, slope and mean of `s`. */
  lemma ResidualIdentityAtFit(s: Sums, syy: real)
    requires s.w != 0.0 && Denominator(s) != 0.0
    ensures s.w * ResidualQuadratic(s, syy, Intercept(s, Slope(s)), Slope(s)) ==
      s.w * TotalQuadratic(s, syy, MeanY(s)) - Square(Slope(s)) * Denominator(s)
  {
    assert Intercept(s, Slope(s)) * s.w == s.wy - Slope(s) * s.wx;
    assert Slope(s) * Denominator(s) == s.w * s.wxy - s.wx * s.wy;
    assert MeanY(s) * s.w == s.wy;
    ResidualIdentity(s, syy, Intercept(s, Slope(s)), Slope(s), MeanY(s));
  }

  /** The fit's sums of squares differ by the explained part: w·RSS = w·TSS − slope²·D. */
  lemma FitResidualIdentity(ps: seq<LogPoint>, xStart: real, xEnd: real, pow10: real -> real)
    requires FitLogPoints(ps, xStart, xEnd, pow10).Some?
    ensures SumsOf(ps).w != 0.0 && Denominator(SumsOf(ps)) != 0.0
    ensures SumsOf(ps).w * ResidualSS(ps, Intercept(SumsOf(ps), Slope(SumsOf(ps))), Slope(SumsOf(ps))) ==
      SumsOf(ps).w * TotalSS(ps, MeanY(SumsOf(ps))) - Square(Slope(SumsOf(ps))) * Denominator(SumsOf(ps))
  {
    FitComponents(ps, xStart, xEnd, pow10);
    ResidualExpansion(ps, Intercept(SumsOf(ps), Slope(SumsOf(ps))), Slope(SumsOf(ps)));
    TotalExpansion(ps, MeanY(SumsOf(ps)));
    ResidualIdentityAtFit(SumsOf(ps), SumWYY(ps));
    MultiplyEqual(SumsOf(ps).w, ResidualSS(ps, Intercept(SumsOf(ps), Slope(SumsOf(ps))), Slope(SumsOf(ps))),
                  ResidualQuadratic(SumsOf(ps), SumWYY(ps), Intercept(SumsOf(ps), Slope(SumsOf(ps))), Slope(SumsOf(ps))));
    MultiplyEqual(SumsOf(ps).w, TotalSS(ps, MeanY(SumsOf(ps))), TotalQuadratic(SumsOf(ps), SumWYY(ps), MeanY(SumsOf(ps))));
  }

  lemma NonNegativeProduct(a: real, b: real, q: real)
    requires a >= 0.0 && b >= 0.0 && q == a * b
    ensures q >= 0.0
  {
  }

  lemma CancelPositive(w: real, x: real, y: real)
    requires w > 0.0 && w * x <= w * y
    ensures x <= y
  {
  }

  lemma RatioInUnitInterval(x: real, y: real)
    requires 0.0 <= x <= y && y > 0.0
    ensures 0.0 <= x / y <= 1.0
  {
  }

  /**
   * With clamped weights, R² of any fit lies in [0, 1]: the residual sum
   * of squares is never negative and never exceeds the total.
   */
  lemma RSquaredInUnitInterval(ps: seq<LogPoint>, xStart: real, xEnd: real, pow10: real -> real)
    requires NonNegativeWeights(ps)
    requires FitLogPoints(ps, xStart, xEnd, pow10).Some?
    ensures 0.0 <= FitLogPoints(ps, xStart, xEnd, pow10).value.rSquared <= 1.0
  {
    FitComponents(ps, xStart, xEnd, pow10);
    FitResidualIdentity(ps, xStart, xEnd, pow10);
    var s := SumsOf(ps);
    var b := Slope(s);
    var a := Intercept(s, b);
    var tss, rss := TotalSS(ps, MeanY(s)), ResidualSS(ps, a, b);
    TotalWeightZeroIff(ps);
    DegenerateIffSingleX(ps);
    TotalSSNonNegative(ps, MeanY(s));
    ResidualSSNonNegative(ps, a, b);
    NonNegativeProduct(Square(b), Denominator(s), Square(b) * Denominator(s));
    CancelPositive(s.w, rss, tss);
    if tss > 0.0 {
      RatioInUnitInterval(rss, tss);
    }
  }

  lemma PositiveFactor(w: real, x: real)
    requires w > 0.0 && w * x > 0.0
    ensures x > 0.0
  {
  }

  lemma ZeroFactorOf(w: real, x: real)
    requires w != 0.0 && w * x == 0.0
    ensures x == 0.0
  {
  }

  /**
   * With clamped weights, a fit whose residual sum of squares is zero has
   * R² 1 when its slope is non-zero and R² 0 (no variance) when it is flat.
   */
  lemma RSquaredOfExactFit(ps: seq<LogPoint>, xStart: real, xEnd: real, pow10: real -> real)
    requires NonNegativeWeights(ps)
    requires FitLogPoints(ps, xStart, xEnd, pow10).Some?
    requires ResidualSS(ps, Intercept(SumsOf(ps), Slope(SumsOf(ps))), Slope(SumsOf(ps))) == 0.0
    ensures FitLogPoints(ps, xStart, xEnd, pow10).value.rSquared ==
      (if FitLogPoints(ps, xStart, xEnd, pow10).value.slope != 0.0 then 1.0 else 0.0)
  {
    FitComponents(ps, xStart, xEnd, pow10);
    FitResidualIdentity(ps, xStart, xEnd, pow10);
    TotalWeightZeroIff(ps);
    DegenerateIffSingleX(ps);
    ProductZero(SumsOf(ps).w, ResidualSS(ps, Intercept(SumsOf(ps), Slope(SumsOf(ps))), Slope(SumsOf(ps))));
    if Slope(SumsOf(ps)) != 0.0 {
      SquarePositive(Slope(SumsOf(ps)));
      PositiveProduct(Square(Slope(SumsOf(ps))), Denominator(SumsOf(ps)),
                      Square(Slope(SumsOf(ps))) * Denominator(SumsOf(ps)));
      PositiveFactor(SumsOf(ps).w, TotalSS(ps, MeanY(SumsOf(ps))));
    } else {
      SquareZero(Slope(SumsOf(ps)));
      ProductZero(Square(Slope(SumsOf(ps))), Denominator(SumsOf(ps)));
      ZeroFactorOf(SumsOf(ps).w, TotalSS(ps, MeanY(SumsOf(ps))));
    }
  }

  // ---------------------------------------------------------------------
  // Exact lines
  // ---------------------------------------------------------------------

  /**
   * When every weighted point lies on y = a + b·x and the fit is not
   * degenerate, the fit recovers slope b and intercept a with zero
   * residual; with clamped weights R² is 1 for a sloped line and 0 for a
   * flat one (no variance to explain).
   */
  lemma PerfectFitRecovered(ps: seq<LogPoint>, a: real, b: real, xStart: real, xEnd: real, pow10: real -> real)
    requires OnLine(ps, a, b)
    requires SumsOf(ps).w != 0.0 && Denominator(SumsOf(ps)) != 0.0
    ensures FitLogPoints(ps, xStart, xEnd, pow10).Some?
    ensures FitLogPoints(ps, xStart, xEnd, pow10).value.slope == b
    ensures FitLogPoints(ps, xStart, xEnd, pow10).value.intercept == a
    ensures ResidualSS(ps, a, b) == 0.0
    ensures NonNegativeWeights(ps) ==>
      FitLogPoints(ps, xStart, xEnd, pow10).value.rSquared == (if b != 0.0 then 1.0 else 0.0)
  {
    FitComponents(ps, xStart, xEnd, pow10);
    OnLineNormal(ps, a, b);
    SlopeOfExactLine(SumsOf(ps), a, b);
    InterceptOfExactLine(SumsOf(ps), a, b);
    OnLineResidualZero(ps, a, b);
    if NonNegativeWeights(ps) {
      RSquaredOfExactFit(ps, xStart, xEnd, pow10);
    }
  }

  /**
   * When every weighted point has the same log wage c, a non-degenerate
   * fit is the flat line at c, and with clamped weights its R² is 0.
   */
  lemma ConstantLogWageGivesFlatLine(ps: seq<LogPoint>, c: real, xStart: real, xEnd: real, pow10: real -> real)
    requires SingleY(ps, c)
    requires FitLogPoints(ps, xStart, xEnd, pow10).Some?
    ensures FitLogPoints(ps, xStart, xEnd, pow10).value.slope == 0.0
    ensures FitLogPoints(ps, xStart, xEnd, pow10).value.intercept == c
    ensures NonNegativeWeights(ps) ==> FitLogPoints(ps, xStart, xEnd, pow10).value.rSquared == 0.0
  {
    forall k | 0 <= k < |ps| && ps[k].w != 0.0
      ensures ps[k].y == Predicted(c, 0.0, ps[k].x)
    {
    }
    FitComponents(ps, xStart, xEnd, pow10);
    PerfectFitRecovered(ps, c, 0.0, xStart, xEnd, pow10);
  }
}
