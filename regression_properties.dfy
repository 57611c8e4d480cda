/**
 * Properties of the sums of the weighted log-linear regression: their
 * closed forms, the signs of the sums of squares, and when the total
 * weight and the determinant vanish.
 */
module RegressionProperties {
  import opened WageRegression

  // ---------------------------------------------------------------------
  // Auxiliary sums used only in proofs
  // ---------------------------------------------------------------------

  /** One point's term w·y² of Σw·y². */
  ghost function TermYY(p: LogPoint): real {
    p.w * p.y * p.y
  }

  /** Σw·y². */
  ghost function SumWYY(ps: seq<LogPoint>): real {
    if |ps| == 0 then 0.0 else SumWYY(ps[..|ps| - 1]) + TermYY(ps[|ps| - 1])
  }

  /** Σw·(x − c)², the weighted spread of the x values around `c`. */
  ghost function XSpread(ps: seq<LogPoint>, c: real): real {
    if |ps| == 0 then 0.0
    else
      var p := ps[|ps| - 1];
      XSpread(ps[..|ps| - 1], c) + WeightedSquare(p.w, p.x - c)
  }

  /** Every point that carries weight has x equal to `c`. */
  ghost predicate SingleX(ps: seq<LogPoint>, c: real) {
    forall k :: 0 <= k < |ps| && ps[k].w != 0.0 ==> ps[k].x == c
  }

  /** Every point that carries weight has log wage equal to `c`. */
  ghost predicate SingleY(ps: seq<LogPoint>, c: real) {
    forall k :: 0 <= k < |ps| && ps[k].w != 0.0 ==> ps[k].y == c
  }

  /** Every point that carries weight lies on the line y = a + b·x. */
  ghost predicate OnLine(ps: seq<LogPoint>, a: real, b: real) {
    forall k :: 0 <= k < |ps| && ps[k].w != 0.0 ==> ps[k].y == Predicted(a, b, ps[k].x)
  }

  lemma PrefixNonNegative(ps: seq<LogPoint>)
    requires |ps| > 0 && NonNegativeWeights(ps)
    ensures NonNegativeWeights(ps[..|ps| - 1]) && ps[|ps| - 1].w >= 0.0
  {
  }

  lemma WeightedSquareNonNegative(w: real, v: real)
    requires w >= 0.0
    ensures WeightedSquare(w, v) >= 0.0
  {
  }

  // ---------------------------------------------------------------------
  // Signs of the sums
  // ---------------------------------------------------------------------

  /** With clamped weights the total weight is never negative, and it is zero exactly when every weight is. */
  lemma {:induction false} TotalWeightZeroIff(ps: seq<LogPoint>)
    requires NonNegativeWeights(ps)
    ensures SumsOf(ps).w >= 0.0
    ensures SumsOf(ps).w == 0.0 <==> forall k :: 0 <= k < |ps| ==> ps[k].w == 0.0
  {
    if |ps| > 0 {
      var init := ps[..|ps| - 1];
      PrefixNonNegative(ps);
      TotalWeightZeroIff(init);
      assert forall k :: 0 <= k < |init| ==> init[k] == ps[k];
    }
  }

  /** With clamped weights the total sum of squares is never negative. */
  lemma {:induction false} TotalSSNonNegative(ps: seq<LogPoint>, meanY: real)
    requires NonNegativeWeights(ps)
    ensures TotalSS(ps, meanY) >= 0.0
  {
    if |ps| > 0 {
      var p := ps[|ps| - 1];
      PrefixNonNegative(ps);
      TotalSSNonNegative(ps[..|ps| - 1], meanY);
      WeightedSquareNonNegative(p.w, p.y - meanY);
    }
  }

  /** With clamped weights the residual sum of squares is never negative. */
  lemma {:induction false} ResidualSSNonNegative(ps: seq<LogPoint>, intercept: real, slope: real)
    requires NonNegativeWeights(ps)
    ensures ResidualSS(ps, intercept, slope) >= 0.0
  {
    if |ps| > 0 {
      var p := ps[|ps| - 1];
      PrefixNonNegative(ps);
      ResidualSSNonNegative(ps[..|ps| - 1], intercept, slope);
      WeightedSquareNonNegative(p.w, p.y - Predicted(intercept, slope, p.x));
    }
  }

  // ---------------------------------------------------------------------
  // The sums of squares as quadratic forms in the five sums
  // ---------------------------------------------------------------------

  /** Σw·(y − (a + b·x))² written out in terms of the sums. */
  ghost function ResidualQuadratic(s: Sums, syy: real, a: real, b: real): real {
    syy - 2.0 * a * s.wy - 2.0 * b * s.wxy + a * a * s.w + 2.0 * a * b * s.wx + b * b * s.wx2
  }

  lemma ResidualTerm(p: LogPoint, a: real, b: real)
    ensures WeightedSquare(p.w, p.y - Predicted(a, b, p.x)) ==
      ResidualQuadratic(Terms(p), TermYY(p), a, b)
  {
    var d := p.y - (a + b * p.x);
    assert Square(p.y - Predicted(a, b, p.x)) == d * d;
    assert d * d == p.y * p.y - 2.0 * a * p.y - 2.0 * b * p.x * p.y + a * a + 2.0 * a * b * p.x + b * b * p.x * p.x;
  }

  lemma ResidualQuadraticAdd(s: Sums, t: Sums, syy: real, tyy: real, a: real, b: real)
    ensures ResidualQuadratic(AddSums(s, t), syy + tyy, a, b) ==
      ResidualQuadratic(s, syy, a, b) + ResidualQuadratic(t, tyy, a, b)
  {
  }

  /** The residual sum of squares of any line, in terms of the five sums and Σw·y². */
  lemma {:induction false} ResidualExpansion(ps: seq<LogPoint>, a: real, b: real)
    ensures ResidualSS(ps, a, b) == ResidualQuadratic(SumsOf(ps), SumWYY(ps), a, b)
  {
    if |ps| > 0 {
      var init, p := ps[..|ps| - 1], ps[|ps| - 1];
      assert ResidualSS(ps, a, b) == ResidualSS(init, a, b) + WeightedSquare(p.w, p.y - Predicted(a, b, p.x));
      ResidualExpansion(init, a, b);
      ResidualTerm(p, a, b);
      ResidualQuadraticAdd(SumsOf(init), Terms(p), SumWYY(init), TermYY(p), a, b);
    }
  }

  /** Σw·(y − m)² written out in terms of the sums. */
  ghost function TotalQuadratic(s: Sums, syy: real, m: real): real {
    syy - 2.0 * m * s.wy + m * m * s.w
  }

  lemma TotalTerm(p: LogPoint, m: real)
    ensures WeightedSquare(p.w, p.y - m) == TotalQuadratic(Terms(p), TermYY(p), m)
  {
    var d := p.y - m;
    assert Square(d) == d * d;
    assert d * d == p.y * p.y - 2.0 * m * p.y + m * m;
  }

  /** The total sum of squares around `m`, in terms of Σw, Σw·y and Σw·y². */
  lemma {:induction false} TotalExpansion(ps: seq<LogPoint>, m: real)
    ensures TotalSS(ps, m) == TotalQuadratic(SumsOf(ps), SumWYY(ps), m)
  {
    if |ps| > 0 {
      var init, p := ps[..|ps| - 1], ps[|ps| - 1];
      assert TotalSS(ps, m) == TotalSS(init, m) + WeightedSquare(p.w, p.y - m);
      TotalExpansion(init, m);
      TotalTerm(p, m);
    }
  }

  /** Σw·(x − c)² written out in terms of the sums. */
  ghost function SpreadQuadratic(s: Sums, c: real): real {
    s.wx2 - 2.0 * c * s.wx + c * c * s.w
  }

  lemma SpreadTerm(p: LogPoint, c: real)
    ensures WeightedSquare(p.w, p.x - c) == SpreadQuadratic(Terms(p), c)
  {
    var d := p.x - c;
    assert Square(d) == d * d;
    assert d * d == p.x * p.x - 2.0 * c * p.x + c * c;
  }

  /** The spread of x around `c`, in terms of Σw, Σw·x and Σw·x². */
  lemma {:induction false} SpreadExpansion(ps: seq<LogPoint>, c: real)
    ensures XSpread(ps, c) == SpreadQuadratic(SumsOf(ps), c)
  {
    if |ps| > 0 {
      var init, p := ps[..|ps| - 1], ps[|ps| - 1];
      assert XSpread(ps, c) == XSpread(init, c) + WeightedSquare(p.w, p.x - c);
      SpreadExpansion(init, c);
      SpreadTerm(p, c);
    }
  }

  // ---------------------------------------------------------------------
  // Scalar algebra
  // ---------------------------------------------------------------------

  /** w·(q − 2·c·u + c²·w) = w·q − u² when c is the mean u / w. */
  lemma ScaledAroundMean(w: real, u: real, q: real)
    requires w != 0.0
    ensures w * (q - 2.0 * (u / w) * u + (u / w) * (u / w) * w) == w * q - u * u
  {
    var c := u / w;
    assert c * w == u;
    calc {
      w * (q - 2.0 * c * u + c * c * w);
      w * q - 2.0 * (c * w) * u + (c * w) * (c * w);
      w * q - 2.0 * u * u + u * u;
    }
  }

  lemma PositiveProduct(a: real, b: real, q: real)
    requires a > 0.0 && b > 0.0 && q == a * b
    ensures q > 0.0
  {
  }

  lemma SquarePositive(v: real)
    requires v != 0.0
    ensures Square(v) > 0.0
  {
    if v > 0.0 {
      PositiveProduct(v, v, Square(v));
    } else {
      PositiveProduct(-v, -v, Square(v));
    }
  }

  lemma ZeroFactor(a: real, b: real)
    requires b == 0.0
    ensures a * b == 0.0
  {
  }

  lemma WeightedSquareZeroIff(w: real, v: real)
    requires w >= 0.0
    ensures WeightedSquare(w, v) >= 0.0
    ensures WeightedSquare(w, v) == 0.0 <==> w == 0.0 || v == 0.0
  {
    if w != 0.0 && v != 0.0 {
      SquarePositive(v);
      PositiveProduct(w, Square(v), WeightedSquare(w, v));
    }
  }

  // ---------------------------------------------------------------------
  // When the determinant vanishes
  // ---------------------------------------------------------------------

  /**
   * w·(Σw·x² − 2·c·Σw·x + c²·Σw) splits into the determinant plus the
   * square (Σw·x − c·Σw)².
   */
  lemma SpreadAroundAny(s: Sums, c: real)
    ensures s.w * SpreadQuadratic(s, c) == Denominator(s) + Square(s.wx - c * s.w)
  {
    assert Square(s.wx - c * s.w) == (s.wx - c * s.w) * (s.wx - c * s.w);
  }

  lemma NonNegativeSumZero(a: real, b: real)
    requires a >= 0.0 && b >= 0.0 && a + b == 0.0
    ensures a == 0.0 && b == 0.0
  {
  }

  /** With clamped weights the spread around c is zero exactly when all weighted points sit at c. */
  lemma {:induction false} SpreadZeroIff(ps: seq<LogPoint>, c: real)
    requires NonNegativeWeights(ps)
    ensures XSpread(ps, c) >= 0.0
    ensures XSpread(ps, c) == 0.0 <==> SingleX(ps, c)
  {
    if |ps| > 0 {
      var init, p := ps[..|ps| - 1], ps[|ps| - 1];
      assert XSpread(ps, c) == XSpread(init, c) + WeightedSquare(p.w, p.x - c);
      PrefixNonNegative(ps);
      SpreadZeroIff(init, c);
      WeightedSquareZeroIff(p.w, p.x - c);
      assert forall k :: 0 <= k < |init| ==> init[k] == ps[k];
      assert SingleX(ps, c) <==> SingleX(init, c) && (p.w != 0.0 ==> p.x == c);
    }
  }

  /** The determinant is Σw times the spread of x around its weighted mean. */
  lemma DenominatorIsScaledSpread(ps: seq<LogPoint>)
    requires SumsOf(ps).w != 0.0
    ensures Denominator(SumsOf(ps)) == SumsOf(ps).w * XSpread(ps, SumsOf(ps).wx / SumsOf(ps).w)
  {
    var s := SumsOf(ps);
    SpreadExpansion(ps, s.wx / s.w);
    ScaledAroundMean(s.w, s.wx, s.wx2);
  }

  /**
   * With clamped weights and positive total weight, the determinant is
   * never negative, and it is zero exactly when all weighted points share
   * one x value.
   */
  lemma DegenerateIffSingleX(ps: seq<LogPoint>)
    requires NonNegativeWeights(ps) && SumsOf(ps).w != 0.0
    ensures Denominator(SumsOf(ps)) >= 0.0
    ensures Denominator(SumsOf(ps)) == 0.0 <==> exists c :: SingleX(ps, c)
  {
    var s := SumsOf(ps);
    var mean := s.wx / s.w;
    TotalWeightZeroIff(ps);
    DenominatorIsScaledSpread(ps);
    SpreadZeroIff(ps, mean);
    assert Denominator(s) >= 0.0;
    if Denominator(s) == 0.0 {
      assert SingleX(ps, mean);
    }
    if c :| SingleX(ps, c) {
      SpreadZeroIff(ps, c);
      SpreadExpansion(ps, c);
      SpreadAroundAny(SumsOf(ps), c);
      ZeroFactor(SumsOf(ps).w, SpreadQuadratic(SumsOf(ps), c));
      NonNegativeSumZero(Denominator(SumsOf(ps)), Square(SumsOf(ps).wx - c * SumsOf(ps).w));
    }
  }
}
