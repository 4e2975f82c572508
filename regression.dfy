/** The least-squares fit at the end of `calculateHurstExponent`: the slope
    `(n * sumXY - sumX * sumY) / (n * sumX2 - sumX * sumX)` of the line
    through the points `(xs[i], ys[i])`, and the clamp of the estimate to
    [0, 1]. */
module Regression {
  import opened MathModel
  import opened Stats

  /** `reduce((sum, val) => sum + x * y, 0)` over paired values. */
  function Dot(xs: seq<real>, ys: seq<real>): real
    requires |xs| == |ys|
  {
    if xs == [] then 0.0
    else Dot(xs[..|xs| - 1], ys[..|ys| - 1]) + xs[|xs| - 1] * ys[|ys| - 1]
  }

  /** `n * sumX2 - sumX * sumX`. */
  function Spread(n: real, sumX: real, sumX2: real): real {
    n * sumX2 - sumX * sumX
  }

  /** `n * sumXY - sumX * sumY`. */
  function Covariation(n: real, sumX: real, sumY: real, sumXY: real): real {
    n * sumXY - sumX * sumY
  }

  /** The denominator of the slope for the x values `xs`. */
  function Denominator(xs: seq<real>): real {
    Spread(|xs| as real, Sum(xs), SumSquares(xs))
  }

  /** The numerator of the slope for the points `(xs[i], ys[i])`. */
  function Numerator(xs: seq<real>, ys: seq<real>): real
    requires |xs| == |ys|
  {
    Covariation(|xs| as real, Sum(xs), Sum(ys), Dot(xs, ys))
  }

  /** The least-squares slope. */
  function Slope(xs: seq<real>, ys: seq<real>): real
    requires |xs| == |ys| && Denominator(xs) != 0.0
  {
    Numerator(xs, ys) / Denominator(xs)
  }

  /** `Math.max(0, Math.min(1, x))`. */
  function Clamp(x: real): (r: real)
    ensures 0.0 <= r <= 1.0
    ensures 0.0 <= x <= 1.0 ==> r == x
    ensures x < 0.0 ==> r == 0.0
    ensures 1.0 < x ==> r == 1.0
  {
    var upper := if 1.0 < x then 1.0 else x;
    if 0.0 < upper then upper else 0.0
  }

  lemma ShiftedPrefix(s: seq<real>, c: real)
    requires |s| > 0
    ensures Shifted(s, c)[..|s| - 1] == Shifted(s[..|s| - 1], c)
  {
    var t, u := Shifted(s, c)[..|s| - 1], Shifted(s[..|s| - 1], c);
    forall i | 0 <= i < |s| - 1
      ensures t[i] == u[i]
    {
    }
  }

  /** `q - 2 c s + n c^2`: the sum of squares of `n` values shifted by
      `c`, given their sum `s` and their sum of squares `q`. */
  function ShiftedSquares(q: real, s: real, n: real, c: real): real {
    q - 2.0 * c * s + n * Square(c)
  }

  lemma ShiftedSquaresStep(a: real, a0: real, q: real, q0: real, s: real, s0: real, k: real, n: real, x: real, c: real)
    requires n == k + 1.0
    requires a0 == ShiftedSquares(q0, s0, k, c)
    requires a == a0 + Square(x - c) && q == q0 + Square(x) && s == s0 + x
    ensures a == ShiftedSquares(q, s, n, c)
  {
  }

  lemma LastStep(xs: seq<real>, c: real)
    requires |xs| > 0
    ensures var p := xs[..|xs| - 1];
      && SumSquares(Shifted(xs, c)) == SumSquares(Shifted(p, c)) + Square(xs[|xs| - 1] - c)
      && SumSquares(xs) == SumSquares(p) + Square(xs[|xs| - 1])
      && Sum(xs) == Sum(p) + xs[|xs| - 1]
  {
    ShiftedPrefix(xs, c);
  }

  /** Expanding the squares of shifted values. */
  lemma {:induction false} SumSquaresShifted(xs: seq<real>, c: real)
    ensures SumSquares(Shifted(xs, c)) == ShiftedSquares(SumSquares(xs), Sum(xs), |xs| as real, c)
  {
    if xs != [] {
      var n := |xs|;
      var x, p := xs[n - 1], xs[..n - 1];
      SumSquaresShifted(p, c);
      LastStep(xs, c);
      ShiftedSquaresStep(SumSquares(Shifted(xs, c)), SumSquares(Shifted(p, c)), SumSquares(xs), SumSquares(p),
        Sum(xs), Sum(p), |p| as real, |xs| as real, x, c);
    } else {
      assert ShiftedSquares(0.0, 0.0, 0.0, c) == 0.0;
    }
  }

  lemma DenominatorAlgebra(n: real, s: real, q: real, m: real, v: real, variance: real, d: real)
    requires n != 0.0 && m == s / n && variance == v / n
    requires v == ShiftedSquares(q, s, n, m) && d == Spread(n, s, q)
    ensures d == Square(n) * variance
  {
    assert s == m * n;
    assert n * variance == v;
    calc {
      Square(n) * variance;
      n * (n * variance);
      n * (q - 2.0 * m * s + n * Square(m));
      n * q - 2.0 * (m * n) * s + Square(m * n);
      n * q - s * s;
      d;
    }
  }

  /** The denominator is `n * n` times the population variance of `xs`. */
  lemma DenominatorIsScaledVariance(xs: seq<real>)
    requires |xs| > 0
    ensures Denominator(xs) == Square(|xs| as real) * Variance(xs)
  {
    var n, sum, squares, mean := |xs| as real, Sum(xs), SumSquares(xs), Mean(xs);
    var spread := SumSquares(Deviations(xs));
    assert mean == sum / n;
    assert Variance(xs) == spread / n;
    assert spread == ShiftedSquares(squares, sum, n, mean) by {
      SumSquaresShifted(xs, mean);
    }
    assert Denominator(xs) == Spread(n, sum, squares);
    DenominatorAlgebra(n, sum, squares, mean, spread, Variance(xs), Denominator(xs));
  }

  /** The denominator is never negative, and it is positive exactly when
      the x values are not all equal. */
  lemma DenominatorPositive(xs: seq<real>)
    requires |xs| > 0
    ensures 0.0 <= Denominator(xs)
    ensures 0.0 < Denominator(xs) <==> exists i :: 0 <= i < |xs| && xs[i] != xs[0]
  {
    var n := |xs| as real;
    DenominatorIsScaledVariance(xs);
    VarianceZero(xs);
    SquarePositive(n);
    NonNegativeProduct(Square(n), Variance(xs));
    if Variance(xs) != 0.0 {
      PositiveTimesPositive(Square(n), Variance(xs));
    }
  }

  /** The line `a + b * x`. */
  function Line(a: real, b: real, x: real): real {
    a + b * x
  }

  /** `n * a + b * sumX`: the sum of `a + b * x` over `n` x values. */
  function LineSum(a: real, b: real, n: real, sumX: real): real {
    n * a + b * sumX
  }

  /** Points on a line stay on it when the last one is dropped. */
  lemma LinePrefix(xs: seq<real>, ys: seq<real>, a: real, b: real)
    requires |xs| == |ys| && |xs| > 0
    requires forall i :: 0 <= i < |xs| ==> ys[i] == Line(a, b, xs[i])
    ensures var xp, yp := xs[..|xs| - 1], ys[..|ys| - 1];
      forall i :: 0 <= i < |xp| ==> yp[i] == Line(a, b, xp[i])
  {
  }

  lemma SumOfLineStep(xs: seq<real>, ys: seq<real>, a: real, b: real)
    requires |xs| == |ys| && |xs| > 0
    requires var xp, yp := xs[..|xs| - 1], ys[..|ys| - 1];
      Sum(yp) == LineSum(a, b, |xp| as real, Sum(xp))
    requires ys[|ys| - 1] == Line(a, b, xs[|xs| - 1])
    ensures Sum(ys) == LineSum(a, b, |xs| as real, Sum(xs))
  {
    var n := |xs|;
    var xp, yp := xs[..n - 1], ys[..n - 1];
    calc {
      Sum(ys);
      Sum(yp) + ys[n - 1];
      LineSum(a, b, |xp| as real, Sum(xp)) + Line(a, b, xs[n - 1]);
      (|xp| as real + 1.0) * a + b * (Sum(xp) + xs[n - 1]);
      LineSum(a, b, |xs| as real, Sum(xs));
    }
  }

  /** The y values of points on a line sum to `n * a + b * sumX`. */
  lemma {:induction false} SumOfLine(xs: seq<real>, ys: seq<real>, a: real, b: real)
    requires |xs| == |ys|
    requires forall i :: 0 <= i < |xs| ==> ys[i] == Line(a, b, xs[i])
    ensures Sum(ys) == LineSum(a, b, |xs| as real, Sum(xs))
  {
    if xs != [] {
      LinePrefix(xs, ys, a, b);
      SumOfLine(xs[..|xs| - 1], ys[..|ys| - 1], a, b);
      SumOfLineStep(xs, ys, a, b);
    }
  }

  /** `a * sumX + b * sumX2`: the sum of `x * (a + b * x)` over the x values. */
  function LineDot(a: real, b: real, sumX: real, sumX2: real): real {
    a * sumX + b * sumX2
  }

  lemma LineDotStep(d: real, d0: real, s: real, s0: real, q: real, q0: real, x: real, y: real, a: real, b: real)
    requires y == Line(a, b, x) && d0 == LineDot(a, b, s0, q0)
    requires d == d0 + x * y && s == s0 + x && q == q0 + Square(x)
    ensures d == LineDot(a, b, s, q)
  {
  }

  lemma LastDot(xs: seq<real>, ys: seq<real>)
    requires |xs| == |ys| && |xs| > 0
    ensures Dot(xs, ys) == Dot(xs[..|xs| - 1], ys[..|ys| - 1]) + xs[|xs| - 1] * ys[|ys| - 1]
    ensures SumSquares(xs) == SumSquares(xs[..|xs| - 1]) + Square(xs[|xs| - 1])
    ensures Sum(xs) == Sum(xs[..|xs| - 1]) + xs[|xs| - 1]
  {
    assert Dot(xs, ys) == Dot(xs[..|xs| - 1], ys[..|ys| - 1]) + xs[|xs| - 1] * ys[|ys| - 1] by {}
    assert SumSquares(xs) == SumSquares(xs[..|xs| - 1]) + Square(xs[|xs| - 1]) by {}
    assert Sum(xs) == Sum(xs[..|xs| - 1]) + xs[|xs| - 1] by {}
  }

  /** One more point on the line keeps the sum of products on `LineDot`. */
  lemma DotWithLineStep(xs: seq<real>, ys: seq<real>, a: real, b: real)
    requires |xs| == |ys| && |xs| > 0
    requires var xp, yp := xs[..|xs| - 1], ys[..|ys| - 1];
      Dot(xp, yp) == LineDot(a, b, Sum(xp), SumSquares(xp))
    requires ys[|ys| - 1] == Line(a, b, xs[|xs| - 1])
    ensures Dot(xs, ys) == LineDot(a, b, Sum(xs), SumSquares(xs))
  {
    var xp, yp := xs[..|xs| - 1], ys[..|ys| - 1];
    LastDot(xs, ys);
    LineDotStep(Dot(xs, ys), Dot(xp, yp), Sum(xs), Sum(xp), SumSquares(xs), SumSquares(xp),
      xs[|xs| - 1], ys[|ys| - 1], a, b);
  }

  lemma {:induction false} DotWithLine(xs: seq<real>, ys: seq<real>, a: real, b: real)
    requires |xs| == |ys|
    requires forall i :: 0 <= i < |xs| ==> ys[i] == Line(a, b, xs[i])
    ensures Dot(xs, ys) == LineDot(a, b, Sum(xs), SumSquares(xs))
  {
    if xs != [] {
      LinePrefix(xs, ys, a, b);
      DotWithLine(xs[..|xs| - 1], ys[..|ys| - 1], a, b);
      DotWithLineStep(xs, ys, a, b);
    } else {
      assert LineDot(a, b, 0.0, 0.0) == 0.0;
    }
  }

  lemma SlopeOfLineAlgebra(n: real, s: real, sy: real, q: real, dot: real, a: real, b: real)
    requires dot == LineDot(a, b, s, q) && sy == LineSum(a, b, n, s)
    requires Spread(n, s, q) != 0.0
    ensures Covariation(n, s, sy, dot) / Spread(n, s, q) == b
  {
    var d := Spread(n, s, q);
    calc {
      Covariation(n, s, sy, dot);
      n * (a * s + b * q) - s * (n * a + b * s);
      b * (n * q - s * s);
      b * d;
    }
    QuotientOf(b * d, d, b);
  }

  /** Points that lie exactly on the line `y = a + b * x` have slope `b`. */
  lemma SlopeOfLine(xs: seq<real>, ys: seq<real>, a: real, b: real)
    requires |xs| == |ys| && Denominator(xs) != 0.0
    requires forall i :: 0 <= i < |xs| ==> ys[i] == Line(a, b, xs[i])
    ensures Slope(xs, ys) == b
  {
    var n, s, sy, q, dot := |xs| as real, Sum(xs), Sum(ys), SumSquares(xs), Dot(xs, ys);
    assert sy == LineSum(a, b, n, s) by {
      SumOfLine(xs, ys, a, b);
    }
    assert dot == LineDot(a, b, s, q) by {
      DotWithLine(xs, ys, a, b);
    }
    SlopeOfLineAlgebra(n, s, sy, q, dot, a, b);
  }

  /** Points with the same y value have slope 0. */
  lemma SlopeOfConstant(xs: seq<real>, ys: seq<real>)
    requires |xs| == |ys| && |ys| > 0 && Denominator(xs) != 0.0
    requires forall i :: 0 <= i < |ys| ==> ys[i] == ys[0]
    ensures Slope(xs, ys) == 0.0
  {
    forall i | 0 <= i < |xs|
      ensures ys[i] == Line(ys[0], 0.0, xs[i])
    {
    }
    SlopeOfLine(xs, ys, ys[0], 0.0);
  }
}
