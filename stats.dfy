/** The reductions the analysis builds from `Array.prototype.reduce`: sums,
    means, deviations from the mean and the population variance, together
    with how they behave when a series is shifted or is constant. */
module Stats {
  import opened MathModel

  /** The left-to-right sum `s.reduce((sum, val) => sum + val, 0)`. */
  function Sum(s: seq<real>): real {
    if s == [] then 0.0 else Sum(s[..|s| - 1]) + s[|s| - 1]
  }

  /** The arithmetic mean `Sum(s) / s.length`. */
  function Mean(s: seq<real>): real
    requires |s| > 0
  {
    Sum(s) / |s| as real
  }

  /** Every element minus `c`. */
  function Shifted(s: seq<real>, c: real): (r: seq<real>)
    ensures |r| == |s|
  {
    seq(|s|, i requires 0 <= i < |s| => s[i] - c)
  }

  /** Every element times `c`. */
  function Scaled(s: seq<real>, c: real): (r: seq<real>)
    ensures |r| == |s|
  {
    seq(|s|, i requires 0 <= i < |s| => c * s[i])
  }

  /** The deviations `s.map(x => x - mean)`. */
  function Deviations(s: seq<real>): (d: seq<real>)
    requires |s| > 0
    ensures |d| == |s|
  {
    Shifted(s, Mean(s))
  }

  /** The sum of squares `d.reduce((sum, x) => sum + x * x, 0)`. */
  function SumSquares(d: seq<real>): (r: real)
    ensures 0.0 <= r
  {
    if d == [] then 0.0
    else
      SquareNonNegative(d[|d| - 1]);
      SumSquares(d[..|d| - 1]) + Square(d[|d| - 1])
  }

  /** The population variance: the mean squared deviation from the mean. */
  function Variance(s: seq<real>): (r: real)
    requires |s| > 0
    ensures 0.0 <= r
  {
    SumSquares(Deviations(s)) / |s| as real
  }

  lemma {:induction false} SumShifted(s: seq<real>, c: real)
    ensures Sum(Shifted(s, c)) == Sum(s) - |s| as real * c
  {
    if s != [] {
      var n := |s|;
      assert Shifted(s, c)[..n - 1] == Shifted(s[..n - 1], c);
      SumShifted(s[..n - 1], c);
    }
  }

  /** The deviations from the mean add up to zero. */
  lemma DeviationsSumToZero(s: seq<real>)
    requires |s| > 0
    ensures Sum(Deviations(s)) == 0.0
  {
    SumShifted(s, Mean(s));
    var n := |s| as real;
    assert n * (Sum(s) / n) == Sum(s);
  }

  /** Shifting a series leaves its deviations unchanged. */
  lemma DeviationsShifted(s: seq<real>, a: real)
    requires |s| > 0
    ensures Deviations(Shifted(s, a)) == Deviations(s)
  {
    SumShifted(s, a);
    var n := |s| as real;
    assert Mean(Shifted(s, a)) == Mean(s) - a by {
      assert (Sum(s) - n * a) / n == Sum(s) / n - a;
    }
  }

  lemma {:induction false} SumSquaresOfZeros(d: seq<real>)
    requires forall i :: 0 <= i < |d| ==> d[i] == 0.0
    ensures SumSquares(d) == 0.0
  {
    if d != [] {
      SumSquaresOfZeros(d[..|d| - 1]);
    }
  }

  lemma {:induction false} SumOfConstant(s: seq<real>, c: real)
    requires forall i :: 0 <= i < |s| ==> s[i] == c
    ensures Sum(s) == |s| as real * c
  {
    if s != [] {
      SumOfConstant(s[..|s| - 1], c);
    }
  }

  /** A constant series has mean equal to its value and variance zero. */
  lemma ConstantVariance(s: seq<real>)
    requires |s| > 0
    requires forall i :: 0 <= i < |s| ==> s[i] == s[0]
    ensures Mean(s) == s[0]
    ensures forall i :: 0 <= i < |s| ==> Deviations(s)[i] == 0.0
    ensures Variance(s) == 0.0
  {
    SumOfConstant(s, s[0]);
    SumSquaresOfZeros(Deviations(s));
  }

  /** A sum of squares is zero exactly when every term is zero. */
  lemma {:induction false} SumSquaresZero(d: seq<real>)
    ensures SumSquares(d) == 0.0 <==> forall i :: 0 <= i < |d| ==> d[i] == 0.0
  {
    if d != [] {
      var n := |d|;
      var x, p := d[n - 1], d[..n - 1];
      assert forall i :: 0 <= i < |p| ==> p[i] == d[i];
      SumSquaresZero(p);
      if x != 0.0 {
        SquarePositive(x);
        assert SumSquares(d) == SumSquares(p) + Square(x);
      }
    }
  }

  /** The variance is zero exactly when the series is constant. */
  lemma VarianceZero(s: seq<real>)
    requires |s| > 0
    ensures Variance(s) == 0.0 <==> forall i :: 0 <= i < |s| ==> s[i] == s[0]
  {
    var n := |s| as real;
    SumSquaresZero(Deviations(s));
    if Variance(s) == 0.0 {
      assert SumSquares(Deviations(s)) == Variance(s) * n;
      forall i | 0 <= i < |s|
        ensures s[i] == s[0]
      {
        assert Deviations(s)[i] == 0.0 && Deviations(s)[0] == 0.0;
      }
    }
    if forall i :: 0 <= i < |s| ==> s[i] == s[0] {
      ConstantVariance(s);
    }
  }
}
