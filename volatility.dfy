/** `calculateVolatility`: the population standard deviation of the simple
    returns of a series. Each return divides by the element before it, so
    those elements must be non-zero. */
module Volatility {
  import opened MathModel
  import opened Stats

  /** Every element that a return divides by is non-zero. */
  predicate NonzeroPredecessors(data: seq<real>) {
    forall i :: 0 <= i < |data| - 1 ==> data[i] != 0.0
  }

  /** `(data[i] - data[i-1]) / data[i-1]` for `previous = data[i-1]`. */
  function SimpleReturn(previous: real, current: real): real
    requires previous != 0.0
  {
    (current - previous) / previous
  }

  /** The returns of all consecutive pairs, in order. */
  function Returns(data: seq<real>): (r: seq<real>)
    requires NonzeroPredecessors(data)
    ensures |r| == if |data| < 2 then 0 else |data| - 1
  {
    if |data| < 2 then []
    else seq(|data| - 1, i requires 0 <= i < |data| - 1 => SimpleReturn(data[i], data[i + 1]))
  }

  /** The value `calculateVolatility(data)` returns: 0 for fewer than two
      points, otherwise the square root of the population variance of the
      returns. */
  function VolatilityOf(math: Math, data: seq<real>): (v: real)
    requires Lawful(math) && NonzeroPredecessors(data)
    ensures 0.0 <= v
  {
    if |data| < 2 then 0.0 else math.sqrt(Variance(Returns(data)))
  }

  /** Growing an element by its return gives the next element, so the
      returns together with the first element determine the series. */
  lemma ReturnsCompound(data: seq<real>, i: int)
    requires NonzeroPredecessors(data) && 0 <= i < |data| - 1
    ensures data[i + 1] == data[i] * (1.0 + Returns(data)[i])
  {
    var a, b := data[i], data[i + 1];
    var q := (b - a) / a;
    assert q * a == b - a;
    assert Returns(data)[i] == q;
  }

  /** The volatility is zero exactly when there are fewer than two points or
      all returns are equal. */
  lemma VolatilityZero(math: Math, data: seq<real>)
    requires Lawful(math) && NonzeroPredecessors(data)
    ensures VolatilityOf(math, data) == 0.0 <==>
      |data| < 2 || forall i :: 0 <= i < |data| - 1 ==> Returns(data)[i] == Returns(data)[0]
  {
    if 2 <= |data| {
      var r := Returns(data);
      VarianceZero(r);
      SqrtZero(math, Variance(r));
    }
  }

  /** A constant series of a non-zero value has volatility zero. */
  lemma ConstantSeriesVolatility(math: Math, data: seq<real>)
    requires Lawful(math) && |data| > 0 && data[0] != 0.0
    requires forall i :: 0 <= i < |data| ==> data[i] == data[0]
    ensures NonzeroPredecessors(data)
    ensures VolatilityOf(math, data) == 0.0
  {
    if 2 <= |data| {
      var r := Returns(data);
      forall i | 0 <= i < |r|
        ensures r[i] == 0.0
      {
        assert data[i + 1] - data[i] == 0.0;
      }
      VolatilityZero(math, data);
    }
  }

  /** A return does not change when both prices are scaled by the same non-zero factor. */
  lemma SimpleReturnScaled(a: real, b: real, c: real)
    requires a != 0.0 && c != 0.0
    ensures c * a != 0.0
    ensures SimpleReturn(c * a, c * b) == SimpleReturn(a, b)
  {
    if 0.0 < c && 0.0 < a {
      PositiveTimesPositive(c, a);
    } else if c < 0.0 && a < 0.0 {
      PositiveTimesPositive(-c, -a);
    } else if 0.0 < c {
      PositiveTimesPositive(c, -a);
    } else {
      PositiveTimesPositive(-c, a);
    }
    var q := (b - a) / a;
    assert q * a == b - a;
    assert c * b - c * a == q * (c * a);
    QuotientOf(c * b - c * a, c * a, q);
  }

  /** Return `i` of the scaled series is return `i` of the series. */
  lemma ScaledReturnAt(data: seq<real>, c: real, i: int)
    requires NonzeroPredecessors(data) && c != 0.0 && 0 <= i < |data| - 1
    ensures Scaled(data, c)[i] != 0.0
    ensures SimpleReturn(Scaled(data, c)[i], Scaled(data, c)[i + 1]) == SimpleReturn(data[i], data[i + 1])
  {
    var a, b := data[i], data[i + 1];
    assert Scaled(data, c)[i] == c * a && Scaled(data, c)[i + 1] == c * b;
    SimpleReturnScaled(a, b, c);
  }

  /** Volatility does not depend on the unit prices are quoted in: scaling
      the series by a non-zero factor leaves it unchanged. */
  lemma VolatilityScaleInvariant(math: Math, data: seq<real>, c: real)
    requires Lawful(math) && NonzeroPredecessors(data) && c != 0.0
    ensures NonzeroPredecessors(Scaled(data, c))
    ensures VolatilityOf(math, Scaled(data, c)) == VolatilityOf(math, data)
  {
    var scaled := Scaled(data, c);
    forall i | 0 <= i < |scaled| - 1
      ensures scaled[i] != 0.0 && SimpleReturn(scaled[i], scaled[i + 1]) == SimpleReturn(data[i], data[i + 1])
    {
      ScaledReturnAt(data, c, i);
    }
    if 2 <= |data| {
      var t, u := Returns(scaled), Returns(data);
      forall i | 0 <= i < |t|
        ensures t[i] == u[i]
      {
      }
      assert t == u;
    }
  }

  /** `calculateVolatility(data)`: collects the returns in a loop, then takes
      the square root of their population variance. */
  method CalculateVolatility(math: Math, data: seq<real>) returns (volatility: real)
    requires Lawful(math) && NonzeroPredecessors(data)
    ensures volatility == VolatilityOf(math, data)
  {
    if |data| < 2 {
      return 0.0;
    }
    var returnValues: seq<real> := [];
    var i := 1;
    while i < |data|
      invariant 1 <= i <= |data|
      invariant |returnValues| == i - 1
      invariant forall j :: 0 <= j < i - 1 ==> returnValues[j] == SimpleReturn(data[j], data[j + 1])
    {
      returnValues := returnValues + [(data[i] - data[i - 1]) / data[i - 1]];
      i := i + 1;
    }
    assert returnValues == Returns(data);
    var mean := Sum(returnValues) / |returnValues| as real;
    var variance := SumSquares(Shifted(returnValues, mean)) / |returnValues| as real;
    volatility := math.sqrt(variance);
  }
}
