/** `generateRandomTimeSeries`: a synthetic random walk whose steps mix a
    random draw with a +1/-1 trend term. `Math.random()` is replaced by the
    sequence `draws` of its results, consumed in order, one per step. */
module SeriesGenerator {
  import opened MathModel

  /** `Math.random() * 2 - 1` for a draw `u` of `Math.random()`. */
  function RandomComponent(u: real): (r: real)
    ensures 0.0 <= u <= 1.0 ==> -1.0 <= r <= 1.0
  {
    u * 2.0 - 1.0
  }

  /** +1 when the previous value is above the start value, -1 otherwise. */
  function TrendComponent(previous: real, startValue: real): (t: real)
    ensures t == 1.0 || t == -1.0
    ensures t == 1.0 <==> previous > startValue
  {
    if previous > startValue then 1.0 else -1.0
  }

  /** The weight `Math.abs(hurstExponent - 0.5) * 2` of the trend term. */
  function TrendWeight(hurstExponent: real): (w: real)
    ensures 0.0 <= w
    ensures 0.0 <= hurstExponent <= 1.0 ==> w <= 1.0
  {
    Abs(hurstExponent - 0.5) * 2.0
  }

  /** `(randomComponent * (1 - weight) + trendComponent * weight) * 2`. */
  function Step(randomComponent: real, trendComponent: real, weight: real): real {
    (randomComponent * (1.0 - weight) + trendComponent * weight) * 2.0
  }

  /** The step added to the previous value, for the draw `u`. */
  function Increment(u: real, previous: real, startValue: real, hurstExponent: real): real {
    Step(RandomComponent(u), TrendComponent(previous, startValue), TrendWeight(hurstExponent))
  }

  /** The series the generator returns for the given draws: `[startValue]`
      when `length <= 1`, otherwise each element after the first is its
      predecessor plus that step's increment, step `i` using `draws[i - 1]`. */
  function Walk(length: int, hurstExponent: real, startValue: real, draws: seq<real>): (s: seq<real>)
    requires length - 1 <= |draws|
    ensures |s| == if length <= 1 then 1 else length
    ensures s[0] == startValue
    decreases length
  {
    if length <= 1 then [startValue]
    else
      var prev := Walk(length - 1, hurstExponent, startValue, draws);
      var last := prev[|prev| - 1];
      prev + [last + Increment(draws[length - 2], last, startValue, hurstExponent)]
  }

  /** A shorter walk over the same draws is a prefix of a longer one. */
  lemma {:induction false} WalkPrefix(k: int, length: int, hurstExponent: real, startValue: real, draws: seq<real>)
    requires 1 <= k <= length && length - 1 <= |draws|
    ensures Walk(k, hurstExponent, startValue, draws) == Walk(length, hurstExponent, startValue, draws)[..k]
    decreases length
  {
    if k < length {
      WalkPrefix(k, length - 1, hurstExponent, startValue, draws);
      var prev := Walk(length - 1, hurstExponent, startValue, draws);
      assert Walk(length, hurstExponent, startValue, draws)[..length - 1] == prev;
    }
  }

  /** Each element after the first is the previous one plus its increment. */
  lemma WalkStep(length: int, hurstExponent: real, startValue: real, draws: seq<real>, i: int)
    requires length - 1 <= |draws|
    requires 1 <= i < |Walk(length, hurstExponent, startValue, draws)|
    ensures var s := Walk(length, hurstExponent, startValue, draws);
      s[i] == s[i - 1] + Increment(draws[i - 1], s[i - 1], startValue, hurstExponent)
  {
    WalkPrefix(i + 1, length, hurstExponent, startValue, draws);
    WalkPrefix(i, i + 1, hurstExponent, startValue, draws);
  }

  /** The random part of a step stays within its weight `1 - w`. */
  lemma RandomPartBounded(r: real, w: real)
    requires -1.0 <= r <= 1.0 && 0.0 <= w <= 1.0
    ensures -(1.0 - w) <= r * (1.0 - w) <= 1.0 - w
  {
    NonNegativeProduct(1.0 - r, 1.0 - w);
    NonNegativeProduct(1.0 + r, 1.0 - w);
  }

  /** The trend part of a step is the weight or its negation. */
  lemma TrendPart(t: real, w: real)
    requires t == 1.0 || t == -1.0
    ensures t * w == w || t * w == -w
  {
  }

  /** A part within `1 - w` of zero plus a part of size `w`, doubled, stays in [-2, 2]. */
  lemma MixBounded(p: real, q: real, w: real)
    requires 0.0 <= w <= 1.0 && -(1.0 - w) <= p <= 1.0 - w && (q == w || q == -w)
    ensures Abs((p + q) * 2.0) <= 2.0
  {
  }

  /** A step built from a random component in [-1, 1], a trend of +1 or -1
      and a weight in [0, 1] moves by at most 2. */
  lemma StepBounded(r: real, t: real, w: real)
    requires -1.0 <= r <= 1.0 && (t == 1.0 || t == -1.0) && 0.0 <= w <= 1.0
    ensures Abs(Step(r, t, w)) <= 2.0
  {
    RandomPartBounded(r, w);
    TrendPart(t, w);
    MixBounded(r * (1.0 - w), t * w, w);
  }

  /** With a draw in [0, 1] and an exponent in [0, 1] a step moves by at most 2. */
  lemma IncrementBounded(u: real, previous: real, startValue: real, hurstExponent: real)
    requires 0.0 <= u <= 1.0 && 0.0 <= hurstExponent <= 1.0
    ensures Abs(Increment(u, previous, startValue, hurstExponent)) <= 2.0
  {
    StepBounded(RandomComponent(u), TrendComponent(previous, startValue), TrendWeight(hurstExponent));
  }

  /** At exponent 0.5 the trend term has no weight: the step is twice the random component. */
  lemma IncrementAtHalf(u: real, previous: real, startValue: real)
    ensures Increment(u, previous, startValue, 0.5) == 2.0 * RandomComponent(u)
  {
  }

  /** At exponent 0 or 1 the random component has no weight: the step is twice the trend. */
  lemma IncrementAtExtremes(u: real, previous: real, startValue: real, hurstExponent: real)
    requires hurstExponent == 0.0 || hurstExponent == 1.0
    ensures Increment(u, previous, startValue, hurstExponent) == 2.0 * TrendComponent(previous, startValue)
  {
  }

  /** Element `i` of the walk is within `2 * i` of the start value. */
  lemma {:induction false} WalkBounded(length: int, hurstExponent: real, startValue: real, draws: seq<real>, i: int)
    requires length - 1 <= |draws|
    requires forall j :: 0 <= j < |draws| ==> 0.0 <= draws[j] <= 1.0
    requires 0.0 <= hurstExponent <= 1.0
    requires 0 <= i < |Walk(length, hurstExponent, startValue, draws)|
    ensures Abs(Walk(length, hurstExponent, startValue, draws)[i] - startValue) <= 2.0 * i as real
    decreases i
  {
    if i > 0 {
      var s := Walk(length, hurstExponent, startValue, draws);
      WalkBounded(length, hurstExponent, startValue, draws, i - 1);
      WalkStep(length, hurstExponent, startValue, draws, i);
      IncrementBounded(draws[i - 1], s[i - 1], startValue, hurstExponent);
    }
  }

  /** The exponents `h` and `1 - h` give the same walk: the trend term pushes
      away from the start value on both sides of 0.5. */
  lemma {:induction false} WalkSymmetricAboutHalf(length: int, hurstExponent: real, startValue: real, draws: seq<real>)
    requires length - 1 <= |draws|
    ensures Walk(length, hurstExponent, startValue, draws) == Walk(length, 1.0 - hurstExponent, startValue, draws)
    decreases length
  {
    assert TrendWeight(hurstExponent) == TrendWeight(1.0 - hurstExponent);
    if length > 1 {
      WalkSymmetricAboutHalf(length - 1, hurstExponent, startValue, draws);
      var prev := Walk(length - 1, hurstExponent, startValue, draws);
      var last := prev[|prev| - 1];
      assert Increment(draws[length - 2], last, startValue, hurstExponent)
          == Increment(draws[length - 2], last, startValue, 1.0 - hurstExponent);
    }
  }

  /** `generateRandomTimeSeries(length, hurstExponent, startValue)`: pushes
      one element per step onto a series that starts as `[startValue]`. */
  method GenerateRandomTimeSeries(length: int, hurstExponent: real, startValue: real, draws: seq<real>)
    returns (series: seq<real>)
    requires length - 1 <= |draws|
    ensures series == Walk(length, hurstExponent, startValue, draws)
    ensures |series| == if length <= 1 then 1 else length
    ensures series[0] == startValue
    ensures forall i :: 1 <= i < |series| ==>
      series[i] == series[i - 1] + Increment(draws[i - 1], series[i - 1], startValue, hurstExponent)
  {
    series := [startValue];
    var i := 1;
    while i < length
      invariant 1 <= i && (length <= 1 ==> i == 1) && (1 < length ==> i <= length)
      invariant series == Walk(i, hurstExponent, startValue, draws)
    {
      var randomComponent := RandomComponent(draws[i - 1]);
      var trendComponent := TrendComponent(series[i - 1], startValue);
      var weight := TrendWeight(hurstExponent);
      var increment := Step(randomComponent, trendComponent, weight);
      series := series + [series[i - 1] + increment];
      i := i + 1;
    }
    assert series == Walk(length, hurstExponent, startValue, draws);
    forall i | 1 <= i < |series|
      ensures series[i] == series[i - 1] + Increment(draws[i - 1], series[i - 1], startValue, hurstExponent)
    {
      WalkStep(length, hurstExponent, startValue, draws, i);
    }
  }
}
