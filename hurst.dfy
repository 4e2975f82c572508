/** `calculateHurstExponent`: rescaled-range (R/S) analysis. For each period
    of 10, 20, 40 and 80 that is below half the series length, the series is
    cut into consecutive segments of that length; each segment contributes the
    range of the cumulative sums of its deviations divided by its standard
    deviation. The exponent is the least-squares slope of log(average R/S)
    against log(period), clamped to [0, 1]. */
module Hurst {
  import opened MathModel
  import opened Stats
  import opened Regression

  /** One entry `{logN, logRS}` of the log-log plot. */
  datatype Point = Point(logN: real, logRS: real)

  /** The candidate periods `[10, 20, 40, 80]`. */
  const CandidatePeriods: seq<int> := [10, 20, 40, 80]

  /** `periods.filter(p => p < n / 2)`, with `p < n / 2` written `2 * p < n`. */
  function BelowHalf(periods: seq<int>, n: int): (kept: seq<int>)
    ensures forall p :: p in kept <==> p in periods && 2 * p < n
    ensures |kept| <= |periods|
  {
    if periods == [] then []
    else (if 2 * periods[0] < n then [periods[0]] else []) + BelowHalf(periods[1..], n)
  }

  /** The periods used for a series of length `n`. */
  function Periods(n: int): seq<int> {
    BelowHalf(CandidatePeriods, n)
  }

  /** Which periods survive the filter, by series length. */
  lemma PeriodsByLength(n: int)
    ensures Periods(n) ==
      if 160 < n then [10, 20, 40, 80]
      else if 80 < n then [10, 20, 40]
      else if 40 < n then [10, 20]
      else if 20 < n then [10]
      else []
  {
    var c := CandidatePeriods;
    assert c[1..] == [20, 40, 80] && c[1..][1..] == [40, 80] && c[1..][1..][1..] == [80];
    var r80 := BelowHalf([80], n);
    assert [80][1..] == [];
    assert r80 == if 160 < n then [80] else [];
    var r40 := BelowHalf([40, 80], n);
    assert r40 == (if 80 < n then [40] else []) + r80;
    var r20 := BelowHalf([20, 40, 80], n);
    assert r20 == (if 40 < n then [20] else []) + r40;
    assert Periods(n) == (if 20 < n then [10] else []) + r20;
  }

  /** At least two points reach the regression exactly when `n > 40`; the
      first two periods are then 10 and 20. */
  lemma TwoPeriods(n: int)
    ensures 2 <= |Periods(n)| <==> 40 < n
    ensures 40 < n ==> Periods(n)[0] == 10 && Periods(n)[1] == 20
  {
    PeriodsByLength(n);
  }

  /** Every period used is positive and below half the length. */
  predicate UsablePeriods(periods: seq<int>, n: int) {
    forall j :: 0 <= j < |periods| ==> 0 < periods[j] && 2 * periods[j] < n
  }

  lemma PeriodsUsable(n: int)
    ensures UsablePeriods(Periods(n), n)
  {
    forall j | 0 <= j < |Periods(n)|
      ensures 0 < Periods(n)[j] && 2 * Periods(n)[j] < n
    {
      assert Periods(n)[j] in Periods(n);
    }
  }

  /** `Math.floor(n / period)` segments fit: at least two, and what is left
      over is shorter than one period. */
  lemma SegmentCount(n: int, p: int)
    requires 0 < p && 2 * p < n
    ensures 2 <= n / p
    ensures (n / p) * p <= n < (n / p) * p + p
  {
  }

  /** Segment `i < n / p` lies inside the series. */
  lemma SegmentInside(n: int, p: int, i: int)
    requires 0 < p && 0 <= i < n / p
    ensures 0 <= i * p && (i + 1) * p <= n
  {
    var k := n / p;
    MulMonotone(i + 1, k, p);
    MulMonotone(i, i + 1, p);
    assert k * p <= n;
  }

  /** `series.slice(i * p, (i + 1) * p)`. */
  function Segment(series: seq<real>, p: int, i: int): (segment: seq<real>)
    requires 0 < p && 0 <= i < |series| / p
    ensures |segment| == p
  {
    SegmentInside(|series|, p, i);
    series[i * p..(i + 1) * p]
  }

  /** Consecutive segments are adjacent: element `j` of segment `i` is element
      `i * p + j` of the series. */
  lemma SegmentAt(series: seq<real>, p: int, i: int, j: int)
    requires 0 < p && 0 <= i < |series| / p && 0 <= j < p
    ensures 0 <= i * p + j < (i + 1) * p <= |series|
    ensures Segment(series, p, i)[j] == series[i * p + j]
  {
    SegmentInside(|series|, p, i);
  }

  /** The running sums `cumSum += x` over `d`. */
  function CumulativeSums(d: seq<real>): (c: seq<real>)
    ensures |c| == |d|
  {
    if d == [] then [] else CumulativeSums(d[..|d| - 1]) + [Sum(d)]
  }

  /** Running sum `k` is the sum of the first `k + 1` values. */
  lemma {:induction false} CumulativeSumAt(d: seq<real>, k: int)
    requires 0 <= k < |d|
    ensures CumulativeSums(d)[k] == Sum(d[..k + 1])
  {
    if k < |d| - 1 {
      var p := d[..|d| - 1];
      CumulativeSumAt(p, k);
      assert p[..k + 1] == d[..k + 1];
    } else {
      assert d[..k + 1] == d;
    }
  }

  /** The running sums undo to the values: the first is `d[0]`, each later
      one differs from its predecessor by `d[k]`, and the last is the total. */
  lemma CumulativeSumsInverse(d: seq<real>)
    requires |d| > 0
    ensures CumulativeSums(d)[0] == d[0]
    ensures forall k {:trigger d[k]} :: 0 < k < |d| ==> CumulativeSums(d)[k] - CumulativeSums(d)[k - 1] == d[k]
    ensures CumulativeSums(d)[|d| - 1] == Sum(d)
  {
    assert CumulativeSums(d)[0] == d[0] by {
      CumulativeSumAt(d, 0);
      assert d[..1][..0] == [];
    }
    forall k | 0 < k < |d|
      ensures CumulativeSums(d)[k] - CumulativeSums(d)[k - 1] == d[k]
    {
      CumulativeSumStep(d, k);
    }
    assert CumulativeSums(d)[|d| - 1] == Sum(d) by {
      CumulativeSumAt(d, |d| - 1);
      assert d[..|d|] == d;
    }
  }

  lemma CumulativeSumStep(d: seq<real>, k: int)
    requires 0 < k < |d|
    ensures CumulativeSums(d)[k] - CumulativeSums(d)[k - 1] == d[k]
  {
    CumulativeSumAt(d, k);
    CumulativeSumAt(d, k - 1);
    var q := d[..k + 1];
    assert q[..|q| - 1] == d[..k] && q[|q| - 1] == d[k];
    assert Sum(q) == Sum(q[..|q| - 1]) + q[|q| - 1];
  }

  /** `Math.max(...s)`. */
  function SeqMax(s: seq<real>): real
    requires |s| > 0
  {
    if |s| == 1 then s[0]
    else
      var m := SeqMax(s[..|s| - 1]);
      if s[|s| - 1] > m then s[|s| - 1] else m
  }

  /** `Math.min(...s)`. */
  function SeqMin(s: seq<real>): real
    requires |s| > 0
  {
    if |s| == 1 then s[0]
    else
      var m := SeqMin(s[..|s| - 1]);
      if s[|s| - 1] < m then s[|s| - 1] else m
  }

  /** `SeqMax(s)` is an element of `s` and no element exceeds it. */
  lemma {:induction false} SeqMaxIsMaximum(s: seq<real>)
    requires |s| > 0
    ensures forall i :: 0 <= i < |s| ==> s[i] <= SeqMax(s)
    ensures exists i :: 0 <= i < |s| && s[i] == SeqMax(s)
  {
    if |s| > 1 {
      var p := s[..|s| - 1];
      SeqMaxIsMaximum(p);
      var m, last := SeqMax(p), s[|s| - 1];
      assert forall i :: 0 <= i < |p| ==> p[i] == s[i];
      if last > m {
        assert SeqMax(s) == last && s[|s| - 1] == last;
      } else {
        assert SeqMax(s) == m;
        var j :| 0 <= j < |p| && p[j] == m;
        assert s[j] == SeqMax(s);
      }
    } else {
      assert s[0] == SeqMax(s);
    }
  }

  /** `SeqMin(s)` is an element of `s` and no element is below it. */
  lemma {:induction false} SeqMinIsMinimum(s: seq<real>)
    requires |s| > 0
    ensures forall i :: 0 <= i < |s| ==> SeqMin(s) <= s[i]
    ensures exists i :: 0 <= i < |s| && s[i] == SeqMin(s)
  {
    if |s| > 1 {
      var p := s[..|s| - 1];
      SeqMinIsMinimum(p);
      var m, last := SeqMin(p), s[|s| - 1];
      assert forall i :: 0 <= i < |p| ==> p[i] == s[i];
      if last < m {
        assert SeqMin(s) == last && s[|s| - 1] == last;
      } else {
        assert SeqMin(s) == m;
        var j :| 0 <= j < |p| && p[j] == m;
        assert s[j] == SeqMin(s);
      }
    } else {
      assert s[0] == SeqMin(s);
    }
  }

  /** The range `max - min` of the running sums of a segment's deviations. */
  function Range(segment: seq<real>): (r: real)
    requires |segment| > 0
    ensures 0.0 <= r
  {
    var c := CumulativeSums(Deviations(segment));
    SeqMaxIsMaximum(c);
    SeqMinIsMinimum(c);
    SeqMax(c) - SeqMin(c)
  }

  /** The standard deviation of a segment, `sqrt` of its population variance. */
  function StdDev(math: Math, segment: seq<real>): (sd: real)
    requires Lawful(math) && |segment| > 0
    ensures 0.0 <= sd
  {
    math.sqrt(Variance(segment))
  }

  /** All running sums of zero values are zero. */
  lemma CumulativeSumsOfZeros(d: seq<real>)
    requires forall i :: 0 <= i < |d| ==> d[i] == 0.0
    ensures forall k :: 0 <= k < |d| ==> CumulativeSums(d)[k] == 0.0
  {
    forall k | 0 <= k < |d|
      ensures CumulativeSums(d)[k] == 0.0
    {
      CumulativeSumAt(d, k);
      SumOfConstant(d[..k + 1], 0.0);
    }
  }

  /** A zero range forces every deviation, hence the variance, to zero. */
  lemma ZeroRangeFlat(segment: seq<real>)
    requires |segment| > 0 && Range(segment) == 0.0
    ensures Variance(segment) == 0.0
  {
    var d := Deviations(segment);
    assert forall k :: 0 <= k < |d| ==> d[k] == 0.0 by {
      DeviationsSumToZero(segment);
      FlatRunningSums(d);
    }
    assert SumSquares(d) == 0.0 by {
      SumSquaresZero(d);
    }
    assert Variance(segment) == SumSquares(d) / |segment| as real;
  }

  /** Values summing to zero whose running sums are all equal are all zero. */
  lemma FlatRunningSums(d: seq<real>)
    requires |d| > 0 && Sum(d) == 0.0
    requires SeqMax(CumulativeSums(d)) == SeqMin(CumulativeSums(d))
    ensures forall k :: 0 <= k < |d| ==> d[k] == 0.0
  {
    var c := CumulativeSums(d);
    CumulativeSumsInverse(d);
    SeqMaxIsMaximum(c);
    SeqMinIsMinimum(c);
    var m := SeqMax(c);
    assert SeqMin(c) <= c[|d| - 1] <= m;
    forall k | 0 <= k < |c|
      ensures c[k] == 0.0
    {
      assert SeqMin(c) <= c[k] <= m;
    }
    forall k | 0 <= k < |d|
      ensures d[k] == 0.0
    {
      if 0 < k {
        assert c[k] - c[k - 1] == d[k];
      }
    }
  }

  /** A zero variance forces every running sum, hence the range, to zero. */
  lemma FlatZeroRange(segment: seq<real>)
    requires |segment| > 0 && Variance(segment) == 0.0
    ensures Range(segment) == 0.0
  {
    VarianceZero(segment);
    ConstantVariance(segment);
    var c := CumulativeSums(Deviations(segment));
    CumulativeSumsOfZeros(Deviations(segment));
    SeqMaxIsMaximum(c);
    SeqMinIsMinimum(c);
  }

  /** A segment's range is zero exactly when its standard deviation is,
      which is exactly when the segment is constant. */
  lemma RangeZero(math: Math, segment: seq<real>)
    requires Lawful(math) && |segment| > 0
    ensures Range(segment) == 0.0 <==> StdDev(math, segment) == 0.0
    ensures StdDev(math, segment) == 0.0 <==> forall i :: 0 <= i < |segment| ==> segment[i] == segment[0]
  {
    VarianceZero(segment);
    SqrtZero(math, Variance(segment));
    if Range(segment) == 0.0 {
      ZeroRangeFlat(segment);
    }
    if Variance(segment) == 0.0 {
      FlatZeroRange(segment);
    }
  }

  /** `stdDev > 0 ? range / stdDev : 1`: the rescaled range of a segment,
      always positive, so its average has a logarithm. */
  function RescaledRangeOf(math: Math, segment: seq<real>): (rs: real)
    requires Lawful(math) && |segment| > 0
    ensures 0.0 < rs
  {
    var stdDev := StdDev(math, segment);
    if stdDev > 0.0 then
      RangeZero(math, segment);
      PositiveQuotient(Range(segment), stdDev);
      Range(segment) / stdDev
    else 1.0
  }

  /** A constant segment has rescaled range 1. */
  lemma RescaledRangeOfConstant(math: Math, segment: seq<real>)
    requires Lawful(math) && |segment| > 0
    requires forall i :: 0 <= i < |segment| ==> segment[i] == segment[0]
    ensures RescaledRangeOf(math, segment) == 1.0
  {
    RangeZero(math, segment);
  }

  /** `rsSum` after the first `k` segments of length `p`. */
  function RescaledRangeSum(math: Math, series: seq<real>, p: int, k: int): (total: real)
    requires Lawful(math) && 0 < p && 0 <= k <= |series| / p
    ensures 0.0 <= total
    ensures 0 < k ==> 0.0 < total
  {
    if k == 0 then 0.0
    else RescaledRangeSum(math, series, p, k - 1) + RescaledRangeOf(math, Segment(series, p, k - 1))
  }

  /** `avgRS = rsSum / numSegments` for the period `p`. */
  function AverageRescaledRange(math: Math, series: seq<real>, p: int): (avg: real)
    requires Lawful(math) && 0 < p && 2 * p < |series|
    ensures 0.0 < avg
  {
    var numSegments := |series| / p;
    SegmentCount(|series|, p);
    PositiveQuotient(RescaledRangeSum(math, series, p, numSegments), numSegments as real);
    RescaledRangeSum(math, series, p, numSegments) / numSegments as real
  }

  /** The point `{logN: log(period), logRS: log(avgRS)}` of one period. */
  function LogPoint(math: Math, series: seq<real>, p: int): Point
    requires Lawful(math) && 0 < p && 2 * p < |series|
  {
    Point(math.log(p as real), math.log(AverageRescaledRange(math, series, p)))
  }

  /** `logRSValues`: one point per period, in the order of the periods. */
  function LogPoints(math: Math, series: seq<real>, periods: seq<int>): (points: seq<Point>)
    requires Lawful(math) && UsablePeriods(periods, |series|)
    ensures |points| == |periods|
  {
    seq(|periods|, j requires 0 <= j < |periods| => LogPoint(math, series, periods[j]))
  }

  /** The `logN` coordinates. */
  function Xs(points: seq<Point>): (xs: seq<real>)
    ensures |xs| == |points|
  {
    seq(|points|, i requires 0 <= i < |points| => points[i].logN)
  }

  /** The `logRS` coordinates. */
  function Ys(points: seq<Point>): (ys: seq<real>)
    ensures |ys| == |points|
  {
    seq(|points|, i requires 0 <= i < |points| => points[i].logRS)
  }

  /** The points of a series of length `n` used in the regression. */
  function PlotOf(math: Math, series: seq<real>): seq<Point>
    requires Lawful(math)
  {
    PeriodsUsable(|series|);
    LogPoints(math, series, Periods(|series|))
  }

  /** With periods 10 and 20 present, the `logN` values are not all equal,
      so the slope's denominator is positive. */
  lemma PlotSpread(math: Math, series: seq<real>)
    requires Lawful(math) && 40 < |series|
    ensures 2 <= |PlotOf(math, series)|
    ensures 0.0 < Denominator(Xs(PlotOf(math, series)))
  {
    TwoPeriods(|series|);
    var xs := Xs(PlotOf(math, series));
    assert xs[0] == math.log(10.0) && xs[1] == math.log(20.0);
    DenominatorPositive(xs);
  }

  /** The value `calculateHurstExponent(series)` returns. */
  function HurstExponent(math: Math, series: seq<real>): (h: real)
    requires Lawful(math)
    ensures 0.0 <= h <= 1.0
  {
    if |series| < 10 then 0.5
    else
      var points := PlotOf(math, series);
      if |points| < 2 then 0.5
      else
        TwoPeriods(|series|);
        PlotSpread(math, series);
        Clamp(Slope(Xs(points), Ys(points)))
  }

  /** A series of at most 40 values gets the neutral estimate 0.5: there are
      fewer than two periods below half its length. */
  lemma ShortSeriesNeutral(math: Math, series: seq<real>)
    requires Lawful(math) && |series| <= 40
    ensures HurstExponent(math, series) == 0.5
  {
    TwoPeriods(|series|);
  }

  /** `log(avgRS) = a + b * log(period)` for every period used. */
  predicate PowerLaw(math: Math, series: seq<real>, a: real, b: real)
    requires Lawful(math)
  {
    forall p :: p in Periods(|series|) ==>
      0 < p && 2 * p < |series| &&
      LogPoint(math, series, p).logRS == Line(a, b, LogPoint(math, series, p).logN)
  }

  /** If the average rescaled range follows the power law
      `avgRS = e^a * period^b` over the periods used, the estimate is `b`
      clamped to [0, 1]: the exponent the analysis is meant to find. */
  lemma PowerLawRecovered(math: Math, series: seq<real>, a: real, b: real)
    requires Lawful(math) && 40 < |series|
    requires PowerLaw(math, series, a, b)
    ensures HurstExponent(math, series) == Clamp(b)
  {
    PlotSpread(math, series);
    var points := PlotOf(math, series);
    var xs, ys := Xs(points), Ys(points);
    forall i | 0 <= i < |points|
      ensures ys[i] == Line(a, b, xs[i])
    {
      PointOnLine(math, series, a, b, i);
    }
    SlopeOfLine(xs, ys, a, b);
  }

  /** Under the power law each plotted point lies on the line. */
  lemma PointOnLine(math: Math, series: seq<real>, a: real, b: real, i: int)
    requires Lawful(math) && PowerLaw(math, series, a, b) && 0 <= i < |PlotOf(math, series)|
    ensures Ys(PlotOf(math, series))[i] == Line(a, b, Xs(PlotOf(math, series))[i])
  {
    var p := Periods(|series|)[i];
    assert p in Periods(|series|);
    assert PlotOf(math, series)[i] == LogPoint(math, series, p);
  }

  /** Every segment of a constant series is constant, so every average
      rescaled range is 1 and the slope is 0. */
  lemma ConstantSeriesAverage(math: Math, series: seq<real>, p: int)
    requires Lawful(math) && 0 < p && 2 * p < |series|
    requires forall i :: 0 <= i < |series| ==> series[i] == series[0]
    ensures AverageRescaledRange(math, series, p) == 1.0
  {
    var k := |series| / p;
    SegmentCount(|series|, p);
    forall i | 0 <= i < k
      ensures RescaledRangeOf(math, Segment(series, p, i)) == 1.0
    {
      ConstantSegment(series, p, i);
      RescaledRangeOfConstant(math, Segment(series, p, i));
    }
    SumOfUnitRanges(math, series, p, k);
    UnitAverage(RescaledRangeSum(math, series, p, k), k);
  }

  /** Every segment of a constant series is constant. */
  lemma ConstantSegment(series: seq<real>, p: int, i: int)
    requires 0 < p && 0 <= i < |series| / p
    requires forall j :: 0 <= j < |series| ==> series[j] == series[0]
    ensures var segment := Segment(series, p, i);
      forall j :: 0 <= j < |segment| ==> segment[j] == segment[0]
  {
    var segment := Segment(series, p, i);
    forall j | 0 <= j < |segment|
      ensures segment[j] == segment[0]
    {
      SegmentAt(series, p, i, j);
      SegmentAt(series, p, i, 0);
    }
  }

  lemma UnitAverage(total: real, k: int)
    requires 0 < k && total == k as real
    ensures total / k as real == 1.0
  {
  }

  /** When every segment has rescaled range 1, `rsSum` counts the segments. */
  lemma {:induction false} SumOfUnitRanges(math: Math, series: seq<real>, p: int, k: int)
    requires Lawful(math) && 0 < p && 0 <= k <= |series| / p
    requires forall i :: 0 <= i < k ==> RescaledRangeOf(math, Segment(series, p, i)) == 1.0
    ensures RescaledRangeSum(math, series, p, k) == k as real
  {
    if 0 < k {
      SumOfUnitRanges(math, series, p, k - 1);
    }
  }

  /** A constant series longer than 40 values has exponent 0. */
  lemma ConstantSeriesExponent(math: Math, series: seq<real>)
    requires Lawful(math) && 40 < |series|
    requires forall i :: 0 <= i < |series| ==> series[i] == series[0]
    ensures HurstExponent(math, series) == 0.0
  {
    PlotSpread(math, series);
    PeriodsUsable(|series|);
    var points := PlotOf(math, series);
    var ys := Ys(points);
    var periods := Periods(|series|);
    forall i | 0 <= i < |ys|
      ensures ys[i] == math.log(1.0)
    {
      ConstantSeriesAverage(math, series, periods[i]);
    }
    SlopeOfConstant(Xs(points), ys);
  }

  /** The running sum of a segment's deviations ends at zero. */
  lemma RunningSumEndsAtZero(segment: seq<real>)
    requires |segment| > 0
    ensures CumulativeSums(Deviations(segment))[|segment| - 1] == 0.0
  {
    CumulativeSumsInverse(Deviations(segment));
    DeviationsSumToZero(segment);
  }

  /** The R/S value of one segment, computed as the source does: the mean,
      the deviations, the running sum `cumSum` in a loop, the range of the
      running sums and the standard deviation. */
  method RescaledRange(math: Math, segment: seq<real>) returns (rs: real)
    requires Lawful(math) && |segment| > 0
    ensures rs == RescaledRangeOf(math, segment)
  {
    var mean := Sum(segment) / |segment| as real;
    var deviations := Shifted(segment, mean);
    assert deviations == Deviations(segment);
    var cumSum := 0.0;
    var cumulativeSums: seq<real> := [];
    var k := 0;
    while k < |deviations|
      invariant 0 <= k <= |deviations|
      invariant cumSum == Sum(deviations[..k])
      invariant cumulativeSums == CumulativeSums(deviations[..k])
    {
      assert deviations[..k + 1][..k] == deviations[..k];
      cumSum := cumSum + deviations[k];
      cumulativeSums := cumulativeSums + [cumSum];
      k := k + 1;
    }
    assert deviations[..k] == deviations;
    var range := SeqMax(cumulativeSums) - SeqMin(cumulativeSums);
    var stdDev := math.sqrt(SumSquares(deviations) / |segment| as real);
    assert range == Range(segment) && stdDev == StdDev(math, segment);
    rs := if stdDev > 0.0 then range / stdDev else 1.0;
  }

  /** The inner loop of `calculateHurstExponent` for one period: `rsSum`
      accumulated over the `Math.floor(n / period)` segments, then averaged. */
  method PeriodAverage(math: Math, series: seq<real>, period: int) returns (avgRS: real)
    requires Lawful(math) && 0 < period && 2 * period < |series|
    ensures avgRS == AverageRescaledRange(math, series, period)
  {
    var n := |series|;
    var numSegments := n / period;
    var rsSum := 0.0;
    var i := 0;
    while i < numSegments
      invariant 0 <= i <= numSegments
      invariant rsSum == RescaledRangeSum(math, series, period, i)
    {
      var segment := Segment(series, period, i);
      var rs := RescaledRange(math, segment);
      rsSum := rsSum + rs;
      i := i + 1;
    }
    assert i == |series| / period;
    avgRS := rsSum / numSegments as real;
  }

  /** `calculateHurstExponent(series)`: for each period, a loop over the
      segments accumulating `rsSum`, then a point pushed onto `logRSValues`;
      finally the regression sums, the slope and the clamp. */
  method CalculateHurstExponent(math: Math, series: seq<real>) returns (h: real)
    requires Lawful(math)
    ensures h == HurstExponent(math, series)
  {
    var n := |series|;
    if n < 10 {
      return 0.5;
    }
    var periods := BelowHalf(CandidatePeriods, n);
    PeriodsUsable(n);
    var logRSValues: seq<Point> := [];
    var j := 0;
    while j < |periods|
      invariant 0 <= j <= |periods|
      invariant logRSValues == LogPoints(math, series, periods[..j])
    {
      var period := periods[j];
      var avgRS := PeriodAverage(math, series, period);
      logRSValues := logRSValues + [Point(math.log(period as real), math.log(avgRS))];
      LogPointsPush(math, series, periods, j);
      j := j + 1;
    }
    assert periods[..j] == periods;
    if |logRSValues| < 2 {
      return 0.5;
    }
    var xs, ys := Xs(logRSValues), Ys(logRSValues);
    var n2 := |logRSValues| as real;
    var sumX := Sum(xs);
    var sumY := Sum(ys);
    var sumXY := Dot(xs, ys);
    var sumX2 := SumSquares(xs);
    TwoPeriods(n);
    PlotSpread(math, series);
    var slope := Covariation(n2, sumX, sumY, sumXY) / Spread(n2, sumX, sumX2);
    h := Clamp(slope);
  }

  lemma LogPointsPush(math: Math, series: seq<real>, periods: seq<int>, j: int)
    requires Lawful(math) && UsablePeriods(periods, |series|) && 0 <= j < |periods|
    ensures LogPoints(math, series, periods[..j + 1])
      == LogPoints(math, series, periods[..j]) + [LogPoint(math, series, periods[j])]
  {
    var t, u := LogPoints(math, series, periods[..j + 1]),
      LogPoints(math, series, periods[..j]) + [LogPoint(math, series, periods[j])];
    assert |t| == j + 1 == |u|;
    forall i | 0 <= i <= j
      ensures t[i] == u[i]
    {
      assert periods[..j + 1][i] == periods[i];
      if i < j {
        assert periods[..j][i] == periods[i];
      }
    }
  }
}
