/** How the Hurst estimate of `calculateHurstExponent` reacts to a change of
    origin. Every rescaled range is built from deviations from a segment's
    own mean, so adding a constant to every value changes no deviation: every
    segment keeps its rescaled range, every point of the log-log plot stays
    in place, and the estimate does not change. */
module HurstInvariance {
  import opened MathModel
  import opened Stats
  import opened Hurst

  /** Adding a constant does not change the rescaled range of a segment. */
  lemma RescaledRangeShifted(math: Math, segment: seq<real>, a: real)
    requires Lawful(math) && |segment| > 0
    ensures RescaledRangeOf(math, Shifted(segment, a)) == RescaledRangeOf(math, segment)
  {
    var moved := Shifted(segment, a);
    DeviationsShifted(segment, a);
    assert Range(moved) == Range(segment);
    assert Variance(moved) == Variance(segment);
  }

  /** Segment `i` of a shifted series is the shifted segment `i`. */
  lemma SegmentShifted(series: seq<real>, a: real, p: int, i: int)
    requires 0 < p && 0 <= i < |series| / p
    ensures Segment(Shifted(series, a), p, i) == Shifted(Segment(series, p, i), a)
  {
    var t, u := Segment(Shifted(series, a), p, i), Shifted(Segment(series, p, i), a);
    forall j | 0 <= j < p
      ensures t[j] == u[j]
    {
      SegmentAt(series, p, i, j);
      SegmentAt(Shifted(series, a), p, i, j);
    }
  }

  /** The running total of rescaled ranges is the same for the shifted series. */
  lemma {:induction false} RescaledRangeSumShifted(math: Math, series: seq<real>, a: real, p: int, k: int)
    requires Lawful(math) && 0 < p && 0 <= k <= |series| / p
    ensures RescaledRangeSum(math, Shifted(series, a), p, k) == RescaledRangeSum(math, series, p, k)
  {
    if k > 0 {
      var moved := Shifted(series, a);
      assert RescaledRangeOf(math, Segment(moved, p, k - 1)) == RescaledRangeOf(math, Segment(series, p, k - 1)) by {
        SegmentShifted(series, a, p, k - 1);
        RescaledRangeShifted(math, Segment(series, p, k - 1), a);
      }
      RescaledRangeSumShifted(math, series, a, p, k - 1);
    }
  }

  /** Shifting the series leaves every point of the log-log plot in place. */
  lemma PlotShifted(math: Math, series: seq<real>, a: real)
    requires Lawful(math)
    ensures PlotOf(math, Shifted(series, a)) == PlotOf(math, series)
  {
    var n := |series|;
    PeriodsUsable(n);
    var periods := Periods(n);
    var t, u := PlotOf(math, Shifted(series, a)), PlotOf(math, series);
    forall j | 0 <= j < |periods|
      ensures t[j] == u[j]
    {
      var p := periods[j];
      RescaledRangeSumShifted(math, series, a, p, n / p);
      assert AverageRescaledRange(math, Shifted(series, a), p) == AverageRescaledRange(math, series, p);
    }
  }

  /** Adding the same constant to every value does not change the estimate. */
  lemma HurstShiftInvariant(math: Math, series: seq<real>, a: real)
    requires Lawful(math)
    ensures HurstExponent(math, Shifted(series, a)) == HurstExponent(math, series)
  {
    PlotShifted(math, series, a);
  }
}
