# Fractal time-series analysis, modelled in Dafny

This project models the analysis library `src/lib/fractalAnalysis.ts` of a
fractal market-analysis dashboard. The library has four functions:

- `generateRandomTimeSeries` builds a synthetic price walk. Each step mixes a
  random draw with a +1/-1 trend term, and the Hurst exponent sets the weight
  of the trend term.
- `calculateHurstExponent` estimates the Hurst exponent by rescaled-range
  (R/S) analysis over the periods 10, 20, 40 and 80. It fits a least-squares
  slope through the log-log points and clamps it to [0, 1]. It returns 0.5
  when there is too little data.
- `calculateVolatility` is the population standard deviation of the simple
  returns of a series.
- `detectRegimeChanges` slides two adjacent windows over a series. At each
  index it scores the change in Hurst estimate and in volatility, capped at 1.

All arithmetic is over Dafny `real`. `Math.sqrt` and `Math.log` are passed in
as a `MathModel.Math` value. `MathModel.Lawful` states the only facts the
proofs use:

- `sqrt` is the non-negative square root of a non-negative argument;
- `log` is strictly increasing on positive arguments.

`Math.random()` becomes a caller-supplied sequence `draws` of its results,
consumed one per step.

Modules, one per part of the source:

| module | file | models |
|---|---|---|
| `MathModel` | `math_model.dfy` | `Math.sqrt`, `Math.log`, `Math.abs`, and small real-arithmetic facts |
| `Stats` | `stats.dfy` | the `reduce` sums, the mean, the deviations and the population variance |
| `SeriesGenerator` | `series_generator.dfy` | `generateRandomTimeSeries` |
| `Volatility` | `volatility.dfy` | `calculateVolatility` |
| `Hurst` | `hurst.dfy` | `calculateHurstExponent`: periods, segments, R/S, log-log points, the estimate |
| `Regression` | `regression.dfy` | the least-squares slope and the clamp |
| `HurstInvariance` | `hurst_invariance.dfy` | the estimate does not change when a constant is added to the series |
| `RegimeChange` | `regime_change.dfy` | `detectRegimeChanges` |

Each loop of the source is a `method` proved equal to a specification
function:

- `GenerateRandomTimeSeries` equals `Walk`;
- `CalculateVolatility` equals `VolatilityOf`;
- `RescaledRange`, `PeriodAverage` and `CalculateHurstExponent` equal
  `RescaledRangeOf`, `AverageRescaledRange` and `HurstExponent`;
- `DetectRegimeChanges` fills an `array` in place, and its contents equal
  `RegimeScores`.

The lemmas state what the source promises about those functions.

`SeriesGenerator.WalkSymmetricAboutHalf` shows that the generator makes the
same walk for exponents `h` and `1 - h`. The trend weight is
`|h - 0.5| * 2` and the trend term always points away from the start value.
So an exponent below 0.5 also trends; it does not mean-revert, as the doc
comment at `src/lib/fractalAnalysis.ts:9` suggests. The model keeps the
code's behaviour.

## Model

| member | source | states |
|---|---|---|
| `MathModel.SqrtZero` | src/lib/fractalAnalysis.ts:156 | A lawful square root of a non-negative number is zero exactly when the number is zero. |
| `MathModel.Abs` | src/lib/fractalAnalysis.ts:23-24 | `Math.abs(x)` is never negative and is either `x` or `-x`; it is also used at lines 126-127. |
| `SeriesGenerator.RandomComponent` | src/lib/fractalAnalysis.ts:19 | For a result `u` of `Math.random()` in [0, 1], the random component lies between -1 and 1. |
| `SeriesGenerator.TrendComponent` | src/lib/fractalAnalysis.ts:20 | The trend term is +1 or -1. It is +1 exactly when the previous value exceeds the start value. |
| `SeriesGenerator.TrendWeight` | src/lib/fractalAnalysis.ts:23-24 | The weight of the trend term is never negative. It is at most 1 for an exponent in [0, 1]. |
| `SeriesGenerator.Step` | src/lib/fractalAnalysis.ts:23-24 | Definition only, no ensures: the mix of the random and trend components, doubled. `StepBounded`, `IncrementAtHalf` and `IncrementAtExtremes` state its properties. |
| `SeriesGenerator.Increment` | src/lib/fractalAnalysis.ts:19-24 | Definition only, no ensures: the step for one draw, previous value and exponent. `IncrementBounded` bounds it by 2. |
| `SeriesGenerator.Walk` | src/lib/fractalAnalysis.ts:13-30 | The generated series has `length` elements, or exactly one when `length <= 1`. Its first element is the start value. |
| `SeriesGenerator.WalkPrefix` | src/lib/fractalAnalysis.ts:17-27 | With the same draws, a shorter series is a prefix of a longer one: the loop only appends. |
| `SeriesGenerator.WalkStep` | src/lib/fractalAnalysis.ts:26 | Each element after the first is its predecessor plus that step's increment. The step uses the next draw and the trend of the predecessor. |
| `SeriesGenerator.StepBounded` | src/lib/fractalAnalysis.ts:23-24 | A step mixes a random part in [-1, 1], a trend of +/-1 and a weight in [0, 1]. It moves by at most 2. |
| `SeriesGenerator.IncrementBounded` | src/lib/fractalAnalysis.ts:19-24 | With a draw of `Math.random()` in [0, 1] and an exponent in [0, 1], each increment has absolute value at most 2. |
| `SeriesGenerator.IncrementAtHalf` | src/lib/fractalAnalysis.ts:23-24 | At exponent 0.5 the trend has no weight: the increment is twice the random component. |
| `SeriesGenerator.IncrementAtExtremes` | src/lib/fractalAnalysis.ts:23-24 | At exponent 0 or 1 the draw has no weight: the increment is twice the trend term. |
| `SeriesGenerator.WalkBounded` | src/lib/fractalAnalysis.ts:17-27 | For draws and exponent in [0, 1], element `i` lies within `2 * i` of the start value. |
| `SeriesGenerator.WalkSymmetricAboutHalf` | src/lib/fractalAnalysis.ts:20-24 | The exponents `h` and `1 - h` generate the same series from the same draws. |
| `SeriesGenerator.GenerateRandomTimeSeries` | src/lib/fractalAnalysis.ts:13-30 | The push loop returns the walk: the right length, the start value first, and each element its predecessor plus its increment. |
| `Stats.Sum` | src/lib/fractalAnalysis.ts:55 | Definition only, no ensures: the left-to-right `reduce` sum, also used at lines 89-90 and 153. `SumShifted` and `SumOfConstant` state how it behaves. |
| `Stats.Mean` | src/lib/fractalAnalysis.ts:55 | Definition only, no ensures: the sum divided by the length, also at line 153. `ConstantVariance` and `DeviationsSumToZero` state its properties. |
| `Stats.Deviations` | src/lib/fractalAnalysis.ts:58 | There is one deviation per value. `DeviationsSumToZero` and `DeviationsShifted` state the rest. |
| `Stats.SumSquares` | src/lib/fractalAnalysis.ts:67 | A sum of squares is never negative. |
| `Stats.Variance` | src/lib/fractalAnalysis.ts:154 | The population variance is never negative. |
| `Stats.DeviationsSumToZero` | src/lib/fractalAnalysis.ts:55-58 | The deviations from the mean add up to zero. |
| `Stats.DeviationsShifted` | src/lib/fractalAnalysis.ts:55-58 | Adding a constant to every value leaves the deviations from the mean unchanged. |
| `Stats.SumSquaresZero` | src/lib/fractalAnalysis.ts:67 | A sum of squares is zero exactly when every term is zero. |
| `Stats.ConstantVariance` | src/lib/fractalAnalysis.ts:55-67 | A constant series has its value as mean, all deviations zero and variance zero. |
| `Stats.VarianceZero` | src/lib/fractalAnalysis.ts:153-154 | The population variance is zero exactly when the series is constant. |
| `Volatility.SimpleReturn` | src/lib/fractalAnalysis.ts:149 | Definition only, no ensures: `(current - previous) / previous` for a non-zero `previous`. `ReturnsCompound` inverts it and `SimpleReturnScaled` shows it is unit-free. |
| `Volatility.Returns` | src/lib/fractalAnalysis.ts:147-150 | There is one return per consecutive pair, and none for fewer than two points. |
| `Volatility.VolatilityOf` | src/lib/fractalAnalysis.ts:143-157 | The volatility is never negative. |
| `Volatility.ReturnsCompound` | src/lib/fractalAnalysis.ts:149 | Growing an element by its return gives the next element. So the returns and the first element rebuild the series. |
| `Volatility.VolatilityZero` | src/lib/fractalAnalysis.ts:143-157 | The volatility is zero exactly when there are fewer than two points or all returns are equal. |
| `Volatility.ConstantSeriesVolatility` | src/lib/fractalAnalysis.ts:143-157 | A constant series of a non-zero value has all divisors non-zero and volatility zero. |
| `Volatility.SimpleReturnScaled` | src/lib/fractalAnalysis.ts:149 | A return is unchanged when both prices are multiplied by the same non-zero factor. |
| `Volatility.VolatilityScaleInvariant` | src/lib/fractalAnalysis.ts:143-157 | Multiplying a series by a non-zero factor keeps its divisors non-zero and leaves its volatility unchanged. |
| `Volatility.CalculateVolatility` | src/lib/fractalAnalysis.ts:143-157 | The loop that collects returns, then the mean, variance and square root, computes exactly the volatility. |
| `Hurst.Periods` | src/lib/fractalAnalysis.ts:43 | Definition only, no ensures: the candidates `[10, 20, 40, 80]` filtered by `BelowHalf`. `PeriodsByLength`, `TwoPeriods` and `PeriodsUsable` state the result. |
| `Hurst.BelowHalf` | src/lib/fractalAnalysis.ts:43 | A period survives the filter exactly when it is a candidate below half the length. The filter never adds periods. |
| `Hurst.PeriodsByLength` | src/lib/fractalAnalysis.ts:43 | The periods used, by length: none up to 20; [10] up to 40; [10, 20] up to 80; [10, 20, 40] up to 160; all four above 160. |
| `Hurst.TwoPeriods` | src/lib/fractalAnalysis.ts:43 | At least two periods survive exactly when the length exceeds 40. The first two are then 10 and 20. |
| `Hurst.PeriodsUsable` | src/lib/fractalAnalysis.ts:43 | Every period used is positive and less than half the length. |
| `Hurst.SegmentCount` | src/lib/fractalAnalysis.ts:48 | For a surviving period there are at least two segments. The remainder dropped is shorter than one period. |
| `Hurst.SegmentInside` | src/lib/fractalAnalysis.ts:51-52 | Every segment index below `floor(n / p)` gives slice bounds inside the series. |
| `Hurst.Segment` | src/lib/fractalAnalysis.ts:52 | Every segment holds exactly one period of values. |
| `Hurst.SegmentAt` | src/lib/fractalAnalysis.ts:51-52 | Element `j` of segment `i` is element `i * p + j` of the series. So segments are consecutive and do not overlap. |
| `Hurst.CumulativeSums` | src/lib/fractalAnalysis.ts:59-60 | There is one running sum per deviation. |
| `Hurst.CumulativeSumAt` | src/lib/fractalAnalysis.ts:59-60 | Running sum `k` is the sum of the first `k + 1` deviations. |
| `Hurst.CumulativeSumsInverse` | src/lib/fractalAnalysis.ts:59-60 | Differencing the running sums gives back the deviations, and the last running sum is their total. |
| `Hurst.SeqMax` | src/lib/fractalAnalysis.ts:63 | Definition only, no ensures: `Math.max(...s)` of a non-empty sequence. `SeqMaxIsMaximum` states that it is the maximum. |
| `Hurst.SeqMin` | src/lib/fractalAnalysis.ts:63 | Definition only, no ensures: `Math.min(...s)` of a non-empty sequence. `SeqMinIsMinimum` states that it is the minimum. |
| `Hurst.SeqMaxIsMaximum` | src/lib/fractalAnalysis.ts:63 | `Math.max(...s)` is an element of `s` that no element exceeds. |
| `Hurst.SeqMinIsMinimum` | src/lib/fractalAnalysis.ts:63 | `Math.min(...s)` is an element of `s` that no element is below. |
| `Hurst.Range` | src/lib/fractalAnalysis.ts:63 | The range of the running sums is never negative. |
| `Hurst.StdDev` | src/lib/fractalAnalysis.ts:66-68 | A segment's standard deviation is never negative. |
| `Hurst.CumulativeSumsOfZeros` | src/lib/fractalAnalysis.ts:60 | Running sums of zero deviations are all zero. |
| `Hurst.ZeroRangeFlat` | src/lib/fractalAnalysis.ts:63-67 | A zero range forces the variance of the segment to zero. |
| `Hurst.FlatRunningSums` | src/lib/fractalAnalysis.ts:58-63 | Deviations summing to zero whose running sums have max equal to min are all zero. |
| `Hurst.FlatZeroRange` | src/lib/fractalAnalysis.ts:63-67 | A zero variance forces the range to zero. |
| `Hurst.RangeZero` | src/lib/fractalAnalysis.ts:63-71 | The range is zero exactly when the standard deviation is. That is exactly when the segment is constant. |
| `Hurst.RunningSumEndsAtZero` | src/lib/fractalAnalysis.ts:58-60 | The last running sum of a segment's deviations is 0. |
| `Hurst.RescaledRangeOf` | src/lib/fractalAnalysis.ts:71 | Every segment's R/S value is strictly positive, whether the standard deviation is positive or the fallback 1 is used. |
| `Hurst.RescaledRangeOfConstant` | src/lib/fractalAnalysis.ts:71 | A constant segment has R/S value 1. |
| `Hurst.RescaledRangeSum` | src/lib/fractalAnalysis.ts:72 | The running R/S total is never negative, and it is positive once a segment is counted. |
| `Hurst.AverageRescaledRange` | src/lib/fractalAnalysis.ts:76 | The average R/S of a surviving period is strictly positive, so its logarithm is defined. |
| `Hurst.LogPoint` | src/lib/fractalAnalysis.ts:78-81 | Definition only, no ensures: the point `{log(period), log(avgRS)}` of one period. `AverageRescaledRange` guarantees its logarithm argument is positive. |
| `Hurst.LogPoints` | src/lib/fractalAnalysis.ts:78-81 | There is one log-log point per period used. |
| `Hurst.PlotOf` | src/lib/fractalAnalysis.ts:78-81 | Definition only, no ensures: the points of all periods used. `PlotSpread`, `PlotShifted` and `PointOnLine` state its properties. |
| `Hurst.PlotSpread` | src/lib/fractalAnalysis.ts:86-95 | For more than 40 values there are at least two points, and the slope's denominator is strictly positive. |
| `Hurst.HurstExponent` | src/lib/fractalAnalysis.ts:37-99 | The estimate always lies in [0, 1]. |
| `Hurst.ShortSeriesNeutral` | src/lib/fractalAnalysis.ts:40-86 | Every series of at most 40 values gets the estimate 0.5, whatever its contents. |
| `Hurst.PowerLawRecovered` | src/lib/fractalAnalysis.ts:88-98 | If the average R/S follows `log(avgRS) = a + b * log(period)`, the estimate is `b` clamped to [0, 1]. |
| `Hurst.PointOnLine` | src/lib/fractalAnalysis.ts:78-81 | Under such a power law every plotted point lies on the line. |
| `Hurst.ConstantSegment` | src/lib/fractalAnalysis.ts:52 | Every segment of a constant series is constant. |
| `Hurst.ConstantSeriesAverage` | src/lib/fractalAnalysis.ts:51-76 | For a constant series the average R/S of every period is 1. |
| `Hurst.SumOfUnitRanges` | src/lib/fractalAnalysis.ts:72 | When every segment has R/S value 1, the R/S total is the number of segments. |
| `Hurst.ConstantSeriesExponent` | src/lib/fractalAnalysis.ts:37-99 | A constant series of more than 40 values has estimate 0. |
| `Hurst.RescaledRange` | src/lib/fractalAnalysis.ts:55-71 | The per-segment computation computes the segment's R/S value. It uses the mean, the deviations, the running sums, the range and the standard deviation. |
| `Hurst.PeriodAverage` | src/lib/fractalAnalysis.ts:47-76 | The segment loop of one period computes its average R/S. |
| `Hurst.CalculateHurstExponent` | src/lib/fractalAnalysis.ts:37-99 | The nested loops, the regression sums, the slope and the clamp compute exactly the estimate. |
| `Regression.Dot` | src/lib/fractalAnalysis.ts:91 | Definition only, no ensures: the sum of products of paired values. `DotWithLine` evaluates it for points on a line. |
| `Regression.Denominator` | src/lib/fractalAnalysis.ts:95 | Definition only, no ensures: `n * sumX2 - sumX * sumX`. `DenominatorIsScaledVariance` and `DenominatorPositive` state its value and sign. |
| `Regression.Numerator` | src/lib/fractalAnalysis.ts:95 | Definition only, no ensures: `n * sumXY - sumX * sumY`. `SlopeOfLine` evaluates it through the slope. |
| `Regression.Slope` | src/lib/fractalAnalysis.ts:95 | Definition only, no ensures: the least-squares slope, numerator over denominator. `SlopeOfLine` and `SlopeOfConstant` state what it returns. |
| `Regression.Clamp` | src/lib/fractalAnalysis.ts:98 | The result lies in [0, 1]. A value already in [0, 1] is kept. Below 0 gives 0 and above 1 gives 1. |
| `Regression.SumSquaresShifted` | src/lib/fractalAnalysis.ts:92 | Expands the squares of shifted values into the sum and the sum of squares. |
| `Regression.DenominatorIsScaledVariance` | src/lib/fractalAnalysis.ts:95 | The slope's denominator is `n * n` times the population variance of the x values. |
| `Regression.DenominatorPositive` | src/lib/fractalAnalysis.ts:95 | The denominator is never negative. It is positive exactly when the x values are not all equal. |
| `Regression.SumOfLine` | src/lib/fractalAnalysis.ts:90 | The y values of points on `y = a + b * x` sum to `n * a + b * sumX`. |
| `Regression.DotWithLine` | src/lib/fractalAnalysis.ts:91 | For points on `y = a + b * x`, the sum of `x * y` is `a * sumX + b * sumX2`. |
| `Regression.SlopeOfLine` | src/lib/fractalAnalysis.ts:95 | Points on the line `y = a + b * x` with a positive denominator have least-squares slope `b`. |
| `Regression.SlopeOfConstant` | src/lib/fractalAnalysis.ts:95 | Points with equal y values have slope 0. |
| `HurstInvariance.RescaledRangeShifted` | src/lib/fractalAnalysis.ts:55-71 | Adding a constant to a segment leaves its R/S value unchanged. |
| `HurstInvariance.SegmentShifted` | src/lib/fractalAnalysis.ts:52 | A segment of a shifted series is the shifted segment. |
| `HurstInvariance.RescaledRangeSumShifted` | src/lib/fractalAnalysis.ts:72 | The R/S total of a shifted series equals that of the original. |
| `HurstInvariance.PlotShifted` | src/lib/fractalAnalysis.ts:78-81 | A shifted series has the same log-log points. |
| `HurstInvariance.HurstShiftInvariant` | src/lib/fractalAnalysis.ts:37-99 | Adding the same constant to every value does not change the estimate. |
| `RegimeChange.Scanned` | src/lib/fractalAnalysis.ts:114 | Definition only, no ensures: the loop's range `windowSize <= i < data.length - windowSize`. `RegimeScoresShape` states that other indices stay 0. |
| `RegimeChange.Before` | src/lib/fractalAnalysis.ts:115 | The first window holds `windowSize` values. |
| `RegimeChange.After` | src/lib/fractalAnalysis.ts:116 | The second window holds `windowSize` values. |
| `RegimeChange.AtMostOne` | src/lib/fractalAnalysis.ts:130 | `Math.min(1, x)` is at most 1. It is either `x` or 1. |
| `RegimeChange.RelativeChange` | src/lib/fractalAnalysis.ts:127 | Definition only, no ensures: `Math.abs(vol2 - vol1) / vol1`. `RelativeChangeZero` states its sign and when it is zero. |
| `RegimeChange.Probability` | src/lib/fractalAnalysis.ts:130 | Definition only, no ensures: `Math.min(1, (hurstChange * 2 + volChange) / 2)`. `ScoreBounds` states its bounds. |
| `RegimeChange.Score` | src/lib/fractalAnalysis.ts:115-130 | Definition only, no ensures: the probability at a scanned index from both windows' estimates and volatilities. `ScoreBounds` states its properties and `ScoreWindows` computes it. |
| `RegimeChange.RelativeChangeZero` | src/lib/fractalAnalysis.ts:127 | The relative change from a positive volatility is never negative. It is zero exactly when the volatility does not change. |
| `RegimeChange.ScoreBounds` | src/lib/fractalAnalysis.ts:126-130 | Each score lies in [0, 1]. It is zero exactly when both windows have the same estimate and the same volatility. It is never below the change in estimate. |
| `RegimeChange.RegimeScores` | src/lib/fractalAnalysis.ts:107-136 | The result has one entry per data point. |
| `RegimeChange.RegimeScoresShape` | src/lib/fractalAnalysis.ts:112-133 | Every entry lies in [0, 1]. Entries before `windowSize` or from `data.length - windowSize` on stay 0. A scanned entry is the score of the window ending just before it against the window starting at it. |
| `RegimeChange.ShortSeriesScoresZero` | src/lib/fractalAnalysis.ts:108-110 | Data shorter than two windows needs no division and scores 0 everywhere. |
| `RegimeChange.WindowsAdjacent` | src/lib/fractalAnalysis.ts:115-116 | At a scanned index the windows each hold `windowSize` values. They are adjacent, and together they are `data[i - windowSize .. i + windowSize)`. |
| `RegimeChange.ScoreWindows` | src/lib/fractalAnalysis.ts:115-130 | The loop body computes the score of index `i`: both estimates, both volatilities, their changes and the capped probability. |
| `RegimeChange.DetectRegimeChanges` | src/lib/fractalAnalysis.ts:107-136 | The loop fills a fresh zeroed array in place. On exit it holds the score at each scanned index and 0 elsewhere. |

## Left out

- Floating point: all arithmetic is over exact reals. IEEE-754 rounding, NaN and Infinity are not modelled.
- `MathModel.Lawful`: `Math.sqrt` and `Math.log` are parameters. They are known only to be the exact square root and a strictly increasing logarithm; their numerics are not modelled.
- `SeriesGenerator.GenerateRandomTimeSeries`: `Math.random()` is replaced by the caller's sequence `draws` of its results. Nothing about randomness or distribution is stated. The bound lemmas assume draws in [0, 1], as `Math.random()` returns.
- `SeriesGenerator.GenerateRandomTimeSeries`: `length` is an integer. A fractional `length` in the source also runs the loop while `i < length`.
- `Volatility.CalculateVolatility`: requires every divisor `data[i - 1]` to be non-zero. The source divides without a guard and would produce a non-finite value there.
- `RegimeChange.DetectRegimeChanges`: requires at every scanned index that both windows' divisors are non-zero and that the first window's volatility is non-zero. The source divides by `vol1` without a guard. The precondition removes two kinds of input. When `vol1 == 0 < vol2`, as for a flat window followed by a moving one, `volChange` is `Infinity` and the source stores exactly 1. When `vol1 == vol2 == 0`, `volChange` is `NaN` and the source stores `NaN`. The model promises nothing for either case.
- `RegimeChange.DetectRegimeChanges`: `windowSize` is a natural number and must be given. The default of 50 and negative or fractional window sizes, which change the meaning of `slice`, are not modelled.
- Statistical claims: whether the estimate tracks the true Hurst exponent, and what the generator's walks look like on average. These are empirical, not provable.
- Scale invariance of the Hurst estimate is not stated. `Volatility.VolatilityScaleInvariant` states it for volatility only.
- The React components, pages and context of the dashboard are presentation or mock data and are not part of this model. That includes the threshold labels and trend line of `src/components/FractalChart.tsx`.
