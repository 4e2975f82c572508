/** `detectRegimeChanges`: slides two adjacent windows of `windowSize`
    values over a series and scores, at each index between them, how much
    the Hurst estimate and the volatility change from the first window to
    the second. Indices the scan does not reach keep the score 0. */
module RegimeChange {
  import opened MathModel
  import opened Volatility
  import opened Hurst

  /** `data.slice(i - windowSize, i)`: the window that ends before index `i`. */
  function Before(data: seq<real>, windowSize: nat, i: int): (window: seq<real>)
    requires windowSize <= i <= |data|
    ensures |window| == windowSize
  {
    data[i - windowSize..i]
  }

  /** `data.slice(i, i + windowSize)`: the window that starts at index `i`. */
  function After(data: seq<real>, windowSize: nat, i: int): (window: seq<real>)
    requires 0 <= i && i + windowSize <= |data|
    ensures |window| == windowSize
  {
    data[i..i + windowSize]
  }

  /** Whether index `i` is one the loop scores. */
  predicate Scanned(n: int, windowSize: nat, i: int) {
    windowSize <= i < n - windowSize
  }

  /** Both volatilities at index `i` are defined and the first is non-zero,
      so the relative volatility change can be formed. */
  ghost predicate WindowsDefined(math: Math, data: seq<real>, windowSize: nat, i: int)
    requires Lawful(math) && Scanned(|data|, windowSize, i)
  {
    NonzeroPredecessors(Before(data, windowSize, i))
    && NonzeroPredecessors(After(data, windowSize, i))
    && VolatilityOf(math, Before(data, windowSize, i)) != 0.0
  }

  /** Every index the loop scores has its windows defined. */
  ghost predicate ScanDefined(math: Math, data: seq<real>, windowSize: nat)
    requires Lawful(math)
  {
    forall i :: Scanned(|data|, windowSize, i) ==> WindowsDefined(math, data, windowSize, i)
  }

  /** `Math.min(1, x)`. */
  function AtMostOne(x: real): (r: real)
    ensures r <= 1.0
    ensures r == x || r == 1.0
  {
    if 1.0 < x then 1.0 else x
  }

  /** `Math.abs(vol2 - vol1) / vol1`. */
  function RelativeChange(vol1: real, vol2: real): (r: real)
    requires vol1 != 0.0
  {
    Abs(vol2 - vol1) / vol1
  }

  /** A relative change from a positive volatility is never negative, and
      it is zero exactly when the volatility does not change. */
  lemma RelativeChangeZero(vol1: real, vol2: real)
    requires 0.0 < vol1
    ensures 0.0 <= RelativeChange(vol1, vol2)
    ensures RelativeChange(vol1, vol2) == 0.0 <==> vol1 == vol2
  {
    var d := Abs(vol2 - vol1);
    if vol1 != vol2 {
      PositiveQuotient(d, vol1);
    } else {
      assert d == 0.0;
    }
  }

  /** `Math.min(1, (hurstChange * 2 + volChange) / 2)`. */
  function Probability(hurstChange: real, volChange: real): real {
    AtMostOne((hurstChange * 2.0 + volChange) / 2.0)
  }

  /** The score the loop stores at a scanned index `i`. */
  function Score(math: Math, data: seq<real>, windowSize: nat, i: int): real
    requires Lawful(math) && Scanned(|data|, windowSize, i) && WindowsDefined(math, data, windowSize, i)
  {
    var window1, window2 := Before(data, windowSize, i), After(data, windowSize, i);
    var hurstChange := Abs(HurstExponent(math, window2) - HurstExponent(math, window1));
    var volChange := RelativeChange(VolatilityOf(math, window1), VolatilityOf(math, window2));
    Probability(hurstChange, volChange)
  }

  /** A score lies in [0, 1]; it is 0 exactly when the two windows have the
      same Hurst estimate and the same volatility; and it is never below the
      change in the Hurst estimate. */
  lemma ScoreBounds(math: Math, data: seq<real>, windowSize: nat, i: int)
    requires Lawful(math) && Scanned(|data|, windowSize, i) && WindowsDefined(math, data, windowSize, i)
    ensures 0.0 <= Score(math, data, windowSize, i) <= 1.0
    ensures var window1, window2 := Before(data, windowSize, i), After(data, windowSize, i);
      Score(math, data, windowSize, i) == 0.0 <==>
        HurstExponent(math, window1) == HurstExponent(math, window2)
        && VolatilityOf(math, window1) == VolatilityOf(math, window2)
    ensures var window1, window2 := Before(data, windowSize, i), After(data, windowSize, i);
      Abs(HurstExponent(math, window2) - HurstExponent(math, window1)) <= Score(math, data, windowSize, i)
  {
    var window1, window2 := Before(data, windowSize, i), After(data, windowSize, i);
    var vol1, vol2 := VolatilityOf(math, window1), VolatilityOf(math, window2);
    RelativeChangeZero(vol1, vol2);
  }

  /** The series `detectRegimeChanges(data, windowSize)` returns: the score
      at every scanned index and 0 everywhere else. */
  function RegimeScores(math: Math, data: seq<real>, windowSize: nat): (scores: seq<real>)
    requires Lawful(math) && ScanDefined(math, data, windowSize)
    ensures |scores| == |data|
  {
    seq(|data|, i requires 0 <= i < |data| =>
      if Scanned(|data|, windowSize, i) then Score(math, data, windowSize, i) else 0.0)
  }

  /** Every entry is in [0, 1]; entries before `windowSize` or from
      `|data| - windowSize` on are 0; a scanned entry is the score of the
      window ending just before it against the window starting at it. */
  lemma RegimeScoresShape(math: Math, data: seq<real>, windowSize: nat)
    requires Lawful(math) && ScanDefined(math, data, windowSize)
    ensures var scores := RegimeScores(math, data, windowSize);
      forall i :: 0 <= i < |data| ==>
        0.0 <= scores[i] <= 1.0
        && (i < windowSize || |data| - windowSize <= i ==> scores[i] == 0.0)
        && (Scanned(|data|, windowSize, i) ==> scores[i] == Score(math, data, windowSize, i))
  {
    var scores := RegimeScores(math, data, windowSize);
    forall i | 0 <= i < |data|
      ensures 0.0 <= scores[i] <= 1.0
    {
      if Scanned(|data|, windowSize, i) {
        ScoreBounds(math, data, windowSize, i);
      }
    }
  }

  /** A series shorter than two windows scores 0 everywhere. */
  lemma ShortSeriesScoresZero(math: Math, data: seq<real>, windowSize: nat)
    requires Lawful(math) && |data| < 2 * windowSize
    ensures ScanDefined(math, data, windowSize)
    ensures forall i :: 0 <= i < |data| ==> RegimeScores(math, data, windowSize)[i] == 0.0
  {
  }

  /** The two windows at a scanned index are adjacent, each holds
      `windowSize` values, and together they are the stretch of `data`
      from `i - windowSize` to `i + windowSize`. */
  lemma WindowsAdjacent(data: seq<real>, windowSize: nat, i: int)
    requires Scanned(|data|, windowSize, i)
    ensures |Before(data, windowSize, i)| == windowSize == |After(data, windowSize, i)|
    ensures Before(data, windowSize, i) + After(data, windowSize, i) == data[i - windowSize..i + windowSize]
    ensures forall j :: 0 <= j < windowSize ==>
      Before(data, windowSize, i)[j] == data[i - windowSize + j] && After(data, windowSize, i)[j] == data[i + j]
  {
    var window1, window2 := Before(data, windowSize, i), After(data, windowSize, i);
    assert window1 + window2 == data[i - windowSize..i + windowSize];
  }

  /** The body of the scan at index `i`: estimates both windows and
      combines their changes into a probability. */
  method ScoreWindows(math: Math, data: seq<real>, windowSize: nat, i: int) returns (probability: real)
    requires Lawful(math) && Scanned(|data|, windowSize, i) && WindowsDefined(math, data, windowSize, i)
    ensures probability == Score(math, data, windowSize, i)
  {
    var window1 := Before(data, windowSize, i);
    var window2 := After(data, windowSize, i);
    var hurst1 := CalculateHurstExponent(math, window1);
    var hurst2 := CalculateHurstExponent(math, window2);
    var vol1 := CalculateVolatility(math, window1);
    var vol2 := CalculateVolatility(math, window2);
    var hurstChange := Abs(hurst2 - hurst1);
    var volChange := RelativeChange(vol1, vol2);
    probability := Probability(hurstChange, volChange);
  }

  /** The scores after the scan has reached index `i`: scanned indices
      below `i` hold their score, all others 0. */
  function ScannedUpTo(math: Math, data: seq<real>, windowSize: nat, i: int): (scores: seq<real>)
    requires Lawful(math) && ScanDefined(math, data, windowSize)
    ensures |scores| == |data|
  {
    seq(|data|, k requires 0 <= k < |data| =>
      if Scanned(|data|, windowSize, k) && k < i then Score(math, data, windowSize, k) else 0.0)
  }

  lemma ScanStep(math: Math, data: seq<real>, windowSize: nat, i: int, scores: seq<real>, probability: real)
    requires Lawful(math) && ScanDefined(math, data, windowSize) && Scanned(|data|, windowSize, i)
    requires scores == ScannedUpTo(math, data, windowSize, i)
    requires probability == Score(math, data, windowSize, i)
    ensures scores[i := probability] == ScannedUpTo(math, data, windowSize, i + 1)
  {
  }

  /** `detectRegimeChanges(data, windowSize)`: fills a zeroed array of the
      same length as `data`, then scores each scanned index in place. */
  method DetectRegimeChanges(math: Math, data: seq<real>, windowSize: nat) returns (result: array<real>)
    requires Lawful(math) && ScanDefined(math, data, windowSize)
    ensures fresh(result)
    ensures result[..] == RegimeScores(math, data, windowSize)
  {
    result := new real[|data|](_ => 0.0);
    if |data| < windowSize * 2 {
      return;
    }
    var i := windowSize;
    assert result[..] == ScannedUpTo(math, data, windowSize, i);
    while i < |data| - windowSize
      invariant windowSize <= i <= |data| - windowSize
      invariant result[..] == ScannedUpTo(math, data, windowSize, i)
    {
      var probability := ScoreWindows(math, data, windowSize, i);
      ScanStep(math, data, windowSize, i, result[..], probability);
      result[i] := probability;
      i := i + 1;
    }
    assert ScannedUpTo(math, data, windowSize, i) == RegimeScores(math, data, windowSize);
  }
}
