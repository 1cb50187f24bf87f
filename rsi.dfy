/**
 * The relative strength index of `TechnicalAnalysis.calculateRSI`: gains and losses
 * of consecutive closes, Wilder smoothing of both, and `100 - 100 / (1 + rs)` per
 * point. A point's value is a JavaScript number, so the zero-loss cases are kept as
 * the infinities and NaN the division produces.
 */
module Rsi {
  import opened Numbers
  import opened IndicatorTypes

  // ---------------------------------------------------------------------------
  // Gains and losses
  // ---------------------------------------------------------------------------

  /** The gain of a price change: the change when it is positive, else 0. */
  function Gain(change: real): real
  {
    if change > 0.0 then change else 0.0
  }

  /** The loss of a price change: its magnitude when it is negative, else 0. */
  function Loss(change: real): real
  {
    if change < 0.0 then Abs(change) else 0.0
  }

  /** A change splits into a non-negative gain and loss, at most one of them non-zero. */
  lemma GainLossSplit(change: real)
    ensures Gain(change) >= 0.0 && Loss(change) >= 0.0
    ensures Gain(change) - Loss(change) == change
    ensures Gain(change) == 0.0 || Loss(change) == 0.0
  {
  }

  /** The gain of each consecutive pair of closes, `gains[i]` for the change into `closes[i + 1]`. */
  function Gains(closes: seq<real>): (r: seq<real>)
    ensures |closes| >= 1 ==> |r| == |closes| - 1
    ensures |closes| == 0 ==> r == []
    ensures forall i :: 0 <= i < |r| ==> r[i] == Gain(closes[i + 1] - closes[i])
  {
    if |closes| < 2 then []
    else Gains(closes[..|closes| - 1]) + [Gain(closes[|closes| - 1] - closes[|closes| - 2])]
  }

  /** The loss of each consecutive pair of closes. */
  function Losses(closes: seq<real>): (r: seq<real>)
    ensures |closes| >= 1 ==> |r| == |closes| - 1
    ensures |closes| == 0 ==> r == []
    ensures forall i :: 0 <= i < |r| ==> r[i] == Loss(closes[i + 1] - closes[i])
  {
    if |closes| < 2 then []
    else Losses(closes[..|closes| - 1]) + [Loss(closes[|closes| - 1] - closes[|closes| - 2])]
  }

  /** The first loop of `calculateRSI`: one gain and one loss per consecutive pair of closes. */
  method PriceChanges(closes: seq<real>) returns (gains: seq<real>, losses: seq<real>)
    ensures gains == Gains(closes) && losses == Losses(closes)
  {
    gains, losses := [], [];
    if |closes| == 0 {
      return;
    }
    for i := 1 to |closes|
      invariant gains == Gains(closes[..i]) && losses == Losses(closes[..i])
    {
      assert closes[..i + 1][..i] == closes[..i];
      var change := closes[i] - closes[i - 1];
      gains := gains + [if change > 0.0 then change else 0.0];
      losses := losses + [if change < 0.0 then Abs(change) else 0.0];
    }
    assert closes[..|closes|] == closes;
  }

  /** Gains and losses are never negative and together give back every change. */
  lemma ChangesSplit(closes: seq<real>)
    ensures |Gains(closes)| == |Losses(closes)|
    ensures forall i :: 0 <= i < |Gains(closes)| ==>
      Gains(closes)[i] >= 0.0 && Losses(closes)[i] >= 0.0 &&
      Gains(closes)[i] - Losses(closes)[i] == closes[i + 1] - closes[i]
  {
    forall i | 0 <= i < |Gains(closes)|
      ensures Gains(closes)[i] >= 0.0 && Losses(closes)[i] >= 0.0
      ensures Gains(closes)[i] - Losses(closes)[i] == closes[i + 1] - closes[i]
    {
      GainLossSplit(closes[i + 1] - closes[i]);
    }
  }

  // ---------------------------------------------------------------------------
  // Wilder smoothing
  // ---------------------------------------------------------------------------

  /**
   * One smoothing step, the source's `((avg * (period - 1)) + x) / period` with the
   * product multiplied out.
   */
  function WilderStep(avg: real, x: real, period: nat): real
    requires period >= 1
  {
    (avg * (period as real) - avg + x) / (period as real)
  }

  /**
   * The average after `k` smoothing steps: the seed is the sum of the first `period`
   * values (fewer when there are fewer) divided by `period`, and step `k` folds in
   * `xs[period + k - 2]`, so the first step folds in `xs[period - 1]` once more.
   */
  function WilderAverage(xs: seq<real>, period: nat, k: nat): real
    requires period >= 1 && (k == 0 || period + k <= |xs| + 1)
    decreases k
  {
    if k == 0 then Sum(Take(xs, period)) / (period as real)
    else WilderStep(WilderAverage(xs, period, k - 1), xs[period + k - 2], period)
  }

  lemma WilderStepNonNegative(avg: real, x: real, period: nat)
    requires period >= 1 && avg >= 0.0 && x >= 0.0
    ensures WilderStep(avg, x, period) >= 0.0
  {
    MulAtLeastSelf(avg, period as real);
    DivNonNegative(avg * (period as real) - avg + x, period as real);
  }

  lemma WilderStepPositive(avg: real, x: real, period: nat)
    requires period >= 1 && avg >= 0.0 && x > 0.0
    ensures WilderStep(avg, x, period) > 0.0
  {
    MulAtLeastSelf(avg, period as real);
    DivPositive(avg * (period as real) - avg + x, period as real);
  }

  /** Smoothing never leaves the non-negative reals. */
  lemma {:induction false} WilderAverageNonNegative(xs: seq<real>, period: nat, k: nat)
    requires period >= 1 && (k == 0 || period + k <= |xs| + 1)
    requires forall i :: 0 <= i < |xs| ==> xs[i] >= 0.0
    ensures WilderAverage(xs, period, k) >= 0.0
    decreases k
  {
    if k == 0 {
      SumNonNegative(Take(xs, period));
      DivNonNegative(Sum(Take(xs, period)), period as real);
    } else {
      WilderAverageNonNegative(xs, period, k - 1);
      WilderStepNonNegative(WilderAverage(xs, period, k - 1), xs[period + k - 2], period);
    }
  }

  /** Smoothing of positive values stays positive. */
  lemma {:induction false} WilderAveragePositive(xs: seq<real>, period: nat, k: nat)
    requires period >= 1 && |xs| >= 1 && (k == 0 || period + k <= |xs| + 1)
    requires forall i :: 0 <= i < |xs| ==> xs[i] > 0.0
    ensures WilderAverage(xs, period, k) > 0.0
    decreases k
  {
    if k == 0 {
      var w := Take(xs, period);
      SumPositive(w, 0);
      DivPositive(Sum(w), period as real);
    } else {
      WilderAverageNonNegative(xs, period, k - 1);
      WilderStepPositive(WilderAverage(xs, period, k - 1), xs[period + k - 2], period);
    }
  }

  /** Smoothing of zeros stays zero. */
  lemma {:induction false} WilderAverageZero(xs: seq<real>, period: nat, k: nat)
    requires period >= 1 && (k == 0 || period + k <= |xs| + 1)
    requires forall i :: 0 <= i < |xs| ==> xs[i] == 0.0
    ensures WilderAverage(xs, period, k) == 0.0
    decreases k
  {
    if k == 0 {
      SumConstant(Take(xs, period), 0.0);
    } else {
      WilderAverageZero(xs, period, k - 1);
    }
  }

  // ---------------------------------------------------------------------------
  // One RSI point
  // ---------------------------------------------------------------------------

  /** `100 - (100 / (1 + rs))` for a JavaScript number `rs`. */
  function RsiFromRs(rs: Value): Value
  {
    match rs
    case Finite(x) =>
      (match Divide(100.0, 1.0 + x)
       case Finite(q) => Finite(100.0 - q)
       case PlusInfinity => MinusInfinity
       case MinusInfinity => PlusInfinity
       case NotANumber => NotANumber)
    case PlusInfinity => Finite(100.0)
    case MinusInfinity => Finite(100.0)
    case NotANumber => NotANumber
  }

  /** The RSI point of the two averages, `rs = avgGain / avgLoss`. */
  function RsiPoint(avgGain: real, avgLoss: real): Value
  {
    RsiFromRs(Divide(avgGain, avgLoss))
  }

  lemma RsiIdentity(g: real, l: real)
    requires g >= 0.0 && l > 0.0
    ensures 1.0 + g / l > 0.0
    ensures 100.0 - 100.0 / (1.0 + g / l) == 100.0 * g / (g + l)
  {
    var r := g / l;
    DivNonNegative(g, l);
    assert r * l == g;
    assert (1.0 + r) * l == l + g;
    var q := 100.0 / (1.0 + r);
    assert q * (g + l) == 100.0 * l by {
      assert q * (1.0 + r) == 100.0;
      assert q * ((1.0 + r) * l) == 100.0 * l;
    }
    assert (100.0 - q) * (g + l) == 100.0 * g;
    QuotientOf(100.0 - q, 100.0 * g, g + l);
  }

  lemma ShareBounds(g: real, l: real)
    requires g >= 0.0 && l > 0.0
    ensures 0.0 <= 100.0 * g / (g + l) < 100.0
  {
    DivNonNegative(100.0 * g, g + l);
    DivBelow(100.0 * g, 100.0, g + l);
  }

  /**
   * For non-negative averages the RSI point is `100 * avgGain / (avgGain + avgLoss)`,
   * the gain's share of all movement: 100 when there were only gains, and NaN when
   * there was no movement at all.
   */
  lemma RsiPointValue(g: real, l: real)
    requires g >= 0.0 && l >= 0.0
    ensures l > 0.0 ==> RsiPoint(g, l) == Finite(100.0 * g / (g + l))
    ensures l == 0.0 && g > 0.0 ==> RsiPoint(g, l) == Finite(100.0)
    ensures l == 0.0 && g == 0.0 ==> RsiPoint(g, l) == NotANumber
  {
    if l > 0.0 {
      RsiIdentity(g, l);
      assert Divide(g, l) == Finite(g / l);
      assert Divide(100.0, 1.0 + g / l) == Finite(100.0 / (1.0 + g / l));
    }
  }

  /** A point is NaN exactly when both averages are zero, and otherwise lies in [0, 100]. */
  lemma RsiPointInRange(g: real, l: real)
    requires g >= 0.0 && l >= 0.0
    ensures RsiPoint(g, l) == NotANumber <==> g == 0.0 && l == 0.0
    ensures g + l > 0.0 ==> RsiPoint(g, l).Finite? && 0.0 <= RsiPoint(g, l).v <= 100.0
    ensures l > 0.0 ==> RsiPoint(g, l).v < 100.0
  {
    RsiPointValue(g, l);
    if l > 0.0 {
      ShareBounds(g, l);
    }
  }

  // ---------------------------------------------------------------------------
  // The RSI series
  // ---------------------------------------------------------------------------

  /** The first `n` points; point `k` is taken after `k + 1` smoothing steps. */
  function RsiValues(gains: seq<real>, losses: seq<real>, period: nat, n: nat): (r: seq<Value>)
    requires period >= 1 && |gains| == |losses| && (n == 0 || period + n <= |gains| + 1)
    ensures |r| == n
    ensures forall k :: 0 <= k < n ==>
      r[k] == RsiPoint(WilderAverage(gains, period, k + 1), WilderAverage(losses, period, k + 1))
  {
    if n == 0 then []
    else RsiValues(gains, losses, period, n - 1) +
         [RsiPoint(WilderAverage(gains, period, n), WilderAverage(losses, period, n))]
  }

  /** One point per close from index `period` on. */
  function RsiSeries(gains: seq<real>, losses: seq<real>, period: nat): seq<Value>
    requires period >= 1 && |gains| == |losses|
  {
    if |gains| + 1 <= period then [] else RsiValues(gains, losses, period, |gains| + 1 - period)
  }

  /** The RSI of a close series. */
  function Rsi(closes: seq<real>, period: nat): seq<Value>
    requires period >= 1
  {
    RsiSeries(Gains(closes), Losses(closes), period)
  }

  /**
   * `calculateRSI`. The source's `reduce` without an initial value throws on an
   * empty array, so at least two candles are needed for a first gain.
   */
  method CalculateRsi(data: seq<HistoricalCandle>, period: nat := 14) returns (rsi: seq<Value>)
    requires period >= 1 && |data| >= 2
    ensures rsi == Rsi(Closes(data), period)
  {
    var gains, losses := PriceChanges(Closes(data));
    rsi := SmoothedRsi(gains, losses, period);
  }

  /** The seed averages and the smoothing loop of `calculateRSI`. */
  method SmoothedRsi(gains: seq<real>, losses: seq<real>, period: nat) returns (rsi: seq<Value>)
    requires period >= 1 && |gains| == |losses| >= 1
    ensures rsi == RsiSeries(gains, losses, period)
  {
    rsi := [];
    var avgGain := Sum(Take(gains, period)) / (period as real);
    var avgLoss := Sum(Take(losses, period)) / (period as real);
    var i := period;
    while i < |gains| + 1
      invariant period <= i && (i == period || i <= |gains| + 1)
      invariant avgGain == WilderAverage(gains, period, i - period)
      invariant avgLoss == WilderAverage(losses, period, i - period)
      invariant rsi == RsiValues(gains, losses, period, i - period)
    {
      avgGain := WilderStep(avgGain, gains[i - 1], period);
      avgLoss := WilderStep(avgLoss, losses[i - 1], period);
      rsi := rsi + [RsiPoint(avgGain, avgLoss)];
      i := i + 1;
    }
  }

  // ---------------------------------------------------------------------------
  // Properties
  // ---------------------------------------------------------------------------

  /** For two or more closes there is one point per close after the first `period`. */
  lemma RsiLength(closes: seq<real>, period: nat)
    requires period >= 1 && |closes| >= 1
    ensures |Rsi(closes, period)| == if |closes| <= period then 0 else |closes| - period
  {
  }

  /** The two averages behind point `k`. */
  function AverageGain(closes: seq<real>, period: nat, k: nat): real
    requires period >= 1 && period + k < |closes|
  {
    WilderAverage(Gains(closes), period, k + 1)
  }

  function AverageLoss(closes: seq<real>, period: nat, k: nat): real
    requires period >= 1 && period + k < |closes|
  {
    WilderAverage(Losses(closes), period, k + 1)
  }

  /** Point `k` of the series is the RSI point of the averages behind it. */
  lemma RsiAt(closes: seq<real>, period: nat, k: nat)
    requires period >= 1 && k < |Rsi(closes, period)|
    ensures period + k < |closes|
    ensures Rsi(closes, period)[k] == RsiPoint(AverageGain(closes, period, k), AverageLoss(closes, period, k))
  {
  }

  /**
   * Both averages stay non-negative; each point is NaN exactly when both are zero,
   * is otherwise in [0, 100], and is below 100 whenever the average loss is positive.
   */
  lemma RsiInRange(closes: seq<real>, period: nat)
    requires period >= 1
    ensures forall k :: 0 <= k < |Rsi(closes, period)| ==>
      AverageGain(closes, period, k) >= 0.0 && AverageLoss(closes, period, k) >= 0.0
    ensures forall k :: 0 <= k < |Rsi(closes, period)| ==>
      (Rsi(closes, period)[k] == NotANumber <==>
         AverageGain(closes, period, k) == 0.0 && AverageLoss(closes, period, k) == 0.0)
    ensures forall k :: 0 <= k < |Rsi(closes, period)| && Rsi(closes, period)[k] != NotANumber ==>
      Rsi(closes, period)[k].Finite? && 0.0 <= Rsi(closes, period)[k].v <= 100.0
    ensures forall k :: 0 <= k < |Rsi(closes, period)| && AverageLoss(closes, period, k) > 0.0 ==>
      Rsi(closes, period)[k].Finite? && Rsi(closes, period)[k].v < 100.0
  {
    var gains, losses := Gains(closes), Losses(closes);
    ChangesSplit(closes);
    forall k | 0 <= k < |Rsi(closes, period)|
      ensures AverageGain(closes, period, k) >= 0.0 && AverageLoss(closes, period, k) >= 0.0
      ensures Rsi(closes, period)[k] == RsiPoint(AverageGain(closes, period, k), AverageLoss(closes, period, k))
    {
      RsiAt(closes, period, k);
      WilderAverageNonNegative(gains, period, k + 1);
      WilderAverageNonNegative(losses, period, k + 1);
    }
    forall k | 0 <= k < |Rsi(closes, period)|
      ensures (Rsi(closes, period)[k] == NotANumber <==>
         AverageGain(closes, period, k) == 0.0 && AverageLoss(closes, period, k) == 0.0)
      ensures Rsi(closes, period)[k] != NotANumber ==>
        Rsi(closes, period)[k].Finite? && 0.0 <= Rsi(closes, period)[k].v <= 100.0
      ensures AverageLoss(closes, period, k) > 0.0 ==>
        Rsi(closes, period)[k].Finite? && Rsi(closes, period)[k].v < 100.0
    {
      RsiPointInRange(AverageGain(closes, period, k), AverageLoss(closes, period, k));
    }
  }

  /** A flat series has neither gains nor losses, so every point is NaN (0 / 0). */
  lemma RsiOfConstant(closes: seq<real>, period: nat, v: real)
    requires period >= 1
    requires forall i :: 0 <= i < |closes| ==> closes[i] == v
    ensures forall k :: 0 <= k < |Rsi(closes, period)| ==> Rsi(closes, period)[k] == NotANumber
  {
    var gains, losses := Gains(closes), Losses(closes);
    forall i | 0 <= i < |gains| ensures gains[i] == 0.0 && losses[i] == 0.0 {
      assert closes[i + 1] - closes[i] == 0.0;
    }
    forall k | 0 <= k < |Rsi(closes, period)|
      ensures Rsi(closes, period)[k] == NotANumber
    {
      RsiAt(closes, period, k);
      WilderAverageZero(gains, period, k + 1);
      WilderAverageZero(losses, period, k + 1);
      RsiPointValue(AverageGain(closes, period, k), AverageLoss(closes, period, k));
    }
  }

  /** A strictly rising series has only gains, so every point is 100 (rs is +Infinity). */
  lemma RsiOfRising(closes: seq<real>, period: nat)
    requires period >= 1
    requires forall i :: 0 < i < |closes| ==> closes[i - 1] < closes[i]
    ensures forall k :: 0 <= k < |Rsi(closes, period)| ==> Rsi(closes, period)[k] == Finite(100.0)
  {
    var gains, losses := Gains(closes), Losses(closes);
    forall i | 0 <= i < |gains| ensures gains[i] > 0.0 && losses[i] == 0.0 {
      assert closes[(i + 1) - 1] < closes[i + 1];
    }
    forall k | 0 <= k < |Rsi(closes, period)|
      ensures Rsi(closes, period)[k] == Finite(100.0)
    {
      RsiAt(closes, period, k);
      WilderAveragePositive(gains, period, k + 1);
      WilderAverageZero(losses, period, k + 1);
      RsiPointValue(AverageGain(closes, period, k), AverageLoss(closes, period, k));
    }
  }
}
