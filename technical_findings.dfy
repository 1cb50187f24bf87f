/**
 * Two places where `TechnicalAnalysis` departs from the textbook indicator it names.
 * Each part states what the code as written computes, exhibits an input on which it
 * differs from the textbook value, and defines the corrected computation with the
 * textbook property proved about it.
 */
module TechnicalFindings {
  import opened Numbers
  import opened MovingAverages
  import opened Macd
  import opened Rsi

  // ---------------------------------------------------------------------------
  // MACD: the two EMAs are paired by array index
  // ---------------------------------------------------------------------------

  /**
   * As written, entry `j` of the MACD line subtracts EMA step `j` of the slow period
   * from EMA step `j` of the fast period. Step `k` of an EMA of period `p` is its value
   * at candle `p - 1 + k` (`EmaAtPrefix`), so the two values belong to different
   * candles whenever the periods differ.
   */
  lemma MacdLinePairsByIndex(closes: seq<real>, fastPeriod: nat, slowPeriod: nat, j: nat)
    requires fastPeriod >= 1 && slowPeriod >= 1
    requires j < |PairwiseDifference(Ema(closes, fastPeriod), Ema(closes, slowPeriod))|
    ensures fastPeriod + j <= |closes| && slowPeriod + j <= |closes|
    ensures PairwiseDifference(Ema(closes, fastPeriod), Ema(closes, slowPeriod))[j] ==
      EmaAt(closes, fastPeriod, j) - EmaAt(closes, slowPeriod, j)
  {
    EmaLength(closes, fastPeriod);
    EmaLength(closes, slowPeriod);
    EmaIndex(closes, fastPeriod, j);
    EmaIndex(closes, slowPeriod, j);
  }

  /**
   * The MACD line with both EMAs taken at the same candle: entry `j` belongs to candle
   * `max(fast, slow) - 1 + j`, the first candle at which both EMAs exist.
   */
  function AlignedMacdLine(closes: seq<real>, fastPeriod: nat, slowPeriod: nat): (r: seq<real>)
    requires fastPeriod >= 1 && slowPeriod >= 1
    ensures |closes| < MaxNat(fastPeriod, slowPeriod) ==> r == []
    ensures |closes| >= MaxNat(fastPeriod, slowPeriod) ==> |r| == |closes| - MaxNat(fastPeriod, slowPeriod) + 1
  {
    var m := MaxNat(fastPeriod, slowPeriod);
    if |closes| < m then []
    else
      seq(|closes| - m + 1, j requires 0 <= j < |closes| - m + 1 =>
        EmaAt(closes, fastPeriod, m + j - fastPeriod) - EmaAt(closes, slowPeriod, m + j - slowPeriod))
  }

  /**
   * Entry `j` of the aligned line is the fast EMA minus the slow EMA of one and the
   * same close series, the closes up to candle `max(fast, slow) - 1 + j`; in the
   * source's arrays these are `fastEMA[j + max - fast]` and `slowEMA[j + max - slow]`.
   */
  lemma AlignedMacdLineAt(closes: seq<real>, fastPeriod: nat, slowPeriod: nat, j: nat, n: nat)
    requires fastPeriod >= 1 && slowPeriod >= 1
    requires j < |AlignedMacdLine(closes, fastPeriod, slowPeriod)| && n == MaxNat(fastPeriod, slowPeriod) + j
    ensures fastPeriod <= n && slowPeriod <= n <= |closes|
    ensures AlignedMacdLine(closes, fastPeriod, slowPeriod)[j] ==
      EmaAt(closes[..n], fastPeriod, n - fastPeriod) - EmaAt(closes[..n], slowPeriod, n - slowPeriod)
  {
    AlignedMacdEntry(closes, fastPeriod, slowPeriod, j, n);
    EmaAtPrefix(closes, fastPeriod, n - fastPeriod, n);
    EmaAtPrefix(closes, slowPeriod, n - slowPeriod, n);
  }

  /**
   * In the source's arrays the aligned entry is `fastEMA[j + max - fast]` minus
   * `slowEMA[j + max - slow]`, not `fastEMA[j] - slowEMA[j]`.
   */
  lemma AlignedMacdFromArrays(closes: seq<real>, fastPeriod: nat, slowPeriod: nat, j: nat, n: nat)
    requires fastPeriod >= 1 && slowPeriod >= 1
    requires j < |AlignedMacdLine(closes, fastPeriod, slowPeriod)| && n == MaxNat(fastPeriod, slowPeriod) + j
    ensures n - fastPeriod < |Ema(closes, fastPeriod)| && n - slowPeriod < |Ema(closes, slowPeriod)|
    ensures AlignedMacdLine(closes, fastPeriod, slowPeriod)[j] ==
      Ema(closes, fastPeriod)[n - fastPeriod] - Ema(closes, slowPeriod)[n - slowPeriod]
  {
    AlignedMacdEntry(closes, fastPeriod, slowPeriod, j, n);
    EmaIndex(closes, fastPeriod, n - fastPeriod);
    EmaIndex(closes, slowPeriod, n - slowPeriod);
  }

  lemma AlignedMacdEntry(closes: seq<real>, fastPeriod: nat, slowPeriod: nat, j: nat, n: nat)
    requires fastPeriod >= 1 && slowPeriod >= 1
    requires j < |AlignedMacdLine(closes, fastPeriod, slowPeriod)| && n == MaxNat(fastPeriod, slowPeriod) + j
    ensures fastPeriod <= n && slowPeriod <= n <= |closes|
    ensures AlignedMacdLine(closes, fastPeriod, slowPeriod)[j] ==
      EmaAt(closes, fastPeriod, n - fastPeriod) - EmaAt(closes, slowPeriod, n - slowPeriod)
  {
  }

  /**
   * Closes 0, 2, 4 with periods 1, 2 and 1: the fast EMA is the closes themselves and
   * the slow EMA is 1, 3, so as written the line is -1, -1, while at each candle the
   * fast EMA is 1 above the slow one.
   */
  lemma MacdMisalignedExample()
    ensures MacdOf([0.0, 2.0, 4.0], 1, 2, 1).macd == [-1.0, -1.0]
    ensures AlignedMacdLine([0.0, 2.0, 4.0], 1, 2) == [1.0, 1.0]
  {
    var closes := [0.0, 2.0, 4.0];
    EmasOfExample();
    assert Ema(closes, 1) == [0.0, 2.0, 4.0];
    assert Ema(closes, 2) == [1.0, 3.0];
    var line := PairwiseDifference([0.0, 2.0, 4.0], [1.0, 3.0]);
    assert line == [-1.0, -1.0];
    SignalOfExample();
    assert AlignedMacdLine(closes, 1, 2) == [EmaAt(closes, 1, 1) - EmaAt(closes, 2, 0), EmaAt(closes, 1, 2) - EmaAt(closes, 2, 1)];
  }

  /** The EMA steps of the example closes. */
  lemma EmasOfExample()
    ensures EmaAt([0.0, 2.0, 4.0], 1, 0) == 0.0 && EmaAt([0.0, 2.0, 4.0], 1, 1) == 2.0
    ensures EmaAt([0.0, 2.0, 4.0], 1, 2) == 4.0
    ensures EmaAt([0.0, 2.0, 4.0], 2, 0) == 1.0 && EmaAt([0.0, 2.0, 4.0], 2, 1) == 3.0
  {
    var closes := [0.0, 2.0, 4.0];
    assert closes[..1] == [0.0] && closes[..2] == [0.0, 2.0];
    assert Sum([0.0]) == 0.0 && Sum([0.0, 2.0]) == 2.0;
  }

  /** With period 1 the EMA of the example line is the line itself. */
  lemma SignalOfExample()
    ensures Ema([-1.0, -1.0], 1) == [-1.0, -1.0]
  {
    var line := [-1.0, -1.0];
    assert line[..1] == [-1.0] && Sum([-1.0]) == -1.0;
    assert EmaAt(line, 1, 0) == -1.0 && EmaAt(line, 1, 1) == -1.0;
  }

  // ---------------------------------------------------------------------------
  // RSI: the first smoothing step folds in the last seed change a second time
  // ---------------------------------------------------------------------------

  /**
   * Textbook Wilder smoothing: the seed is the mean of the first `period` values and
   * step `k` folds in `xs[period + k - 1]`, each value after the seed exactly once.
   */
  function WilderSmoothed(xs: seq<real>, period: nat, k: nat): real
    requires period >= 1 && period + k <= |xs|
    decreases k
  {
    if k == 0 then Sum(xs[..period]) / (period as real)
    else WilderStep(WilderSmoothed(xs, period, k - 1), xs[period + k - 1], period)
  }

  /**
   * As written, the averages after `k` steps are the textbook averages of the series
   * in which value `period - 1`, the last one of the seed, occurs twice, advanced by
   * one step more.
   */
  lemma {:induction false} WilderAverageRepeatsSeedEnd(xs: seq<real>, period: nat, k: nat)
    requires period >= 1 && period + k <= |xs| + 1 && period <= |xs|
    ensures period + k <= |xs[..period] + xs[period - 1..]|
    ensures WilderAverage(xs, period, k) == WilderSmoothed(xs[..period] + xs[period - 1..], period, k)
    decreases k
  {
    var ys := xs[..period] + xs[period - 1..];
    if k == 0 {
      assert ys[..period] == xs[..period];
      assert Take(xs, period) == xs[..period];
    } else {
      WilderAverageRepeatsSeedEnd(xs, period, k - 1);
      assert ys[period + k - 1] == xs[period + k - 2];
    }
  }

  /** The corrected RSI: point `k` uses the averages after `k` textbook steps. */
  function WilderRsiValues(gains: seq<real>, losses: seq<real>, period: nat, n: nat): (r: seq<Value>)
    requires period >= 1 && |gains| == |losses| && period + n <= |gains| + 1
    ensures |r| == n
    ensures forall k :: 0 <= k < n ==>
      r[k] == RsiPoint(WilderSmoothed(gains, period, k), WilderSmoothed(losses, period, k))
  {
    if n == 0 then []
    else WilderRsiValues(gains, losses, period, n - 1) +
         [RsiPoint(WilderSmoothed(gains, period, n - 1), WilderSmoothed(losses, period, n - 1))]
  }

  /** The corrected RSI of a close series: one point per close from index `period` on. */
  function WilderRsi(closes: seq<real>, period: nat): (r: seq<Value>)
    requires period >= 1
    ensures |r| == if |closes| <= period then 0 else |closes| - period
  {
    if |closes| <= period then [] else WilderRsiValues(Gains(closes), Losses(closes), period, |closes| - period)
  }

  /** The corrected series has as many points as the source's. */
  lemma WilderRsiLength(closes: seq<real>, period: nat)
    requires period >= 1
    ensures |WilderRsi(closes, period)| == |Rsi.Rsi(closes, period)|
  {
    if |closes| >= 1 {
      RsiLength(closes, period);
    }
  }

  /**
   * The first corrected point is the textbook RSI of the first `period` changes: the
   * share of the upward movement in the total movement, as a percentage.
   */
  lemma WilderRsiFirstPoint(closes: seq<real>, period: nat, up: real, down: real)
    requires period >= 1 && |closes| > period
    requires up == Sum(Gains(closes)[..period]) && down == Sum(Losses(closes)[..period])
    ensures up >= 0.0 && down >= 0.0
    ensures up + down > 0.0 ==> WilderRsi(closes, period)[0] == Finite(100.0 * up / (up + down))
  {
    SeedTotalsNonNegative(closes, period);
    WilderRsiAt(closes, period, 0);
    assert WilderSmoothed(Gains(closes), period, 0) == up / (period as real);
    assert WilderSmoothed(Losses(closes), period, 0) == down / (period as real);
    if up + down > 0.0 {
      RsiPointOfTotals(up, down, period as real);
    }
  }

  lemma SeedTotalsNonNegative(closes: seq<real>, period: nat)
    requires period < |closes|
    ensures Sum(Gains(closes)[..period]) >= 0.0 && Sum(Losses(closes)[..period]) >= 0.0
  {
    ChangesSplit(closes);
    SumNonNegative(Gains(closes)[..period]);
    SumNonNegative(Losses(closes)[..period]);
  }

  /** Point `k` of the corrected series is the RSI point of the averages after `k` steps. */
  lemma WilderRsiAt(closes: seq<real>, period: nat, k: nat)
    requires period >= 1 && period + k < |closes|
    ensures k < |WilderRsi(closes, period)|
    ensures WilderRsi(closes, period)[k] ==
      RsiPoint(WilderSmoothed(Gains(closes), period, k), WilderSmoothed(Losses(closes), period, k))
  {
  }

  /** The RSI point of two means over the same count is the share of the upward total. */
  lemma RsiPointOfTotals(up: real, down: real, p: real)
    requires p > 0.0 && up >= 0.0 && down >= 0.0 && up + down > 0.0
    ensures RsiPoint(up / p, down / p) == Finite(100.0 * up / (up + down))
  {
    var g, l := up / p, down / p;
    DivNonNegative(up, p);
    DivNonNegative(down, p);
    RsiPointValue(g, l);
    if down > 0.0 {
      DivPositive(down, p);
      ShareOfMeans(up, down, p);
    } else {
      assert l == 0.0;
      DivPositive(up, p);
      DivOfMul(100.0, up);
      assert 100.0 * up == up * 100.0;
    }
  }

  /** Dividing both totals by the same count leaves the share unchanged. */
  lemma ShareOfMeans(up: real, down: real, p: real)
    requires p > 0.0 && up >= 0.0 && down > 0.0
    ensures 100.0 * (up / p) / (up / p + down / p) == 100.0 * up / (up + down)
  {
    var g, l := up / p, down / p;
    assert g + l == (up + down) / p;
    assert g * p == up && l * p == down;
    assert (up + down) / p * p == up + down;
  }

  /**
   * Closes 1, 0, 1 with period 2: one fall and one rise of the same size. The
   * textbook RSI is 50; as written the second change is counted twice and the
   * source reports 75.
   */
  lemma RsiSeedCountedTwiceExample()
    ensures Rsi.Rsi([1.0, 0.0, 1.0], 2) == [Finite(75.0)]
    ensures WilderRsi([1.0, 0.0, 1.0], 2) == [Finite(50.0)]
  {
    var closes := [1.0, 0.0, 1.0];
    ChangesOfExample();
    var gains, losses := [0.0, 1.0], [1.0, 0.0];
    AveragesOfExample();
    assert Rsi.Rsi(closes, 2) == RsiValues(gains, losses, 2, 1);
    assert RsiValues(gains, losses, 2, 1) == [RsiPoint(0.75, 0.25)];
    RsiPointValue(0.75, 0.25);
    assert WilderRsi(closes, 2) == WilderRsiValues(gains, losses, 2, 1);
    assert WilderRsiValues(gains, losses, 2, 1) == [RsiPoint(0.5, 0.5)];
    RsiPointValue(0.5, 0.5);
  }

  lemma ChangesOfExample()
    ensures Gains([1.0, 0.0, 1.0]) == [0.0, 1.0] && Losses([1.0, 0.0, 1.0]) == [1.0, 0.0]
  {
  }

  /** The smoothed averages of the example, as written and corrected. */
  lemma AveragesOfExample()
    ensures WilderAverage([0.0, 1.0], 2, 1) == 0.75 && WilderAverage([1.0, 0.0], 2, 1) == 0.25
    ensures WilderSmoothed([0.0, 1.0], 2, 0) == 0.5 && WilderSmoothed([1.0, 0.0], 2, 0) == 0.5
  {
    assert Take([0.0, 1.0], 2) == [0.0, 1.0] == [0.0, 1.0][..2];
    assert Take([1.0, 0.0], 2) == [1.0, 0.0] == [1.0, 0.0][..2];
    assert Sum([0.0, 1.0]) == 1.0 && Sum([1.0, 0.0]) == 1.0;
  }
}
