/**
 * The simple and exponential moving averages of `TechnicalAnalysis`, in exact real
 * arithmetic. Each loop of the source is a method proved equal to a function that
 * states the average's definition; the properties of the averages are lemmas about
 * those functions.
 */
module MovingAverages {
  import opened Numbers
  import opened IndicatorTypes

  // ---------------------------------------------------------------------------
  // Scaling
  // ---------------------------------------------------------------------------

  /** The factor the EMA and the bands multiply prices by before computing, and divide by after. */
  const ScaleFactor: real := 10000000000.0

  /** `data.map(price => price * scaleFactor)`. */
  function ScaledUp(s: seq<real>): (r: seq<real>)
    ensures |r| == |s|
    ensures forall i :: 0 <= i < |s| ==> r[i] == s[i] * ScaleFactor
  {
    seq(|s|, i requires 0 <= i < |s| => s[i] * ScaleFactor)
  }

  /** Every element divided by the scale factor: `values.map(value => value / scaleFactor)`. */
  function ScaledDown(s: seq<real>): (r: seq<real>)
    ensures |r| == |s|
    ensures forall i :: 0 <= i < |s| ==> r[i] == s[i] / ScaleFactor
  {
    seq(|s|, i requires 0 <= i < |s| => s[i] / ScaleFactor)
  }

  lemma ScaledUpSlice(s: seq<real>, a: nat, b: nat)
    requires a <= b <= |s|
    ensures ScaledUp(s)[a..b] == ScaledUp(s[a..b])
  {
  }

  /** Scaling every element scales the sum. */
  lemma {:induction false} SumScaledUp(s: seq<real>)
    ensures Sum(ScaledUp(s)) == ScaleFactor * Sum(s)
    decreases |s|
  {
    if |s| > 0 {
      var p := s[..|s| - 1];
      SumScaledUp(p);
      ScaledUpSlice(s, 0, |s| - 1);
      assert p == s[0..|s| - 1];
    }
  }

  /** Dividing by the scale factor undoes multiplying by it. */
  lemma ScaledDownUp(s: seq<real>)
    ensures ScaledDown(ScaledUp(s)) == s
  {
    var l := ScaledDown(ScaledUp(s));
    forall i | 0 <= i < |s| ensures l[i] == s[i] {
      DivOfMul(s[i], ScaleFactor);
    }
  }

  // ---------------------------------------------------------------------------
  // Simple moving average
  // ---------------------------------------------------------------------------

  /** A total divided by the number of values it sums. */
  function Mean(total: real, count: nat): real
    requires count >= 1
  {
    total / (count as real)
  }

  /** The mean of the `period` values of `xs` starting at index `j`. */
  function WindowMean(xs: seq<real>, period: nat, j: nat): real
    requires period >= 1 && j + period <= |xs|
  {
    Mean(Sum(xs[j..j + period]), period)
  }

  /** The first `n` window means. */
  function SmaValues(xs: seq<real>, period: nat, n: nat): (r: seq<real>)
    requires period >= 1 && period + n <= |xs| + 1
    ensures |r| == n
    ensures forall j :: 0 <= j < n ==> r[j] == WindowMean(xs, period, j)
  {
    if n == 0 then [] else SmaValues(xs, period, n - 1) + [WindowMean(xs, period, n - 1)]
  }

  /** One mean per full window, oldest window first; none when there is no full window. */
  function Sma(xs: seq<real>, period: nat): seq<real>
    requires period >= 1
  {
    if |xs| < period then [] else SmaValues(xs, period, |xs| - period + 1)
  }

  /**
   * `calculateSMA`: no output without a full window; otherwise the running window
   * means of the chosen price field.
   */
  method CalculateSma(data: seq<HistoricalCandle>, period: nat, field: PriceField := Close)
    returns (sma: seq<real>)
    requires period >= 1
    ensures sma == Sma(Prices(data, field), period)
  {
    if |data| < period {
      return [];
    }
    sma := RunningWindowMeans(Prices(data, field), period);
  }

  /**
   * The two loops of `calculateSMA`: the first window is summed, then the running
   * sum drops the oldest value and adds the newest for every later window.
   */
  method RunningWindowMeans(xs: seq<real>, period: nat) returns (sma: seq<real>)
    requires 1 <= period <= |xs|
    ensures sma == Sma(xs, period)
  {
    sma := [];
    var sum := 0.0;
    for i := 0 to period
      invariant sum == Sum(xs[..i])
    {
      SumPrefixStep(xs, i);
      sum := sum + xs[i];
    }
    assert xs[..period] == xs[0..period];
    sma := sma + [Mean(sum, period)];
    for i := period to |xs|
      invariant sum == Sum(xs[i - period..i])
      invariant sma == SmaValues(xs, period, i - period + 1)
    {
      SumSlide(xs, i - period, i);
      sum := sum - xs[i - period] + xs[i];
      sma := sma + [Mean(sum, period)];
    }
  }

  /** The SMA has one value per full window, the mean of that window. */
  lemma SmaShape(xs: seq<real>, period: nat)
    requires period >= 1
    ensures |xs| < period ==> Sma(xs, period) == []
    ensures |xs| >= period ==> |Sma(xs, period)| == |xs| - period + 1
    ensures forall j :: 0 <= j < |Sma(xs, period)| ==>
      Sma(xs, period)[j] == Sum(xs[j..j + period]) / (period as real)
  {
  }

  lemma SmaAt(xs: seq<real>, period: nat, j: nat)
    requires period >= 1 && j + period <= |xs|
    ensures j < |Sma(xs, period)| && Sma(xs, period)[j] == WindowMean(xs, period, j)
  {
  }

  /** A window of identical values `v` averages to `v`. */
  lemma SmaOfConstantWindow(xs: seq<real>, period: nat, j: nat, v: real)
    requires period >= 1 && j + period <= |xs|
    requires forall i :: j <= i < j + period ==> xs[i] == v
    ensures Sma(xs, period)[j] == v
  {
    var w := xs[j..j + period];
    SumConstant(w, v);
    MeanOfMultiple(|w|, v);
  }

  lemma MeanOfMultiple(count: nat, v: real)
    requires count >= 1
    ensures Mean((count as real) * v, count) == v
  {
    DivOfMul(v, count as real);
  }

  /** A window mean lies between the smallest and the largest value of the window. */
  lemma {:induction false} WindowMeanBetween(xs: seq<real>, period: nat, j: nat, lo: real, hi: real)
    requires period >= 1 && j + period <= |xs|
    requires forall i :: j <= i < j + period ==> lo <= xs[i] <= hi
    ensures lo <= WindowMean(xs, period, j) <= hi
  {
    var w := xs[j..j + period];
    SumBetween(w, lo, hi);
    MeanBetween(Sum(w), period, lo, hi);
  }

  lemma MeanScaledUp(total: real, count: nat)
    requires count >= 1
    ensures Mean(ScaleFactor * total, count) == ScaleFactor * Mean(total, count)
  {
  }

  lemma MeanBetween(total: real, count: nat, lo: real, hi: real)
    requires count >= 1 && (count as real) * lo <= total <= (count as real) * hi
    ensures lo <= Mean(total, count) <= hi
  {
    DivAtMost(total, hi, count as real);
    DivAtLeast(total, lo, count as real);
  }

  /** The mean of a scaled window is the scaled mean. */
  lemma WindowMeanScaledUp(xs: seq<real>, period: nat, j: nat)
    requires period >= 1 && j + period <= |xs|
    ensures WindowMean(ScaledUp(xs), period, j) == ScaleFactor * WindowMean(xs, period, j)
  {
    ScaledUpSlice(xs, j, j + period);
    SumScaledUp(xs[j..j + period]);
    MeanScaledUp(Sum(xs[j..j + period]), period);
  }

  /** SMA of the scaled prices = the scaled SMA of the prices. */
  lemma SmaScaledUp(xs: seq<real>, period: nat)
    requires period >= 1
    ensures Sma(ScaledUp(xs), period) == ScaledUp(Sma(xs, period))
  {
    var l, r := Sma(ScaledUp(xs), period), ScaledUp(Sma(xs, period));
    forall j | 0 <= j < |l| ensures l[j] == r[j] {
      WindowMeanScaledUp(xs, period, j);
    }
  }

  // ---------------------------------------------------------------------------
  // Exponential moving average
  // ---------------------------------------------------------------------------

  /** The smoothing factor 2 / (period + 1). */
  function Multiplier(period: nat): real
  {
    2.0 / (period as real + 1.0)
  }

  /**
   * One smoothing step: move from `prev` towards `price` by the fraction `multiplier`,
   * the source's `(price - previousEMA) * multiplier + previousEMA` with the product
   * multiplied out.
   */
  function EmaStep(prev: real, price: real, multiplier: real): real
  {
    price * multiplier - prev * multiplier + prev
  }

  /**
   * The k-th EMA value: the mean of the first `period` values, then one smoothing
   * step towards each later value.
   */
  function EmaAt(xs: seq<real>, period: nat, k: nat): real
    requires period >= 1 && period + k <= |xs|
    decreases k
  {
    if k == 0 then Mean(Sum(xs[..period]), period)
    else EmaStep(EmaAt(xs, period, k - 1), xs[period - 1 + k], Multiplier(period))
  }

  /** The first `n` EMA values. */
  function EmaValues(xs: seq<real>, period: nat, n: nat): (r: seq<real>)
    requires period >= 1 && period + n <= |xs| + 1
    ensures |r| == n
    ensures forall k :: 0 <= k < n ==> r[k] == EmaAt(xs, period, k)
  {
    if n == 0 then [] else EmaValues(xs, period, n - 1) + [EmaAt(xs, period, n - 1)]
  }

  /** One EMA value per input from index `period - 1` on; none when there are fewer than `period` inputs. */
  function Ema(xs: seq<real>, period: nat): seq<real>
    requires period >= 1
  {
    if |xs| < period then [] else EmaValues(xs, period, |xs| - period + 1)
  }

  /**
   * `calculateEMA`: the recurrence runs over the prices multiplied by the scale
   * factor, and each value is divided by it at the end. Over exact reals the
   * result is the EMA of the unscaled prices.
   */
  method CalculateEma(data: seq<real>, period: nat) returns (ema: seq<real>)
    requires period >= 1
    ensures ema == Ema(data, period)
  {
    var multiplier := 2.0 / (period as real + 1.0);
    if |data| < period {
      return [];
    }
    var scaledData := ScaledUp(data);
    var sum := 0.0;
    for i := 0 to period
      invariant sum == Sum(scaledData[..i])
    {
      SumPrefixStep(scaledData, i);
      sum := sum + scaledData[i];
    }
    var scaledEma := [Mean(sum, period)];
    for i := period to |scaledData|
      invariant scaledEma == EmaValues(scaledData, period, i - period + 1)
    {
      var currentEma := EmaStep(scaledEma[|scaledEma| - 1], scaledData[i], multiplier);
      scaledEma := scaledEma + [currentEma];
    }
    ema := ScaledDown(scaledEma);
    EmaScaledUp(data, period);
    ScaledDownUp(Ema(data, period));
  }

  /**
   * The EMA has one value per input from the `period`-th on; the first is the mean of
   * the first `period` inputs and each later one moves from its predecessor towards
   * the new input by the multiplier.
   */
  lemma EmaShape(xs: seq<real>, period: nat)
    requires period >= 1
    ensures |xs| < period ==> Ema(xs, period) == []
    ensures |xs| >= period ==> |Ema(xs, period)| == |xs| - period + 1
    ensures |xs| >= period ==> Ema(xs, period)[0] == Sum(xs[..period]) / (period as real)
    ensures forall k :: 1 <= k < |Ema(xs, period)| ==>
      Ema(xs, period)[k] == Ema(xs, period)[k - 1] + (xs[period - 1 + k] - Ema(xs, period)[k - 1]) * Multiplier(period)
  {
  }

  lemma EmaLength(xs: seq<real>, period: nat)
    requires period >= 1
    ensures |Ema(xs, period)| == if |xs| < period then 0 else |xs| - period + 1
  {
  }

  /** Value `k` of the EMA is the `k`-th step of the recurrence. */
  lemma EmaIndex(xs: seq<real>, period: nat, k: nat)
    requires period >= 1 && period + k <= |xs|
    ensures k < |Ema(xs, period)| && Ema(xs, period)[k] == EmaAt(xs, period, k)
  {
  }

  lemma EmaStepScaledUp(scaledPrev: real, scaledPrice: real, prev: real, price: real, m: real)
    requires scaledPrev == ScaleFactor * prev && scaledPrice == price * ScaleFactor
    ensures EmaStep(scaledPrev, scaledPrice, m) == ScaleFactor * EmaStep(prev, price, m)
  {
  }

  /** The EMA recurrence is linear in the prices, so it commutes with scaling. */
  lemma {:induction false} EmaAtScaledUp(xs: seq<real>, period: nat, k: nat)
    requires period >= 1 && period + k <= |xs|
    ensures EmaAt(ScaledUp(xs), period, k) == ScaleFactor * EmaAt(xs, period, k)
    decreases k
  {
    var ys := ScaledUp(xs);
    if k == 0 {
      WindowMeanScaledUp(xs, period, 0);
      assert xs[..period] == xs[0..period];
      assert ys[..period] == ys[0..period];
    } else {
      EmaAtScaledUp(xs, period, k - 1);
      EmaStepScaledUp(EmaAt(ys, period, k - 1), ys[period - 1 + k],
                      EmaAt(xs, period, k - 1), xs[period - 1 + k], Multiplier(period));
    }
  }

  /** EMA of the scaled prices = the scaled EMA of the prices. */
  lemma EmaScaledUp(xs: seq<real>, period: nat)
    requires period >= 1
    ensures Ema(ScaledUp(xs), period) == ScaledUp(Ema(xs, period))
  {
    var l, r := Ema(ScaledUp(xs), period), ScaledUp(Ema(xs, period));
    forall k | 0 <= k < |l| ensures l[k] == r[k] {
      EmaAtScaledUp(xs, period, k);
    }
  }

  /** A constant series has a constant EMA. */
  lemma {:induction false} EmaAtOfConstant(xs: seq<real>, period: nat, v: real, k: nat)
    requires period >= 1 && period + k <= |xs|
    requires forall i :: 0 <= i < |xs| ==> xs[i] == v
    ensures EmaAt(xs, period, k) == v
    decreases k
  {
    if k == 0 {
      SmaOfConstantWindow(xs, period, 0, v);
      assert xs[..period] == xs[0..period];
    } else {
      EmaAtOfConstant(xs, period, v, k - 1);
    }
  }

  lemma MultiplierInUnitInterval(period: nat)
    requires period >= 1
    ensures 0.0 < Multiplier(period) <= 1.0
  {
  }

  /** A smoothing step towards a higher price rises and does not pass it. */
  lemma EmaStepTowards(prev: real, price: real, m: real)
    requires prev < price && 0.0 < m <= 1.0
    ensures prev < EmaStep(prev, price, m) <= price
  {
    MulMonotone(prev, price, m);
  }

  /**
   * For strictly increasing prices every EMA value is at most the latest price, and
   * the EMA itself strictly increases.
   */
  lemma {:induction false} EmaAtOfIncreasing(xs: seq<real>, period: nat, k: nat)
    requires period >= 1 && period + k <= |xs|
    requires forall i :: 0 < i < |xs| ==> xs[i - 1] < xs[i]
    ensures EmaAt(xs, period, k) <= xs[period - 1 + k]
    ensures k > 0 ==> EmaAt(xs, period, k - 1) < EmaAt(xs, period, k)
    decreases k
  {
    if k == 0 {
      forall i | 0 <= i < period ensures xs[0] <= xs[i] <= xs[period - 1] {
        IncreasingUpTo(xs, 0, i);
        IncreasingUpTo(xs, i, period - 1);
      }
      WindowMeanBetween(xs, period, 0, xs[0], xs[period - 1]);
      assert xs[..period] == xs[0..period];
    } else {
      EmaAtOfIncreasing(xs, period, k - 1);
      MultiplierInUnitInterval(period);
      EmaStepTowards(EmaAt(xs, period, k - 1), xs[period - 1 + k], Multiplier(period));
    }
  }

  lemma {:induction false} IncreasingUpTo(xs: seq<real>, i: nat, j: nat)
    requires i <= j < |xs|
    requires forall n :: 0 < n < |xs| ==> xs[n - 1] < xs[n]
    ensures xs[i] <= xs[j]
    decreases j - i
  {
    if i < j {
      IncreasingUpTo(xs, i, j - 1);
    }
  }

  /** The EMA values up to index k depend only on the first `period + k` prices. */
  lemma {:induction false} EmaAtPrefix(xs: seq<real>, period: nat, k: nat, n: nat)
    requires period >= 1 && period + k <= n <= |xs|
    ensures EmaAt(xs[..n], period, k) == EmaAt(xs, period, k)
    decreases k
  {
    if k == 0 {
      assert xs[..n][..period] == xs[..period];
    } else {
      EmaAtPrefix(xs, period, k - 1, n);
    }
  }
}
