/**
 * `TechnicalAnalysis.calculateBollingerBands`: per full window of closes, the window
 * mean and the mean plus and minus `stdDev` population standard deviations. The
 * source computes on closes multiplied by the scale factor and divides at the end;
 * the method is proved equal to the bands of the unscaled closes.
 */
module Bollinger {
  import opened Numbers
  import opened IndicatorTypes
  import opened MovingAverages

  // ---------------------------------------------------------------------------
  // The bands of a close series
  // ---------------------------------------------------------------------------

  /** The population variance of window `j`: the mean squared deviation from the window mean. */
  function WindowVariance(xs: seq<real>, period: nat, j: nat): real
    requires period >= 1 && j + period <= |xs|
  {
    Mean(Sum(SquaredDeviations(xs[j..j + period], WindowMean(xs, period, j))), period)
  }

  /** The upper band of window `j`, `mean + stdDev * sd`. */
  function UpperAt(xs: seq<real>, period: nat, stdDev: real, sqrt: real -> real, j: nat): real
    requires period >= 1 && j + period <= |xs|
  {
    WindowMean(xs, period, j) + stdDev * sqrt(WindowVariance(xs, period, j))
  }

  /** The lower band of window `j`, `mean - stdDev * sd`. */
  function LowerAt(xs: seq<real>, period: nat, stdDev: real, sqrt: real -> real, j: nat): real
    requires period >= 1 && j + period <= |xs|
  {
    WindowMean(xs, period, j) - stdDev * sqrt(WindowVariance(xs, period, j))
  }

  /** The upper band values of the first `n` windows. */
  function UpperValues(xs: seq<real>, period: nat, stdDev: real, sqrt: real -> real, n: nat): (r: seq<real>)
    requires period >= 1 && period + n <= |xs| + 1
    ensures |r| == n
  {
    if n == 0 then [] else UpperValues(xs, period, stdDev, sqrt, n - 1) + [UpperAt(xs, period, stdDev, sqrt, n - 1)]
  }

  /** The lower band values of the first `n` windows. */
  function LowerValues(xs: seq<real>, period: nat, stdDev: real, sqrt: real -> real, n: nat): (r: seq<real>)
    requires period >= 1 && period + n <= |xs| + 1
    ensures |r| == n
  {
    if n == 0 then [] else LowerValues(xs, period, stdDev, sqrt, n - 1) + [LowerAt(xs, period, stdDev, sqrt, n - 1)]
  }

  lemma {:induction false} BandValuesAt(xs: seq<real>, period: nat, stdDev: real, sqrt: real -> real, n: nat, j: nat)
    requires period >= 1 && period + n <= |xs| + 1 && j < n
    ensures UpperValues(xs, period, stdDev, sqrt, n)[j] == UpperAt(xs, period, stdDev, sqrt, j)
    ensures LowerValues(xs, period, stdDev, sqrt, n)[j] == LowerAt(xs, period, stdDev, sqrt, j)
    decreases n
  {
    if j < n - 1 {
      BandValuesAt(xs, period, stdDev, sqrt, n - 1, j);
    }
  }

  /** The three bands of a close series; all empty without a full window. */
  function BollingerOf(xs: seq<real>, period: nat, stdDev: real, sqrt: real -> real): BollingerBandsResult
    requires period >= 1
  {
    if |xs| < period then BollingerBandsResult([], [], [])
    else
      var n := |xs| - period + 1;
      BollingerBandsResult(UpperValues(xs, period, stdDev, sqrt, n), Sma(xs, period), LowerValues(xs, period, stdDev, sqrt, n))
  }

  // ---------------------------------------------------------------------------
  // The source's computation
  // ---------------------------------------------------------------------------

  /** `data.map(candle => ({...candle, close: candle.close * scaleFactor}))`. */
  function ScaledCloses(data: seq<HistoricalCandle>): (r: seq<HistoricalCandle>)
    ensures |r| == |data|
    ensures forall i :: 0 <= i < |data| ==> r[i] == data[i].(close := data[i].close * ScaleFactor)
  {
    seq(|data|, i requires 0 <= i < |data| => data[i].(close := data[i].close * ScaleFactor))
  }

  /**
   * `calculateBollingerBands` with `Math.sqrt` passed in as `sqrt`: the SMA of the
   * scaled closes is the middle band, the band loop runs over every full window,
   * and all three bands are divided by the scale factor.
   */
  method CalculateBollingerBands(data: seq<HistoricalCandle>, sqrt: real -> real, period: nat := 20,
                                 stdDev: real := 2.0)
    returns (result: BollingerBandsResult)
    requires period >= 1 && IsSqrt(sqrt)
    ensures result == BollingerOf(Closes(data), period, stdDev, sqrt)
  {
    if |data| < period {
      return BollingerBandsResult([], [], []);
    }
    var scaledData := ScaledCloses(data);
    var middle := CalculateSma(scaledData, period);
    var xs := Closes(data);
    ClosesOfScaled(data);
    var upper, lower := BandLoop(ScaledUp(xs), middle, period, stdDev, sqrt);
    result := BollingerBandsResult(ScaledDown(upper), ScaledDown(middle), ScaledDown(lower));
    SmaScaledUp(xs, period);
    ScaledDownUp(Sma(xs, period));
    BandsScaledUp(xs, period, stdDev, sqrt);
  }

  /** The band loop of `calculateBollingerBands` over the scaled closes. */
  method BandLoop(scaled: seq<real>, middle: seq<real>, period: nat, stdDev: real, sqrt: real -> real)
    returns (upper: seq<real>, lower: seq<real>)
    requires 1 <= period <= |scaled| && middle == Sma(scaled, period)
    ensures upper == UpperValues(scaled, period, stdDev, sqrt, |scaled| - period + 1)
    ensures lower == LowerValues(scaled, period, stdDev, sqrt, |scaled| - period + 1)
  {
    upper, lower := [], [];
    for i := period - 1 to |scaled|
      invariant |upper| == |lower| == i - period + 1
      invariant upper == UpperValues(scaled, period, stdDev, sqrt, i - period + 1)
      invariant lower == LowerValues(scaled, period, stdDev, sqrt, i - period + 1)
    {
      var avg, sd := WindowDeviation(scaled, middle, period, i, sqrt);
      upper, lower := PushBands(scaled, period, stdDev, sqrt, i - period + 1, avg, sd, upper, lower);
    }
  }

  /**
   * One pass of the band loop up to the push: the window ending at index `i`, its
   * mean read from the middle band, and its standard deviation.
   */
  method WindowDeviation(scaled: seq<real>, middle: seq<real>, period: nat, i: nat, sqrt: real -> real)
    returns (avg: real, sd: real)
    requires 1 <= period <= i + 1 <= |scaled| && middle == Sma(scaled, period)
    ensures avg == WindowMean(scaled, period, i - period + 1)
    ensures sd == sqrt(WindowVariance(scaled, period, i - period + 1))
  {
    var slice := scaled[i - period + 1..i + 1];
    SmaAt(scaled, period, i - period + 1);
    avg := middle[i - (period - 1)];
    var squaredDiffs := SquaredDeviations(slice, avg);
    var variance := Sum(squaredDiffs) / (period as real);
    VarianceOfSlice(scaled, period, i - period + 1, slice, avg);
    sd := sqrt(variance);
  }

  /**
   * The pushes of the band loop, `upper.push((avg + (stdDev * sd)) / scaleFactor)` and
   * `lower.push((avg - (stdDev * sd)) / scaleFactor)`: they extend both scaled bands by
   * window `j`; the division by the scale factor is applied once, to the whole band, in
   * `CalculateBollingerBands`.
   */
  method PushBands(scaled: seq<real>, period: nat, stdDev: real, sqrt: real -> real, j: nat, avg: real, sd: real,
                   upper: seq<real>, lower: seq<real>)
    returns (upper': seq<real>, lower': seq<real>)
    requires period >= 1 && j + period <= |scaled|
    requires avg == WindowMean(scaled, period, j) && sd == sqrt(WindowVariance(scaled, period, j))
    requires upper == UpperValues(scaled, period, stdDev, sqrt, j)
    requires lower == LowerValues(scaled, period, stdDev, sqrt, j)
    ensures upper' == UpperValues(scaled, period, stdDev, sqrt, j + 1)
    ensures lower' == LowerValues(scaled, period, stdDev, sqrt, j + 1)
  {
    upper' := upper + [avg + stdDev * sd];
    lower' := lower + [avg - stdDev * sd];
    assert UpperAt(scaled, period, stdDev, sqrt, j) == avg + stdDev * sd;
    assert LowerAt(scaled, period, stdDev, sqrt, j) == avg - stdDev * sd;
  }

  /** The loop's `variance` is the variance of the window it slices. */
  lemma VarianceOfSlice(xs: seq<real>, period: nat, j: nat, slice: seq<real>, avg: real)
    requires period >= 1 && j + period <= |xs|
    requires slice == xs[j..j + period] && avg == WindowMean(xs, period, j)
    ensures Sum(SquaredDeviations(slice, avg)) / (period as real) == WindowVariance(xs, period, j)
  {
  }

  lemma ClosesOfScaled(data: seq<HistoricalCandle>)
    ensures Prices(ScaledCloses(data), Close) == ScaledUp(Closes(data))
  {
  }

  // ---------------------------------------------------------------------------
  // Scaling
  // ---------------------------------------------------------------------------

  lemma SquareScaledDiff(x: real, m: real, y: real, n: real)
    requires y == x * ScaleFactor && n == ScaleFactor * m
    ensures Square(y - n) == (ScaleFactor * ScaleFactor) * Square(x - m)
  {
  }

  /**
   * Values and centre multiplied by the scale factor multiply the sum of squared
   * deviations by the square of the factor.
   */
  lemma SumSquaredDeviationsScaled(a: seq<real>, b: seq<real>, ma: real, mb: real)
    requires |a| == |b| && mb == ScaleFactor * ma
    requires forall i :: 0 <= i < |a| ==> b[i] == a[i] * ScaleFactor
    ensures Sum(SquaredDeviations(b, mb)) == (ScaleFactor * ScaleFactor) * Sum(SquaredDeviations(a, ma))
  {
    var u, v := SquaredDeviations(a, ma), SquaredDeviations(b, mb);
    forall i | 0 <= i < |a| ensures v[i] == (ScaleFactor * ScaleFactor) * u[i] {
      SquareScaledDiff(a[i], ma, b[i], mb);
    }
    SumScaledBySquare(u, v);
  }

  /** A sum of terms each the square of the factor times another's is that multiple of the other sum. */
  lemma {:induction false} SumScaledBySquare(u: seq<real>, v: seq<real>)
    requires |u| == |v|
    requires forall i :: 0 <= i < |u| ==> v[i] == (ScaleFactor * ScaleFactor) * u[i]
    ensures Sum(v) == (ScaleFactor * ScaleFactor) * Sum(u)
    decreases |u|
  {
    if |u| > 0 {
      SumScaledBySquare(u[..|u| - 1], v[..|v| - 1]);
    }
  }

  lemma SumSquaredDeviationsScaledUp(w: seq<real>, m: real)
    ensures Sum(SquaredDeviations(ScaledUp(w), ScaleFactor * m)) ==
      (ScaleFactor * ScaleFactor) * Sum(SquaredDeviations(w, m))
  {
    SumSquaredDeviationsScaled(w, ScaledUp(w), m, ScaleFactor * m);
  }

  lemma MeanScaledBySquare(total: real, count: nat)
    requires count >= 1
    ensures Mean((ScaleFactor * ScaleFactor) * total, count) == (ScaleFactor * ScaleFactor) * Mean(total, count)
  {
  }

  /** The variance of a scaled window is the square of the factor times the variance. */
  lemma WindowVarianceScaledUp(xs: seq<real>, period: nat, j: nat)
    requires period >= 1 && j + period <= |xs|
    ensures WindowVariance(ScaledUp(xs), period, j) == (ScaleFactor * ScaleFactor) * WindowVariance(xs, period, j)
  {
    var w := xs[j..j + period];
    ScaledUpSlice(xs, j, j + period);
    WindowMeanScaledUp(xs, period, j);
    SumSquaredDeviationsScaledUp(w, WindowMean(xs, period, j));
    MeanScaledBySquare(Sum(SquaredDeviations(w, WindowMean(xs, period, j))), period);
  }

  lemma MulScaled(a: real, q: real, q': real)
    requires q' == ScaleFactor * q
    ensures a * q' == ScaleFactor * (a * q)
  {
  }

  /** The standard deviation of a scaled window is the scaled standard deviation. */
  lemma DeviationScaledUp(xs: seq<real>, period: nat, sqrt: real -> real, j: nat)
    requires period >= 1 && j + period <= |xs| && IsSqrt(sqrt)
    ensures sqrt(WindowVariance(ScaledUp(xs), period, j)) == ScaleFactor * sqrt(WindowVariance(xs, period, j))
  {
    WindowVarianceScaledUp(xs, period, j);
    WindowVarianceNonNegative(xs, period, j);
    SqrtScaled(sqrt, WindowVariance(xs, period, j), ScaleFactor);
  }

  /** Both outer bands of the scaled closes, divided by the factor, are the bands of the closes. */
  lemma BandsAtScaledUp(xs: seq<real>, period: nat, stdDev: real, sqrt: real -> real, j: nat)
    requires period >= 1 && j + period <= |xs| && IsSqrt(sqrt)
    ensures UpperAt(ScaledUp(xs), period, stdDev, sqrt, j) / ScaleFactor == UpperAt(xs, period, stdDev, sqrt, j)
    ensures LowerAt(ScaledUp(xs), period, stdDev, sqrt, j) / ScaleFactor == LowerAt(xs, period, stdDev, sqrt, j)
  {
    WindowMeanScaledUp(xs, period, j);
    DeviationScaledUp(xs, period, sqrt, j);
    MulScaled(stdDev, sqrt(WindowVariance(xs, period, j)), sqrt(WindowVariance(ScaledUp(xs), period, j)));
    DivOfMul(UpperAt(xs, period, stdDev, sqrt, j), ScaleFactor);
    DivOfMul(LowerAt(xs, period, stdDev, sqrt, j), ScaleFactor);
  }

  /** Computing the bands on scaled closes and dividing by the factor gives the bands of the closes. */
  lemma BandsScaledUp(xs: seq<real>, period: nat, stdDev: real, sqrt: real -> real)
    requires 1 <= period <= |xs| && IsSqrt(sqrt)
    ensures ScaledDown(UpperValues(ScaledUp(xs), period, stdDev, sqrt, |xs| - period + 1)) ==
      UpperValues(xs, period, stdDev, sqrt, |xs| - period + 1)
    ensures ScaledDown(LowerValues(ScaledUp(xs), period, stdDev, sqrt, |xs| - period + 1)) ==
      LowerValues(xs, period, stdDev, sqrt, |xs| - period + 1)
  {
    var n := |xs| - period + 1;
    var u, l := ScaledDown(UpperValues(ScaledUp(xs), period, stdDev, sqrt, n)), ScaledDown(LowerValues(ScaledUp(xs), period, stdDev, sqrt, n));
    forall j | 0 <= j < n
      ensures u[j] == UpperValues(xs, period, stdDev, sqrt, n)[j]
      ensures l[j] == LowerValues(xs, period, stdDev, sqrt, n)[j]
    {
      BandValuesAt(ScaledUp(xs), period, stdDev, sqrt, n, j);
      BandValuesAt(xs, period, stdDev, sqrt, n, j);
      BandsAtScaledUp(xs, period, stdDev, sqrt, j);
    }
  }

  // ---------------------------------------------------------------------------
  // Properties of the bands
  // ---------------------------------------------------------------------------

  /** The variance of a window is never negative. */
  lemma WindowVarianceNonNegative(xs: seq<real>, period: nat, j: nat)
    requires period >= 1 && j + period <= |xs|
    ensures WindowVariance(xs, period, j) >= 0.0
  {
    var w := xs[j..j + period];
    SquaredDeviationsNonNegative(w, WindowMean(xs, period, j));
    DivNonNegative(Sum(SquaredDeviations(w, WindowMean(xs, period, j))), period as real);
  }

  /** No bands without a full window; otherwise one value per window in each band. */
  lemma BollingerShape(xs: seq<real>, period: nat, stdDev: real, sqrt: real -> real)
    requires period >= 1
    ensures |xs| < period ==> BollingerOf(xs, period, stdDev, sqrt) == BollingerBandsResult([], [], [])
    ensures |xs| >= period ==>
      var r := BollingerOf(xs, period, stdDev, sqrt);
      |r.upper| == |xs| - period + 1 && |r.middle| == |xs| - period + 1 && |r.lower| == |xs| - period + 1
  {
    SmaShape(xs, period);
  }

  /** Window `j` of each band: the window mean, and that mean plus and minus `stdDev` deviations. */
  lemma BandsAt(xs: seq<real>, period: nat, stdDev: real, sqrt: real -> real, j: nat)
    requires period >= 1 && j + period <= |xs|
    ensures var r := BollingerOf(xs, period, stdDev, sqrt);
      j < |r.upper| && j < |r.middle| && j < |r.lower| &&
      r.middle[j] == WindowMean(xs, period, j) &&
      r.upper[j] == UpperAt(xs, period, stdDev, sqrt, j) &&
      r.lower[j] == LowerAt(xs, period, stdDev, sqrt, j)
  {
    SmaAt(xs, period, j);
    BandValuesAt(xs, period, stdDev, sqrt, |xs| - period + 1, j);
  }

  /**
   * The middle band is the window mean, and the outer bands lie symmetrically around
   * it, at or outside it for a non-negative `stdDev`.
   */
  lemma BandsSymmetric(xs: seq<real>, period: nat, stdDev: real, sqrt: real -> real, j: nat)
    requires period >= 1 && j + period <= |xs| && IsSqrt(sqrt)
    ensures var r := BollingerOf(xs, period, stdDev, sqrt);
      r.middle[j] == WindowMean(xs, period, j) &&
      r.upper[j] - r.middle[j] == r.middle[j] - r.lower[j] &&
      (stdDev >= 0.0 ==> r.lower[j] <= r.middle[j] <= r.upper[j])
  {
    BandsAt(xs, period, stdDev, sqrt, j);
    var v := WindowVariance(xs, period, j);
    WindowVarianceNonNegative(xs, period, j);
    assert SqrtAt(sqrt, v);
    if stdDev >= 0.0 {
      MulNonNegative(stdDev, sqrt(v));
    }
  }

  /** A window of identical closes has zero variance, so the three bands meet. */
  lemma BandsOfConstantWindow(xs: seq<real>, period: nat, stdDev: real, sqrt: real -> real, j: nat, v: real)
    requires period >= 1 && j + period <= |xs| && IsSqrt(sqrt)
    requires forall i :: j <= i < j + period ==> xs[i] == v
    ensures var r := BollingerOf(xs, period, stdDev, sqrt);
      r.upper[j] == v && r.middle[j] == v && r.lower[j] == v
  {
    BandsAt(xs, period, stdDev, sqrt, j);
    SmaOfConstantWindow(xs, period, j, v);
    SmaAt(xs, period, j);
    var w := xs[j..j + period];
    assert WindowMean(xs, period, j) == v;
    SquaredDeviationsAtConstant(w, v);
    assert WindowVariance(xs, period, j) == 0.0 / (period as real);
    SqrtZero(sqrt);
  }

  /** A window with two different closes has positive variance, so positive `stdDev` separates the bands. */
  lemma BandsOfVaryingWindow(xs: seq<real>, period: nat, stdDev: real, sqrt: real -> real, j: nat, k: nat, k': nat)
    requires period >= 1 && j <= k < j + period && j <= k' < j + period && j + period <= |xs|
    requires xs[k] != xs[k'] && IsSqrt(sqrt) && stdDev > 0.0
    ensures var r := BollingerOf(xs, period, stdDev, sqrt);
      r.lower[j] < r.middle[j] < r.upper[j]
  {
    BandsAt(xs, period, stdDev, sqrt, j);
    BandsSeparated(xs, period, stdDev, sqrt, j, k, k');
  }

  lemma BandsSeparated(xs: seq<real>, period: nat, stdDev: real, sqrt: real -> real, j: nat, k: nat, k': nat)
    requires period >= 1 && j <= k < j + period && j <= k' < j + period && j + period <= |xs|
    requires xs[k] != xs[k'] && IsSqrt(sqrt) && stdDev > 0.0
    ensures LowerAt(xs, period, stdDev, sqrt, j) < WindowMean(xs, period, j) < UpperAt(xs, period, stdDev, sqrt, j)
  {
    var v := WindowVariance(xs, period, j);
    WindowVariancePositive(xs, period, j, k, k');
    SqrtPositive(sqrt, v);
    MulPositive(stdDev, sqrt(v));
  }

  lemma WindowVariancePositive(xs: seq<real>, period: nat, j: nat, k: nat, k': nat)
    requires period >= 1 && j <= k < j + period && j <= k' < j + period && j + period <= |xs|
    requires xs[k] != xs[k']
    ensures WindowVariance(xs, period, j) > 0.0
  {
    var w := xs[j..j + period];
    var m := WindowMean(xs, period, j);
    var i := if xs[k] != m then k else k';
    assert w[i - j] == xs[i] != m;
    SquaredDeviationsPositive(w, m, i - j);
    DivPositive(Sum(SquaredDeviations(w, m)), period as real);
  }
}
