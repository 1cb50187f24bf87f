/**
 * `PerformanceAnalytics`: the Sharpe ratio of a series of returns against a risk-free
 * rate, and the largest fall of an equity curve relative to its running peak. Both
 * divide by quantities that can be zero, so their results are IEEE `Value`s.
 */
module Performance {
  import opened Numbers
  import MovingAverages

  // ---------------------------------------------------------------------------
  // Sharpe ratio
  // ---------------------------------------------------------------------------

  /** `returns.map(r => r - riskFreeRate)`. */
  function ExcessReturns(series: seq<real>, riskFreeRate: real): (r: seq<real>)
    ensures |r| == |series|
    ensures forall i :: 0 <= i < |r| ==> r[i] == series[i] - riskFreeRate
  {
    seq(|series|, i requires 0 <= i < |series| => series[i] - riskFreeRate)
  }

  /** The mean excess return. */
  function AverageExcessReturn(series: seq<real>, riskFreeRate: real): real
    requires |series| >= 1
  {
    MovingAverages.Mean(Sum(ExcessReturns(series, riskFreeRate)), |series|)
  }

  /** The population variance of the excess returns. */
  function ExcessVariance(series: seq<real>, riskFreeRate: real): real
    requires |series| >= 1
  {
    var excess := ExcessReturns(series, riskFreeRate);
    MovingAverages.Mean(Sum(SquaredDeviations(excess, AverageExcessReturn(series, riskFreeRate))), |series|)
  }

  /**
   * `calculateSharpeRatio(returns, riskFreeRate = 0.02)`: the mean excess return over
   * their population standard deviation; Infinity, -Infinity or NaN when every return
   * is the same.
   */
  function CalculateSharpeRatio(series: seq<real>, sqrt: real -> real, riskFreeRate: real := 0.02): (r: Value)
    requires |series| >= 1
    ensures r.Finite? <==> sqrt(ExcessVariance(series, riskFreeRate)) != 0.0
    ensures r.Finite? ==> r.v * sqrt(ExcessVariance(series, riskFreeRate)) == AverageExcessReturn(series, riskFreeRate)
    ensures r == NotANumber <==>
      sqrt(ExcessVariance(series, riskFreeRate)) == 0.0 && AverageExcessReturn(series, riskFreeRate) == 0.0
  {
    Divide(AverageExcessReturn(series, riskFreeRate), sqrt(ExcessVariance(series, riskFreeRate)))
  }

  /** The mean excess return is the mean return less the rate. */
  lemma AverageExcessReturnShifted(series: seq<real>, riskFreeRate: real)
    requires |series| >= 1
    ensures AverageExcessReturn(series, riskFreeRate) ==
      AverageExcessReturn(series, 0.0) - riskFreeRate
  {
    var total := Sum(series);
    var shifted := Sum(ExcessReturns(series, riskFreeRate));
    SumShifted(series, ExcessReturns(series, riskFreeRate), riskFreeRate);
    assert shifted == total - (|series| as real) * riskFreeRate;
    ExcessReturnsAtZero(series);
    assert AverageExcessReturn(series, 0.0) == MovingAverages.Mean(total, |series|);
    assert AverageExcessReturn(series, riskFreeRate) == MovingAverages.Mean(shifted, |series|);
    MeanLessConstant(total, |series|, riskFreeRate);
  }

  lemma ExcessReturnsAtZero(series: seq<real>)
    ensures ExcessReturns(series, 0.0) == series
  {
  }

  /** Taking `count` times `d` from a total takes `d` from its mean. */
  lemma MeanLessConstant(total: real, count: nat, d: real)
    requires count >= 1
    ensures MovingAverages.Mean(total - (count as real) * d, count) == MovingAverages.Mean(total, count) - d
  {
    var c := count as real;
    var q := total / c;
    assert q * c == total;
    assert (q - d) * c == total - c * d;
    QuotientOf(q - d, total - c * d, c);
  }

  /** The risk-free rate moves every return and the mean alike, so the spread does not depend on it. */
  lemma ExcessVarianceIndependentOfRate(series: seq<real>, riskFreeRate: real)
    requires |series| >= 1
    ensures ExcessVariance(series, riskFreeRate) == ExcessVariance(series, 0.0)
  {
    AverageExcessReturnShifted(series, riskFreeRate);
    var base := ExcessReturns(series, 0.0);
    var shifted := ExcessReturns(series, riskFreeRate);
    SquaredDeviationsShifted(base, shifted, AverageExcessReturn(series, 0.0), riskFreeRate);
  }

  /** The variance is positive exactly when some return differs from the first. */
  lemma ExcessVariancePositive(series: seq<real>, riskFreeRate: real)
    requires |series| >= 1
    ensures ExcessVariance(series, riskFreeRate) >= 0.0
    ensures ExcessVariance(series, riskFreeRate) > 0.0 <==>
      exists i :: 0 <= i < |series| && series[i] != series[0]
  {
    var excess := ExcessReturns(series, riskFreeRate);
    var m := AverageExcessReturn(series, riskFreeRate);
    var total := Sum(SquaredDeviations(excess, m));
    SquaredDeviationsNonNegative(excess, m);
    DivNonNegative(total, |series| as real);
    if exists i :: 0 <= i < |series| && series[i] != series[0] {
      var i :| 0 <= i < |series| && series[i] != series[0];
      VaryingExcessSpread(series, riskFreeRate, i);
      DivPositive(total, |series| as real);
    } else {
      ConstantExcess(series, riskFreeRate);
      assert forall k :: 0 <= k < |excess| ==> excess[k] == m;
      SquaredDeviationsAtConstant(excess, m);
    }
  }

  lemma VaryingExcessSpread(series: seq<real>, riskFreeRate: real, i: nat)
    requires i < |series| && series[i] != series[0]
    ensures Sum(SquaredDeviations(ExcessReturns(series, riskFreeRate), AverageExcessReturn(series, riskFreeRate))) > 0.0
  {
    var excess := ExcessReturns(series, riskFreeRate);
    var m := AverageExcessReturn(series, riskFreeRate);
    var k := if excess[i] != m then i else 0;
    SquaredDeviationsPositive(excess, m, k);
  }

  lemma ConstantExcess(series: seq<real>, riskFreeRate: real)
    requires |series| >= 1
    requires forall i :: 0 <= i < |series| ==> series[i] == series[0]
    ensures AverageExcessReturn(series, riskFreeRate) == series[0] - riskFreeRate
  {
    var excess := ExcessReturns(series, riskFreeRate);
    var c := series[0] - riskFreeRate;
    forall k | 0 <= k < |excess| ensures excess[k] == c {
    }
    SumConstant(excess, c);
    var total := Sum(excess);
    assert AverageExcessReturn(series, riskFreeRate) == MovingAverages.Mean(total, |series|);
    MeanOfTotal(total, |series|, c);
  }

  /** A total of `count` copies of `v` has mean `v`. */
  lemma MeanOfTotal(total: real, count: nat, v: real)
    requires count >= 1 && total == (count as real) * v
    ensures MovingAverages.Mean(total, count) == v
  {
    MovingAverages.MeanOfMultiple(count, v);
  }

  /**
   * When the returns vary the ratio is finite and has the sign of the mean excess
   * return; when they do not it is a signed Infinity, or NaN when the mean excess
   * return is also 0.
   */
  lemma SharpeRatioSign(series: seq<real>, sqrt: real -> real, riskFreeRate: real)
    requires |series| >= 1 && IsSqrt(sqrt)
    ensures var r := CalculateSharpeRatio(series, sqrt, riskFreeRate);
      var avg := AverageExcessReturn(series, riskFreeRate);
      (ExcessVariance(series, riskFreeRate) > 0.0 ==>
        r.Finite? && (r.v > 0.0 <==> avg > 0.0) && (r.v < 0.0 <==> avg < 0.0)) &&
      (ExcessVariance(series, riskFreeRate) == 0.0 ==> !r.Finite?)
  {
    var variance := ExcessVariance(series, riskFreeRate);
    var avg := AverageExcessReturn(series, riskFreeRate);
    ExcessVariancePositive(series, riskFreeRate);
    if variance > 0.0 {
      SqrtPositive(sqrt, variance);
      QuotientSign(avg, sqrt(variance));
    } else {
      SqrtZero(sqrt);
    }
  }

  lemma QuotientSign(a: real, p: real)
    requires p > 0.0
    ensures a / p > 0.0 <==> a > 0.0
    ensures a / p < 0.0 <==> a < 0.0
  {
    if a > 0.0 {
      DivPositive(a, p);
    } else if a < 0.0 {
      DivPositive(-a, p);
      assert (-a) / p == -(a / p);
    }
  }

  /**
   * A higher risk-free rate gives a lower ratio: the spread stays and the mean excess
   * return falls by the difference.
   */
  lemma SharpeRatioDecreasesWithRate(series: seq<real>, sqrt: real -> real, low: real, high: real)
    requires |series| >= 1 && IsSqrt(sqrt) && low < high
    requires ExcessVariance(series, 0.0) > 0.0
    ensures CalculateSharpeRatio(series, sqrt, low).Finite? && CalculateSharpeRatio(series, sqrt, high).Finite?
    ensures CalculateSharpeRatio(series, sqrt, high).v < CalculateSharpeRatio(series, sqrt, low).v
  {
    ExcessVarianceIndependentOfRate(series, low);
    ExcessVarianceIndependentOfRate(series, high);
    AverageExcessReturnShifted(series, low);
    AverageExcessReturnShifted(series, high);
    var sd := sqrt(ExcessVariance(series, 0.0));
    SqrtPositive(sqrt, ExcessVariance(series, 0.0));
    var a := AverageExcessReturn(series, low);
    var b := AverageExcessReturn(series, high);
    assert b < a;
    DivLess(b, a, sd);
  }

  lemma DivLess(a: real, b: real, p: real)
    requires a < b && p > 0.0
    ensures a / p < b / p
  {
    QuotientSign(b - a, p);
    assert (b - a) / p == b / p - a / p;
  }

  // ---------------------------------------------------------------------------
  // Drawdown
  // ---------------------------------------------------------------------------

  /** JavaScript `a > b`: false whenever NaN is involved. */
  predicate GreaterThan(a: Value, b: Value)
    ensures GreaterThan(a, b) ==> !a.NotANumber? && !b.NotANumber?
    ensures a.Finite? && b.Finite? ==> (GreaterThan(a, b) <==> a.v > b.v)
    ensures a.PlusInfinity? && !b.NotANumber? ==> (GreaterThan(a, b) <==> !b.PlusInfinity?)
    ensures b.MinusInfinity? && !a.NotANumber? ==> (GreaterThan(a, b) <==> !a.MinusInfinity?)
    ensures a.MinusInfinity? || b.PlusInfinity? ==> !GreaterThan(a, b)
  {
    match (a, b)
    case (NotANumber, _) => false
    case (_, NotANumber) => false
    case (PlusInfinity, PlusInfinity) => false
    case (PlusInfinity, _) => true
    case (MinusInfinity, _) => false
    case (Finite(x), PlusInfinity) => false
    case (Finite(x), MinusInfinity) => true
    case (Finite(x), Finite(y)) => x > y
  }

  /** The running peak after the first `n` values, starting from the first value. */
  function Peak(equity: seq<real>, n: nat): real
    requires 1 <= n <= |equity|
  {
    if n == 1 then equity[0]
    else if equity[n - 1] > Peak(equity, n - 1) then equity[n - 1]
    else Peak(equity, n - 1)
  }

  /** The fall of the `n`-th value below the peak so far, as a fraction of the peak. */
  function DrawdownAt(equity: seq<real>, n: nat): Value
    requires 1 <= n <= |equity|
  {
    Divide(Peak(equity, n) - equity[n - 1], Peak(equity, n))
  }

  /** The largest drawdown over the first `n` values, kept as the loop keeps it. */
  function MaxDrawdown(equity: seq<real>, n: nat): Value
    requires n <= |equity|
  {
    if n == 0 then Finite(0.0)
    else if GreaterThan(DrawdownAt(equity, n), MaxDrawdown(equity, n - 1)) then DrawdownAt(equity, n)
    else MaxDrawdown(equity, n - 1)
  }

  /**
   * `calculateDrawdown`: walks the curve once, raising the peak and keeping the largest
   * drawdown. An empty curve gives 0.
   */
  method CalculateDrawdown(equity: seq<real>) returns (maxDrawdown: Value)
    ensures maxDrawdown == MaxDrawdown(equity, |equity|)
  {
    maxDrawdown := Finite(0.0);
    if |equity| == 0 {
      return;
    }
    var peak := equity[0];
    for i := 0 to |equity|
      invariant maxDrawdown == MaxDrawdown(equity, i)
      invariant peak == if i == 0 then equity[0] else Peak(equity, i)
    {
      var value := equity[i];
      if value > peak {
        peak := value;
      }
      var drawdown := Divide(peak - value, peak);
      if GreaterThan(drawdown, maxDrawdown) {
        maxDrawdown := drawdown;
      }
    }
  }

  /** The peak is one of the values seen and none of them is above it. */
  lemma {:induction false} PeakBounds(equity: seq<real>, n: nat)
    requires 1 <= n <= |equity|
    ensures forall i :: 0 <= i < n ==> equity[i] <= Peak(equity, n)
    ensures exists k :: 0 <= k < n && Peak(equity, n) == equity[k]
  {
    if n == 1 {
      assert Peak(equity, n) == equity[0];
    } else {
      PeakBounds(equity, n - 1);
      var k :| 0 <= k < n - 1 && Peak(equity, n - 1) == equity[k];
      if equity[n - 1] > Peak(equity, n - 1) {
        assert Peak(equity, n) == equity[n - 1];
      } else {
        assert Peak(equity, n) == equity[k];
      }
    }
  }

  /** On a positive curve each drawdown is a finite fraction in [0, 1). */
  lemma DrawdownAtRange(equity: seq<real>, n: nat)
    requires 1 <= n <= |equity|
    requires forall i :: 0 <= i < |equity| ==> equity[i] > 0.0
    ensures DrawdownAt(equity, n).Finite?
    ensures 0.0 <= DrawdownAt(equity, n).v < 1.0
  {
    PeakBounds(equity, n);
    var p := Peak(equity, n);
    var k :| 0 <= k < n && p == equity[k];
    DivNonNegative(p - equity[n - 1], p);
    DivBelow(p - equity[n - 1], 1.0, p);
  }

  /** On a positive curve the largest drawdown is a finite fraction in [0, 1). */
  lemma {:induction false} MaxDrawdownRange(equity: seq<real>, n: nat)
    requires n <= |equity|
    requires forall i :: 0 <= i < |equity| ==> equity[i] > 0.0
    ensures MaxDrawdown(equity, n).Finite?
    ensures 0.0 <= MaxDrawdown(equity, n).v < 1.0
  {
    if n > 0 {
      MaxDrawdownRange(equity, n - 1);
      DrawdownAtRange(equity, n);
    }
  }

  /** Whatever the curve, the result is never below 0 and never NaN or -Infinity. */
  lemma {:induction false} MaxDrawdownNonNegative(equity: seq<real>, n: nat)
    requires n <= |equity|
    ensures MaxDrawdown(equity, n).Finite? || MaxDrawdown(equity, n).PlusInfinity?
    ensures MaxDrawdown(equity, n).Finite? ==> MaxDrawdown(equity, n).v >= 0.0
  {
    if n > 0 {
      MaxDrawdownNonNegative(equity, n - 1);
    }
  }

  /** On a positive curve the largest drawdown never shrinks as the curve goes on. */
  lemma {:induction false} MaxDrawdownGrows(equity: seq<real>, m: nat, n: nat)
    requires m <= n <= |equity|
    requires forall i :: 0 <= i < |equity| ==> equity[i] > 0.0
    ensures MaxDrawdown(equity, m).Finite? && MaxDrawdown(equity, n).Finite?
    ensures MaxDrawdown(equity, m).v <= MaxDrawdown(equity, n).v
    decreases n - m
  {
    MaxDrawdownRange(equity, m);
    MaxDrawdownRange(equity, n);
    if m < n {
      MaxDrawdownGrows(equity, m + 1, n);
      MaxDrawdownRange(equity, m + 1);
      DrawdownAtRange(equity, m + 1);
    }
  }

  /** A fall from `a` to `v` relative to `a` is no more than the fall from a higher peak `p`. */
  lemma FallFromHigherPeak(a: real, p: real, v: real)
    requires 0.0 < a <= p && v > 0.0
    ensures (a - v) / a <= (p - v) / p
  {
    var q := v / a;
    assert q * a == v;
    assert q >= 0.0 by { DivNonNegative(v, a); }
    QuotientOf(1.0 - q, a - v, a);
    assert q * a <= q * p by { MulNonNegative(q, p - a); }
    DivAtMost(v, q, p);
    assert v / p * p == v;
    QuotientOf(1.0 - v / p, p - v, p);
  }

  /**
   * On a positive curve the result is the largest relative fall from an earlier (or
   * the same) value to a later one: every pair is bounded by it and some pair attains it.
   */
  lemma {:induction false} MaxDrawdownIsLargestFall(equity: seq<real>, n: nat)
    requires 1 <= n <= |equity|
    requires forall i :: 0 <= i < |equity| ==> equity[i] > 0.0
    ensures MaxDrawdown(equity, n).Finite?
    ensures forall i, j :: 0 <= i <= j < n ==> (equity[i] - equity[j]) / equity[i] <= MaxDrawdown(equity, n).v
    ensures exists i, j :: 0 <= i <= j < n && (equity[i] - equity[j]) / equity[i] == MaxDrawdown(equity, n).v
  {
    MaxDrawdownRange(equity, n);
    forall i, j | 0 <= i <= j < n
      ensures (equity[i] - equity[j]) / equity[i] <= MaxDrawdown(equity, n).v
    {
      PeakBounds(equity, j + 1);
      FallFromHigherPeak(equity[i], Peak(equity, j + 1), equity[j]);
      DrawdownAtRange(equity, j + 1);
      MaxDrawdownRange(equity, j);
      MaxDrawdownGrows(equity, j + 1, n);
    }
    MaxDrawdownAttained(equity, n);
  }

  lemma {:induction false} MaxDrawdownAttained(equity: seq<real>, n: nat)
    requires 1 <= n <= |equity|
    requires forall i :: 0 <= i < |equity| ==> equity[i] > 0.0
    ensures MaxDrawdown(equity, n).Finite?
    ensures exists i, j :: 0 <= i <= j < n && (equity[i] - equity[j]) / equity[i] == MaxDrawdown(equity, n).v
  {
    MaxDrawdownRange(equity, n);
    PeakBounds(equity, n);
    var k :| 0 <= k < n && Peak(equity, n) == equity[k];
    if n == 1 {
      assert (equity[0] - equity[0]) / equity[0] == 0.0;
      assert MaxDrawdown(equity, 1).v == 0.0;
    } else if GreaterThan(DrawdownAt(equity, n), MaxDrawdown(equity, n - 1)) {
      assert (equity[k] - equity[n - 1]) / equity[k] == MaxDrawdown(equity, n).v;
    } else {
      MaxDrawdownAttained(equity, n - 1);
      var i, j :| 0 <= i <= j < n - 1 && (equity[i] - equity[j]) / equity[i] == MaxDrawdown(equity, n - 1).v;
      assert (equity[i] - equity[j]) / equity[i] == MaxDrawdown(equity, n).v;
    }
  }

  /** A curve that never falls has no drawdown. */
  lemma {:induction false} NonDecreasingHasNoDrawdown(equity: seq<real>, n: nat)
    requires n <= |equity|
    requires forall i, j :: 0 <= i <= j < |equity| ==> equity[i] <= equity[j]
    ensures MaxDrawdown(equity, n) == Finite(0.0)
    ensures n >= 1 ==> Peak(equity, n) == equity[n - 1]
  {
    if n > 1 {
      NonDecreasingHasNoDrawdown(equity, n - 1);
    }
  }

  /** A single value has no drawdown, whatever it is. */
  lemma SingleValueHasNoDrawdown(v: real)
    ensures MaxDrawdown([v], 1) == Finite(0.0)
  {
  }

  /** The curve of the source's tests falls from 100 to 80: a drawdown of 0.2. */
  method DrawdownExample() returns (fall: Value, rising: Value, single: Value)
    ensures fall == Finite(0.2) && rising == Finite(0.0) && single == Finite(0.0)
  {
    var curve := [100.0, 95.0, 90.0, 95.0, 85.0, 80.0, 85.0, 90.0];
    fall := CalculateDrawdown(curve);
    ExampleCurve(curve);
    rising := CalculateDrawdown([100.0, 105.0, 110.0, 115.0, 120.0]);
    NonDecreasingHasNoDrawdown([100.0, 105.0, 110.0, 115.0, 120.0], 4);
    single := CalculateDrawdown([100.0]);
  }

  lemma ExampleCurve(curve: seq<real>)
    requires curve == [100.0, 95.0, 90.0, 95.0, 85.0, 80.0, 85.0, 90.0]
    ensures MaxDrawdown(curve, 8) == Finite(0.2)
  {
    assert Peak(curve, 1) == 100.0 && Peak(curve, 2) == 100.0 && Peak(curve, 3) == 100.0 && Peak(curve, 4) == 100.0;
    assert Peak(curve, 5) == 100.0 && Peak(curve, 6) == 100.0 && Peak(curve, 7) == 100.0 && Peak(curve, 8) == 100.0;
    assert MaxDrawdown(curve, 1) == Finite(0.0);
    assert MaxDrawdown(curve, 2) == Finite(0.05);
    assert MaxDrawdown(curve, 3) == Finite(0.1);
    assert MaxDrawdown(curve, 4) == Finite(0.1);
    assert MaxDrawdown(curve, 5) == Finite(0.15);
    assert MaxDrawdown(curve, 6) == Finite(0.2);
    assert MaxDrawdown(curve, 7) == Finite(0.2);
  }

  /**
   * The return series of the source's tests: steady 4-7% returns have a positive
   * ratio at the default rate and a lower one at 3%; their negatives have a negative one.
   */
  lemma SharpeExamples(sqrt: real -> real)
    requires IsSqrt(sqrt)
    ensures CalculateSharpeRatio([0.05, 0.06, 0.04, 0.07, 0.05], sqrt).Finite?
    ensures CalculateSharpeRatio([0.05, 0.06, 0.04, 0.07, 0.05], sqrt).v > 0.0
    ensures CalculateSharpeRatio([-0.05, -0.06, -0.04, -0.07, -0.05], sqrt).Finite?
    ensures CalculateSharpeRatio([-0.05, -0.06, -0.04, -0.07, -0.05], sqrt).v < 0.0
    ensures CalculateSharpeRatio([0.05, 0.06, 0.04, 0.07, 0.05], sqrt, 0.03).Finite?
    ensures CalculateSharpeRatio([0.05, 0.06, 0.04, 0.07, 0.05], sqrt, 0.03).v <
      CalculateSharpeRatio([0.05, 0.06, 0.04, 0.07, 0.05], sqrt, 0.02).v
  {
    var up := [0.05, 0.06, 0.04, 0.07, 0.05];
    var down := [-0.05, -0.06, -0.04, -0.07, -0.05];
    MeanReturnOfExamples(up, down);
    AverageExcessReturnShifted(up, 0.02);
    AverageExcessReturnShifted(down, 0.02);
    ExcessVariancePositive(up, 0.02);
    ExcessVariancePositive(down, 0.02);
    ExcessVariancePositive(up, 0.0);
    assert up[1] != up[0] && down[1] != down[0];
    SharpeRatioSign(up, sqrt, 0.02);
    SharpeRatioSign(down, sqrt, 0.02);
    SharpeRatioDecreasesWithRate(up, sqrt, 0.02, 0.03);
  }

  lemma MeanReturnOfExamples(up: seq<real>, down: seq<real>)
    requires up == [0.05, 0.06, 0.04, 0.07, 0.05]
    requires down == [-0.05, -0.06, -0.04, -0.07, -0.05]
    ensures AverageExcessReturn(up, 0.0) == 0.054
    ensures AverageExcessReturn(down, 0.0) == -0.054
  {
    var e := ExcessReturns(up, 0.0);
    var d := ExcessReturns(down, 0.0);
    assert e == up;
    assert d == down;
    assert Sum(up) == 0.27 by { SumOfFive(up); }
    assert Sum(down) == -0.27 by { SumOfFive(down); }
  }

  lemma SumOfFive(s: seq<real>)
    requires |s| == 5
    ensures Sum(s) == s[0] + s[1] + s[2] + s[3] + s[4]
  {
    assert s[..4][..3] == s[..3] && s[..3][..2] == s[..2] && s[..2][..1] == s[..1] && s[..1][..0] == [];
    assert Sum(s[..1]) == s[0];
    assert Sum(s[..2]) == s[0] + s[1];
    assert Sum(s[..3]) == s[0] + s[1] + s[2];
    assert Sum(s[..4]) == s[0] + s[1] + s[2] + s[3];
  }
}
