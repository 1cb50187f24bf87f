/**
 * `TechnicalAnalysis.calculateMACD`: the difference of a fast and a slow EMA of the
 * closes, taken element by element in array order, the EMA of that line as the
 * signal, their difference as the histogram, and all three cut to one length.
 */
module Macd {
  import opened Numbers
  import opened IndicatorTypes
  import opened MovingAverages

  /** `fastEMA[i] - slowEMA[i]` for every index both arrays have. */
  function PairwiseDifference(a: seq<real>, b: seq<real>): (r: seq<real>)
    ensures |r| == MinNat(|a|, |b|)
    ensures forall i :: 0 <= i < |r| ==> r[i] == a[i] - b[i]
  {
    seq(MinNat(|a|, |b|), i requires 0 <= i < MinNat(|a|, |b|) => a[i] - b[i])
  }

  /** The MACD line loop of `calculateMACD`. */
  method MacdLine(fastEma: seq<real>, slowEma: seq<real>) returns (macd: seq<real>)
    ensures macd == PairwiseDifference(fastEma, slowEma)
  {
    macd := [];
    var maxLength := MinNat(|fastEma|, |slowEma|);
    for i := 0 to maxLength
      invariant |macd| == i
      invariant forall j :: 0 <= j < i ==> macd[j] == fastEma[j] - slowEma[j]
    {
      macd := macd + [fastEma[i] - slowEma[i]];
    }
  }

  /**
   * `macd.map((value, i) => i < signal.length ? value - signal[i] : NaN)`, with `None`
   * for the NaN placeholder.
   */
  function HistogramEntries(macd: seq<real>, signal: seq<real>): (r: seq<Option<real>>)
    ensures |r| == |macd|
    ensures forall i :: 0 <= i < |macd| ==>
      r[i] == if i < |signal| then Some(macd[i] - signal[i]) else None
  {
    seq(|macd|, i requires 0 <= i < |macd| => if i < |signal| then Some(macd[i] - signal[i]) else None)
  }

  /** `.filter(value => !isNaN(value))`: the numbers, in order, without the placeholders. */
  function KeepNumbers(s: seq<Option<real>>): seq<real>
    decreases |s|
  {
    if |s| == 0 then []
    else KeepNumbers(s[..|s| - 1]) + (match s[|s| - 1] case Some(v) => [v] case None => [])
  }

  lemma {:induction false} KeepNumbersAppend(s: seq<Option<real>>, t: seq<Option<real>>)
    ensures KeepNumbers(s + t) == KeepNumbers(s) + KeepNumbers(t)
    decreases |t|
  {
    if |t| == 0 {
      assert s + t == s;
    } else {
      var t' := t[..|t| - 1];
      assert (s + t)[..|s + t| - 1] == s + t';
      KeepNumbersAppend(s, t');
    }
  }

  lemma {:induction false} KeepNumbersOfNone(s: seq<Option<real>>)
    requires forall i :: 0 <= i < |s| ==> s[i] == None
    ensures KeepNumbers(s) == []
    decreases |s|
  {
    if |s| > 0 {
      KeepNumbersOfNone(s[..|s| - 1]);
    }
  }

  lemma {:induction false} KeepNumbersOfSome(s: seq<Option<real>>)
    requires forall i :: 0 <= i < |s| ==> s[i].Some?
    ensures |KeepNumbers(s)| == |s|
    ensures forall i :: 0 <= i < |s| ==> KeepNumbers(s)[i] == s[i].value
    decreases |s|
  {
    if |s| > 0 {
      KeepNumbersOfSome(s[..|s| - 1]);
    }
  }

  /** The histogram keeps exactly the entries that have a signal value. */
  lemma HistogramOf(macd: seq<real>, signal: seq<real>)
    requires |signal| <= |macd|
    ensures KeepNumbers(HistogramEntries(macd, signal)) == PairwiseDifference(macd, signal)
  {
    var e := HistogramEntries(macd, signal);
    var n := |signal|;
    assert e == e[..n] + e[n..];
    KeepNumbersAppend(e[..n], e[n..]);
    KeepNumbersOfSome(e[..n]);
    KeepNumbersOfNone(e[n..]);
  }

  /** The shortest input `calculateMACD` computes anything for. */
  function MinimumLength(fastPeriod: nat, slowPeriod: nat, signalPeriod: nat): nat
  {
    MaxNat(fastPeriod, slowPeriod) + signalPeriod
  }

  /** What `calculateMACD` returns for a close series. */
  function MacdOf(closes: seq<real>, fastPeriod: nat, slowPeriod: nat, signalPeriod: nat): MACDResult
    requires fastPeriod >= 1 && slowPeriod >= 1 && signalPeriod >= 1
  {
    if |closes| < MinimumLength(fastPeriod, slowPeriod, signalPeriod) then MACDResult([], [], [])
    else
      var line := PairwiseDifference(Ema(closes, fastPeriod), Ema(closes, slowPeriod));
      var signal := Ema(line, signalPeriod);
      var histogram := KeepNumbers(HistogramEntries(line, signal));
      var minLength := MinNat(|line|, |signal|);
      MACDResult(Take(line, minLength), Take(signal, minLength), Take(histogram, minLength))
  }

  /** `calculateMACD`, without its console logging. */
  method CalculateMacd(data: seq<HistoricalCandle>, fastPeriod: nat := 12, slowPeriod: nat := 26,
                       signalPeriod: nat := 9)
    returns (result: MACDResult)
    requires fastPeriod >= 1 && slowPeriod >= 1 && signalPeriod >= 1
    ensures result == MacdOf(Closes(data), fastPeriod, slowPeriod, signalPeriod)
  {
    if |data| < MaxNat(fastPeriod, slowPeriod) + signalPeriod {
      return MACDResult([], [], []);
    }
    var closes := Closes(data);
    var fastEma := CalculateEma(closes, fastPeriod);
    var slowEma := CalculateEma(closes, slowPeriod);
    var macd := MacdLine(fastEma, slowEma);
    var signal := CalculateEma(macd, signalPeriod);
    var histogram := KeepNumbers(HistogramEntries(macd, signal));
    var minLength := MinNat(|macd|, |signal|);
    result := MACDResult(Take(macd, minLength), Take(signal, minLength), Take(histogram, minLength));
  }

  /**
   * Too few closes give three empty series; otherwise the three series share the
   * length `|closes| - max(fast, slow) - signal + 2`, which is at least 2.
   */
  lemma MacdShape(closes: seq<real>, fastPeriod: nat, slowPeriod: nat, signalPeriod: nat)
    requires fastPeriod >= 1 && slowPeriod >= 1 && signalPeriod >= 1
    ensures |closes| < MinimumLength(fastPeriod, slowPeriod, signalPeriod) ==>
      MacdOf(closes, fastPeriod, slowPeriod, signalPeriod) == MACDResult([], [], [])
    ensures |closes| >= MinimumLength(fastPeriod, slowPeriod, signalPeriod) ==>
      var r := MacdOf(closes, fastPeriod, slowPeriod, signalPeriod);
      var n := |closes| - MaxNat(fastPeriod, slowPeriod) - signalPeriod + 2;
      n >= 2 && |r.macd| == n && |r.signal| == n && |r.histogram| == n
  {
    if |closes| >= MinimumLength(fastPeriod, slowPeriod, signalPeriod) {
      var line := PairwiseDifference(Ema(closes, fastPeriod), Ema(closes, slowPeriod));
      EmaShape(closes, fastPeriod);
      EmaShape(closes, slowPeriod);
      EmaShape(line, signalPeriod);
      HistogramOf(line, Ema(line, signalPeriod));
    }
  }

  /**
   * Element identities: the MACD line pairs the two EMAs by index, the signal is the
   * EMA of the whole line, and each histogram entry is the line minus the signal.
   */
  lemma MacdElements(closes: seq<real>, fastPeriod: nat, slowPeriod: nat, signalPeriod: nat)
    requires fastPeriod >= 1 && slowPeriod >= 1 && signalPeriod >= 1
    requires |closes| >= MinimumLength(fastPeriod, slowPeriod, signalPeriod)
    ensures var r := MacdOf(closes, fastPeriod, slowPeriod, signalPeriod);
      var fast, slow := Ema(closes, fastPeriod), Ema(closes, slowPeriod);
      |r.macd| <= |fast| && |r.macd| <= |slow| &&
      (forall i :: 0 <= i < |r.macd| ==> r.macd[i] == fast[i] - slow[i]) &&
      (forall i :: 0 <= i < |r.signal| ==> r.signal[i] == Ema(PairwiseDifference(fast, slow), signalPeriod)[i]) &&
      (forall i :: 0 <= i < |r.histogram| ==> r.histogram[i] == r.macd[i] - r.signal[i])
  {
    MacdShape(closes, fastPeriod, slowPeriod, signalPeriod);
    var line := PairwiseDifference(Ema(closes, fastPeriod), Ema(closes, slowPeriod));
    EmaShape(line, signalPeriod);
    HistogramOf(line, Ema(line, signalPeriod));
  }
}
