/** The record shapes the indicator engine reads and returns. */
module IndicatorTypes {

  /** One price bar. The engine reads only the four prices; it never checks the timestamps. */
  datatype HistoricalCandle = HistoricalCandle(
    timestamp: int,
    open: real,
    high: real,
    low: real,
    close: real,
    volumeSol: real,
    volumeToken: real)

  /** The price field a simple moving average is taken over. */
  datatype PriceField = Open | High | Low | Close

  function Price(c: HistoricalCandle, field: PriceField): real
  {
    match field
    case Open => c.open
    case High => c.high
    case Low => c.low
    case Close => c.close
  }

  /** The chosen field of every candle, in order. */
  function Prices(data: seq<HistoricalCandle>, field: PriceField): (r: seq<real>)
    ensures |r| == |data|
    ensures forall i :: 0 <= i < |data| ==> r[i] == Price(data[i], field)
  {
    if |data| == 0 then [] else Prices(data[..|data| - 1], field) + [Price(data[|data| - 1], field)]
  }

  /** `data.map(candle => candle.close)`. */
  function Closes(data: seq<HistoricalCandle>): (r: seq<real>)
    ensures |r| == |data|
    ensures forall i :: 0 <= i < |data| ==> r[i] == data[i].close
  {
    Prices(data, Close)
  }

  datatype MACDResult = MACDResult(macd: seq<real>, signal: seq<real>, histogram: seq<real>)

  datatype BollingerBandsResult = BollingerBandsResult(upper: seq<real>, middle: seq<real>, lower: seq<real>)
}
