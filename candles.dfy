/** The candles served by the market-data provider, and the two facts the core derives
    from one candle: its display-zone bucket and its sentiment. */
module Candles {
  import opened Config
  import opened TimeBucketing

  /** One mid-price candle. `time` is its open time in UTC; `open` and `close` are the
      parsed mid prices; `complete` is false while the candle is still forming. */
  datatype Candle = Candle(time: DateTime, volume: int, complete: bool, open: real, close: real)

  datatype Sentiment = Bullish | Bearish | Neutral

  /** The bucket a candle falls into, taken in the display zone. */
  function CandleBucket(c: Candle): Label
  {
    GetTimeBucket(ToIst(c.time), BucketMinutes)
  }

  /** Bullish when the candle closed above its open, bearish below, neutral at equality. */
  function GetSentiment(c: Candle): (s: Sentiment)
    ensures s == Bullish <==> c.close > c.open
    ensures s == Bearish <==> c.close < c.open
    ensures s == Neutral <==> c.close == c.open
  {
    if c.close > c.open then Bullish
    else if c.close < c.open then Bearish
    else Neutral
  }
}
