/** Run-wide settings of the volume-spike checker, fixed for the lifetime of a run. */
module Config {
  /** Width of one baseline bucket, in minutes. */
  const BucketMinutes: int := 60

  /** Number of trading days whose candles form the baseline. */
  const TradingDaysForAverage: int := 21

  /** Hard cap on the calendar days the baseline walk goes back. */
  const MaxLookback: int := 60

  /** When set, Saturdays and Sundays are never fetched for the baseline. */
  const SkipWeekends: bool := true

  /** Factor applied to a bucket's average volume to form the spike threshold. */
  const ThresholdMultiplier: real := 0.1

  /** Offset of the display zone Asia/Kolkata from UTC: a fixed +05:30. */
  const IstOffsetMinutes: int := 330

  /** Display name to the data provider's instrument code. */
  const Instruments: map<string, string> :=
    map["XAUUSD" := "XAU_USD", "NAS100" := "NAS100_USD", "US30" := "US30_USD"]

  /** The instruments checked on every run, in this order. */
  const SelectedInstruments: seq<string> := ["XAUUSD", "NAS100", "US30"]
}
