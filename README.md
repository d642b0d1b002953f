# Volume-spike alerts: a verified model of the baseline and spike detector

This project models the core of a volume-spike alerting script for a few FX/CFD
instruments (XAUUSD, NAS100, US30). Each intraday candle falls into a
one-hour bucket of the Asia/Kolkata (IST) time of day. The baseline is
the mean volume of each bucket over the last 21 trading days. The walk
back over past days skips weekends, counts a day only when the provider
returned candles for it, and gives up after 59 calendar days. A recent
candle is a spike when its volume is strictly above `baseline × multiplier`
and that threshold is positive. The run collects the spike records of
every configured instrument in order.

Modules, one per component:

- `Config` (config.dfy): the run's constants: bucket width 60, 21 trading days, the 60-day cap,
  weekend skipping, multiplier 0.1, the +05:30 offset, and the instrument table.
- `TimeBucketing` (time_bucketing.dfy): date-times, UTC → IST, weekdays, bucket labels.
- `Candles` (candles.dfy): the candle record, its bucket and its sentiment.
- `Stats` (stats.dfy): sum, min, max and exact mean of volume samples.
- `BaselineEstimator` (baseline_estimator.dfy): the backward walk as a specification
  function (`Walk`, one `Step` per iteration), the imperative `ComputeBucketAverages` proved
  equal to it, and lemmas on what the walk reads, counts and averages.
- `SpikeDetector` (spike_detector.dfy): thresholds, records, the specification `Spikes`, and
  the imperative `CheckRecentSpikes` proved equal to it.
- `Orchestrator` (orchestrator.dfy): the per-instrument loop of a run.

Modelling choices:

- Dates are proleptic Gregorian ordinals, the same numbering as Python's `date.toordinal`;
  `Weekday` is Python's `date.weekday()`.
- A bucket label is the pair (start, end) of times of day, in minutes after midnight. The
  source's text "hh:mm AM–hh:mm PM" is a one-to-one rendering of that pair.
- The baseline's provider is a parameter `fetch` that gives a day's candles from its IST
  date. The detector's input is the sequence of recent candles. In the orchestrator
  both are functions of the instrument code.
- Averages, thresholds and ratios are exact `real`s. `int(threshold)` is `.Floor`, because
  the threshold is positive wherever it is used.
- The UTC/IST offset is fixed at +330 minutes, since Asia/Kolkata has kept a fixed
  +05:30 since 1945.

## Model

| member | source | states |
|---|---|---|
| `TimeBucketing.ToIst` | volume_alert.py:125 | the IST time is the same instant as the UTC time plus 5 h 30 min; seconds and microseconds are kept |
| `TimeBucketing.GetTimeBucket` | volume_alert.py:78-82 | the bucket starts in the input's hour, a multiple of W minutes after the hour, at or before the input; the input lies before start + W; end is start + W minutes wrapped to a time of day |
| `TimeBucketing.SameBucketIff` | volume_alert.py:78-82 | two times get the same label if and only if they have the same hour and the same minute // W, whatever their dates, seconds and microseconds |
| `TimeBucketing.Weekday` | volume_alert.py:84-85 | the weekday number lies in 0..6 |
| `TimeBucketing.WeekdayNumbering` | volume_alert.py:84-85 | ordinal 1 (0001-01-01, a Monday) and 2024-01-01 have weekday 0; going back `Weekday(d)` days from any date reaches a Monday (an ordinal one above a multiple of 7), so Monday is 0 and Sunday 6; 2024-01-05 is not a weekend, 2024-01-06 and 2024-01-07 are |
| `TimeBucketing.WeekdayBefore` | volume_alert.py:84-85 | the weekday of the previous day is one less, wrapping from Monday (0) to Sunday (6) |
| `TimeBucketing.WeekendOrdinals` | volume_alert.py:84-85 | `IsWeekend`, the model of `is_weekend`, holds iff the ordinal is 6 above a multiple of 7 (a Saturday) or a multiple of 7 (a Sunday) |
| `TimeBucketing.FiveWeekdaysInSeven` | volume_alert.py:84-85 | any seven consecutive dates hold exactly five non-weekend days |
| `Candles.GetSentiment` | volume_alert.py:87-90 | bullish iff close > open, bearish iff close < open, neutral iff they are equal |
| `Stats.Mean` | volume_alert.py:131 | sum / len of a non-empty sample list lies between its minimum and its maximum |
| `BaselineEstimator.AddCandlesSpec` | volume_alert.py:118-127 | folding a day's candles appends to each bucket exactly the volumes of that day's complete candles in it, in order; a bucket is created only for such a volume |
| `BaselineEstimator.StepAdvances` | volume_alert.py:101-129 | every iteration adds exactly 1 to days_back, skipped weekends included; the collected count grows by 1 exactly when the day was fetched and the fetch was non-empty, and otherwise stays |
| `BaselineEstimator.StepSamples` | volume_alert.py:104-127 | one iteration appends to a bucket exactly the samples of the day it visits: none for a weekend or an empty fetch |
| `BaselineEstimator.Walk` | volume_alert.py:101-129 | the loop terminates (decreasing 60 − days_back), in a state where the loop guard is false, never going back to a smaller days_back |
| `BaselineEstimator.WalkCounters` | volume_alert.py:97-129 | from a reachable state the walk stops with days_back ≤ 60 and collected ≤ 21, with collected = 21 or days_back = 60, and collected equal to the number of fetched non-empty days it passed |
| `BaselineEstimator.WalkSamples` | volume_alert.py:101-127 | each bucket's list at the end is its initial list followed by the samples of every scanned day, in scan order |
| `BaselineEstimator.WalkKeys` | volume_alert.py:101-127 | a bucket exists at the end iff it existed before or a scanned day gave it a sample |
| `BaselineEstimator.Averages` | volume_alert.py:131 | the baseline keeps exactly the buckets with at least one sample, each valued between its smallest and largest sample |
| `BaselineEstimator.BaselineSpec` | volume_alert.py:92-131 | from yesterday the walk stops within 1..60 days back, collects at most 21 days, namely the fetched non-empty ones; a bucket is in the baseline iff the scanned days gave it a sample, and its value is the mean of exactly those samples |
| `BaselineEstimator.WalkReadsOnlyScannedDays` | volume_alert.py:101-114 | a walk reads the provider only for weekdays 1 to 59 days before today |
| `BaselineEstimator.BaselineReadsOnlyPastWeekdays` | volume_alert.py:94-114 | providers that agree on the weekdays from 59 days back to yesterday give the same baseline: today's session and weekends never contribute |
| `BaselineEstimator.WalkOverNoData` | volume_alert.py:101-129 | with a provider that never returns candles, a walk changes neither samples nor the collected count, and runs to the 60-day cap |
| `BaselineEstimator.NoDataEmptyBaseline` | volume_alert.py:97-131 | a provider that returns nothing for every day still lets the walk end at the cap, with no day collected and an empty baseline |
| `BaselineEstimator.FiveDaysAWeek` | volume_alert.py:104-117 | with data on every weekday, any seven consecutive scanned days contribute five collected days |
| `BaselineEstimator.FullDataReachesQuota` | volume_alert.py:97-117 | with data on every weekday the walk collects the full 21 days and stops before the 60-day cap |
| `BaselineEstimator.ComputeBucketAverages` | volume_alert.py:92-131 | the imperative walk, with its nested candle loop and the final comprehension, returns exactly the baseline of the walk specification |
| `SpikeDetector.IsSpikeIff` | volume_alert.py:158-163 | a candle spikes iff it is complete, its bucket is in the baseline, and its volume is strictly above the positive value baseline × multiplier |
| `SpikeDetector.MakeRecord` | volume_alert.py:164-177 | a record carries the candle's instrument, IST time, volume and bucket; spike_diff = volume − floor(threshold) ≥ 1; multiplier × threshold = volume, with multiplier > 1; sentiment as in GetSentiment |
| `SpikeDetector.SpikesAppend` | volume_alert.py:147-177 | detection over a + b is detection over a followed by detection over b, so records keep the order of their candles |
| `SpikeDetector.SpikesOfOne` | volume_alert.py:147-177 | one candle yields exactly its record when it spikes and nothing otherwise |
| `SpikeDetector.SpikesMembers` | volume_alert.py:147-177 | every record is the record of a spiking input candle, and every spiking input candle has its record in the output |
| `SpikeDetector.SpikesExceed` | volume_alert.py:163-177 | every emitted record names the instrument and has spike_diff ≥ 1 and multiplier > 1 |
| `SpikeDetector.IncompleteIgnored` | volume_alert.py:148-149 | dropping the incomplete candles first gives the same records |
| `SpikeDetector.NoBaselineNoSpikes` | volume_alert.py:158-163 | candles whose buckets are missing from the baseline yield no record, whatever their volume |
| `SpikeDetector.ThresholdScenario` | volume_alert.py:158-177 | baseline 1000 with multiplier 2.0: volume 2500 gives one record with ratio 1.25 and excess 500; volume 1800 gives none |
| `SpikeDetector.CheckRecentSpikes` | volume_alert.py:134-179 | the imperative loop, with its early return on no candles, returns exactly the spec's records for the recent candles against the baseline for today |
| `Orchestrator.RunSpikesFromInstruments` | volume_alert.py:186-191 | every record of a run names one of the checked instruments and exceeds its threshold |
| `Orchestrator.RunSpikesAppend` | volume_alert.py:186-191 | the run-wide list over a + b is the list over a followed by the list over b: instruments extend it in list order |
| `Orchestrator.RunVolumeCheck` | volume_alert.py:182-191 | the loop over SELECTED_INSTRUMENTS returns the concatenation of each instrument's spikes in that order |

## Left out

- Network I/O: `fetch_candles` (volume_alert.py:54-75) and `send_telegram_alert`
  (volume_alert.py:36-51). The provider is a parameter. A transport error or a non-200
  status is the provider returning an empty list.
- Clipping windows to the current time (volume_alert.py:56-57, 112) is not modelled.
  The baseline only asks for days up to yesterday, whose windows end no later than
  today's IST midnight, so the clip has no effect there. The detector's window is
  replaced by its candles.
- The 45-minute detection window (volume_alert.py:138-139): the recent candles are an input.
- `datetime.now`: it becomes the `today` parameter (an IST date ordinal) and the recent
  candles. The source reads the clock again for every instrument (volume_alert.py:94-95,
  136), so a run that crosses IST midnight uses two dates there; `RunVolumeCheck` passes
  one `today` to every instrument.
- Environment variables and credentials (volume_alert.py:8-14, 31): the remaining
  settings are constants in `Config`.
- Timestamp parsing with `strptime` (volume_alert.py:121-124, 150-153): a candle's UTC time
  is given as a `DateTime`. In the code, a timestamp that fits neither format raises
  `ValueError` and ends the run; the intended behaviour, skipping only that candle, is not
  what the code does. The model has no unparsable candles, so it captures neither.
- An absent `complete` field counts as complete (`c.get("complete", True)`). The model's
  candle always carries the field.
- Prices parsed with `float()` and every float operation are exact reals. IEEE rounding is
  not modelled.
- Rendering: the 12-hour `strftime` texts of buckets, times and dates, the
  Telegram message (volume_alert.py:195-210) and all `print` logging. A record keeps
  the IST `DateTime` that its texts come from. The alert is sent only when the run's
  list is non-empty; that step is not modelled.
