/** Comparing recent candles with the baseline and emitting spike records. */
module SpikeDetector {
  import opened Config
  import opened TimeBucketing
  import opened Candles
  import opened BaselineEstimator

  /** One detected spike. `time` is the candle's open time in the display zone, from which
      the alert's time and date are rendered. */
  datatype SpikeRecord = SpikeRecord(
    instrument: string,
    time: DateTime,
    volume: int,
    spikeDiff: int,
    multiplier: real,
    sentiment: Sentiment,
    bucket: Label)

  /** The baseline of a bucket, 0 when it has no samples. */
  function AverageFor(baseline: map<Label, real>, b: Label): real
  {
    if b in baseline then baseline[b] else 0.0
  }

  /** `avg * multiplier if avg else 0`. */
  function Threshold(avg: real, multiplier: real): real
  {
    if avg != 0.0 then avg * multiplier else 0.0
  }

  function CandleThreshold(baseline: map<Label, real>, multiplier: real, c: Candle): real
  {
    Threshold(AverageFor(baseline, CandleBucket(c)), multiplier)
  }

  /** A complete candle whose volume is strictly above a positive threshold. */
  predicate IsSpike(baseline: map<Label, real>, multiplier: real, c: Candle)
  {
    c.complete
    && CandleThreshold(baseline, multiplier, c) > 0.0
    && c.volume as real > CandleThreshold(baseline, multiplier, c)
  }

  /** A candle spikes exactly when it is complete, its bucket has a baseline, and its volume
      exceeds the positive product of that baseline and the multiplier. */
  lemma IsSpikeIff(baseline: map<Label, real>, multiplier: real, c: Candle)
    ensures IsSpike(baseline, multiplier, c)
        <==> c.complete && CandleBucket(c) in baseline
             && baseline[CandleBucket(c)] * multiplier > 0.0
             && c.volume as real > baseline[CandleBucket(c)] * multiplier
  {
  }

  lemma RatioAboveOne(v: real, t: real)
    requires 0.0 < t < v
    ensures v / t > 1.0
    ensures (v / t) * t == v
  {
    var q := v / t;
    assert q * t == v;
  }

  /** The record for a spiking candle. */
  function MakeRecord(name: string, baseline: map<Label, real>, multiplier: real, c: Candle): (r: SpikeRecord)
    requires IsSpike(baseline, multiplier, c)
    ensures r.instrument == name && r.volume == c.volume
    ensures r.time == ToIst(c.time) && r.bucket == CandleBucket(c)
    ensures r.spikeDiff >= 1
    ensures r.spikeDiff == c.volume - CandleThreshold(baseline, multiplier, c).Floor
    ensures r.multiplier > 1.0
    ensures r.multiplier * CandleThreshold(baseline, multiplier, c) == c.volume as real
    ensures r.sentiment == Bullish <==> c.close > c.open
    ensures r.sentiment == Bearish <==> c.close < c.open
    ensures r.sentiment == Neutral <==> c.close == c.open
  {
    var t := ToIst(c.time);
    var th := CandleThreshold(baseline, multiplier, c);
    RatioAboveOne(c.volume as real, th);
    SpikeRecord(name, t, c.volume, c.volume - th.Floor, c.volume as real / th, GetSentiment(c), GetTimeBucket(t, BucketMinutes))
  }

  /** The records the detector emits for `cs`, in candle order. */
  function Spikes(name: string, baseline: map<Label, real>, multiplier: real, cs: seq<Candle>): seq<SpikeRecord>
  {
    if cs == [] then []
    else
      var c := cs[|cs| - 1];
      Spikes(name, baseline, multiplier, cs[..|cs| - 1])
        + (if IsSpike(baseline, multiplier, c) then [MakeRecord(name, baseline, multiplier, c)] else [])
  }

  /** Detection distributes over concatenation: records keep the order of their candles. */
  lemma {:induction false} SpikesAppend(name: string, baseline: map<Label, real>, multiplier: real, a: seq<Candle>, b: seq<Candle>)
    ensures Spikes(name, baseline, multiplier, a + b)
         == Spikes(name, baseline, multiplier, a) + Spikes(name, baseline, multiplier, b)
    decreases |b|
  {
    if b == [] {
      assert a + b == a;
    } else {
      var init := b[..|b| - 1];
      assert (a + b)[..|a + b| - 1] == a + init;
      assert (a + b)[|a + b| - 1] == b[|b| - 1];
      SpikesAppend(name, baseline, multiplier, a, init);
    }
  }

  /** A single candle yields one record when it spikes and none otherwise. */
  lemma SpikesOfOne(name: string, baseline: map<Label, real>, multiplier: real, c: Candle)
    ensures Spikes(name, baseline, multiplier, [c])
         == if IsSpike(baseline, multiplier, c) then [MakeRecord(name, baseline, multiplier, c)] else []
  {
    assert [c][..0] == [];
  }

  /** Every record comes from a spiking candle of the input, and every spiking candle of
      the input has its record in the output. */
  lemma {:induction false} SpikesMembers(name: string, baseline: map<Label, real>, multiplier: real, cs: seq<Candle>)
    ensures forall r :: r in Spikes(name, baseline, multiplier, cs) ==>
      exists c :: c in cs && IsSpike(baseline, multiplier, c) && r == MakeRecord(name, baseline, multiplier, c)
    ensures forall c :: c in cs && IsSpike(baseline, multiplier, c) ==>
      MakeRecord(name, baseline, multiplier, c) in Spikes(name, baseline, multiplier, cs)
  {
    if cs != [] {
      var init, last := cs[..|cs| - 1], cs[|cs| - 1];
      SpikesMembers(name, baseline, multiplier, init);
      assert cs == init + [last];
      forall c | c in cs
        ensures c in init || c == last
      {
      }
    }
  }

  /** Every emitted record exceeds its threshold: a positive excess and a ratio above 1. */
  lemma SpikesExceed(name: string, baseline: map<Label, real>, multiplier: real, cs: seq<Candle>)
    ensures forall r :: r in Spikes(name, baseline, multiplier, cs) ==>
      r.instrument == name && r.spikeDiff >= 1 && r.multiplier > 1.0
  {
    SpikesMembers(name, baseline, multiplier, cs);
  }

  /** The complete candles of `cs`, in order. */
  function CompleteOnly(cs: seq<Candle>): (r: seq<Candle>)
    ensures forall c :: c in r <==> c in cs && c.complete
  {
    if cs == [] then []
    else CompleteOnly(cs[..|cs| - 1]) + (if cs[|cs| - 1].complete then [cs[|cs| - 1]] else [])
  }

  /** Candles that are still forming change nothing: detection over the complete candles
      alone gives the same records. */
  lemma {:induction false} IncompleteIgnored(name: string, baseline: map<Label, real>, multiplier: real, cs: seq<Candle>)
    ensures Spikes(name, baseline, multiplier, CompleteOnly(cs)) == Spikes(name, baseline, multiplier, cs)
  {
    if cs != [] {
      var init, last := cs[..|cs| - 1], cs[|cs| - 1];
      IncompleteIgnored(name, baseline, multiplier, init);
      if last.complete {
        SpikesAppend(name, baseline, multiplier, CompleteOnly(init), [last]);
        SpikesOfOne(name, baseline, multiplier, last);
      } else {
        assert CompleteOnly(cs) == CompleteOnly(init);
      }
    }
  }

  /** Candles whose buckets have no baseline never spike, whatever their volume. */
  lemma {:induction false} NoBaselineNoSpikes(name: string, baseline: map<Label, real>, multiplier: real, cs: seq<Candle>)
    requires forall i :: 0 <= i < |cs| ==> CandleBucket(cs[i]) !in baseline
    ensures Spikes(name, baseline, multiplier, cs) == []
  {
    if cs != [] {
      NoBaselineNoSpikes(name, baseline, multiplier, cs[..|cs| - 1]);
    }
  }

  /** A baseline of 1000 in the 09:00–10:00 bucket with multiplier 2.0 gives threshold 2000:
      a candle of volume 2500 there yields one record with ratio 1.25 and excess 500,
      a candle of volume 1800 yields none. */
  lemma ThresholdScenario(date: int)
    ensures var bucket := Label(540, 600);
      var baseline := map[bucket := 1000.0];
      var spike := Candle(DateTime(date, 4, 0, 0, 0), 2500, true, 1.0, 2.0);
      var quiet := Candle(DateTime(date, 4, 0, 0, 0), 1800, true, 1.0, 2.0);
      && Spikes("XAUUSD", baseline, 2.0, [spike])
         == [SpikeRecord("XAUUSD", DateTime(date, 9, 30, 0, 0), 2500, 500, 1.25, Bullish, bucket)]
      && Spikes("XAUUSD", baseline, 2.0, [quiet]) == []
  {
    var bucket := Label(540, 600);
    var baseline := map[bucket := 1000.0];
    var spike := Candle(DateTime(date, 4, 0, 0, 0), 2500, true, 1.0, 2.0);
    var quiet := Candle(DateTime(date, 4, 0, 0, 0), 1800, true, 1.0, 2.0);
    assert ToIst(spike.time) == DateTime(date, 9, 30, 0, 0);
    assert CandleBucket(spike) == bucket;
    assert CandleThreshold(baseline, 2.0, spike) == 2000.0;
    assert (2000.0).Floor == 2000;
    SpikesOfOne("XAUUSD", baseline, 2.0, spike);
    SpikesOfOne("XAUUSD", baseline, 2.0, quiet);
  }

  /** The source's `check_recent_spikes`: the baseline for `today` from `history`, then
      one pass over the `recent` candles of the trailing window. */
  method CheckRecentSpikes(name: string, today: int, history: int -> seq<Candle>, recent: seq<Candle>)
    returns (spikeAlerts: seq<SpikeRecord>)
    ensures spikeAlerts == Spikes(name, BucketAverages(today, history), ThresholdMultiplier, recent)
  {
    var bucketAvg := ComputeBucketAverages(today, history);
    var candles := recent;
    if |candles| == 0 {
      return [];
    }
    spikeAlerts := [];
    for i := 0 to |candles|
      invariant spikeAlerts == Spikes(name, bucketAvg, ThresholdMultiplier, candles[..i])
    {
      assert candles[..i + 1][..i] == candles[..i];
      var c := candles[i];
      if !c.complete {
        continue;
      }
      var tIst := ToIst(c.time);
      var bucket := GetTimeBucket(tIst, BucketMinutes);
      var vol := c.volume;
      var avg := if bucket in bucketAvg then bucketAvg[bucket] else 0.0;
      var threshold := if avg != 0.0 then avg * ThresholdMultiplier else 0.0;
      assert bucket == CandleBucket(c) && threshold == CandleThreshold(bucketAvg, ThresholdMultiplier, c);
      if threshold > 0.0 && vol as real > threshold {
        var spikeDiff := vol - threshold.Floor;
        var sentiment := GetSentiment(c);
        var mult := vol as real / threshold;
        assert SpikeRecord(name, tIst, vol, spikeDiff, mult, sentiment, bucket)
            == MakeRecord(name, bucketAvg, ThresholdMultiplier, c);
        spikeAlerts := spikeAlerts + [SpikeRecord(name, tIst, vol, spikeDiff, mult, sentiment, bucket)];
      } else {
        assert !IsSpike(bucketAvg, ThresholdMultiplier, c);
      }
    }
    assert candles[..|candles|] == candles;
  }
}
