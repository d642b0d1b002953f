/** The per-bucket volume baseline: a walk back over past display-zone days that gathers
    the volumes of complete candles per bucket and then averages every bucket. */
module BaselineEstimator {
  import opened Config
  import opened TimeBucketing
  import opened Candles
  import opened Stats

  /** Volume samples gathered so far, per bucket (the source's dict of lists). */
  type Samples = map<Label, seq<int>>

  /** The samples of bucket `b`, or none when the bucket has not been seen. */
  function Lookup(s: Samples, b: Label): seq<int>
  {
    if b in s then s[b] else []
  }

  /** Appends the volume of one candle to its bucket, unless it is still forming. */
  function AddCandle(s: Samples, c: Candle): Samples
  {
    if !c.complete then s
    else
      var b := CandleBucket(c);
      s[b := Lookup(s, b) + [c.volume]]
  }

  /** The effect of the inner loop over one day's candles, in order. */
  function AddCandles(s: Samples, cs: seq<Candle>): Samples
  {
    if cs == [] then s else AddCandle(AddCandles(s, cs[..|cs| - 1]), cs[|cs| - 1])
  }

  /** Reference definition: the volumes of the complete candles of `cs` that lie in
      bucket `b`, in candle order. */
  function VolumesIn(cs: seq<Candle>, b: Label): seq<int>
  {
    if cs == [] then []
    else
      var c := cs[|cs| - 1];
      VolumesIn(cs[..|cs| - 1], b) + (if c.complete && CandleBucket(c) == b then [c.volume] else [])
  }

  /** Folding a day's candles into the samples appends, to every bucket, exactly the volumes
      of that day's complete candles in the bucket, and creates a bucket only for them. */
  lemma {:induction false} AddCandlesSpec(s: Samples, cs: seq<Candle>, b: Label)
    ensures Lookup(AddCandles(s, cs), b) == Lookup(s, b) + VolumesIn(cs, b)
    ensures b in AddCandles(s, cs) <==> b in s || |VolumesIn(cs, b)| > 0
  {
    if cs != [] {
      var init, c := cs[..|cs| - 1], cs[|cs| - 1];
      AddCandlesSpec(s, init, b);
    }
  }

  /** The state of the walk: the source's `days_back`, `trading_days_collected`
      and `bucket_volumes`. */
  datatype WalkState = WalkState(daysBack: int, collected: int, samples: Samples)

  /** The walk starts at yesterday, with nothing collected. */
  const Start: WalkState := WalkState(1, 0, map[])

  /** The day `daysBack` days before `today` is a weekend the walk does not fetch. */
  predicate Skipped(today: int, daysBack: int)
  {
    SkipWeekends && IsWeekend(today - daysBack)
  }

  /** The loop guard. */
  predicate Running(st: WalkState)
  {
    st.collected < TradingDaysForAverage && st.daysBack < MaxLookback
  }

  /** One iteration of the walk. `fetch` gives the provider's candles for a display-zone date. */
  function Step(today: int, fetch: int -> seq<Candle>, st: WalkState): (r: WalkState)
  {
    if Skipped(today, st.daysBack) then st.(daysBack := st.daysBack + 1)
    else
      var cs := fetch(today - st.daysBack);
      if |cs| > 0 then WalkState(st.daysBack + 1, st.collected + 1, AddCandles(st.samples, cs))
      else st.(daysBack := st.daysBack + 1)
  }

  /** Every iteration moves one calendar day further back, skipped weekends included, and
      counts the day exactly when it was fetched and the provider returned candles for it. */
  lemma StepAdvances(today: int, fetch: int -> seq<Candle>, st: WalkState)
    ensures Step(today, fetch, st).daysBack == st.daysBack + 1
    ensures Step(today, fetch, st).collected == st.collected + 1
        <==> !Skipped(today, st.daysBack) && |fetch(today - st.daysBack)| > 0
    ensures Step(today, fetch, st).collected == st.collected
        <==> Skipped(today, st.daysBack) || |fetch(today - st.daysBack)| == 0
  {
  }

  /** The walk from `st` until the loop guard fails. */
  function Walk(today: int, fetch: int -> seq<Candle>, st: WalkState): (r: WalkState)
    ensures !Running(r)
    ensures r.daysBack >= st.daysBack
    decreases MaxLookback - st.daysBack
  {
    if Running(st) then Walk(today, fetch, Step(today, fetch, st)) else st
  }

  /** Reference count: the days `d` in [lo, hi) back from `today` that are fetched
      and for which the provider returned at least one candle. */
  function CollectedDays(today: int, fetch: int -> seq<Candle>, lo: int, hi: int): (n: nat)
    ensures n <= if lo <= hi then hi - lo else 0
    decreases hi - lo
  {
    if lo >= hi then 0
    else
      var here := if !Skipped(today, lo) && |fetch(today - lo)| > 0 then 1 else 0;
      here + CollectedDays(today, fetch, lo + 1, hi)
  }

  /** The samples one day contributes to bucket `b`. */
  function DayVolumes(today: int, fetch: int -> seq<Candle>, d: int, b: Label): seq<int>
  {
    if Skipped(today, d) then [] else VolumesIn(fetch(today - d), b)
  }

  /** Reference definition: the samples of bucket `b` from the days [lo, hi) back, oldest last. */
  function History(today: int, fetch: int -> seq<Candle>, lo: int, hi: int, b: Label): seq<int>
    decreases hi - lo
  {
    if lo >= hi then [] else DayVolumes(today, fetch, lo, b) + History(today, fetch, lo + 1, hi, b)
  }

  /** One iteration appends to bucket `b` exactly the samples of the day it visits. */
  lemma StepSamples(today: int, fetch: int -> seq<Candle>, st: WalkState, b: Label)
    ensures Lookup(Step(today, fetch, st).samples, b)
         == Lookup(st.samples, b) + DayVolumes(today, fetch, st.daysBack, b)
    ensures b in Step(today, fetch, st).samples
        <==> b in st.samples || |DayVolumes(today, fetch, st.daysBack, b)| > 0
  {
    if !Skipped(today, st.daysBack) {
      var cs := fetch(today - st.daysBack);
      if |cs| > 0 {
        AddCandlesSpec(st.samples, cs, b);
      } else {
        assert cs == [];
      }
    }
  }

  /** A walk from a reachable state stops inside the caps, having counted exactly the
      fetched non-empty days it passed. */
  lemma {:induction false} WalkCounters(today: int, fetch: int -> seq<Candle>, st: WalkState)
    requires 1 <= st.daysBack <= MaxLookback && 0 <= st.collected <= TradingDaysForAverage
    ensures var r := Walk(today, fetch, st);
      && st.daysBack <= r.daysBack <= MaxLookback
      && 0 <= r.collected <= TradingDaysForAverage
      && (r.collected == TradingDaysForAverage || r.daysBack == MaxLookback)
      && r.collected == st.collected + CollectedDays(today, fetch, st.daysBack, r.daysBack)
    decreases MaxLookback - st.daysBack
  {
    if Running(st) {
      WalkCounters(today, fetch, Step(today, fetch, st));
    }
  }

  /** A walk appends to every bucket exactly the samples of the days it scans. */
  lemma {:induction false} WalkSamples(today: int, fetch: int -> seq<Candle>, st: WalkState, b: Label)
    ensures Lookup(Walk(today, fetch, st).samples, b)
         == Lookup(st.samples, b) + History(today, fetch, st.daysBack, Walk(today, fetch, st).daysBack, b)
    decreases MaxLookback - st.daysBack
  {
    if Running(st) {
      var st' := Step(today, fetch, st);
      StepAdvances(today, fetch, st);
      var r := Walk(today, fetch, st');
      assert Walk(today, fetch, st) == r;
      StepSamples(today, fetch, st, b);
      WalkSamples(today, fetch, st', b);
      var day, rest := DayVolumes(today, fetch, st.daysBack, b), History(today, fetch, st'.daysBack, r.daysBack, b);
      assert History(today, fetch, st.daysBack, r.daysBack, b) == day + rest;
      assert Lookup(r.samples, b) == (Lookup(st.samples, b) + day) + rest;
    }
  }

  /** A walk creates a bucket only when one of the days it scans has a sample for it. */
  lemma {:induction false} WalkKeys(today: int, fetch: int -> seq<Candle>, st: WalkState, b: Label)
    ensures b in Walk(today, fetch, st).samples
        <==> b in st.samples || |History(today, fetch, st.daysBack, Walk(today, fetch, st).daysBack, b)| > 0
    decreases MaxLookback - st.daysBack
  {
    if Running(st) {
      var st' := Step(today, fetch, st);
      StepAdvances(today, fetch, st);
      var r := Walk(today, fetch, st');
      assert Walk(today, fetch, st) == r;
      StepSamples(today, fetch, st, b);
      WalkKeys(today, fetch, st', b);
      var day, rest := DayVolumes(today, fetch, st.daysBack, b), History(today, fetch, st'.daysBack, r.daysBack, b);
      assert History(today, fetch, st.daysBack, r.daysBack, b) == day + rest;
    }
  }

  /** The source's closing dict comprehension: the mean of every bucket with samples. */
  function Averages(s: Samples): (r: map<Label, real>)
    ensures forall b :: b in r <==> b in s && |s[b]| > 0
    ensures forall b :: b in r ==> Min(s[b]) as real <= r[b] <= Max(s[b]) as real
  {
    map b | b in s && |s[b]| > 0 :: Mean(s[b])
  }

  /** The baseline used for detection on display-zone date `today`. */
  function BucketAverages(today: int, fetch: int -> seq<Candle>): map<Label, real>
  {
    Averages(Walk(today, fetch, Start).samples)
  }

  /** The day count at which the walk from yesterday stops. */
  function StopDay(today: int, fetch: int -> seq<Candle>): int
  {
    Walk(today, fetch, Start).daysBack
  }

  /** The baseline has a bucket exactly when some scanned, fetched day had a complete candle
      in it, and its value is the mean of all those samples. The walk scans the days
      1 to StopDay - 1 back, stops within the caps, and collects at most 21 days. */
  lemma BaselineSpec(today: int, fetch: int -> seq<Candle>)
    ensures var r := Walk(today, fetch, Start);
      && 1 <= r.daysBack <= MaxLookback
      && r.collected == CollectedDays(today, fetch, 1, r.daysBack) <= TradingDaysForAverage
      && (r.collected == TradingDaysForAverage || r.daysBack == MaxLookback)
    ensures forall b ::
      (b in BucketAverages(today, fetch) <==> |History(today, fetch, 1, StopDay(today, fetch), b)| > 0)
      && (b in BucketAverages(today, fetch) ==>
            BucketAverages(today, fetch)[b] == Mean(History(today, fetch, 1, StopDay(today, fetch), b)))
  {
    WalkCounters(today, fetch, Start);
    var r := Walk(today, fetch, Start);
    forall b ensures b in r.samples <==> |History(today, fetch, 1, r.daysBack, b)| > 0
      ensures b in r.samples ==> r.samples[b] == History(today, fetch, 1, r.daysBack, b)
    {
      WalkSamples(today, fetch, Start, b);
      WalkKeys(today, fetch, Start, b);
    }
  }

  /** The walk only ever reads the provider for the weekdays 1 to 59 days before `today`:
      today itself, weekends and older days are never fetched. */
  lemma {:induction false} WalkReadsOnlyScannedDays(today: int, f1: int -> seq<Candle>, f2: int -> seq<Candle>, st: WalkState)
    requires 1 <= st.daysBack
    requires forall day :: today - MaxLookback < day < today && !(SkipWeekends && IsWeekend(day)) ==> f1(day) == f2(day)
    ensures Walk(today, f1, st) == Walk(today, f2, st)
    decreases MaxLookback - st.daysBack
  {
    if Running(st) {
      assert Step(today, f1, st) == Step(today, f2, st);
      WalkReadsOnlyScannedDays(today, f1, f2, Step(today, f1, st));
    }
  }

  /** Two providers that agree on the weekdays of the 59 days before `today` yield the same
      baseline: the in-progress session of `today` never contributes to it. */
  lemma BaselineReadsOnlyPastWeekdays(today: int, f1: int -> seq<Candle>, f2: int -> seq<Candle>)
    requires forall day :: today - MaxLookback < day < today && !(SkipWeekends && IsWeekend(day)) ==> f1(day) == f2(day)
    ensures BucketAverages(today, f1) == BucketAverages(today, f2)
  {
    WalkReadsOnlyScannedDays(today, f1, f2, Start);
  }

  /** With a provider that never returns candles, a walk only advances its day count. */
  lemma {:induction false} WalkOverNoData(today: int, fetch: int -> seq<Candle>, st: WalkState)
    requires forall day :: fetch(day) == []
    requires st.daysBack <= MaxLookback
    ensures Walk(today, fetch, st).samples == st.samples
    ensures Walk(today, fetch, st).collected == st.collected
    ensures st.collected < TradingDaysForAverage ==> Walk(today, fetch, st).daysBack == MaxLookback
    decreases MaxLookback - st.daysBack
  {
    if Running(st) {
      WalkOverNoData(today, fetch, Step(today, fetch, st));
    }
  }

  /** A provider outage on every day still ends the walk, at the 60-day cap, with an empty
      baseline and no day collected. */
  lemma NoDataEmptyBaseline(today: int, fetch: int -> seq<Candle>)
    requires forall day :: fetch(day) == []
    ensures BucketAverages(today, fetch) == map[]
    ensures StopDay(today, fetch) == MaxLookback
    ensures Walk(today, fetch, Start).collected == 0
  {
    WalkOverNoData(today, fetch, Start);
  }

  lemma {:induction false} CollectedDaysSplit(today: int, fetch: int -> seq<Candle>, lo: int, mid: int, hi: int)
    requires lo <= mid <= hi
    ensures CollectedDays(today, fetch, lo, hi) == CollectedDays(today, fetch, lo, mid) + CollectedDays(today, fetch, mid, hi)
    decreases mid - lo
  {
    if lo < mid {
      CollectedDaysSplit(today, fetch, lo + 1, mid, hi);
    }
  }

  /** Under a provider with data on every weekday, a day counts iff it is a weekday. */
  lemma CollectedFirstDay(today: int, fetch: int -> seq<Candle>, lo: int, hi: int)
    requires forall day :: !IsWeekend(day) ==> |fetch(day)| > 0
    requires lo < hi
    ensures CollectedDays(today, fetch, lo, hi) == WeekdayCount(today - lo) + CollectedDays(today, fetch, lo + 1, hi)
  {
  }

  /** A provider with data on every weekday gives five collected days per week. */
  lemma FiveDaysAWeek(today: int, fetch: int -> seq<Candle>, lo: int)
    requires forall day :: !IsWeekend(day) ==> |fetch(day)| > 0
    ensures CollectedDays(today, fetch, lo, lo + 7) == 5
  {
    var d := today - lo;
    FiveWeekdaysInSeven(d);
    CollectedFirstDay(today, fetch, lo, lo + 7);
    CollectedFirstDay(today, fetch, lo + 1, lo + 7);
    CollectedFirstDay(today, fetch, lo + 2, lo + 7);
    CollectedFirstDay(today, fetch, lo + 3, lo + 7);
    CollectedFirstDay(today, fetch, lo + 4, lo + 7);
    CollectedFirstDay(today, fetch, lo + 5, lo + 7);
    CollectedFirstDay(today, fetch, lo + 6, lo + 7);
    assert CollectedDays(today, fetch, lo + 7, lo + 7) == 0;
    assert today - (lo + 1) == d - 1 && today - (lo + 2) == d - 2 && today - (lo + 3) == d - 3;
    assert today - (lo + 4) == d - 4 && today - (lo + 5) == d - 5 && today - (lo + 6) == d - 6;
  }

  lemma {:induction false} FullWeeks(today: int, fetch: int -> seq<Candle>, lo: int, weeks: nat)
    requires forall day :: !IsWeekend(day) ==> |fetch(day)| > 0
    ensures CollectedDays(today, fetch, lo, lo + 7 * weeks) == 5 * weeks
  {
    if weeks > 0 {
      FullWeeks(today, fetch, lo, weeks - 1);
      FiveDaysAWeek(today, fetch, lo + 7 * (weeks - 1));
      CollectedDaysSplit(today, fetch, lo, lo + 7 * (weeks - 1), lo + 7 * weeks);
    }
  }

  /** When the provider has data for every weekday, the walk gathers the full 21 trading
      days and stops before the 60-day cap: 59 calendar days always hold enough weekdays. */
  lemma FullDataReachesQuota(today: int, fetch: int -> seq<Candle>)
    requires forall day :: !IsWeekend(day) ==> |fetch(day)| > 0
    ensures Walk(today, fetch, Start).collected == TradingDaysForAverage
    ensures StopDay(today, fetch) < MaxLookback
  {
    WalkCounters(today, fetch, Start);
    var n := StopDay(today, fetch);
    FullWeeks(today, fetch, 1, 8);
    if n >= 57 {
      CollectedDaysSplit(today, fetch, 1, 57, n);
      assert false;
    }
  }

  /** The source's `compute_bucket_averages`. */
  method ComputeBucketAverages(today: int, fetch: int -> seq<Candle>) returns (averages: map<Label, real>)
    ensures averages == BucketAverages(today, fetch)
  {
    var bucketVolumes: Samples := map[];
    var tradingDaysCollected := 0;
    var daysBack := 1;
    while tradingDaysCollected < TradingDaysForAverage && daysBack < MaxLookback
      invariant 1 <= daysBack <= MaxLookback
      invariant Walk(today, fetch, WalkState(daysBack, tradingDaysCollected, bucketVolumes))
             == Walk(today, fetch, Start)
      decreases MaxLookback - daysBack
    {
      ghost var st := WalkState(daysBack, tradingDaysCollected, bucketVolumes);
      var dayIst := today - daysBack;
      if SkipWeekends && IsWeekend(dayIst) {
        daysBack := daysBack + 1;
        assert WalkState(daysBack, tradingDaysCollected, bucketVolumes) == Step(today, fetch, st);
        continue;
      }
      var candles := fetch(dayIst);
      if |candles| > 0 {
        tradingDaysCollected := tradingDaysCollected + 1;
        ghost var before := bucketVolumes;
        for i := 0 to |candles|
          invariant bucketVolumes == AddCandles(before, candles[..i])
        {
          assert candles[..i + 1][..i] == candles[..i];
          var c := candles[i];
          if !c.complete {
            continue;
          }
          var tIst := ToIst(c.time);
          var bucket := GetTimeBucket(tIst, BucketMinutes);
          var vs := if bucket in bucketVolumes then bucketVolumes[bucket] else [];
          bucketVolumes := bucketVolumes[bucket := vs + [c.volume]];
        }
        assert candles[..|candles|] == candles;
      }
      daysBack := daysBack + 1;
      assert WalkState(daysBack, tradingDaysCollected, bucketVolumes) == Step(today, fetch, st);
    }
    averages := map b | b in bucketVolumes && |bucketVolumes[b]| > 0 :: Mean(bucketVolumes[b]);
  }
}
