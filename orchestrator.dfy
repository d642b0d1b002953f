/** One run over the configured instruments, collecting every instrument's spikes. */
module Orchestrator {
  import opened Config
  import opened Candles
  import opened BaselineEstimator
  import opened SpikeDetector

  /** The provider, per instrument code: past candles by display-zone date, and the
      candles of the trailing detection window. */
  type History = string -> int -> seq<Candle>
  type Recent = string -> seq<Candle>

  /** The spikes of one configured instrument in this run. */
  function InstrumentSpikes(name: string, today: int, history: History, recent: Recent): seq<SpikeRecord>
    requires name in Instruments
  {
    var code := Instruments[name];
    Spikes(name, BucketAverages(today, history(code)), ThresholdMultiplier, recent(code))
  }

  /** The run-wide list: each instrument's records in turn, in the order of `names`. */
  function RunSpikes(names: seq<string>, today: int, history: History, recent: Recent): seq<SpikeRecord>
    requires forall i :: 0 <= i < |names| ==> names[i] in Instruments
  {
    if names == [] then []
    else
      RunSpikes(names[..|names| - 1], today, history, recent)
        + InstrumentSpikes(names[|names| - 1], today, history, recent)
  }

  /** Every record of a run names one of the instruments checked and exceeds its threshold. */
  lemma {:induction false} RunSpikesFromInstruments(names: seq<string>, today: int, history: History, recent: Recent)
    requires forall i :: 0 <= i < |names| ==> names[i] in Instruments
    ensures forall r :: r in RunSpikes(names, today, history, recent) ==>
      r.instrument in names && r.spikeDiff >= 1 && r.multiplier > 1.0
  {
    if names != [] {
      var init, last := names[..|names| - 1], names[|names| - 1];
      RunSpikesFromInstruments(init, today, history, recent);
      var code := Instruments[last];
      SpikesExceed(last, BucketAverages(today, history(code)), ThresholdMultiplier, recent(code));
      forall n | n in init
        ensures n in names
      {
        var k :| 0 <= k < |init| && init[k] == n;
        assert names[k] == n;
      }
    }
  }

  /** Splitting the instrument list splits the run-wide list at the same point. */
  lemma {:induction false} RunSpikesAppend(a: seq<string>, b: seq<string>, today: int, history: History, recent: Recent)
    requires forall i :: 0 <= i < |a| ==> a[i] in Instruments
    requires forall i :: 0 <= i < |b| ==> b[i] in Instruments
    ensures forall i :: 0 <= i < |a + b| ==> (a + b)[i] in Instruments
    ensures RunSpikes(a + b, today, history, recent)
         == RunSpikes(a, today, history, recent) + RunSpikes(b, today, history, recent)
    decreases |b|
  {
    assert forall i :: 0 <= i < |a + b| ==> (a + b)[i] in Instruments by {
      forall i | 0 <= i < |a + b|
        ensures (a + b)[i] in Instruments
      {
        if i < |a| {
          assert (a + b)[i] == a[i];
        } else {
          assert (a + b)[i] == b[i - |a|];
        }
      }
    }
    if b == [] {
      assert a + b == a;
    } else {
      var init := b[..|b| - 1];
      assert (a + b)[..|a + b| - 1] == a + init;
      assert (a + b)[|a + b| - 1] == b[|b| - 1];
      RunSpikesAppend(a, init, today, history, recent);
    }
  }

  /** The source's `run_volume_check`, up to the assembly of the alert message. */
  method RunVolumeCheck(today: int, history: History, recent: Recent) returns (allSpikes: seq<SpikeRecord>)
    ensures allSpikes == RunSpikes(SelectedInstruments, today, history, recent)
  {
    assert forall i :: 0 <= i < |SelectedInstruments| ==> SelectedInstruments[i] in Instruments;
    allSpikes := [];
    for i := 0 to |SelectedInstruments|
      invariant allSpikes == RunSpikes(SelectedInstruments[..i], today, history, recent)
    {
      assert SelectedInstruments[..i + 1][..i] == SelectedInstruments[..i];
      var name := SelectedInstruments[i];
      var code := Instruments[name];
      var spikes := CheckRecentSpikes(name, today, history(code), recent(code));
      if |spikes| > 0 {
        allSpikes := allSpikes + spikes;
      }
    }
    assert SelectedInstruments[..|SelectedInstruments|] == SelectedInstruments;
  }
}
