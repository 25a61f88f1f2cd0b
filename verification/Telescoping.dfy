/** Rates add back up to the counters they came from (src/delta.rs), over any number of samples. */
module Telescoping {
  import opened Prelude
  import opened Procfs
  import opened Delta
  import opened SnapshotMeaning

  // ---- increments of a counter ----

  function Sum(xs: seq<real>): real {
    if |xs| == 0 then 0.0 else Sum(Front(xs)) + Last(xs)
  }

  ghost predicate Rising(ns: seq<nat>) {
    forall i :: 0 < i < |ns| ==> ns[i - 1] <= ns[i]
  }

  /** The saturated increments of a counter cover its net gain, and equal it exactly when the
      counter never goes backwards. */
  lemma {:induction false} IncrementsCoverTheGain(ns: seq<nat>, steps: seq<real>)
    requires |ns| == |steps| + 1
    requires forall i :: 0 <= i < |steps| ==> steps[i] == SatSub(ns[i + 1], ns[i]) as real
    ensures Sum(steps) >= Last(ns) as real - ns[0] as real
    ensures Sum(steps) == Last(ns) as real - ns[0] as real <==> Rising(ns)
  {
    if |steps| > 0 {
      IncrementsCoverTheGain(Front(ns), Front(steps));
      var n := |steps|;
      assert Last(Front(ns)) == ns[n - 1] && Last(ns) == ns[n] && Front(ns)[0] == ns[0];
      assert Last(steps) == SatSub(ns[n - 1 + 1], ns[n - 1]) as real;
      assert Rising(ns) <==> Rising(Front(ns)) && ns[n - 1] <= ns[n];
    }
  }

  // ---- one interval ----

  /** The length of the interval between two samples. */
  function SecondsBetween(prev: Sample, cur: Sample): real {
    (cur.at - prev.at) as real / 1000000000.0
  }

  /** Rate times length of the interval; nothing when the process has no such rate. */
  function Amount(rate: Option<real>, secs: real): real {
    if rate.Some? then rate.value * secs else 0.0
  }

  function Consumed(k: SysConst, g: Gauge, prev: Sample, cur: Sample, snap: Snapshot, key: ProcKey): real {
    match FindRow(snap.procs, key)
    case None => 0.0
    case Some(row) => Amount(PerSecond(k, g, row), SecondsBetween(prev, cur))
  }

  lemma RateTimesSeconds(rate: real, before: nat, now: nat, prev: Sample, cur: Sample)
    requires prev.at < cur.at && IsRate(rate, before, now, cur.at - prev.at)
    ensures rate * SecondsBetween(prev, cur) == SatSub(now, before) as real
  {
    var secs := SecondsBetween(prev, cur);
    assert (cur.at - prev.at) as real == secs * 1000000000.0;
    Associated(rate, secs, 1000000000.0);
  }

  lemma OneInterval(k: SysConst, g: Gauge, prev: Sample, cur: Sample, snap: Snapshot, key: ProcKey)
    requires prev.at < cur.at && IsDiff(k, prev, cur, snap)
    requires CounterOf(g, prev, key).Some? && CounterOf(g, cur, key).Some?
    ensures Consumed(k, g, prev, cur, snap, key)
            == SatSub(CounterOf(g, cur, key).value, CounterOf(g, prev, key).value) as real
  {
    hide IsDiff, CounterOf, PerSecond, IsRate, ProcRateOf;
    ListedWhenCounted(k, g, prev, cur, snap, key);
    var row := FindRow(snap.procs, key).value;
    RowsTellTheSamples(k, prev, cur, snap, row);
    assert GaugeTells(k, g, prev, cur, row);
    var before, now := CounterOf(g, prev, key).value, CounterOf(g, cur, key).value;
    RateTimesSeconds(PerSecond(k, g, row).value, before, now, prev, cur);
  }

  lemma ListedWhenCounted(k: SysConst, g: Gauge, prev: Sample, cur: Sample, snap: Snapshot, key: ProcKey)
    requires IsDiff(k, prev, cur, snap) && CounterOf(g, cur, key).Some?
    ensures FindRow(snap.procs, key).Some?
  {
    FindRowInDiff(k, prev, cur, snap, key);
  }

  // ---- whole runs ----

  /** Each snapshot is the diff of two consecutive samples, taken at strictly increasing instants. */
  ghost predicate IsDiffRun(k: SysConst, samples: seq<Sample>, snaps: seq<Snapshot>) {
    && |samples| == |snaps| + 1
    && forall i :: 0 <= i < |snaps| ==>
         samples[i].at < samples[i + 1].at && IsDiff(k, samples[i], samples[i + 1], snaps[i])
  }

  ghost predicate CountedThroughout(g: Gauge, samples: seq<Sample>, key: ProcKey) {
    forall i :: 0 <= i < |samples| ==> CounterOf(g, samples[i], key).Some?
  }

  function Counts(g: Gauge, samples: seq<Sample>, key: ProcKey): (ns: seq<nat>)
    requires CountedThroughout(g, samples, key)
    ensures |ns| == |samples|
    ensures forall i :: 0 <= i < |ns| ==> ns[i] == CounterOf(g, samples[i], key).value
  {
    seq(|samples|, i requires 0 <= i < |samples| => CounterOf(g, samples[i], key).value)
  }

  function Consumptions(k: SysConst, g: Gauge, samples: seq<Sample>, snaps: seq<Snapshot>, key: ProcKey)
    : (xs: seq<real>)
    requires |samples| == |snaps| + 1
    ensures |xs| == |snaps|
    ensures forall i :: 0 <= i < |xs| ==> xs[i] == Consumed(k, g, samples[i], samples[i + 1], snaps[i], key)
  {
    seq(|snaps|, i requires 0 <= i < |snaps| => Consumed(k, g, samples[i], samples[i + 1], snaps[i], key))
  }

  /** For a process counted in every sample, the rates of the run account for at least what its
      counter gained, and for exactly that when the counter never went backwards, and only then. */
  lemma RatesTelescope(k: SysConst, g: Gauge, samples: seq<Sample>, snaps: seq<Snapshot>, key: ProcKey)
    requires IsDiffRun(k, samples, snaps) && CountedThroughout(g, samples, key)
    ensures var ns := Counts(g, samples, key);
            var total := Sum(Consumptions(k, g, samples, snaps, key));
            && total >= Last(ns) as real - ns[0] as real
            && (total == Last(ns) as real - ns[0] as real <==> Rising(ns))
  {
    var ns, xs := Counts(g, samples, key), Consumptions(k, g, samples, snaps, key);
    forall i | 0 <= i < |xs| ensures xs[i] == SatSub(ns[i + 1], ns[i]) as real {
      OneInterval(k, g, samples[i], samples[i + 1], snaps[i], key);
    }
    IncrementsCoverTheGain(ns, xs);
  }

  // ---- the host ----

  function HostCounts(g: HostGauge, samples: seq<Sample>): (ns: seq<nat>)
    ensures |ns| == |samples| && forall i :: 0 <= i < |ns| ==> ns[i] == HostCount(g, samples[i])
  {
    seq(|samples|, i requires 0 <= i < |samples| => HostCount(g, samples[i]))
  }

  function HostAmount(g: HostGauge, prev: Sample, cur: Sample, snap: Snapshot): real {
    HostRate(g, snap.system) * SecondsBetween(prev, cur)
  }

  lemma HostStep(k: SysConst, g: HostGauge, prev: Sample, cur: Sample, snap: Snapshot)
    requires prev.at < cur.at && IsDiff(k, prev, cur, snap)
    ensures HostAmount(g, prev, cur, snap) == SatSub(HostCount(g, cur), HostCount(g, prev)) as real
  {
    hide HostRate, SystemRates, HostCount, IsRate;
    HostRatesTell(g, prev, cur);
    RateTimesSeconds(HostRate(g, snap.system), HostCount(g, prev), HostCount(g, cur), prev, cur);
  }

  function HostAmounts(g: HostGauge, samples: seq<Sample>, snaps: seq<Snapshot>): (xs: seq<real>)
    requires |samples| == |snaps| + 1
    ensures |xs| == |snaps|
    ensures forall i :: 0 <= i < |xs| ==> xs[i] == HostAmount(g, samples[i], samples[i + 1], snaps[i])
  {
    seq(|snaps|, i requires 0 <= i < |snaps| => HostAmount(g, samples[i], samples[i + 1], snaps[i]))
  }

  /** The same for what the host received and sent on every interface but the loopback, and for
      its context switches. */
  lemma HostRatesTelescope(k: SysConst, g: HostGauge, samples: seq<Sample>, snaps: seq<Snapshot>)
    requires IsDiffRun(k, samples, snaps)
    ensures var ns := HostCounts(g, samples);
            var total := Sum(HostAmounts(g, samples, snaps));
            && total >= Last(ns) as real - ns[0] as real
            && (total == Last(ns) as real - ns[0] as real <==> Rising(ns))
  {
    hide HostCount, HostAmount, IsDiff;
    var ns, xs := HostCounts(g, samples), HostAmounts(g, samples, snaps);
    forall i | 0 <= i < |xs| ensures xs[i] == SatSub(ns[i + 1], ns[i]) as real {
      HostStep(k, g, samples[i], samples[i + 1], snaps[i]);
    }
    IncrementsCoverTheGain(ns, xs);
  }
}
