/** `diff` composed with `evaluate` (src/delta.rs, src/rules.rs, src/sampler.rs): what an alert
    on a process says about the samples it came from. */
module Pipeline {
  import opened Prelude
  import opened Procfs
  import opened Delta
  import opened SnapshotMeaning
  import opened Rules
  import opened Automaton
  import opened AlertEngine
  import opened EngineTheorems
  import opened Decimal

  ghost predicate DiffedAt(k: SysConst, samples: seq<Sample>, turns: seq<Turn>, i: nat)
    requires i < |turns| && |samples| == |turns| + 1
  {
    IsDiff(k, samples[i], samples[i + 1], turns[i].snap)
  }

  /** Each turn of the engine evaluates the diff of two consecutive good samples. */
  ghost predicate Fed(k: SysConst, rules: seq<Rule>, samples: seq<Sample>, turns: seq<Turn>) {
    && IsRun(rules, turns)
    && |samples| == |turns| + 1
    && forall i :: 0 <= i < |turns| ==> DiffedAt(k, samples, turns, i)
  }

  lemma FedExtends(k: SysConst, rules: seq<Rule>, samples: seq<Sample>, turns: seq<Turn>, cur: Sample, t: Turn)
    requires Fed(k, rules, samples, turns) && IsDiff(k, Last(samples), cur, t.snap)
    requires Evaluated(rules, After(turns), |turns| + 1, t.snap, t.now, t.post, t.log)
    ensures Fed(k, rules, samples + [cur], turns + [t])
  {
    hide IsDiff, Evaluated;
    assert Front(turns + [t]) == turns;
    forall i | 0 <= i < |turns| + 1 ensures DiffedAt(k, samples + [cur], turns + [t], i) {
      if i < |turns| {
        assert DiffedAt(k, samples, turns, i);
      }
    }
  }

  /** `diff` discharges what the projection theorems ask of the snapshots. */
  lemma FedIsDistinct(k: SysConst, rules: seq<Rule>, samples: seq<Sample>, turns: seq<Turn>)
    requires Fed(k, rules, samples, turns)
    ensures DistinctSnapshots(turns)
  {
    forall i | 0 <= i < |turns| ensures DistinctKeys(turns[i].snap.procs) {
      assert DiffedAt(k, samples, turns, i);
    }
  }

  // ---- what a rule is evaluated on ----

  function LabelOf(comm: string, pid: int): string {
    comm + " (pid " + IntText(pid) + ")"
  }

  /** Alive under one key in both samples, under a name the rule accepts, and readable to the metric. */
  predicate TakesPart(rule: Rule, prev: Sample, cur: Sample, key: ProcKey)
    requires rule.target.Process?
  {
    && key in prev.procs && key in cur.procs
    && (rule.target.pattern == "*" || rule.target.pattern == cur.procs[key].stat.comm)
    && (rule.metric in {CpuPct, Rss, Threads}
        || (rule.metric in {ReadBps, WriteBps} && cur.procs[key].io.Some?))
  }

  ghost predicate Measures(k: SysConst, m: Metric, prev: Sample, cur: Sample, key: ProcKey, v: real)
    requires key in prev.procs && key in cur.procs
  {
    var p, c, nanos := prev.procs[key], cur.procs[key], cur.at - prev.at;
    match m
    case CpuPct =>
      IsRate(InTicks(k, v), p.stat.utime + p.stat.stime, c.stat.utime + c.stat.stime, nanos)
    case Rss => v == (if c.stat.rssPages > 0 then c.stat.rssPages * k.pageSize else 0) as real
    case Threads => v == c.stat.numThreads as real
    case ReadBps =>
      c.io.Some? && if p.io.None? then v == 0.0
                    else IsRate(v, p.io.value.readBytes, c.io.value.readBytes, nanos)
    case WriteBps =>
      c.io.Some? && if p.io.None? then v == 0.0
                    else IsRate(v, p.io.value.writeBytes, c.io.value.writeBytes, nanos)
    case _ => false
  }

  /** From two samples to the value a rule for processes is evaluated on. */
  lemma ProcessRuleSees(k: SysConst, rules: seq<Rule>, prev: Sample, cur: Sample, snap: Snapshot, id: SubjectId)
    requires IsDiff(k, prev, cur, snap)
    requires id.rule < |rules| && rules[id.rule].target.Process? && id.procKey.Some?
    ensures var o, key := Observe(rules, snap, id), id.procKey.value;
            && (o.Some? <==> TakesPart(rules[id.rule], prev, cur, key))
            && (o.Some? ==>
                  && o.value.caption == LabelOf(cur.procs[key].stat.comm, cur.procs[key].stat.pid)
                  && Measures(k, rules[id.rule].metric, prev, cur, key, o.value.value))
  {
    hide IsDiff, IsRate, Observe, IntText, PerSecond;
    var key := id.procKey.value;
    FindRowInDiff(k, prev, cur, snap, key);
    match FindRow(snap.procs, key) {
      case None =>
        if Observe(rules, snap, id).Some? {
          NobodyElse(rules, snap, id);
        }
      case Some(row) =>
        DiffIsDistinct(k, prev, cur, snap);
        WhoTakesPart(rules, snap, id.rule, row);
        RowsTellTheSamples(k, prev, cur, snap, row);
        if TakesPart(rules[id.rule], prev, cur, key) {
          RowMeasures(k, rules[id.rule].metric, prev, cur, row);
        }
    }
  }

  lemma DiffIsDistinct(k: SysConst, prev: Sample, cur: Sample, snap: Snapshot)
    requires IsDiff(k, prev, cur, snap)
    ensures DistinctKeys(snap.procs)
  {
  }

  lemma RowMeasures(k: SysConst, m: Metric, prev: Sample, cur: Sample, row: ProcRate)
    requires RowTells(k, prev, cur, row) && row.key in prev.procs
    ensures m == CpuPct ==> Measures(k, m, prev, cur, row.key, row.cpuPct)
    ensures m == Rss ==> Measures(k, m, prev, cur, row.key, row.rssBytes as real)
    ensures m == Threads ==> Measures(k, m, prev, cur, row.key, row.threads as real)
    ensures row.readBps.Some? <==> cur.procs[row.key].io.Some?
    ensures row.writeBps.Some? <==> cur.procs[row.key].io.Some?
    ensures m == ReadBps && row.readBps.Some? ==> Measures(k, m, prev, cur, row.key, row.readBps.value)
    ensures m == WriteBps && row.writeBps.Some? ==> Measures(k, m, prev, cur, row.key, row.writeBps.value)
  {
    hide IsRate, InTicks;
    assert GaugeTells(k, Cpu, prev, cur, row);
    assert GaugeTells(k, Io(ReadBytes), prev, cur, row);
    assert GaugeTells(k, Io(WriteBytes), prev, cur, row);
  }

  /** The value of a metric of the host, over the interval between two samples. */
  ghost predicate HostMeasures(m: Metric, prev: Sample, cur: Sample, v: real) {
    var nanos := cur.at - prev.at;
    match m
    case CpuPct => IsCpuShare(v, prev.cpu.total, cur.cpu.total)
    case MemPct => IsMemShare(v, cur.mem)
    case NetRxBps => IsRate(v, NetTotal(RxBytes, prev.nets), NetTotal(RxBytes, cur.nets), nanos)
    case NetTxBps => IsRate(v, NetTotal(TxBytes, prev.nets), NetTotal(TxBytes, cur.nets), nanos)
    case ProcCount => v == |cur.procs| as real
    case _ => false
  }

  lemma HostRowMeasures(prev: Sample, cur: Sample, s: SystemRate)
    requires SystemTells(prev, cur, s)
    ensures HostMeasures(CpuPct, prev, cur, s.cpuPct)
    ensures HostMeasures(NetRxBps, prev, cur, s.netRxBps) && HostMeasures(NetTxBps, prev, cur, s.netTxBps)
    ensures HostMeasures(ProcCount, prev, cur, s.procCount as real) && s.mem == cur.mem
  {
    hide IsRate, IsCpuShare, NetTotal;
    assert HostTells(Received, prev, cur, s);
    assert HostTells(Sent, prev, cur, s);
  }

  /** And from two samples to the value a rule for the system is evaluated on. */
  lemma SystemRuleSees(k: SysConst, rules: seq<Rule>, prev: Sample, cur: Sample, snap: Snapshot, ri: nat)
    requires IsDiff(k, prev, cur, snap) && ri < |rules| && rules[ri].target.System?
    ensures var o := Observe(rules, snap, SubjectId(ri, None));
            && (o.Some? <==> rules[ri].metric in {CpuPct, MemPct, NetRxBps, NetTxBps, ProcCount})
            && (o.Some? ==> o.value.caption == "system" && HostMeasures(rules[ri].metric, prev, cur, o.value.value))
  {
    hide Observe, SystemRates, SystemTells, IsRate, IsCpuShare, IsMemShare, NetTotal, RowsFor, Sorted;
    WhatTheSystemShows(rules, snap, ri);
    SystemTellsTheSamples(prev, cur);
    HostRowMeasures(prev, cur, snap.system);
  }

  // ---- who keeps state ----

  /** A process shown to the engine was in both samples of the diff under the same key. */
  lemma ObservedIsInBothSamples(k: SysConst, rules: seq<Rule>, prev: Sample, cur: Sample, snap: Snapshot, id: SubjectId)
    requires IsDiff(k, prev, cur, snap)
    requires Observe(rules, snap, id).Some? && id.procKey.Some?
    ensures id.procKey.value in prev.procs && id.procKey.value in cur.procs
  {
    hide IsDiff, Seconds, CpuShare, IoRate, ProcValue;
    FindRowInDiff(k, prev, cur, snap, id.procKey.value);
  }

  lemma ObservedAtTurn(k: SysConst, rules: seq<Rule>, samples: seq<Sample>, turns: seq<Turn>, id: SubjectId, i: nat)
    requires Fed(k, rules, samples, turns) && i < |turns| && id.procKey.Some?
    requires HistoryOf(rules, turns, id)[i].value.Some?
    ensures id.procKey.value in samples[i].procs && id.procKey.value in samples[i + 1].procs
  {
    hide IsDiff, IsRun, Observe;
    assert DiffedAt(k, samples, turns, i);
    ObservedIsInBothSamples(k, rules, samples[i], samples[i + 1], turns[i].snap, id);
  }

  /** A process the engine keeps state for was in the last two good samples. */
  lemma StatesAreInBothSamples(k: SysConst, rules: seq<Rule>, samples: seq<Sample>, turns: seq<Turn>, id: SubjectId)
    requires Fed(k, rules, samples, turns) && id in After(turns) && id.procKey.Some?
    ensures |samples| >= 2
    ensures id.procKey.value in samples[|samples| - 2].procs && id.procKey.value in Last(samples).procs
  {
    hide IsDiff, IsRun, Observe;
    FedIsDistinct(k, rules, samples, turns);
    StatesAreObserved(rules, turns, id);
    ObservedAtTurn(k, rules, samples, turns, id, |turns| - 1);
  }

  /** Every process the engine keeps state for is in the latest baseline. */
  lemma StatesAreInBaseline(k: SysConst, rules: seq<Rule>, samples: seq<Sample>, turns: seq<Turn>, id: SubjectId)
    requires Fed(k, rules, samples, turns) && id in After(turns) && id.procKey.Some?
    ensures id.procKey.value in Last(samples).procs
  {
    StatesAreInBothSamples(k, rules, samples, turns, id);
  }

  /** So a process with state can leave the next table, but cannot be new in it. */
  lemma TrackedIsNeverNew(k: SysConst, rules: seq<Rule>, samples: seq<Sample>, turns: seq<Turn>,
                          cur: Sample, snap: Snapshot, id: SubjectId, p: ProcRate)
    requires Fed(k, rules, samples, turns) && IsDiff(k, Last(samples), cur, snap)
    requires id in After(turns) && p in snap.procs && id.procKey == Some(p.key)
    ensures !p.isNew
  {
    StatesAreInBaseline(k, rules, samples, turns, id);
    NewMeansUnseen(k, Last(samples), cur, snap, p);
  }

  /** A (pid, starttime) missing from either of the last two samples has no timer and no alert. */
  lemma MissingMeansInactive(k: SysConst, rules: seq<Rule>, samples: seq<Sample>, turns: seq<Turn>, id: SubjectId)
    requires Fed(k, rules, samples, turns) && id.procKey.Some? && |turns| > 0
    requires id.procKey.value !in samples[|samples| - 2].procs || id.procKey.value !in Last(samples).procs
    ensures id !in After(turns)
  {
    if id in After(turns) {
      StatesAreInBothSamples(k, rules, samples, turns, id);
    }
  }

  /** A recycled PID starts from nothing: at the first tick its (pid, starttime) can be observed,
      whatever its predecessor under that PID was doing, its alert can only fire with a zero
      sustain window, and then reports a zero held time. */
  lemma RecycledPidStartsFresh(k: SysConst, rules: seq<Rule>, samples: seq<Sample>, turns: seq<Turn>,
                               id: SubjectId, sig: Signal)
    requires Fed(k, rules, samples, turns) && id.rule < |rules| && id.procKey.Some? && |turns| > 0
    requires |samples| >= 3 ==> id.procKey.value !in samples[|samples| - 3].procs
    requires sig in SignalsOf(Filter(Last(turns).log, id))
    ensures sig.kind == Fired && rules[id.rule].sustain == 0 && sig.heldFor == 0
  {
    FedIsDistinct(k, rules, samples, turns);
    LastTick(rules, turns, id);
    if |turns| >= 2 {
      var t, s := Front(turns), Front(samples);
      LastTurn(rules, turns);
      assert Fed(k, rules, s, t) by {
        forall i | 0 <= i < |t| ensures DiffedAt(k, s, t, i) {
          assert DiffedAt(k, samples, turns, i);
        }
      }
      MissingMeansInactive(k, rules, s, t, id);
    }
    assert StatusOf(Look(After(Front(turns)), id)) == Inactive;
  }

  /** The process was in every sample of a stretch. */
  ghost predicate AliveThrough(samples: seq<Sample>, key: ProcKey, lo: nat, hi: nat)
    requires hi <= |samples|
  {
    forall i :: lo <= i < hi ==> key in samples[i].procs
  }

  lemma HotMeansAlive(k: SysConst, rules: seq<Rule>, samples: seq<Sample>, turns: seq<Turn>, id: SubjectId, j: nat)
    requires Fed(k, rules, samples, turns) && id.rule < |rules| && id.procKey.Some? && j < |turns|
    requires HotOn(rules[id.rule], HistoryOf(rules, turns, id), j, |turns|)
    ensures AliveThrough(samples, id.procKey.value, j, |samples|)
  {
    hide Observe, FindRow, ProcRateOf, IsDiff, DiffedAt, IsRun;
    var key, rule, h := id.procKey.value, rules[id.rule], HistoryOf(rules, turns, id);
    forall i | j <= i < |samples| ensures key in samples[i].procs {
      var t := if i < |turns| then i else i - 1;
      assert Hot(rule, h[t]);
      ObservedAtTurn(k, rules, samples, turns, id, t);
    }
  }

  lemma FiredAtLastTurn(rules: seq<Rule>, turns: seq<Turn>, id: SubjectId, sig: Signal)
    requires IsRun(rules, turns) && DistinctSnapshots(turns) && ClockForward(turns) && |turns| > 0
    requires id.rule < |rules| && rules[id.rule].Sane()
    requires sig in SignalsOf(Filter(Last(turns).log, id)) && sig.kind == Fired
    ensures var rule, h := rules[id.rule], HistoryOf(rules, turns, id);
            var j := StreakStart(rule, h);
            j < |turns| && sig.heldFor == Last(turns).now - turns[j].now >= rule.sustain
  {
    var h := HistoryOf(rules, turns, id);
    LastTick(rules, turns, id);
    EngineRefinesAutomata(rules, Front(turns), id);
    HistoryFront(rules, turns, id);
    FiredReport(rules[id.rule], h, sig);
  }

  /** A process alert that fires was earned by one and the same (pid, starttime): it is in both
      samples of the diff, and in every sample since the streak the event reports began, at
      least three of them when there is a sustain window. */
  lemma FiredWasEarned(k: SysConst, rules: seq<Rule>, samples: seq<Sample>, turns: seq<Turn>,
                       id: SubjectId, sig: Signal) returns (j: nat)
    requires Fed(k, rules, samples, turns) && ClockForward(turns) && |turns| > 0
    requires id.rule < |rules| && rules[id.rule].Sane() && id.procKey.Some?
    requires sig in SignalsOf(Filter(Last(turns).log, id)) && sig.kind == Fired
    ensures j < |turns| && AliveThrough(samples, id.procKey.value, j, |samples|)
    ensures |samples| - j >= if rules[id.rule].sustain > 0 then 3 else 2
    ensures sig.heldFor == Last(turns).now - turns[j].now >= rules[id.rule].sustain
  {
    FedIsDistinct(k, rules, samples, turns);
    FiredAtLastTurn(rules, turns, id, sig);
    j := StreakStart(rules[id.rule], HistoryOf(rules, turns, id));
    HotMeansAlive(k, rules, samples, turns, id, j);
  }

  // ---- what "gone" means ----

  /** The process has exited, or is there under a name the rule does not match, or has become
      unreadable to the metric. */
  predicate Unavailable(rule: Rule, cur: Sample, key: ProcKey)
    requires rule.target.Process?
  {
    var pattern := rule.target.pattern;
    || key !in cur.procs
    || (pattern != "*" && pattern != cur.procs[key].stat.comm)
    || (rule.metric in {ReadBps, WriteBps} && cur.procs[key].io.None?)
  }

  lemma UnshownMeansUnavailable(k: SysConst, rules: seq<Rule>, prev: Sample, cur: Sample, snap: Snapshot, id: SubjectId)
    requires IsDiff(k, prev, cur, snap) && id.rule < |rules| && id.procKey.Some? && id.procKey.value in prev.procs
    requires rules[id.rule].target.Process? && rules[id.rule].metric.AppliesToProcess()
    ensures Observe(rules, snap, id).None? <==> Unavailable(rules[id.rule], cur, id.procKey.value)
  {
    hide IsDiff, Observe, Measures, LabelOf;
    ProcessRuleSees(k, rules, prev, cur, snap, id);
  }

  /** The event called "gone" is not reserved for processes that exited: it marks exactly the
      active alerts whose process is missing, renamed or unreadable in the latest sample. */
  lemma GoneIsUnavailable(k: SysConst, rules: seq<Rule>, samples: seq<Sample>, turns: seq<Turn>, id: SubjectId)
    requires Fed(k, rules, samples, turns) && |turns| > 0 && id.rule < |rules| && id.procKey.Some?
    requires rules[id.rule].target.Process? && rules[id.rule].metric.AppliesToProcess()
    ensures (exists sig :: sig in SignalsOf(Filter(Last(turns).log, id)) && sig.kind == ClearedGone) <==>
            id in ActiveSet(After(Front(turns))) && Unavailable(rules[id.rule], Last(samples), id.procKey.value)
  {
    hide IsDiff, IsRun, Evaluated, Observe, Unavailable, Filter, SignalsOf, ActiveSet, Fed;
    var was := After(Front(turns));
    LastReading(k, rules, samples, turns, id);
    ActiveIsFiring(was, id);
    GoneSignal(rules[id.rule], StatusOf(Look(was, id)), ReadingOf(rules, Last(turns), id));
  }

  lemma GoneSignal(rule: Rule, st: Status, r: Reading)
    ensures (exists sig :: sig in Optional(Emit(rule, st, r)) && sig.kind == ClearedGone) <==>
            st.FiringSince? && r.value.None?
  {
    if st.FiringSince? && r.value.None? {
      assert Emit(rule, st, r).value in Optional(Emit(rule, st, r));
    }
  }

  lemma LastReading(k: SysConst, rules: seq<Rule>, samples: seq<Sample>, turns: seq<Turn>, id: SubjectId)
    requires Fed(k, rules, samples, turns) && |turns| > 0 && id.rule < |rules| && id.procKey.Some?
    requires rules[id.rule].target.Process? && rules[id.rule].metric.AppliesToProcess()
    ensures var st, r := StatusOf(Look(After(Front(turns)), id)), ReadingOf(rules, Last(turns), id);
            && SignalsOf(Filter(Last(turns).log, id)) == Optional(Emit(rules[id.rule], st, r))
            && (id in ActiveSet(After(Front(turns))) ==>
                  (r.value.None? <==> Unavailable(rules[id.rule], Last(samples), id.procKey.value)))
  {
    hide IsDiff, IsRun, Evaluated, Observe, Unavailable, Filter, SignalsOf;
    FedIsDistinct(k, rules, samples, turns);
    LastTick(rules, turns, id);
    if id in ActiveSet(After(Front(turns))) {
      FedFront(k, rules, samples, turns);
      StatesAreInBaseline(k, rules, Front(samples), Front(turns), id);
      assert DiffedAt(k, samples, turns, |turns| - 1);
      UnshownMeansUnavailable(k, rules, samples[|samples| - 2], Last(samples), Last(turns).snap, id);
    }
  }

  lemma FedFront(k: SysConst, rules: seq<Rule>, samples: seq<Sample>, turns: seq<Turn>)
    requires Fed(k, rules, samples, turns) && |turns| > 0
    ensures Fed(k, rules, Front(samples), Front(turns))
  {
    hide IsDiff, Evaluated;
    forall i | 0 <= i < |turns| - 1 ensures DiffedAt(k, Front(samples), Front(turns), i) {
      assert DiffedAt(k, samples, turns, i);
    }
  }

  lemma FedPrefix(k: SysConst, rules: seq<Rule>, samples: seq<Sample>, turns: seq<Turn>, n: nat)
    requires Fed(k, rules, samples, turns) && n <= |turns|
    ensures Fed(k, rules, samples[..n + 1], turns[..n])
  {
    hide IsDiff, Evaluated, IsRun;
    var s, t := samples[..n + 1], turns[..n];
    assert turns == t + turns[n..];
    RunPrefix(rules, t, turns[n..]);
    forall i | 0 <= i < n ensures DiffedAt(k, s, t, i) {
      assert DiffedAt(k, samples, turns, i);
    }
  }

  // ---- such a process ----

  const KEY := ProcKey(7, 0)

  /** A sample with one process, of the given name. */
  function OneProcessSample(at: nat, comm: string): (s: Sample)
    ensures s.Valid()
  {
    var idle := CpuTimes(0, 0, 0, 0, 0, 0, 0, 0, 0, 0);
    Sample(at, StatFile(idle, [], 0, 0, 0), MemInfo(0, 0, 0, 0, 0, 0, 0), [],
           map[KEY := ProcSample(PidStat(7, comm, 'R', 1, 0, 0, 1, 0, 0, 0), None, None)], 0, 0, 0)
  }

  function OneRow(k: SysConst, prev: Sample, cur: Sample): Snapshot
    requires KEY in cur.procs
  {
    Snapshot(SystemRates(prev, cur), [ProcRateOf(k, prev, cur, KEY)])
  }

  lemma OneRowIsDiff(k: SysConst, prev: Sample, cur: Sample)
    requires cur.procs.Keys == {KEY}
    ensures IsDiff(k, prev, cur, OneRow(k, prev, cur))
  {
    hide SystemRates, CpuShare, IoRate;
    var procs := OneRow(k, prev, cur).procs;
    assert KeysOf(procs) == {KEY} by {
      assert procs[0] in procs;
    }
  }

  const BUSY := Rule("busy", Process("a"), Threads, Gt, 0.0, 0, 0.0)
  const SUBJECT := SubjectId(0, Some(KEY))

  lemma ShownUnderItsName(k: SysConst, prev: Sample, cur: Sample)
    requires cur.procs.Keys == {KEY} && cur.procs[KEY].stat.comm == "a" && cur.procs[KEY].stat.numThreads == 1
    requires KEY in prev.procs
    ensures var o := Observe([BUSY], OneRow(k, prev, cur), SUBJECT); o.Some? && o.value.value == 1.0
  {
    hide CpuShare, IoRate, SystemRates;
    var procs := OneRow(k, prev, cur).procs;
    OneRowIsDiff(k, prev, cur);
    FindRowIsUnique(procs, procs[0]);
  }

  /** The first tick of the run fires at once. */
  lemma FiresAtOnce(t: Turn)
    requires IsRun([BUSY], [t]) && DistinctSnapshots([t])
    requires var o := Observe([BUSY], t.snap, SUBJECT); o.Some? && o.value.value == 1.0
    ensures SUBJECT in ActiveSet(After([t]))
  {
    hide IsRun, Observe, LogOf, Filter, SignalsOf, Signals;
    var h := HistoryOf([BUSY], [t], SUBJECT);
    EngineRefinesAutomata([BUSY], [t], SUBJECT);
    assert h == [Reading(t.now, Some(1.0))];
    assert StatusAfter(BUSY, Front(h)) == Inactive;
    ActiveIsFiring(After([t]), SUBJECT);
  }

  /** A run that ends in a "gone" event about a process that is in every sample, the last included:
      it only changed its name. */
  lemma GoneWithoutExit(k: SysConst) returns (samples: seq<Sample>, turns: seq<Turn>)
    ensures Fed(k, [BUSY], samples, turns) && ClockForward(turns) && |turns| > 0
    ensures forall i :: 0 <= i < |samples| ==> samples[i].Valid() && KEY in samples[i].procs
    ensures exists sig :: sig in SignalsOf(Filter(Last(turns).log, SUBJECT)) && sig.kind == ClearedGone
  {
    hide IsDiff, Observe, IsRun, OneRow, SignalsOf, Filter, ActiveSet;
    var s0, s1, s2 := OneProcessSample(0, "a"), OneProcessSample(1, "a"), OneProcessSample(2, "b");
    assert IsRun([BUSY], []) by {
      EmptyRun([BUSY]);
    }
    var t1 := RunsGoOn([BUSY], [], OneRow(k, s0, s1), 1);
    assert [] + [t1] == [t1];
    OneRowIsDiff(k, s0, s1);
    samples, turns := [s0, s1], [t1];
    assert Fed(k, [BUSY], samples, turns);
    FedIsDistinct(k, [BUSY], samples, turns);
    ShownUnderItsName(k, s0, s1);
    FiresAtOnce(t1);
    var t2 := RunsGoOn([BUSY], [t1], OneRow(k, s1, s2), 2);
    OneRowIsDiff(k, s1, s2);
    samples, turns := [s0, s1, s2], [t1] + [t2];
    assert Fed(k, [BUSY], samples, turns) by {
      assert forall i :: 0 <= i < 2 ==> DiffedAt(k, samples, turns, i);
    }
    assert Front(turns) == [t1];
    GoneIsUnavailable(k, [BUSY], samples, turns, SUBJECT);
  }

  lemma EmptyRun(rules: seq<Rule>)
    ensures IsRun(rules, [])
  {
  }

  // ---- what a label says ----

  lemma ObservedLabel(k: SysConst, rules: seq<Rule>, prev: Sample, cur: Sample, snap: Snapshot, id: SubjectId)
    requires IsDiff(k, prev, cur, snap) && cur.Valid()
    requires Observe(rules, snap, id).Some? && id.procKey.Some?
    ensures var key := id.procKey.value;
            key in cur.procs && Observe(rules, snap, id).value.caption == LabelOf(cur.procs[key].stat.comm, key.pid)
  {
    hide SystemRates, CpuShare, IoRate, IntText;
    FindRowInDiff(k, prev, cur, snap, id.procKey.value);
  }

  /** Every state is labelled with the present name and the PID of its own (pid, starttime). */
  lemma LabelsNameTheirProcess(k: SysConst, rules: seq<Rule>, samples: seq<Sample>, turns: seq<Turn>, id: SubjectId)
    requires Fed(k, rules, samples, turns) && id in After(turns) && id.procKey.Some?
    requires |samples| > 0 && Last(samples).Valid()
    ensures var key := id.procKey.value;
            && key in Last(samples).procs
            && After(turns)[id].caption == LabelOf(Last(samples).procs[key].stat.comm, key.pid)
  {
    hide IsDiff, IsRun, Evaluated, Observe, LabelOf;
    FedIsDistinct(k, rules, samples, turns);
    StatesAreObserved(rules, turns, id);
    assert DiffedAt(k, samples, turns, |turns| - 1);
    ObservedLabel(k, rules, samples[|samples| - 2], Last(samples), Last(turns).snap, id);
  }

  /** And so is every event about a process; "gone" uses the name the process had one sample before. */
  lemma EventsNameTheirProcess(k: SysConst, rules: seq<Rule>, samples: seq<Sample>, turns: seq<Turn>, e: Entry)
    requires Fed(k, rules, samples, turns) && |turns| > 0 && e in Last(turns).log && e.id.procKey.Some?
    requires forall i :: 0 <= i < |samples| ==> samples[i].Valid()
    ensures var key := e.id.procKey.value;
            var s := if e.event.kind == ClearedGone then samples[|samples| - 2] else Last(samples);
            key in s.procs && e.event.subject == LabelOf(s.procs[key].stat.comm, key.pid)
  {
    hide IsDiff, IsRun, Evaluated, Observe, LabelOf;
    FedIsDistinct(k, rules, samples, turns);
    LastTurn(rules, turns);
    EventsAreTruthful(rules, After(Front(turns)), |turns| - 1, Last(turns), e);
    assert DiffedAt(k, samples, turns, |turns| - 1);
    if e.event.kind == ClearedGone {
      FedFront(k, rules, samples, turns);
      LabelsNameTheirProcess(k, rules, Front(samples), Front(turns), e.id);
    } else {
      ObservedLabel(k, rules, samples[|samples| - 2], Last(samples), Last(turns).snap, e.id);
    }
  }

  // ---- what an active alert says ----

  /** An entry of the active list names its rule and its subject, the process under the name and
      PID of the last sample, and the time held is the time since the subject's last firing, read
      between two instants. */
  ghost predicate Announces(rules: seq<Rule>, turns: seq<Turn>, cur: Sample, from: nat, to: nat, id: SubjectId,
                            rule: string, subject: string, held: nat)
  {
    && id.rule < |rules| && rule == rules[id.rule].name
    && (match id.procKey
        case None => subject == "system"
        case Some(key) =>
          key in cur.procs && subject == LabelOf(cur.procs[key].stat.comm, cur.procs[key].stat.pid))
    && exists s: nat :: LastFired(turns, id, s)
                   && SatSub(from, turns[s].now) <= held <= SatSub(to, turns[s].now)
  }

  lemma AlertsAreTruthful(k: SysConst, rules: seq<Rule>, samples: seq<Sample>, turns: seq<Turn>,
                          from: nat, to: nat, id: SubjectId, a: Alert)
    requires Fed(k, rules, samples, turns) && IsAlertFor(rules, After(turns), from, to, id, a)
    ensures |turns| > 0 && Announces(rules, turns, Last(samples), from, to, id, a.rule, a.subject, a.held)
  {
    hide IsDiff, IsRun, Observe, LastFired, LabelOf;
    FedIsDistinct(k, rules, samples, turns);
    StatesAreObserved(rules, turns, id);
    var snap := Last(turns).snap;
    assert DiffedAt(k, samples, turns, |turns| - 1);
    NobodyElse(rules, snap, id);
    if id.procKey.Some? {
      ProcessRuleSees(k, rules, samples[|samples| - 2], Last(samples), snap, id);
    } else {
      SystemRuleSees(k, rules, samples[|samples| - 2], Last(samples), snap, id.rule);
    }
    var s := OnSinceItFired(rules, turns, id);
  }
}
