/** What the shared-map engine does over whole runs: subject by subject it is one independent
    automaton per (rule, process), and its event stream accounts exactly for what is on. */
module EngineTheorems {
  import opened Prelude
  import opened Procfs
  import opened Delta
  import opened SnapshotMeaning
  import opened Rules
  import opened Automaton
  import opened AlertEngine
  import opened Decimal

  // ---- what a snapshot shows of whom ----

  /** A rule for processes is shown exactly the rows that are not new, whose name is the rule's or
      any name if the rule has a star, and that have the rule's metric. */
  lemma WhoTakesPart(rules: seq<Rule>, snap: Snapshot, ri: nat, p: ProcRate)
    requires ri < |rules| && rules[ri].target.Process? && DistinctKeys(snap.procs) && p in snap.procs
    ensures var m, pattern := rules[ri].metric, rules[ri].target.pattern;
            var o := Observe(rules, snap, SubjectId(ri, Some(p.key)));
            && (o.Some? <==>
                  && !p.isNew && (pattern == "*" || pattern == p.comm)
                  && (m == CpuPct || m == Rss || m == Threads
                      || (m == ReadBps && p.readBps.Some?) || (m == WriteBps && p.writeBps.Some?)))
            && (o.Some? ==> o.value.caption == p.comm + " (pid " + IntText(p.pid) + ")")
            && (o.Some? && m == CpuPct ==> o.value.value == p.cpuPct)
            && (o.Some? && m == Rss ==> o.value.value == p.rssBytes as real)
            && (o.Some? && m == Threads ==> o.value.value == p.threads as real)
            && (o.Some? && m == ReadBps ==> Some(o.value.value) == p.readBps)
            && (o.Some? && m == WriteBps ==> Some(o.value.value) == p.writeBps)
  {
    hide IntText;
    FindRowIsUnique(snap.procs, p);
  }

  /** A rule for the system is shown the system, if the system has its metric, */
  lemma WhatTheSystemShows(rules: seq<Rule>, snap: Snapshot, ri: nat)
    requires ri < |rules| && rules[ri].target.System?
    ensures var m, s := rules[ri].metric, snap.system;
            var o := Observe(rules, snap, SubjectId(ri, None));
            && (o.Some? <==> m == CpuPct || m == MemPct || m == NetRxBps || m == NetTxBps || m == ProcCount)
            && (o.Some? ==> o.value.caption == "system")
            && (m == CpuPct ==> o.value.value == s.cpuPct)
            && (m == MemPct ==> IsMemShare(o.value.value, s.mem))
            && (m == NetRxBps ==> o.value.value == s.netRxBps)
            && (m == NetTxBps ==> o.value.value == s.netTxBps)
            && (m == ProcCount ==> o.value.value == s.procCount as real)
  {
    hide MemInfo.UsedPct, IsMemShare;
    UsedIsShare(snap.system.mem);
  }

  /** and nobody else. */
  lemma NobodyElse(rules: seq<Rule>, snap: Snapshot, id: SubjectId)
    requires Observe(rules, snap, id).Some?
    ensures id.rule < |rules| && (rules[id.rule].target.System? <==> id.procKey.None?)
    ensures id.procKey.Some? ==> exists p :: p in snap.procs && p.key == id.procKey.value
  {
  }

  // ---- the agenda is the set of observations ----

  ghost predicate DistinctIds(agenda: seq<Sighting>) {
    forall i, j :: 0 <= i < j < |agenda| ==> agenda[i].id != agenda[j].id
  }

  lemma ProcAgendaIsObserved(rules: seq<Rule>, snap: Snapshot, ri: nat, s: Sighting)
    requires ri < |rules| && rules[ri].target.Process? && DistinctKeys(snap.procs)
    ensures s in ProcAgenda(ri, rules[ri], snap.procs) <==> s.id.rule == ri && Observe(rules, snap, s.id) == Some(s)
  {
    ProcAgendaMember(ri, rules[ri], snap.procs, s);
    forall p | p in snap.procs ensures FindRow(snap.procs, p.key) == Some(p) {
      FindRowIsUnique(snap.procs, p);
    }
  }

  lemma RuleAgendaIsObserved(rules: seq<Rule>, snap: Snapshot, ri: nat, s: Sighting)
    requires ri < |rules| && DistinctKeys(snap.procs)
    ensures s in RuleAgenda(ri, rules[ri], snap) <==> s.id.rule == ri && Observe(rules, snap, s.id) == Some(s)
  {
    if rules[ri].target.Process? {
      ProcAgendaIsObserved(rules, snap, ri, s);
    }
  }

  lemma {:induction false} AgendaIsObserved(rules: seq<Rule>, snap: Snapshot, s: Sighting)
    requires DistinctKeys(snap.procs)
    ensures s in Agenda(rules, snap) <==> Observe(rules, snap, s.id) == Some(s)
  {
    if |rules| > 0 {
      AgendaIsObserved(Front(rules), snap, s);
      RuleAgendaIsObserved(rules, snap, |rules| - 1, s);
      assert s.id.rule < |rules| - 1 ==> Front(rules)[s.id.rule] == rules[s.id.rule];
    }
  }

  lemma {:induction false} ProcAgendaIsDistinct(ri: nat, rule: Rule, procs: seq<ProcRate>)
    requires DistinctKeys(procs)
    ensures DistinctIds(ProcAgenda(ri, rule, procs))
  {
    if |procs| > 0 {
      var head := ProcAgenda(ri, rule, Front(procs));
      ProcAgendaIsDistinct(ri, rule, Front(procs));
      forall i | 0 <= i < |head| ensures head[i].id.procKey != Some(Last(procs).key) {
        ProcAgendaMember(ri, rule, Front(procs), head[i]);
      }
    }
  }

  lemma {:induction false} AgendaIsDistinct(rules: seq<Rule>, snap: Snapshot)
    requires DistinctKeys(snap.procs)
    ensures DistinctIds(Agenda(rules, snap))
  {
    if |rules| > 0 {
      var ri := |rules| - 1;
      var head, tail := Agenda(Front(rules), snap), RuleAgenda(ri, Last(rules), snap);
      AgendaIsDistinct(Front(rules), snap);
      if Last(rules).target.Process? {
        ProcAgendaIsDistinct(ri, Last(rules), snap.procs);
      }
      forall i | 0 <= i < |head| ensures head[i].id.rule < ri {
        AgendaIsForRules(Front(rules), snap, head[i]);
      }
      forall i | 0 <= i < |tail| ensures tail[i].id.rule == ri {
        RuleAgendaIsObserved(rules, snap, ri, tail[i]);
      }
    }
  }

  // ---- projecting onto one subject ----

  function Filter(log: seq<Entry>, id: SubjectId): seq<Entry> {
    if |log| == 0 then []
    else Filter(Front(log), id) + if Last(log).id == id then [Last(log)] else []
  }

  lemma {:induction false} FilterConcat(a: seq<Entry>, b: seq<Entry>, id: SubjectId)
    ensures Filter(a + b, id) == Filter(a, id) + Filter(b, id)
  {
    if |b| == 0 {
      assert a + b == a;
    } else {
      FilterConcat(a, Front(b), id);
      assert Front(a + b) == a + Front(b);
    }
  }

  lemma {:induction false} FilterNothing(log: seq<Entry>, id: SubjectId)
    requires forall e :: e in log ==> e.id != id
    ensures Filter(log, id) == []
  {
    if |log| > 0 {
      FilterNothing(Front(log), id);
      assert Last(log) in log;
    }
  }

  lemma {:induction false} FilterOne(log: seq<Entry>, e: Entry)
    requires e in log
    requires forall i, j :: 0 <= i < j < |log| ==> log[i].id != log[j].id
    ensures Filter(log, e.id) == [e]
  {
    if Last(log) == e {
      FilterNothing(Front(log), e.id);
    } else {
      FilterOne(Front(log), e);
    }
  }

  /** A step leaves every other subject alone. */
  lemma OneStepProjection(c: Core, s: Sighting, now: nat, tick: nat, id: SubjectId)
    ensures var st := Look(c.states, s.id);
            && Look(Put(c.states, s.id, StepState(st, s, now, tick)), id)
               == (if id == s.id then StepState(st, s, now, tick) else Look(c.states, id))
            && Filter(c.log + StepEntries(st, s, now), id)
               == Filter(c.log, id) + (if id == s.id then StepEntries(st, s, now) else [])
  {
    var entries := StepEntries(Look(c.states, s.id), s, now);
    FilterConcat(c.log, entries, id);
    if |entries| > 0 {
      assert Front(entries) == [];
    }
  }

  lemma {:induction false} FoldMisses(states: States, now: nat, tick: nat, agenda: seq<Sighting>, id: SubjectId)
    requires forall s :: s in agenda ==> s.id != id
    ensures var c := Fold(states, now, tick, agenda);
            Look(c.states, id) == Look(states, id) && Filter(c.log, id) == []
  {
    if |agenda| > 0 {
      FoldMisses(states, now, tick, Front(agenda), id);
      assert Last(agenda) in agenda;
      OneStepProjection(Fold(states, now, tick, Front(agenda)), Last(agenda), now, tick, id);
    }
  }

  lemma {:induction false} FoldHits(states: States, now: nat, tick: nat, agenda: seq<Sighting>, s: Sighting)
    requires DistinctIds(agenda) && s in agenda
    ensures var c := Fold(states, now, tick, agenda);
            && Look(c.states, s.id) == StepState(Look(states, s.id), s, now, tick)
            && Filter(c.log, s.id) == StepEntries(Look(states, s.id), s, now)
  {
    var front, last := Front(agenda), Last(agenda);
    OneStepProjection(Fold(states, now, tick, front), last, now, tick, s.id);
    if last == s {
      FoldMisses(states, now, tick, front, s.id);
    } else {
      assert s in front;
      FoldHits(states, now, tick, front, s);
    }
  }

  lemma SweepProjection(rules: seq<Rule>, states: States, now: nat, tick: nat, gone: seq<Entry>, id: SubjectId)
    requires IsSweep(rules, states, now, tick, gone)
    ensures if Orphaned(states, tick, id)
            then id.rule < |rules| && Filter(gone, id) == [GoneEntry(rules, id, states[id], now)]
            else Filter(gone, id) == []
  {
    if Orphaned(states, tick, id) {
      var e :| e in gone && e.id == id;
      FilterOne(gone, e);
    } else {
      FilterNothing(gone, id);
    }
  }

  /** The log of one tick, split at the sweep. */
  lemma TickFilter(rules: seq<Rule>, pre: States, tick: nat, snap: Snapshot, now: nat,
                   post: States, log: seq<Entry>, id: SubjectId)
    requires Evaluated(rules, pre, tick, snap, now, post, log)
    ensures var c := Fold(pre, now, tick, Agenda(rules, snap));
            Filter(log, id) == Filter(c.log, id) +
              if Orphaned(c.states, tick, id) && id.rule < |rules|
              then [GoneEntry(rules, id, c.states[id], now)] else []
  {
    var c := Fold(pre, now, tick, Agenda(rules, snap));
    var gone := log[|c.log|..];
    assert log == c.log + gone;
    FilterConcat(c.log, gone, id);
    SweepProjection(rules, c.states, now, tick, gone, id);
  }

  /** A subject shown by the snapshot takes one step, whatever else the snapshot shows. */
  lemma TickSeen(rules: seq<Rule>, pre: States, tick: nat, snap: Snapshot, now: nat,
                 post: States, log: seq<Entry>, s: Sighting)
    requires Evaluated(rules, pre, tick, snap, now, post, log) && DistinctKeys(snap.procs)
    requires Observe(rules, snap, s.id) == Some(s)
    ensures Look(post, s.id) == StepState(Look(pre, s.id), s, now, tick)
    ensures Filter(log, s.id) == StepEntries(Look(pre, s.id), s, now)
  {
    AgendaIsObserved(rules, snap, s);
    AgendaIsDistinct(rules, snap);
    FoldHits(pre, now, tick, Agenda(rules, snap), s);
    TickFilter(rules, pre, tick, snap, now, post, log, s.id);
  }

  /** A subject the snapshot does not show is dropped, with an event only if it was firing. */
  lemma TickUnseen(rules: seq<Rule>, pre: States, tick: nat, snap: Snapshot, now: nat,
                   post: States, log: seq<Entry>, id: SubjectId)
    requires Evaluated(rules, pre, tick + 1, snap, now, post, log) && DistinctKeys(snap.procs)
    requires Fresh(rules, pre, tick) && Observe(rules, snap, id) == None
    ensures Look(post, id) == None
    ensures Filter(log, id) == if id in ActiveSet(pre) && id.rule < |rules|
                               then [GoneEntry(rules, id, pre[id], now)] else []
  {
    forall s | s in Agenda(rules, snap) ensures s.id != id {
      AgendaIsObserved(rules, snap, s);
    }
    FoldMisses(pre, now, tick + 1, Agenda(rules, snap), id);
    TickFilter(rules, pre, tick + 1, snap, now, post, log, id);
  }

  // ---- the run refines independent automata ----

  function ReadingOf(rules: seq<Rule>, t: Turn, id: SubjectId): Reading {
    Reading(t.now, match Observe(rules, t.snap, id) { case None => None case Some(s) => Some(s.value) })
  }

  /** What was seen of one subject, tick by tick. */
  function HistoryOf(rules: seq<Rule>, turns: seq<Turn>, id: SubjectId): (h: seq<Reading>)
    ensures |h| == |turns|
    ensures forall i :: 0 <= i < |turns| ==> h[i] == ReadingOf(rules, turns[i], id)
  {
    seq(|turns|, i requires 0 <= i < |turns| => ReadingOf(rules, turns[i], id))
  }

  lemma HistoryFront(rules: seq<Rule>, turns: seq<Turn>, id: SubjectId)
    requires |turns| > 0
    ensures Front(HistoryOf(rules, turns, id)) == HistoryOf(rules, Front(turns), id)
    ensures Last(HistoryOf(rules, turns, id)) == ReadingOf(rules, Last(turns), id)
  {
  }

  function SignalOf(e: Event): Signal {
    Signal(e.kind, e.value, e.threshold, e.heldFor)
  }

  function SignalsOf(log: seq<Entry>): (sigs: seq<Signal>)
    ensures |sigs| == |log|
    ensures forall i :: 0 <= i < |log| ==> sigs[i] == SignalOf(log[i].event)
  {
    seq(|log|, i requires 0 <= i < |log| => SignalOf(log[i].event))
  }

  ghost predicate DistinctSnapshots(turns: seq<Turn>) {
    forall i :: 0 <= i < |turns| ==> DistinctKeys(turns[i].snap.procs)
  }

  /** One tick, seen from one subject, is one step of its automaton. */
  lemma TickRefines(rules: seq<Rule>, pre: States, tick: nat, t: Turn, id: SubjectId)
    requires Evaluated(rules, pre, tick + 1, t.snap, t.now, t.post, t.log)
    requires Fresh(rules, pre, tick) && DistinctKeys(t.snap.procs) && id.rule < |rules|
    ensures var st, r := StatusOf(Look(pre, id)), ReadingOf(rules, t, id);
            && StatusOf(Look(t.post, id)) == Next(rules[id.rule], st, r)
            && SignalsOf(Filter(t.log, id)) == Optional(Emit(rules[id.rule], st, r))
  {
    var o := Observe(rules, t.snap, id);
    if o.Some? {
      ObservedIsForRule(rules, t.snap, id);
      TickSeen(rules, pre, tick + 1, t.snap, t.now, t.post, t.log, o.value);
    } else {
      TickUnseen(rules, pre, tick, t.snap, t.now, t.post, t.log, id);
    }
  }

  lemma ObservedIsForRule(rules: seq<Rule>, snap: Snapshot, id: SubjectId)
    requires Observe(rules, snap, id).Some?
    ensures var s := Observe(rules, snap, id).value;
            s.id == id && id.rule < |rules| && s.rule == rules[id.rule]
  {
  }

  lemma LastTurn(rules: seq<Rule>, turns: seq<Turn>)
    requires IsRun(rules, turns) && |turns| > 0
    ensures var t := Last(turns);
            && IsRun(rules, Front(turns))
            && Evaluated(rules, After(Front(turns)), |turns|, t.snap, t.now, t.post, t.log)
            && Fresh(rules, After(Front(turns)), |turns| - 1)
  {
    RunIsFresh(rules, Front(turns));
  }

  lemma LastTick(rules: seq<Rule>, turns: seq<Turn>, id: SubjectId)
    requires IsRun(rules, turns) && DistinctSnapshots(turns) && |turns| > 0 && id.rule < |rules|
    ensures IsRun(rules, Front(turns)) && DistinctSnapshots(Front(turns))
    ensures var st, r := StatusOf(Look(After(Front(turns)), id)), ReadingOf(rules, Last(turns), id);
            && StatusOf(Look(After(turns), id)) == Next(rules[id.rule], st, r)
            && SignalsOf(Filter(Last(turns).log, id)) == Optional(Emit(rules[id.rule], st, r))
  {
    LastTurn(rules, turns);
    TickRefines(rules, After(Front(turns)), |turns| - 1, Last(turns), id);
  }

  lemma SignalsOfConcat(a: seq<Entry>, b: seq<Entry>)
    ensures SignalsOf(a + b) == SignalsOf(a) + SignalsOf(b)
  {
  }

  /** Refinement: whatever the other subjects do, the engine's state for one subject and its
      events about that subject are those of the subject's own automaton, fed with what the
      snapshots showed of it. */
  lemma {:induction false} EngineRefinesAutomata(rules: seq<Rule>, turns: seq<Turn>, id: SubjectId)
    requires IsRun(rules, turns) && DistinctSnapshots(turns) && id.rule < |rules|
    ensures var h := HistoryOf(rules, turns, id);
            && StatusOf(Look(After(turns), id)) == StatusAfter(rules[id.rule], h)
            && SignalsOf(Filter(LogOf(turns), id)) == Signals(rules[id.rule], h)
  {
    if |turns| > 0 {
      LastTick(rules, turns, id);
      EngineRefinesAutomata(rules, Front(turns), id);
      HistoryFront(rules, turns, id);
      FilterConcat(LogOf(Front(turns)), Last(turns).log, id);
      SignalsOfConcat(Filter(LogOf(Front(turns)), id), Filter(Last(turns).log, id));
    }
  }

  ghost predicate ClockForward(turns: seq<Turn>) {
    forall i, j :: 0 <= i <= j < |turns| ==> turns[i].now <= turns[j].now
  }

  lemma HistoryIsMonotone(rules: seq<Rule>, turns: seq<Turn>, id: SubjectId)
    requires ClockForward(turns) && id.rule < |rules|
    ensures Monotone(HistoryOf(rules, turns, id))
  {
    hide Observe;
  }

  lemma ActiveIsFiring(states: States, id: SubjectId)
    ensures id in ActiveSet(states) <==> StatusOf(Look(states, id)).FiringSince?
  {
  }

  /** The firing theorem for the engine: an alert is on exactly when the snapshots justify it. */
  lemma EngineFiringTheorem(rules: seq<Rule>, turns: seq<Turn>, id: SubjectId)
    requires IsRun(rules, turns) && DistinctSnapshots(turns) && ClockForward(turns)
    requires id.rule < |rules| && rules[id.rule].Sane()
    ensures id in ActiveSet(After(turns)) <==> ShouldFire(rules[id.rule], HistoryOf(rules, turns, id))
  {
    hide IsRun, LogOf, After, HistoryOf, Filter, SignalsOf, Signals, StatusAfter, ShouldFire, ActiveSet, Monotone;
    EngineRefinesAutomata(rules, turns, id);
    HistoryIsMonotone(rules, turns, id);
    ActiveIsFiring(After(turns), id);
    FiringTheorem(rules[id.rule], HistoryOf(rules, turns, id));
  }

  /** The events about one subject, over a whole run of the engine: they alternate, the last one
      tells whether the alert is on, and each firing costs a sustain window of the run's time. */
  lemma EventsOfOneSubject(rules: seq<Rule>, turns: seq<Turn>, id: SubjectId)
    requires IsRun(rules, turns) && DistinctSnapshots(turns) && ClockForward(turns)
    requires id.rule < |rules| && |turns| > 0
    ensures var sigs := SignalsOf(Filter(LogOf(turns), id));
            && Alternates(false, sigs, id in ActiveSet(After(turns)))
            && CountFired(sigs) * rules[id.rule].sustain <= Last(turns).now - turns[0].now
  {
    hide IsRun, LogOf, After, Observe, Filter, SignalsOf, Signals, StatusFrom, SignalsFrom, Alternates, CountFired,
      ActiveSet, Monotone;
    var rule, h := rules[id.rule], HistoryOf(rules, turns, id);
    EngineRefinesAutomata(rules, turns, id);
    HistoryIsMonotone(rules, turns, id);
    ActiveIsFiring(After(turns), id);
    AllSignalsAlternate(rule, h);
    SustainBoundsTheRate(rule, h);
  }

  lemma AllSignalsAlternate(rule: Rule, h: seq<Reading>)
    ensures Alternates(false, Signals(rule, h), StatusAfter(rule, h).FiringSince?)
  {
    hide Alternates, SignalsFrom, StatusFrom;
    SignalsAlternate(rule, Inactive, h);
  }

  /** The clearing events about one subject, and the age of its alert if it is on, account for all
      the time the alert was on. */
  lemma HeldTimesOfOneSubject(rules: seq<Rule>, turns: seq<Turn>, id: SubjectId)
    requires IsRun(rules, turns) && DistinctSnapshots(turns) && ClockForward(turns)
    requires id.rule < |rules| && |turns| > 0
    ensures ClosedTime(SignalsOf(Filter(LogOf(turns), id))) + Age(StatusOf(Look(After(turns), id)), Last(turns).now)
            == FiringTime(rules[id.rule], HistoryOf(rules, turns, id))
  {
    hide IsRun, LogOf, After, Observe, Filter, SignalsOf, Signals, StatusAfter, ClosedTime, FiringTime, Age, Monotone;
    EngineRefinesAutomata(rules, turns, id);
    HistoryIsMonotone(rules, turns, id);
    HeldTimesAddUp(rules[id.rule], HistoryOf(rules, turns, id));
  }

  lemma {:induction false} LogSplits(before: seq<Turn>, stretch: seq<Turn>, id: SubjectId)
    ensures Filter(LogOf(before + stretch), id) == Filter(LogOf(before), id) + Filter(LogOf(stretch), id)
  {
    if |stretch| == 0 {
      assert before + stretch == before;
    } else {
      var last := Last(stretch).log;
      LogSplits(before, Front(stretch), id);
      assert Front(before + stretch) == before + Front(stretch) && Last(before + stretch) == Last(stretch);
      hide Filter;
      FilterConcat(LogOf(before + Front(stretch)), last, id);
      FilterConcat(LogOf(Front(stretch)), last, id);
    }
  }

  lemma {:induction false} RunPrefix(rules: seq<Rule>, before: seq<Turn>, stretch: seq<Turn>)
    requires IsRun(rules, before + stretch)
    ensures IsRun(rules, before)
  {
    if |stretch| == 0 {
      assert before + stretch == before;
    } else {
      hide Evaluated;
      assert Front(before + stretch) == before + Front(stretch);
      RunPrefix(rules, before, Front(stretch));
    }
  }

  lemma HistorySplits(rules: seq<Rule>, before: seq<Turn>, stretch: seq<Turn>, id: SubjectId)
    ensures HistoryOf(rules, before + stretch, id) == HistoryOf(rules, before, id) + HistoryOf(rules, stretch, id)
  {
    hide ReadingOf;
  }

  /** The events about one subject in a stretch of a run are what its automaton emits there, from
      the status it had when the stretch began. */
  lemma StretchRefines(rules: seq<Rule>, before: seq<Turn>, stretch: seq<Turn>, id: SubjectId) returns (st: Status)
    requires IsRun(rules, before + stretch) && DistinctSnapshots(before + stretch) && id.rule < |rules|
    ensures IsRun(rules, before) && st == StatusOf(Look(After(before), id))
    ensures SignalsOf(Filter(LogOf(stretch), id)) == SignalsFrom(rules[id.rule], st, HistoryOf(rules, stretch, id))
  {
    hide IsRun, LogOf, Observe, Filter, SignalsOf, SignalsFrom, StatusFrom, After;
    var rule, a, b := rules[id.rule], HistoryOf(rules, before, id), HistoryOf(rules, stretch, id);
    st := StatusFrom(rule, Inactive, a);
    RunPrefix(rules, before, stretch);
    assert DistinctSnapshots(before) by {
      assert forall i :: 0 <= i < |before| ==> before[i] == (before + stretch)[i];
    }
    EngineRefinesAutomata(rules, before, id);
    EngineRefinesAutomata(rules, before + stretch, id);
    HistorySplits(rules, before, stretch, id);
    SignalsSplit(rule, Inactive, a, b);
    LogSplits(before, stretch, id);
    SignalsOfConcat(Filter(LogOf(before), id), Filter(LogOf(stretch), id));
    SameRest(SignalsOf(Filter(LogOf(before), id)), SignalsOf(Filter(LogOf(stretch), id)), SignalsFrom(rule, st, b));
  }

  lemma SameRest<T>(a: seq<T>, b: seq<T>, c: seq<T>)
    requires a + b == a + c
    ensures b == c
  {
    assert b == (a + b)[|a|..] && c == (a + c)[|a|..];
  }

  /** The deadband theorem for the engine: in any stretch of any run in which the snapshots show a
      subject throughout, every event about it after the first costs its value a trip across the
      whole deadband. */
  lemma EngineDeadbandTheorem(rules: seq<Rule>, before: seq<Turn>, stretch: seq<Turn>, id: SubjectId, trips: nat)
    requires IsRun(rules, before + stretch) && DistinctSnapshots(before + stretch)
    requires id.rule < |rules| && rules[id.rule].Sane()
    requires Observed(HistoryOf(rules, stretch, id)) && |Filter(LogOf(stretch), id)| == trips + 1
    ensures Variation(HistoryOf(rules, stretch, id)) >= trips as real * rules[id.rule].Deadband()
  {
    hide IsRun, LogOf, Observe, Filter, SignalsFrom, Observed, Variation, HistoryOf;
    var st := StretchRefines(rules, before, stretch, id);
    DeadbandTheorem(rules[id.rule], st, HistoryOf(rules, stretch, id), trips);
  }

  /** The sweep leaves only subjects the last snapshot showed, under their current label. */
  lemma StatesAreObserved(rules: seq<Rule>, turns: seq<Turn>, id: SubjectId)
    requires IsRun(rules, turns) && DistinctSnapshots(turns) && id in After(turns)
    ensures |turns| > 0
    ensures var o := Observe(rules, Last(turns).snap, id);
            o.Some? && After(turns)[id].caption == o.value.caption
  {
    LastTurn(rules, turns);
    TickKeepsObserved(rules, After(Front(turns)), |turns| - 1, Last(turns), id);
  }

  lemma TickKeepsObserved(rules: seq<Rule>, pre: States, tick: nat, t: Turn, id: SubjectId)
    requires Evaluated(rules, pre, tick + 1, t.snap, t.now, t.post, t.log)
    requires Fresh(rules, pre, tick) && DistinctKeys(t.snap.procs) && id in t.post
    ensures var o := Observe(rules, t.snap, id);
            o.Some? && t.post[id].caption == o.value.caption
  {
    var o := Observe(rules, t.snap, id);
    if o.Some? {
      ObservedIsForRule(rules, t.snap, id);
      TickSeen(rules, pre, tick + 1, t.snap, t.now, t.post, t.log, o.value);
    } else {
      TickUnseen(rules, pre, tick, t.snap, t.now, t.post, t.log, id);
    }
  }

  /** What an event says is true: it names its own rule and subject, a firing carries the value
      that is past the threshold, a clearing the value that is not past the clear boundary, and
      "gone" a zero and the last label of a subject the snapshot does not show. */
  ghost predicate Truthful(rules: seq<Rule>, pre: States, snap: Snapshot, e: Entry)
    requires e.id.rule < |rules|
  {
    var rule, o := rules[e.id.rule], Observe(rules, snap, e.id);
    && e.event.ruleName == rule.name && e.event.metric == rule.metric
    && match e.event.kind
       case Fired =>
         && o.Some? && e.event.subject == o.value.caption && e.event.value == o.value.value
         && Past(rule.op, Some(e.event.value), rule.threshold) && e.event.threshold == rule.threshold
       case Cleared =>
         && o.Some? && e.event.subject == o.value.caption && e.event.value == o.value.value
         && !Past(rule.op, Some(e.event.value), rule.clear) && e.event.threshold == rule.clear
       case ClearedGone =>
         && o.None? && e.id in pre && e.event.subject == pre[e.id].caption
         && e.event.value == 0.0 && e.event.threshold == rule.threshold
  }

  lemma InItsFilter(log: seq<Entry>, e: Entry)
    requires e in log
    ensures e in Filter(log, e.id)
  {
    if e != Last(log) {
      InItsFilter(Front(log), e);
    }
  }

  lemma StepIsTruthful(rules: seq<Rule>, pre: States, snap: Snapshot, s: Sighting, now: nat, e: Entry)
    requires e in StepEntries(Look(pre, s.id), s, now) && Observe(rules, snap, s.id) == Some(s)
    requires s.id.rule < |rules| && s.rule == rules[s.id.rule]
    ensures e.id == s.id && Truthful(rules, pre, snap, e)
  {
    hide Observe;
  }

  lemma EventsAreTruthful(rules: seq<Rule>, pre: States, tick: nat, t: Turn, e: Entry)
    requires Evaluated(rules, pre, tick + 1, t.snap, t.now, t.post, t.log)
    requires Fresh(rules, pre, tick) && DistinctKeys(t.snap.procs) && e in t.log
    ensures e.id.rule < |rules| && Truthful(rules, pre, t.snap, e)
  {
    hide Evaluated, Observe, Filter, StepEntries;
    var o := Observe(rules, t.snap, e.id);
    InItsFilter(t.log, e);
    if o.Some? {
      ObservedIsForRule(rules, t.snap, e.id);
      TickSeen(rules, pre, tick + 1, t.snap, t.now, t.post, t.log, o.value);
      StepIsTruthful(rules, pre, t.snap, o.value, t.now, e);
    } else {
      TickUnseen(rules, pre, tick, t.snap, t.now, t.post, t.log, e.id);
    }
  }

  // ---- when an alert that is on went on ----

  lemma {:induction false} FilterKeeps(log: seq<Entry>, id: SubjectId)
    ensures forall e :: e in Filter(log, id) ==> e in log && e.id == id
  {
    if |log| > 0 {
      FilterKeeps(Front(log), id);
      assert forall e :: e in log <==> e in Front(log) || e == Last(log);
    }
  }

  /** The subject fired at that turn, and no event has been about it since. */
  ghost predicate LastFired(turns: seq<Turn>, id: SubjectId, s: nat) {
    && s < |turns|
    && (exists e :: e in turns[s].log && e.id == id && e.event.kind == Fired)
    && (forall u, e :: s < u < |turns| && e in turns[u].log ==> e.id != id)
  }

  /** An alert that is on remembers the instant of its last firing. */
  lemma {:induction false} OnSinceItFired(rules: seq<Rule>, turns: seq<Turn>, id: SubjectId) returns (s: nat)
    requires IsRun(rules, turns) && DistinctSnapshots(turns) && id in ActiveSet(After(turns))
    ensures LastFired(turns, id, s) && After(turns)[id].since == turns[s].now
  {
    hide IsRun, Evaluated, Observe, Filter;
    RunIsFresh(rules, turns);
    var t := Last(turns);
    LastTick(rules, turns, id);
    FilterKeeps(t.log, id);
    if id in ActiveSet(After(Front(turns))) {
      s := OnSinceItFired(rules, Front(turns), id);
      assert Filter(t.log, id) == [];
      forall e | e in t.log ensures e.id != id {
        InItsFilter(t.log, e);
      }
    } else {
      s := |turns| - 1;
      assert Filter(t.log, id)[0] in Filter(t.log, id);
    }
  }

  // ---- every tick has an outcome ----

  lemma {:induction false} SweepExists(rules: seq<Rule>, states: States, now: nat, tick: nat, ids: set<SubjectId>)
    returns (gone: seq<Entry>)
    requires ids <= states.Keys && forall id :: id in states ==> id.rule < |rules|
    ensures IsSweepOf(rules, states, now, tick, ids, gone)
    decreases |ids|
  {
    if ids == {} {
      gone := [];
    } else {
      var id :| id in ids;
      gone := SweepExists(rules, states, now, tick, ids - {id});
      OneMoreSwept(rules, states, now, tick, ids - {id}, gone, id);
      assert ids - {id} + {id} == ids;
      if Orphaned(states, tick, id) {
        gone := gone + [GoneEntry(rules, id, states[id], now)];
      }
    }
  }

  /** Any run can go on with any snapshot at any instant, so the theorems about runs are not empty. */
  lemma RunsGoOn(rules: seq<Rule>, turns: seq<Turn>, snap: Snapshot, now: nat) returns (t: Turn)
    requires IsRun(rules, turns)
    ensures t.snap == snap && t.now == now && IsRun(rules, turns + [t])
  {
    hide Fold, Agenda, IsRun, SeenAt;
    var tick := |turns| + 1;
    var c := Fold(After(turns), now, tick, Agenda(rules, snap));
    FoldIsForRules(rules, turns, snap, now);
    var gone := SweepExists(rules, c.states, now, tick, c.states.Keys);
    t := Turn(snap, now, SeenAt(c.states, tick), c.log + gone);
    OneMoreTurn(rules, turns, t, c.log, gone);
  }

  // ---- rules nothing can be shown to ----

  /** No snapshot ever shows this rule a value, so it neither fires nor keeps a timer. */
  ghost predicate NeverShown(rule: Rule) {
    forall rules: seq<Rule>, snap: Snapshot, id: SubjectId ::
      id.rule < |rules| && rules[id.rule] == rule ==> Observe(rules, snap, id) == None
  }

  predicate HasASource(rule: Rule) {
    match rule.target
    case System => rule.metric in {CpuPct, MemPct, NetRxBps, NetTxBps, ProcCount}
    case Process(_) => rule.metric.AppliesToProcess()
  }

  const QUIET := SystemRate(
    0.0, [], MemInfo(0, 0, 0, 0, 0, 0, 0), 0.0, 0.0, 0, 0, 0.0, 0, 0, 0, 0, 0, 0)

  /** A table with one process of the given name. */
  function OneProcess(comm: string): Snapshot {
    Snapshot(QUIET, [ProcRate(ProcKey(1, 0), 1, 0, comm, 'R', 1, 0.0, 0, 0,
                              Some(0.0), Some(0.0), None, None, None, false)])
  }

  /** Exactly the rules whose metric does not exist for their target are never evaluated. */
  lemma WhoIsNeverShown(rule: Rule)
    ensures NeverShown(rule) <==> !HasASource(rule)
  {
    if HasASource(rule) {
      var comm := if rule.target.Process? then rule.target.pattern else "";
      var id := SubjectId(0, if rule.target.Process? then Some(ProcKey(1, 0)) else None);
      var procs := OneProcess(comm).procs;
      assert Front(procs) == [] && Last(procs) == procs[0];
      assert Observe([rule], OneProcess(comm), id).Some?;
    }
  }

  // ---- the order of the process table does not matter ----

  lemma SameRowsSameLookup(a: seq<ProcRate>, b: seq<ProcRate>, key: ProcKey)
    requires multiset(a) == multiset(b) && DistinctKeys(a) && DistinctKeys(b)
    ensures FindRow(a, key) == FindRow(b, key)
  {
    var ra, rb := FindRow(a, key), FindRow(b, key);
    assert forall p :: p in a <==> p in multiset(a);
    assert forall p :: p in b <==> p in multiset(b);
    if ra.Some? {
      FindRowIsUnique(b, ra.value);
    }
  }

  lemma SameRowsSameObservations(rules: seq<Rule>, a: Snapshot, b: Snapshot, id: SubjectId)
    requires a.system == b.system && multiset(a.procs) == multiset(b.procs)
    requires DistinctKeys(a.procs) && DistinctKeys(b.procs)
    ensures Observe(rules, a, id) == Observe(rules, b, id)
  {
    if id.procKey.Some? {
      SameRowsSameLookup(a.procs, b.procs, id.procKey.value);
    }
  }

  lemma {:induction false} FilterCounts(log: seq<Entry>, e: Entry)
    ensures multiset(log)[e] == multiset(Filter(log, e.id))[e]
  {
    if |log| > 0 {
      FilterCounts(Front(log), e);
      FrontMultiset(log);
    }
  }

  lemma SameFiltersSameEvents(a: seq<Entry>, b: seq<Entry>)
    requires forall id :: Filter(a, id) == Filter(b, id)
    ensures multiset(a) == multiset(b)
  {
    forall e ensures multiset(a)[e] == multiset(b)[e] {
      FilterCounts(a, e);
      FilterCounts(b, e);
    }
  }

  lemma SameObservationSameTick(rules: seq<Rule>, pre: States, tick: nat, a: Turn, b: Turn, id: SubjectId)
    requires Fresh(rules, pre, tick) && a.now == b.now
    requires Evaluated(rules, pre, tick + 1, a.snap, a.now, a.post, a.log)
    requires Evaluated(rules, pre, tick + 1, b.snap, b.now, b.post, b.log)
    requires DistinctKeys(a.snap.procs) && DistinctKeys(b.snap.procs)
    requires Observe(rules, a.snap, id) == Observe(rules, b.snap, id)
    ensures Look(a.post, id) == Look(b.post, id) && Filter(a.log, id) == Filter(b.log, id)
  {
    var o := Observe(rules, a.snap, id);
    if o.Some? {
      ObservedIsForRule(rules, a.snap, id);
      TickSeen(rules, pre, tick + 1, a.snap, a.now, a.post, a.log, o.value);
      TickSeen(rules, pre, tick + 1, b.snap, b.now, b.post, b.log, o.value);
    } else {
      TickUnseen(rules, pre, tick, a.snap, a.now, a.post, a.log, id);
      TickUnseen(rules, pre, tick, b.snap, b.now, b.post, b.log, id);
    }
  }

  lemma SameLooksSameStates(a: States, b: States)
    requires forall id :: Look(a, id) == Look(b, id)
    ensures a == b
  {
    assert forall id :: (id in a <==> Look(a, id).Some?) && (id in b <==> Look(b, id).Some?);
  }

  /** Neither the order of `snap.procs` nor the order in which the hash map is visited shows:
      the states are the same, and the events are the same but for their order. */
  lemma OrderDoesNotMatter(rules: seq<Rule>, pre: States, tick: nat, a: Turn, b: Turn)
    requires Fresh(rules, pre, tick) && a.now == b.now
    requires Evaluated(rules, pre, tick + 1, a.snap, a.now, a.post, a.log)
    requires Evaluated(rules, pre, tick + 1, b.snap, b.now, b.post, b.log)
    requires a.snap.system == b.snap.system && multiset(a.snap.procs) == multiset(b.snap.procs)
    requires DistinctKeys(a.snap.procs) && DistinctKeys(b.snap.procs)
    ensures a.post == b.post && multiset(a.log) == multiset(b.log)
  {
    forall id ensures Look(a.post, id) == Look(b.post, id) && Filter(a.log, id) == Filter(b.log, id) {
      SameRowsSameObservations(rules, a.snap, b.snap, id);
      SameObservationSameTick(rules, pre, tick, a, b, id);
    }
    SameLooksSameStates(a.post, b.post);
    SameFiltersSameEvents(a.log, b.log);
  }

  // ---- conservation of events ----

  /** Replays a stream of entries over a set of active subjects; None as soon as an entry fires
      what is already on or clears what is not. */
  function Replay(active: set<SubjectId>, log: seq<Entry>): Option<set<SubjectId>> {
    if |log| == 0 then Some(active)
    else
      var r := Replay(active, Front(log));
      var e := Last(log);
      if r.None? then None
      else if e.event.kind == Fired then (if e.id in r.value then None else Some(r.value + {e.id}))
      else if e.id in r.value then Some(r.value - {e.id}) else None
  }

  lemma {:induction false} ReplayConcat(active: set<SubjectId>, a: seq<Entry>, b: seq<Entry>)
    requires Replay(active, a).Some?
    ensures Replay(active, a + b) == Replay(Replay(active, a).value, b)
  {
    if |b| == 0 {
      assert a + b == a;
    } else {
      ReplayConcat(active, a, Front(b));
      assert Front(a + b) == a + Front(b);
    }
  }

  lemma OneStepReplays(states: States, s: Sighting, now: nat, tick: nat)
    ensures Replay(ActiveSet(states), StepEntries(Look(states, s.id), s, now))
            == Some(ActiveSet(Put(states, s.id, StepState(Look(states, s.id), s, now, tick))))
  {
    var st := Look(states, s.id);
    var post := Put(states, s.id, StepState(st, s, now, tick));
    var entries := StepEntries(st, s, now);
    var was, now' := ActiveSet(states), ActiveSet(post);
    assert forall id :: id != s.id ==> (id in was <==> id in now');
    if |entries| == 1 {
      assert Front(entries) == [];
      assert Replay(was, []) == Some(was);
      if entries[0].event.kind == Fired {
        assert now' == was + {s.id};
      } else {
        assert now' == was - {s.id};
      }
    } else {
      assert now' == was;
    }
  }

  lemma {:induction false} FoldReplays(states: States, now: nat, tick: nat, agenda: seq<Sighting>)
    ensures var c := Fold(states, now, tick, agenda);
            Replay(ActiveSet(states), c.log) == Some(ActiveSet(c.states))
  {
    if |agenda| > 0 {
      var c := Fold(states, now, tick, Front(agenda));
      FoldReplays(states, now, tick, Front(agenda));
      OneStepReplays(c.states, Last(agenda), now, tick);
      ReplayConcat(ActiveSet(states), c.log, StepEntries(Look(c.states, Last(agenda).id), Last(agenda), now));
    }
  }

  function IdsOf(log: seq<Entry>): set<SubjectId> {
    set e | e in log :: e.id
  }

  lemma IdsOfLast(log: seq<Entry>)
    requires |log| > 0
    requires forall i, j :: 0 <= i < j < |log| ==> log[i].id != log[j].id
    ensures IdsOf(log) == IdsOf(Front(log)) + {Last(log).id} && Last(log).id !in IdsOf(Front(log))
  {
    assert forall x :: x in log <==> x in Front(log) || x == Last(log);
  }

  lemma {:induction false} ClearsReplay(active: set<SubjectId>, gone: seq<Entry>)
    requires forall i, j :: 0 <= i < j < |gone| ==> gone[i].id != gone[j].id
    requires forall e :: e in gone ==> e.id in active && e.event.kind != Fired
    ensures Replay(active, gone) == Some(active - IdsOf(gone))
  {
    if |gone| == 0 {
      assert active - IdsOf(gone) == active;
    } else {
      ClearsReplay(active, Front(gone));
      IdsOfLast(gone);
      assert Last(gone) in gone;
      assert active - IdsOf(Front(gone)) - {Last(gone).id} == active - IdsOf(gone);
    }
  }

  lemma SweepReplays(rules: seq<Rule>, states: States, now: nat, tick: nat, gone: seq<Entry>)
    requires IsSweep(rules, states, now, tick, gone)
    ensures Replay(ActiveSet(states), gone) == Some(ActiveSet(SeenAt(states, tick)))
  {
    ClearsReplay(ActiveSet(states), gone);
    forall id ensures id in ActiveSet(states) - IdsOf(gone) <==> id in ActiveSet(SeenAt(states, tick)) {
      if Orphaned(states, tick, id) {
        var e :| e in gone && e.id == id;
      }
    }
    assert ActiveSet(states) - IdsOf(gone) == ActiveSet(SeenAt(states, tick));
  }

  lemma EvaluateReplays(rules: seq<Rule>, pre: States, tick: nat, snap: Snapshot, now: nat,
                        post: States, log: seq<Entry>)
    requires Evaluated(rules, pre, tick, snap, now, post, log)
    ensures Replay(ActiveSet(pre), log) == Some(ActiveSet(post))
  {
    var agenda := Agenda(rules, snap);
    var c := Fold(pre, now, tick, agenda);
    FoldReplays(pre, now, tick, agenda);
    var gone := log[|c.log|..];
    SweepReplays(rules, c.states, now, tick, gone);
    assert log == c.log + gone;
    ReplayConcat(ActiveSet(pre), c.log, gone);
  }

  /** Replaying everything the engine ever reported gives exactly the alerts that are on.
      Holds for every run, whatever the snapshots contain. */
  lemma {:induction false} EventsReplayToActiveSet(rules: seq<Rule>, turns: seq<Turn>)
    requires IsRun(rules, turns)
    ensures Replay({}, LogOf(turns)) == Some(ActiveSet(After(turns)))
  {
    if |turns| > 0 {
      var t := Last(turns);
      EventsReplayToActiveSet(rules, Front(turns));
      EvaluateReplays(rules, After(Front(turns)), |turns|, t.snap, t.now, t.post, t.log);
      ReplayConcat({}, LogOf(Front(turns)), t.log);
    } else {
      assert ActiveSet(map[]) == {};
    }
  }

  function CountKind(log: seq<Entry>, kind: Kind): nat {
    if |log| == 0 then 0 else CountKind(Front(log), kind) + if Last(log).event.kind == kind then 1 else 0
  }

  lemma {:induction false} ReplayCounts(active: set<SubjectId>, log: seq<Entry>)
    requires Replay(active, log).Some?
    ensures |Replay(active, log).value| ==
            |active| + CountKind(log, Fired) - CountKind(log, Cleared) - CountKind(log, ClearedGone)
  {
    if |log| > 0 {
      ReplayCounts(active, Front(log));
    }
  }

  /** Fired - Cleared - ClearedGone = `active_count()`, after every tick. */
  lemma EventsBalance(rules: seq<Rule>, turns: seq<Turn>)
    requires IsRun(rules, turns)
    ensures var log := LogOf(turns);
            CountKind(log, Fired) - CountKind(log, Cleared) - CountKind(log, ClearedGone)
            == |ActiveSet(After(turns))|
  {
    EventsReplayToActiveSet(rules, turns);
    ReplayCounts({}, LogOf(turns));
  }
}
