/** The sampler's own code (src/sampler.rs), statement by statement, proved against the step
    system: what a cycle computes, what the handover writes, and how long the nap lasts. */
module SamplerThread {
  import opened Prelude
  import opened Procfs
  import opened Delta
  import opened Rules
  import opened AlertEngine
  import opened RingBuffer
  import opened Sampler

  // ---- the shared state behind the lock ----

  class Board {
    var latest: Option<Snapshot>
    const history: Ring<HistoryPoint>
    const events: Ring<Event>
    var active: seq<ActiveAlert>
    var lastError: Option<string>

    ghost predicate Valid(cfg: Config)
      reads this, history, history.slots, events, events.slots
    {
      && history.Valid() && history.Capacity() == cfg.historyCap
      && events.Valid() && events.Capacity() == cfg.eventCap
    }

    ghost function View(): Shared
      reads this, history, events
    {
      Shared(latest, history.Contents(), history.pushed, events.Contents(), events.pushed, active, lastError)
    }

    constructor (historyLen: nat, eventLogLen: nat)
      ensures fresh(history) && fresh(history.slots) && fresh(events) && fresh(events.slots)
      ensures forall cfg: Config ::
                cfg.historyCap == Max(historyLen, 1) && cfg.eventCap == Max(eventLogLen, 1) ==> Valid(cfg)
      ensures View() == EMPTY
    {
      latest, active, lastError := None, [], None;
      history := new Ring<HistoryPoint>(historyLen);
      events := new Ring<Event>(eventLogLen);
    }

    method PushPoint(cfg: Config, snapshot: Option<Snapshot>, ghost o: Outcome)
      requires Valid(cfg) && snapshot == o.snapshot
      modifies history, history.slots
      ensures Valid(cfg) && View() == WithPoint(cfg, old(View()), o)
    {
      hide PointOf, PushOnto, Recent;
      if snapshot.Some? {
        var _ := history.Push(PointOf(snapshot.value));
      }
    }

    method PushEvent(cfg: Config, e: Event)
      requires Valid(cfg)
      modifies events, events.slots
      ensures Valid(cfg) && View() == WithEvent(cfg, old(View()), e)
    {
      hide PushOnto, Recent;
      var _ := events.Push(e);
    }

    method PushEvents(cfg: Config, newEvents: seq<Event>)
      requires Valid(cfg)
      modifies events, events.slots
      ensures Valid(cfg) && View() == WithEvents(cfg, old(View()), newEvents)
    {
      assert WithEvents(cfg, View(), newEvents[..0]) == View();
      hide WithEvents, WithEvent, View;
      for i := 0 to |newEvents|
        invariant Valid(cfg)
        invariant View() == WithEvents(cfg, old(View()), newEvents[..i])
      {
        WithEventsNext(cfg, old(View()), newEvents, i);
        PushEvent(cfg, newEvents[i]);
      }
      assert newEvents[..|newEvents|] == newEvents;
    }

    /** The body of the write-locked block. */
    method HandOver(cfg: Config, snapshot: Option<Snapshot>, newEvents: seq<Event>, alerts: seq<Alert>,
                    err: Option<string>, ghost o: Outcome)
      requires Valid(cfg)
      requires snapshot == o.snapshot && newEvents == EventsOf(o.log) && alerts == o.alerts && err == o.error
      modifies this, history, history.slots, events, events.slots
      ensures Valid(cfg) && View() == Publish(cfg, old(View()), o)
      ensures snapshot.Some? ==>
                |history.Contents()| > 0 && Plots(Last(history.Contents()), snapshot.value.system)
      ensures |active| == |alerts|
      ensures forall i :: 0 <= i < |active| ==>
                active[i].rule == alerts[i].rule && active[i].subject == alerts[i].subject
                && active[i].held == alerts[i].held
    {
      HandoverShows(cfg, View(), o);
      hide WithPoint, WithEvents, ActiveAlerts, Recent, Plots;
      PushPoint(cfg, snapshot, o);
      PushEvents(cfg, newEvents);
      if snapshot.Some? {
        latest := snapshot;
      }
      active := ActiveAlerts(alerts);
      lastError := err;
    }
  }

  lemma WithEventsNext(cfg: Config, sh: Shared, events: seq<Event>, i: nat)
    requires i < |events|
    ensures WithEvents(cfg, sh, events[..i + 1]) == WithEvent(cfg, WithEvents(cfg, sh, events[..i]), events[i])
  {
    hide WithEvent;
    assert Front(events[..i + 1]) == events[..i];
  }

  // ---- one cycle ----

  datatype Scan = Ok(sample: Sample) | Err(message: string)

  /** A scan as the cycle sees it: what was found, stamped with the clock. */
  ghost predicate Stamped(found: Scan, scan: Scan) {
    match found
    case Ok(sample) => scan.Ok? && scan.sample == sample.(at := scan.sample.at)
    case Err(_) => scan == found
  }

  /** What the work of one cycle does: a good scan becomes the new baseline and, when there was
      one, is diffed against it and evaluated; a bad scan leaves baseline and engine alone. */
  ghost predicate CycleWork(k: SysConst, scan: Scan, now: nat, prev: Option<Sample>, turns: seq<Turn>,
                            prev': Option<Sample>, turns': seq<Turn>, o: Outcome)
  {
    match scan
    case Err(e) =>
      prev' == prev && turns' == turns && o.snapshot == None && o.log == [] && o.error == Some(e)
    case Ok(cur) =>
      && prev' == Some(cur) && o.error == None
      && match prev
         case None => turns' == turns && o.snapshot == None && o.log == []
         case Some(p) =>
           && |turns'| > 0 && turns == Front(turns')
           && (var t := Last(turns');
               IsDiff(k, p, cur, t.snap) && t.now == now && o.snapshot == Some(t.snap) && o.log == t.log)
  }

  lemma QuietWork(k: SysConst, scan: Scan, now: nat, prev: Option<Sample>, turns: seq<Turn>)
    requires scan.Ok? ==> prev == None
    ensures CycleWork(k, scan, now, prev, turns, if scan.Ok? then Some(scan.sample) else prev, turns,
                      Blank(None, [], if scan.Err? then Some(scan.message) else None))
  {
    hide IsDiff;
  }

  lemma DiffWork(k: SysConst, cur: Sample, now: nat, prev: Sample, turns: seq<Turn>, turns': seq<Turn>)
    requires |turns'| > 0 && turns == Front(turns')
    requires Last(turns').now == now && IsDiff(k, prev, cur, Last(turns').snap)
    ensures CycleWork(k, Ok(cur), now, Some(prev), turns, Some(cur), turns',
                      Blank(Some(Last(turns').snap), Last(turns').log, None))
  {
    hide IsDiff;
  }

  // ---- the cycle is an execution of the step system ----

  /** The moves lead from one world to another. */
  ghost predicate Path(cfg: Config, s: World, moves: seq<Move>, t: World)
    decreases |moves|
  {
    if |moves| == 0 then s == t
    else exists u: World ::
           Path(cfg, s, Front(moves), u) && Enabled(cfg, u, Last(moves)) && t == Apply(cfg, u, Last(moves))
  }

  lemma PathStep(cfg: Config, s: World, moves: seq<Move>, u: World, m: Move)
    requires Path(cfg, s, moves, u) && Enabled(cfg, u, m)
    ensures Path(cfg, s, moves + [m], Apply(cfg, u, m))
  {
    assert Front(moves + [m]) == moves;
  }

  function StagesLeft(o: Outcome, stage: Stage): nat
    requires stage.EventNext? ==> stage.i < |o.log|
  {
    match stage
    case PointNext => |o.log| + 4
    case EventNext(i) => |o.log| - i + 3
    case LatestNext => 3
    case ActiveNext => 2
    case ErrorNext => 1
    case ReleaseNext => 0
  }

  /** The write-locked block, entered with the lock in hand, always runs to its end. */
  lemma {:induction false} HandoverPath(cfg: Config, s: World, moves: seq<Move>, u: World, base: Shared)
    returns (moves': seq<Move>)
    requires Path(cfg, s, moves, u)
    requires u.pc.Publishing? && StageOk(u.pc.out, u.pc.stage) && u.shared == AtStage(cfg, base, u.pc.out, u.pc.stage)
    ensures Path(cfg, s, moves', u.(pc := Counting, lock := Free, shared := Publish(cfg, base, u.pc.out),
                                    published := u.published + [u.pc.out]))
    decreases StagesLeft(u.pc.out, u.pc.stage)
  {
    hide Path, AtStage, WriteStage;
    var o, stage := u.pc.out, u.pc.stage;
    PathStep(cfg, s, moves, u, WriteNext);
    moves' := moves + [WriteNext];
    if stage != ReleaseNext {
      StageStep(cfg, base, o, stage);
      var v := u.(pc := Publishing(o, NextStage(o, stage)), shared := AtStage(cfg, base, o, NextStage(o, stage)));
      moves' := HandoverPath(cfg, s, moves', v, base);
    }
  }

  /** The clock can be moved on to any later instant. */
  lemma WaitUntil(cfg: Config, s: World, moves: seq<Move>, u: World, at: nat) returns (moves': seq<Move>)
    requires Path(cfg, s, moves, u) && u.clock <= at
    ensures Path(cfg, s, moves', u.(clock := at))
  {
    PathStep(cfg, s, moves, u, Advance(at - u.clock));
    moves' := moves + [Advance(at - u.clock)];
  }

  /** Whoever holds the read lock can leave it. */
  lemma {:induction false} ReadersLeave(cfg: Config, s: World, moves: seq<Move>, u: World)
    returns (moves': seq<Move>, t: World)
    requires Path(cfg, s, moves, u) && u.lock != Writing
    ensures Path(cfg, s, moves', t) && t == u.(lock := Free, reading := t.reading)
    decreases if u.lock.ReadBy? then u.lock.readers + 1 else 0
  {
    if u.lock.ReadBy? {
      hide Path;
      PathStep(cfg, s, moves, u, ReadUnlock);
      moves', t := ReadersLeave(cfg, s, moves + [ReadUnlock], Apply(cfg, u, ReadUnlock));
    } else {
      moves', t := moves, u;
    }
  }

  /** A scan with a baseline: diff, evaluate, keep the sample. */
  lemma DiffPath(cfg: Config, s: World, moves: seq<Move>, u: World, t: Turn) returns (moves': seq<Move>)
    requires Path(cfg, s, moves, u) && u.pc.Diffing? && u.prev.Some?
    requires IsDiff(cfg.k, u.prev.value, u.pc.cur, t.snap)
    requires Evaluated(cfg.rules, After(u.turns), |u.turns| + 1, t.snap, t.now, t.post, t.log) && t.now == u.clock
    ensures Path(cfg, s, moves', u.(pc := Listing(Blank(Some(t.snap), t.log, None)), turns := u.turns + [t],
                                    prev := Some(u.pc.cur), samples := u.samples + [u.pc.cur]))
  {
    hide Path, IsDiff, Evaluated;
    PathStep(cfg, s, moves, u, TakeDiff(t.snap));
    var v := Apply(cfg, u, TakeDiff(t.snap));
    PathStep(cfg, s, moves + [TakeDiff(t.snap)], v, Move.Evaluate(t.post, t.log));
    moves' := moves + [TakeDiff(t.snap)] + [Move.Evaluate(t.post, t.log)];
  }

  /** Taking in the result of a scan. */
  lemma ScanPath(cfg: Config, s: World, scan: Scan, now: nat) returns (moves: seq<Move>, u: World)
    requires s.pc == Collecting && s.clock <= now
    requires scan.Ok? ==> s.cycleStart <= scan.sample.at <= now
    ensures Path(cfg, s, moves, u)
    ensures u == match scan
                 case Err(e) => s.(clock := now, pc := Listing(Blank(None, [], Some(e))))
                 case Ok(cur) =>
                   if s.prev.Some? then s.(clock := now, pc := Diffing(cur))
                   else s.(clock := now, pc := Listing(Blank(None, [], None)), prev := Some(cur),
                           samples := s.samples + [cur])
  {
    assert Path(cfg, s, [], s);
    var m := match scan case Err(e) => CollectErr(e) case Ok(cur) => CollectOk(cur);
    moves := WaitUntil(cfg, s, [], s, now);
    u := s.(clock := now);
    PathStep(cfg, s, moves, u, m);
    moves, u := moves + [m], Apply(cfg, u, m);
  }

  /** What the work of a cycle does not touch. */
  predicate SameBooks(s: World, t: World) {
    && t.stop == s.stop && t.cycleStart == s.cycleStart && t.starts == s.starts && t.spans == s.spans
    && t.ticks == s.ticks && t.overruns == s.overruns
  }

  /** The work of a cycle, as moves, up to the point where the active alerts are asked for. */
  lemma WorkPath(cfg: Config, s: World, scan: Scan, now: nat, prev': Option<Sample>, turns': seq<Turn>, o: Outcome)
    returns (moves: seq<Move>, u: World)
    requires s.pc == Collecting && s.clock <= now
    requires scan.Ok? ==> s.cycleStart <= scan.sample.at <= now
    requires CycleWork(cfg.k, scan, now, s.prev, s.turns, prev', turns', o) && IsRun(cfg.rules, turns')
    ensures Path(cfg, s, moves, u)
    ensures u.pc == Listing(Blank(o.snapshot, o.log, o.error)) && u.prev == prev' && u.turns == turns'
    ensures u.clock == now && u.lock == s.lock && u.shared == s.shared && u.published == s.published
    ensures SameBooks(s, u)
  {
    hide Path, IsDiff, Evaluated;
    moves, u := ScanPath(cfg, s, scan, now);
    if scan.Ok? && s.prev.Some? {
      var t := Last(turns');
      assert turns' == s.turns + [t];
      moves := DiffPath(cfg, s, moves, u, t);
      u := u.(pc := Listing(Blank(Some(t.snap), t.log, None)), turns := u.turns + [t],
              prev := Some(u.pc.cur), samples := u.samples + [u.pc.cur]);
    }
  }

  /** Listing the alerts, waiting for the lock and handing over. */
  lemma ListPath(cfg: Config, s: World, moves: seq<Move>, u: World, o: Outcome) returns (moves': seq<Move>, t: World)
    requires Path(cfg, s, moves, u) && u.lock != Writing && u.cycleStart <= o.from <= u.clock == o.at
    requires u.pc == Listing(Blank(o.snapshot, o.log, o.error)) && ListedFrom(cfg, o, After(u.turns))
    ensures Path(cfg, s, moves', t)
    ensures t == u.(pc := Counting, lock := Free, shared := Publish(cfg, u.shared, o),
                    published := u.published + [o], reading := t.reading)
  {
    hide Path, Publish, ListsActive;
    PathStep(cfg, s, moves, u, ListActive(o.from, o.ids, o.alerts));
    var v := u.(pc := Waiting(o));
    moves', v := ReadersLeave(cfg, s, moves + [ListActive(o.from, o.ids, o.alerts)], v);
    PathStep(cfg, s, moves', v, WriteLock);
    moves' := HandoverPath(cfg, s, moves' + [WriteLock], v.(pc := Publishing(o, PointNext), lock := Writing), u.shared);
    t := v.(pc := Counting, lock := Free, shared := Publish(cfg, u.shared, o), published := u.published + [o]);
  }

  /** Whatever one pass of the thread's loop may compute and hand over, some run of the step system
      does, from any state at the start of a scan. */
  lemma CycleIsAnExecution(cfg: Config, s: World, scan: Scan, now: nat,
                           prev': Option<Sample>, turns': seq<Turn>, o: Outcome)
    returns (moves: seq<Move>, t: World)
    requires s.pc == Collecting && s.lock != Writing && s.clock <= now <= o.at && s.cycleStart <= o.from <= o.at
    requires scan.Ok? ==> s.cycleStart <= scan.sample.at <= now
    requires CycleWork(cfg.k, scan, now, s.prev, s.turns, prev', turns', o) && IsRun(cfg.rules, turns')
    requires ListedFrom(cfg, o, After(turns'))
    ensures Path(cfg, s, moves, t)
    ensures t.pc == Counting && t.lock == Free && t.prev == prev' && t.turns == turns'
    ensures t.shared == Publish(cfg, s.shared, o) && t.published == s.published + [o]
    ensures t.clock == o.at && SameBooks(s, t)
  {
    hide CycleWork, IsRun, Path, ListedFrom, Publish;
    var u;
    moves, u := WorkPath(cfg, s, scan, now, prev', turns', o);
    moves := WaitUntil(cfg, s, moves, u, o.at);
    u := u.(clock := o.at);
    moves, t := ListPath(cfg, s, moves, u, o);
  }

  /** A path from the end of an execution is an execution. */
  lemma {:induction false} PathsExtendExecutions(cfg: Config, before: seq<Move>, s: World, moves: seq<Move>, t: World)
    requires IsExecution(cfg, before, s) && Path(cfg, s, moves, t)
    ensures IsExecution(cfg, before + moves, t)
  {
    if |moves| == 0 {
      assert before + moves == before;
    } else {
      var u: World :| Path(cfg, s, Front(moves), u) && Enabled(cfg, u, Last(moves))
                      && t == Apply(cfg, u, Last(moves));
      PathsExtendExecutions(cfg, before, s, Front(moves), u);
      hide Path, Enabled, Apply;
      assert Front(before + moves) == before + Front(moves) && Last(before + moves) == Last(moves);
    }
  }

  // ---- what follows an overrun ----

  /** The end of a cycle that took an interval or longer, and the start of the next. */
  lemma OverrunThenScan(cfg: Config, before: seq<Move>, s: World) returns (moves: seq<Move>, t: World)
    requires IsExecution(cfg, before, s) && s.pc == Counting && !s.stop && s.clock >= s.cycleStart + cfg.interval
    ensures IsExecution(cfg, moves, t)
    ensures t.starts == s.starts + [s.clock] && t.spans == s.spans + [s.clock - s.cycleStart]
    ensures t.overruns == s.overruns + 1
  {
    hide IsExecution;
    var u;
    moves, u := CountAndMeasure(cfg, before, s);
    OneMove(cfg, moves, u, CountOverrun);
    moves, u := moves + [CountOverrun], u.(pc := Check, overruns := u.overruns + 1);
    hide Apply, Enabled;
    LoadStopMove(cfg, moves, u);
    moves, u := moves + [LoadStop], u.(pc := Starting);
    BeginCycleMove(cfg, moves, u);
    moves, t := moves + [BeginCycle], u.(pc := Collecting, cycleStart := u.clock, starts := u.starts + [u.clock]);
  }

  lemma CountAndMeasure(cfg: Config, before: seq<Move>, s: World) returns (moves: seq<Move>, t: World)
    requires IsExecution(cfg, before, s) && s.pc == Counting && s.clock >= s.cycleStart + cfg.interval
    ensures IsExecution(cfg, moves, t)
    ensures t == s.(pc := CountingOverrun, ticks := s.ticks + 1, spans := s.spans + [s.clock - s.cycleStart])
  {
    hide IsExecution;
    OneMove(cfg, before, s, CountTick);
    t := s.(pc := Measuring, ticks := s.ticks + 1);
    OneMove(cfg, before + [CountTick], t, Measure);
    moves, t := before + [CountTick] + [Measure], Apply(cfg, t, Measure);
  }

  /** The first cycle begins. */
  lemma FirstStart(cfg: Config) returns (moves: seq<Move>)
    ensures IsExecution(cfg, moves, INIT.(pc := Collecting, starts := [] + [0]))
  {
    assert IsExecution(cfg, [], INIT);
    hide IsExecution;
    LoadStopMove(cfg, [], INIT);
    BeginCycleMove(cfg, [] + [LoadStop], INIT.(pc := Starting));
    moves := [] + [LoadStop] + [BeginCycle];
  }

  /** What the first cycle hands over: nothing, or the scan's error. */
  function FirstOutcome(scan: Scan, at: nat): Outcome {
    Outcome(None, [], if scan.Err? then Some(scan.message) else None, at, at, [], [], map[])
  }

  lemma FirstOutcomeIsWork(cfg: Config, scan: Scan, work: nat)
    ensures var o := FirstOutcome(scan, work);
            && CycleWork(cfg.k, scan, work, None, [], if scan.Ok? then Some(scan.sample) else None, [], o)
            && ListedFrom(cfg, o, After([]))
  {
  }

  /** The first cycle, whatever its scan gives, can take any time the scan fits in. */
  lemma FirstCycle(cfg: Config, scan: Scan, work: nat) returns (moves: seq<Move>, t: World)
    requires scan.Ok? ==> scan.sample.at <= work
    ensures IsExecution(cfg, moves, t) && t.pc == Counting && !t.stop && t.clock == work && t.cycleStart == 0
    ensures t.starts == [0] && t.spans == [] && t.overruns == 0
  {
    hide IsExecution, Path, CycleWork, ListedFrom, Publish, Apply, Enabled;
    var s := INIT.(pc := Collecting, starts := [] + [0]);
    var before := FirstStart(cfg);
    FirstOutcomeIsWork(cfg, scan, work);
    var path;
    path, t := CycleIsAnExecution(cfg, s, scan, work, if scan.Ok? then Some(scan.sample) else None, [],
                                  FirstOutcome(scan, work));
    PathsExtendExecutions(cfg, before, s, path, t);
    moves := before + path;
  }

  /** After an overrun the next scan starts at once, whatever the first scan gave. */
  lemma BackToBackRun(cfg: Config, scan: Scan, work: nat) returns (moves: seq<Move>, s: World)
    requires work >= cfg.interval && (scan.Ok? ==> scan.sample.at <= work)
    ensures IsExecution(cfg, moves, s) && s.starts == [0, work] && s.spans == [work] && s.overruns == 1
  {
    hide IsExecution;
    var t;
    moves, t := FirstCycle(cfg, scan, work);
    moves, s := OverrunThenScan(cfg, moves, t);
  }

  /** There is a run in which the second scan starts the moment the work of the first cycle is
      measured if and only if that work took an interval or longer. */
  lemma OverrunScansBackToBack(cfg: Config, work: nat)
    ensures (exists moves, s: World :: IsExecution(cfg, moves, s) && s.starts == [0, work] && s.spans == [work])
            <==> work >= cfg.interval
  {
    hide IsExecution;
    if work >= cfg.interval {
      var moves, s := BackToBackRun(cfg, Err("unreadable"), work);
    } else if moves, s: World :| IsExecution(cfg, moves, s) && s.starts == [0, work] && s.spans == [work] {
      ScansArePaced(cfg, moves, s);
    }
  }

  // ---- the world around the thread ----

  /** The moves of everyone but the sampler thread. */
  predicate OthersMake(m: Move) {
    m.Advance? || m.RaiseStop? || m.ReadLock? || m.ReadUnlock?
  }

  /** What the others can have changed: the clock, the flag, and who reads. */
  predicate OthersMoved(a: World, b: World) {
    && b == a.(clock := b.clock, stop := b.stop, lock := b.lock,
               publishedAtStop := b.publishedAtStop, startsAtStop := b.startsAtStop, lateStop := b.lateStop,
               reading := b.reading)
    && a.clock <= b.clock && (a.stop ==> b.stop) && (a.lock == Writing <==> b.lock == Writing)
  }

  /** The same, while the thread itself has moved nothing but its program counter. */
  predicate OnlyPcMoved(a: World, b: World) {
    OthersMoved(a, b.(pc := a.pc))
  }

  lemma OnlyPcTwice(a: World, b: World, c: World)
    requires OnlyPcMoved(a, b) && (OnlyPcMoved(b, c) || OthersMoved(b, c))
    ensures OnlyPcMoved(a, c)
  {
  }

  lemma OneOtherMove(cfg: Config, s: World, m: Move)
    requires Enabled(cfg, s, m) && OthersMake(m)
    ensures OthersMoved(s, Apply(cfg, s, m))
  {
  }

  lemma OwnMovesTakeNoTime(cfg: Config, s: World, m: Move)
    requires Enabled(cfg, s, m) && !OthersMake(m)
    ensures var t := Apply(cfg, s, m); t.clock == s.clock && t.stop == s.stop
  {
    hide IsDiff, Evaluated, ListsActive, WriteStage, NextStage, After, ActiveSet, IdSet;
  }

  /** The moves at the end of a cycle. */
  lemma CountingMoves(cfg: Config, s: World)
    ensures s.pc == Counting ==>
              Enabled(cfg, s, CountTick) && Apply(cfg, s, CountTick) == s.(pc := Measuring, ticks := s.ticks + 1)
    ensures s.pc == CountingOverrun ==>
              Enabled(cfg, s, CountOverrun)
              && Apply(cfg, s, CountOverrun) == s.(pc := Check, overruns := s.overruns + 1)
    ensures s.pc == Measuring ==>
              Enabled(cfg, s, Measure)
              && (var spent := SatSub(s.clock, s.cycleStart);
                  Apply(cfg, s, Measure) ==
                  s.(pc := if spent < cfg.interval then Planning(cfg.interval - spent) else CountingOverrun,
                     spans := s.spans + [spent]))
  {
  }

  /** The monotonic clock and the stop flag, as the thread reads them, beside a run of the step
      system that has got exactly as far as the program. Between any two steps of the thread the
      others make any moves they like. */
  class Surroundings {
    ghost const cfg: Config
    var now: nat
    var stop: bool
    ghost var moves: seq<Move>
    ghost var w: World

    ghost predicate Valid()
      reads this
    {
      IsExecution(cfg, moves, w) && w.clock == now && w.stop == stop
    }

    constructor (ghost cfg: Config)
      ensures Valid() && this.cfg == cfg && w == INIT
    {
      this.cfg, now, stop, moves, w := cfg, 0, false, [], INIT;
      new;
      assert IsExecution(cfg, [], INIT);
    }

    /** The thread makes a move of its own. */
    ghost method Do(m: Move)
      requires Valid() && Enabled(cfg, w, m) && !OthersMake(m)
      modifies this`moves, this`w
      ensures Valid() && w == Apply(cfg, old(w), m)
    {
      hide IsExecution, Enabled, Apply;
      OneMove(cfg, moves, w, m);
      OwnMovesTakeNoTime(cfg, w, m);
      moves, w := moves + [m], Apply(cfg, w, m);
    }

    ghost method DoDiff(snap: Snapshot)
      requires Valid() && w.pc.Diffing? && w.prev.Some? && IsDiff(cfg.k, w.prev.value, w.pc.cur, snap)
      modifies this`moves, this`w
      ensures Valid() && w == old(w).(pc := Evaluating(old(w.pc.cur), snap))
    {
      hide IsExecution, IsDiff;
      Do(TakeDiff(snap));
    }

    ghost method DoEvaluate(post: States, log: seq<Entry>)
      requires Valid() && w.pc.Evaluating?
      requires Evaluated(cfg.rules, After(w.turns), |w.turns| + 1, w.pc.snap, w.clock, post, log)
      modifies this`moves, this`w
      ensures Valid()
      ensures w == var s := old(w);
                   s.(pc := Listing(Blank(Some(s.pc.snap), log, None)), prev := Some(s.pc.cur),
                      turns := s.turns + [Turn(s.pc.snap, s.clock, post, log)], samples := s.samples + [s.pc.cur])
    {
      hide IsExecution, Evaluated;
      Do(Move.Evaluate(post, log));
    }

    /** The result of a scan comes in. */
    ghost method DoCollect(scan: Scan)
      requires Valid() && w.pc == Collecting && (scan.Ok? ==> w.cycleStart <= scan.sample.at <= w.clock)
      modifies this`moves, this`w
      ensures Valid()
      ensures w == match scan {
                case Err(e) => old(w).(pc := Listing(Blank(None, [], Some(e))))
                case Ok(cur) =>
                  if old(w.prev).Some? then old(w).(pc := Diffing(cur))
                  else
                    old(w).(pc := Listing(Blank(None, [], None)), prev := Some(cur),
                            samples := old(w.samples) + [cur])
              }
    {
      hide IsExecution;
      Do(match scan case Err(e) => CollectErr(e) case Ok(cur) => CollectOk(cur));
    }

    ghost method DoList(from: nat, ids: seq<SubjectId>, alerts: seq<Alert>)
      requires Valid() && w.pc.Listing? && w.cycleStart <= from <= w.clock
      requires ListsActive(cfg.rules, After(w.turns), from, w.clock, ids, alerts)
      requires IdSet(ids) == ActiveSet(After(w.turns))
      modifies this`moves, this`w
      ensures Valid()
      ensures w == var s := old(w);
                   s.(pc := Waiting(s.pc.out.(from := from, at := s.clock, ids := ids, alerts := alerts,
                                              states := After(s.turns))))
    {
      hide IsExecution, ListsActive;
      Do(ListActive(from, ids, alerts));
    }

    /** One statement of the handover, or its end. */
    ghost method DoWrite(base: Shared)
      requires Valid() && w.pc.Publishing? && StageOk(w.pc.out, w.pc.stage)
      requires w.shared == AtStage(cfg, base, w.pc.out, w.pc.stage)
      modifies this`moves, this`w
      ensures Valid()
      ensures var s, o, stage := old(w), old(w.pc.out), old(w.pc.stage);
              if stage != ReleaseNext then
                && StageOk(o, NextStage(o, stage))
                && w == s.(pc := Publishing(o, NextStage(o, stage)),
                           shared := AtStage(cfg, base, o, NextStage(o, stage)))
              else
                w == s.(pc := Counting, lock := Free, published := s.published + [o])
    {
      hide IsExecution, AtStage, WriteStage, NextStage;
      if w.pc.stage != ReleaseNext {
        StageStep(cfg, base, w.pc.out, w.pc.stage);
      }
      Do(WriteNext);
    }

    /** The locked block as the step system sees it: n events take n + 5 statements, and time passes
        and the flag may go up between any two of them. */
    method WriteThrough(ghost o: Outcome, ghost base: Shared, n: nat)
      requires Valid() && w.pc == Publishing(o, PointNext) && w.shared == base && n == |o.log|
      modifies this
      ensures Valid()
      ensures OthersMoved(old(w).(pc := Counting, lock := Free, shared := Publish(cfg, base, o),
                                  published := old(w.published) + [o]), w)
    {
      hide IsExecution;
      ghost var was := w;
      assert AtStage(cfg, base, o, PointNext) == base;
      hide AtStage;
      for i := 0 to n + 4
        invariant Valid() && w.pc.Publishing? && w.pc.out == o && StageOk(o, w.pc.stage)
        invariant StagesLeft(o, w.pc.stage) == n + 4 - i
        invariant w.shared == AtStage(cfg, base, o, w.pc.stage)
        invariant OthersMoved(was, w.(pc := was.pc, shared := base))
      {
        Elapse();
        DoWrite(base);
      }
      Elapse();
      DoWrite(base);
    }

    /** A step of the nap, which moves nothing but the program counter. */
    ghost method DoNap(m: Move)
      requires Valid()
      requires (m == FixDeadline && w.pc.Planning?) || (m == TestDeadline && w.pc.NapTest?)
               || (m == TestStop && w.pc.NapStopTest?) || (m == StartNap && w.pc.NapStart?)
               || (m == WakeUp && w.pc.Napping? && now >= w.pc.wake)
      modifies this`moves, this`w
      ensures Valid() && OnlyPcMoved(old(w), w) && w.stop == old(w.stop) && w.clock == old(w.clock)
      ensures m == FixDeadline ==> w.pc == NapTest(now + old(w.pc.rest))
      ensures m == TestDeadline ==>
                w.pc == if now < old(w.pc.deadline) then NapStopTest(old(w.pc.deadline)) else Check
      ensures m == TestStop ==> w.pc == if stop then Done else NapStart(old(w.pc.deadline))
      ensures m == StartNap ==>
                w.pc == Napping(old(w.pc.deadline), now + Min(SatSub(old(w.pc.deadline), now), NAP_LIMIT))
      ensures m == WakeUp ==> w.pc == NapTest(old(w.pc.deadline))
    {
      hide IsExecution, IsDiff, Evaluated, ListsActive, WriteStage, NextStage, ActiveSet, IdSet, After;
      Do(m);
    }

    /** The statements at the end of a cycle. */
    ghost method DoCount(m: Move)
      requires Valid()
      requires (m == CountTick && w.pc == Counting) || (m == Measure && w.pc == Measuring)
               || (m == CountOverrun && w.pc == CountingOverrun)
      modifies this`moves, this`w
      ensures Valid()
      ensures m == CountTick ==> w == old(w).(pc := Measuring, ticks := old(w.ticks) + 1)
      ensures m == Measure ==>
                var spent := SatSub(now, old(w.cycleStart));
                w == old(w).(pc := if spent < cfg.interval then Planning(cfg.interval - spent) else CountingOverrun,
                             spans := old(w.spans) + [spent])
      ensures m == CountOverrun ==> w == old(w).(pc := Check, overruns := old(w.overruns) + 1)
    {
      CountingMoves(cfg, w);
      hide IsExecution, Apply, Enabled;
      Do(m);
    }

    /** The loop test, and the start of a cycle. */
    ghost method DoStart(m: Move)
      requires Valid() && ((m == LoadStop && w.pc == Check) || (m == BeginCycle && w.pc == Starting))
      modifies this`moves, this`w
      ensures Valid()
      ensures m == LoadStop ==> w == old(w).(pc := if stop then Done else Starting)
      ensures m == BeginCycle ==> w == old(w).(pc := Collecting, cycleStart := now, starts := old(w.starts) + [now])
    {
      hide IsExecution;
      Do(m);
    }

    /** Somebody else makes one. */
    method OtherMove(kind: nat, d: nat)
      requires Valid()
      modifies this
      ensures Valid() && OthersMoved(old(w), w) && (kind == 0 ==> now == old(now) + d)
    {
      hide IsExecution;
      ghost var m := if kind == 0 then Advance(d) else if kind == 1 then RaiseStop
                     else if kind == 2 && w.lock != Writing then ReadLock
                     else if w.lock.ReadBy? then ReadUnlock else Advance(0);
      OneMove(cfg, moves, w, m);
      OneOtherMove(cfg, w, m);
      if kind == 0 {
        now := now + d;
      } else if kind == 1 {
        stop := true;
      }
      moves, w := moves + [m], Apply(cfg, w, m);
    }

    method Elapse()
      requires Valid()
      modifies this
      ensures w.pc == old(w.pc) && old(now) <= now && (old(stop) ==> stop)
      ensures Valid() && OthersMoved(old(w), w)
    {
      hide IsExecution;
      var n: int := *;
      for i := 0 to Max(n, 0)
        invariant Valid() && OthersMoved(old(w), w)
        invariant w.pc == old(w.pc) && old(now) <= now && (old(stop) ==> stop)
      {
        var kind: int, d: int := *, *;
        OtherMove(Max(kind, 0), Max(d, 0));
      }
    }

    method ReadClock() returns (t: nat)
      requires Valid()
      modifies this
      ensures w.pc == old(w.pc) && old(now) <= now && (old(stop) ==> stop)
      ensures Valid() && OthersMoved(old(w), w) && t == now
    {
      Elapse();
      t := now;
    }

    /** Reads the clock n times. */
    method ReadClocks(n: nat) returns (readings: seq<nat>)
      requires Valid()
      modifies this
      ensures Valid() && OthersMoved(old(w), w)
      ensures w.pc == old(w.pc) && old(now) <= now && (old(stop) ==> stop)
      ensures |readings| == n && forall t :: t in readings ==> old(now) <= t <= now
    {
      hide IsExecution;
      readings := [];
      for i := 0 to n
        invariant Valid() && OthersMoved(old(w), w) && |readings| == i
        invariant w.pc == old(w.pc) && old(now) <= now && (old(stop) ==> stop)
        invariant forall t :: t in readings ==> old(now) <= t <= now
      {
        var t := ReadClock();
        readings := readings + [t];
      }
    }

    method ReadStop() returns (b: bool)
      requires Valid()
      modifies this
      ensures w.pc == old(w.pc) && old(now) <= now && (old(stop) ==> stop)
      ensures Valid() && OthersMoved(old(w), w) && b == stop
    {
      Elapse();
      b := stop;
    }

    /** `thread::sleep` sleeps at least as long as asked; what is asked is what the nap was begun with. */
    method Sleep(d: nat)
      requires Valid() && w.pc.Napping? && w.pc.wake == now + d
      modifies this
      ensures w.pc == old(w.pc) && old(now) <= now && (old(stop) ==> stop)
      ensures Valid() && OthersMoved(old(w), w) && old(now) + d <= now
    {
      hide IsExecution;
      Elapse();
      OtherMove(0, d);
    }

    /** The lock is ideal: it is granted once the readers that hold it have left. */
    method AcquireWrite()
      requires Valid() && w.pc.Waiting? && w.lock != Writing
      modifies this
      ensures Valid() && old(w.clock) <= w.clock
      ensures OthersMoved(old(w), w.(pc := old(w.pc), lock := Free))
      ensures w.pc == Publishing(old(w.pc.out), PointNext) && w.lock == Writing
    {
      hide IsExecution;
      Elapse();
      ghost var n := if w.lock.ReadBy? then w.lock.readers + 1 else 0;
      while w.lock.ReadBy?
        invariant Valid() && OthersMoved(old(w), w)
        decreases if w.lock.ReadBy? then w.lock.readers + 1 else 0
      {
        OneMove(cfg, moves, w, ReadUnlock);
        moves, w := moves + [ReadUnlock], Apply(cfg, w, ReadUnlock);
      }
      Do(WriteLock);
    }
  }

  // ---- the thread ----

  /** What only the start of a cycle and the end of a handover add to. */
  predicate SameRecords(s: World, t: World) {
    t.starts == s.starts && t.published == s.published
  }

  class Thread {
    const cfg: Config
    const engine: Engine
    const board: Board
    var prev: Option<Sample>
    var ticks: nat
    var overruns: nat

    ghost predicate Valid()
      reads this, engine, board, board.history, board.history.slots, board.events, board.events.slots
    {
      engine.Valid() && engine.rules == cfg.rules && board.Valid(cfg)
    }

    /** The step system is where the program is. */
    ghost predicate Follows(w: World)
      reads this, engine, board, board.history, board.events
    {
      && w.prev == prev && w.turns == engine.turns && w.shared == board.View()
      && w.ticks == ticks && w.overruns == overruns
    }

    constructor (cfg: Config, engine: Engine, board: Board)
      requires engine.Valid() && engine.rules == cfg.rules && board.Valid(cfg)
      ensures Valid() && this.cfg == cfg && this.engine == engine && this.board == board && prev == None
      ensures ticks == 0 && overruns == 0
    {
      this.cfg, this.engine, this.board, prev, ticks, overruns := cfg, engine, board, None, 0, 0;
    }

    /** The collector reads the clock and then finds what it finds. */
    method Collect(out: Surroundings, cycleStart: nat, found: Scan) returns (scan: Scan)
      requires out.Valid() && Follows(out.w) && out.w.cycleStart == cycleStart && out.w.lock != Writing
      modifies out
      ensures out.Valid() && Follows(out.w) && out.w.pc == old(out.w.pc)
      ensures out.w.cycleStart == cycleStart && out.w.lock != Writing && SameRecords(old(out.w), out.w)
      ensures Stamped(found, scan) && (scan.Ok? ==> cycleStart <= scan.sample.at <= out.now)
    {
      hide IsExecution;
      CyclesStartInThePast(out.cfg, out.moves, out.w);
      var at := out.ReadClock();
      scan := match found case Ok(sample) => Ok(sample.(at := at)) case Err(_) => found;
      out.Elapse();
    }

    /** Diff and evaluate, with no lock held. `at` is the clock reading of `evaluate`. */
    method Rate(out: Surroundings, cur: Sample)
      returns (snap: Snapshot, events: seq<Event>, ghost log: seq<Entry>, ghost at: nat)
      requires Valid() && out.Valid() && out.cfg == cfg && Follows(out.w)
      requires prev.Some? && out.w.pc == Diffing(cur)
      modifies this`prev, engine, out
      ensures Valid() && out.Valid() && Follows(out.w) && prev == Some(cur)
      ensures out.w.pc == Listing(Blank(Some(snap), log, None)) && events == EventsOf(log)
      ensures (out.w.lock == Writing <==> old(out.w.lock) == Writing) && out.w.cycleStart == old(out.w.cycleStart)
      ensures SameRecords(old(out.w), out.w)
      ensures |engine.turns| > 0 && Front(engine.turns) == old(engine.turns)
      ensures var t := Last(engine.turns); t.snap == snap && t.log == log && t.now == at
      ensures IsDiff(cfg.k, old(prev).value, cur, snap)
    {
      hide IsExecution, IsDiff, Evaluated, IsRun, Apply, Enabled;
      snap := Diff(cfg.k, prev.value, cur);
      out.DoDiff(snap);
      var now := out.ReadClock();
      at := now;
      events, log := engine.Evaluate(snap, now);
      LastIsEvaluated(engine.rules, engine.turns);
      out.DoEvaluate(engine.states, log);
      prev := Some(cur);
    }

    /** What the scan leads to: a good one becomes the baseline and, when there was one, is diffed
        against it and evaluated; a failed one changes nothing. */
    method Work(out: Surroundings, cycleStart: nat, found: Scan)
      returns (snapshot: Option<Snapshot>, events: seq<Event>, err: Option<string>,
               ghost log: seq<Entry>, ghost scan: Scan, ghost at: nat)
      requires Valid() && out.Valid() && out.cfg == cfg && Follows(out.w)
      requires out.w.pc == Collecting && out.w.cycleStart == cycleStart && out.w.lock != Writing
      modifies this`prev, engine, out
      ensures Valid() && out.Valid() && Follows(out.w)
      ensures out.w.pc == Listing(Blank(snapshot, log, err)) && events == EventsOf(log)
      ensures out.w.lock != Writing && out.w.cycleStart == cycleStart && SameRecords(old(out.w), out.w)
      ensures Stamped(found, scan)
      ensures CycleWork(cfg.k, scan, at, old(prev), old(engine.turns), prev, engine.turns, Blank(snapshot, log, err))
    {
      hide IsExecution, IsDiff, IsRun, Apply, Enabled, OthersMoved, CycleWork;
      var result := Collect(out, cycleStart, found);
      scan, at := result, out.now;
      if result.Ok? ==> prev == None {
        QuietWork(cfg.k, result, at, prev, engine.turns);
      }
      out.DoCollect(result);
      snapshot, events, log, err := None, [], [], None;
      match result {
        case Ok(cur) =>
          if prev.Some? {
            var snap;
            snap, events, log, at := Rate(out, cur);
            snapshot := Some(snap);
            DiffWork(cfg.k, cur, at, old(prev).value, old(engine.turns), engine.turns);
          } else {
            prev := Some(cur);
          }
        case Err(e) =>
          err := Some(e);
      }
    }

    /** The active alerts are listed and the write lock is taken. */
    method ListAndLock(out: Surroundings, ghost log: seq<Entry>)
      returns (alerts: seq<Alert>, ghost o: Outcome)
      requires Valid() && out.Valid() && out.cfg == cfg && Follows(out.w)
      requires out.w.pc.Listing? && out.w.pc.out.log == log && out.w.lock != Writing
      modifies out
      ensures Valid() && out.Valid() && Follows(out.w)
      ensures out.w.pc == Sampler.Pc.Publishing(o, PointNext) && out.w.cycleStart == old(out.w.cycleStart)
      ensures SameRecords(old(out.w), out.w)
      ensures var b := old(out.w.pc.out); o.snapshot == b.snapshot && o.log == b.log && o.error == b.error
      ensures o.alerts == alerts && ListedFrom(cfg, o, After(engine.turns))
    {
      hide IsExecution, ListsActive, IsRun, Apply, Enabled;
      ghost var b, from := out.w.pc.out, out.now;
      CyclesStartInThePast(cfg, out.moves, out.w);
      var readings := out.ReadClocks(|engine.states.Keys|);
      ghost var ids;
      alerts, ids := engine.Active(readings, from, out.now);
      o := b.(from := from, at := out.now, ids := ids, alerts := alerts, states := After(engine.turns));
      out.DoList(from, ids, alerts);
      out.AcquireWrite();
    }

    /** The active alerts are listed, the write lock is taken, and the results are handed over. */
    method Publishing(out: Surroundings, snapshot: Option<Snapshot>, events: seq<Event>, err: Option<string>,
                      ghost log: seq<Entry>) returns (ghost o: Outcome)
      requires Valid() && out.Valid() && out.cfg == cfg && Follows(out.w)
      requires out.w.pc == Listing(Blank(snapshot, log, err)) && events == EventsOf(log) && out.w.lock != Writing
      modifies out, board, board.history, board.history.slots, board.events, board.events.slots
      ensures Valid() && out.Valid() && Follows(out.w)
      ensures out.w.pc == Counting && out.w.cycleStart == old(out.w.cycleStart)
      ensures out.w.starts == old(out.w.starts) && out.w.published == old(out.w.published) + [o]
      ensures o.snapshot == snapshot && o.log == log && o.error == err && ListedFrom(cfg, o, After(engine.turns))
      ensures board.View() == Publish(cfg, old(board.View()), o)
    {
      hide IsExecution, Publish, ListedFrom, IsRun, Apply, Enabled;
      var alerts;
      alerts, o := ListAndLock(out, log);
      ghost var base := board.View();
      board.HandOver(cfg, snapshot, events, alerts, err, o);
      out.WriteThrough(o, base, |events|);
    }

    /** One cycle up to the release of the lock. */
    method Cycle(out: Surroundings, cycleStart: nat, found: Scan)
      returns (ghost scan: Scan, ghost at: nat, ghost o: Outcome)
      requires Valid() && out.Valid() && out.cfg == cfg && Follows(out.w)
      requires out.w.pc == Collecting && out.w.cycleStart == cycleStart && out.w.lock != Writing
      modifies this`prev, engine, out, board, board.history, board.history.slots, board.events, board.events.slots
      ensures Valid() && out.Valid() && Follows(out.w)
      ensures out.w.pc == Counting && out.w.cycleStart == cycleStart
      ensures out.w.starts == old(out.w.starts) && out.w.published == old(out.w.published) + [o]
      ensures Stamped(found, scan)
      ensures CycleWork(cfg.k, scan, at, old(prev), old(engine.turns), prev, engine.turns, o)
      ensures ListedFrom(cfg, o, After(engine.turns))
      ensures board.View() == Publish(cfg, old(board.View()), o)
    {
      hide IsExecution, Publish, ListedFrom, IsRun, IsDiff;
      var snapshot, events, err;
      ghost var log;
      snapshot, events, err, log, scan, at := Work(out, cycleStart, found);
      o := Publishing(out, snapshot, events, err, log);
    }

    /** The loop test and, if the flag was down, the start of a cycle. */
    method Begin(out: Surroundings) returns (running: bool, cycleStart: nat)
      requires Valid() && out.Valid() && out.cfg == cfg && Follows(out.w) && out.w.pc == Check
      modifies out
      ensures Valid() && out.Valid() && Follows(out.w)
      ensures if running then out.w.pc == Collecting && out.w.cycleStart == cycleStart && out.w.lock != Writing
              else out.w.pc == Done && out.stop
      ensures out.w.starts == old(out.w.starts) + (if running then [cycleStart] else [])
      ensures out.w.published == old(out.w.published) && (old(out.stop) ==> !running)
    {
      hide IsExecution, Apply, Enabled, IsRun;
      cycleStart := 0;
      var stop := out.ReadStop();
      out.DoStart(LoadStop);
      running := !stop;
      if running {
        cycleStart := Start(out);
      }
    }

    method Start(out: Surroundings) returns (cycleStart: nat)
      requires Valid() && out.Valid() && out.cfg == cfg && Follows(out.w) && out.w.pc == Starting
      modifies out
      ensures Valid() && out.Valid() && Follows(out.w)
      ensures out.w.pc == Collecting && out.w.cycleStart == cycleStart && out.w.lock != Writing
      ensures out.w.starts == old(out.w.starts) + [cycleStart] && out.w.published == old(out.w.published)
    {
      hide IsExecution, Apply, Enabled, IsRun;
      cycleStart := out.ReadClock();
      out.DoStart(BeginCycle);
      WorkHoldsNoLock(cfg, out.moves, out.w);
    }

    /** The tick counter and the drift-corrected sleep. */
    method Finish(out: Surroundings, cycleStart: nat) returns (running: bool)
      requires Valid() && out.Valid() && out.cfg == cfg && Follows(out.w)
      requires out.w.pc == Counting && out.w.cycleStart == cycleStart
      modifies this`ticks, this`overruns, out
      ensures Valid() && out.Valid() && Follows(out.w)
      ensures out.w.pc == (if running then Check else Done) && (!running ==> out.stop)
      ensures SameRecords(old(out.w), out.w)
    {
      hide IsExecution, Apply, Enabled;
      out.Elapse();
      ticks := ticks + 1;
      out.DoCount(CountTick);
      CyclesStartInThePast(cfg, out.moves, out.w);
      var stopped, spent;
      stopped, overruns, spent := PaceCycle(out, cfg.interval, cycleStart, overruns);
      running := !stopped;
    }

    /** One pass of the loop: the flag is loaded and, if it was down, a cycle is started, worked
        through, handed over, counted and slept out. Whatever the others do in between, the step
        system can follow. The pass does nothing only if the flag is up; otherwise it starts one cycle
        and hands over one outcome, that of this scan. */
    method Pass(out: Surroundings, found: Scan) returns (running: bool)
      requires Valid() && out.Valid() && out.cfg == cfg && Follows(out.w) && out.w.pc == Check
      modifies this, engine, out, board, board.history, board.history.slots, board.events, board.events.slots
      ensures Valid() && out.Valid() && Follows(out.w)
      ensures out.w.pc == (if running then Check else Done) && (!running ==> out.stop)
      ensures if out.w.starts == old(out.w.starts) then !running && out.w.published == old(out.w.published)
              else
                && !old(out.stop) && |out.w.starts| == |old(out.w.starts)| + 1
                && |out.w.published| == |old(out.w.published)| + 1
                && Last(out.w.published).error == if found.Err? then Some(found.message) else None
    {
      hide IsExecution, Publish, ListedFrom, IsRun, IsDiff;
      var cycleStart;
      running, cycleStart := Begin(out);
      if running {
        ghost var scan, at, o;
        scan, at, o := Cycle(out, cycleStart, found);
        running := Finish(out, cycleStart);
      }
    }
  }

  lemma CyclesStartInThePast(cfg: Config, moves: seq<Move>, s: World)
    requires IsExecution(cfg, moves, s)
    ensures s.cycleStart <= s.clock
  {
    hide IsExecution, LockInv, AtomicInv, CountInv, StopInv, WorkInv, EngineInv, FeedInv, PcPaced;
    ExecutionsKeepInv(cfg, moves, s);
  }

  lemma LastIsEvaluated(rules: seq<Rule>, turns: seq<Turn>)
    requires IsRun(rules, turns) && |turns| > 0
    ensures var t := Last(turns); Evaluated(rules, After(Front(turns)), |turns|, t.snap, t.now, t.post, t.log)
  {
    hide Evaluated;
  }

  // ---- the drift-corrected sleep ----

  datatype NapEnd = DeadlineCame | StopSeen | Napped

  /** One turn of the nap loop. */
  method Nap(world: Surroundings, deadline: nat) returns (end: NapEnd)
    requires world.Valid() && world.w.pc == NapTest(deadline)
    modifies world
    ensures world.Valid() && OnlyPcMoved(old(world.w), world.w)
    ensures world.now >= old(world.now) && (old(world.stop) ==> world.stop && end != Napped)
    ensures match end
            case DeadlineCame => world.w.pc == Check && world.now >= deadline
            case StopSeen => world.w.pc == Done && world.stop
            case Napped =>
              && world.w.pc == NapTest(deadline) && old(world.now) < deadline
              && (world.now >= deadline || world.now >= old(world.now) + NAP_LIMIT)
  {
    hide IsExecution, Apply, Enabled, OthersMoved, OnlyPcMoved;
    ghost var w0, w1 := world.w, world.w;
    Unmoved(w0);
    var t := world.ReadClock();
    OnlyPcTwice(w0, w1, world.w);
    w1 := world.w;
    world.DoNap(TestDeadline);
    OnlyPcTwice(w0, w1, world.w);
    if t >= deadline {
      return DeadlineCame;
    }
    w1 := world.w;
    var stop := world.ReadStop();
    OnlyPcTwice(w0, w1, world.w);
    w1 := world.w;
    world.DoNap(TestStop);
    OnlyPcTwice(w0, w1, world.w);
    if stop {
      return StopSeen;
    }
    w1 := world.w;
    SleepOnce(world, deadline);
    OnlyPcTwice(w0, w1, world.w);
    end := Napped;
  }

  lemma Unmoved(a: World)
    ensures OnlyPcMoved(a, a)
  {
  }

  /** The nap itself. */
  method SleepOnce(world: Surroundings, deadline: nat)
    requires world.Valid() && world.w.pc == NapStart(deadline)
    modifies world
    ensures world.Valid() && OnlyPcMoved(old(world.w), world.w) && world.w.pc == NapTest(deadline)
    ensures world.now >= deadline || world.now >= old(world.now) + NAP_LIMIT
    ensures world.now >= old(world.now) && (old(world.stop) ==> world.stop)
  {
    hide IsExecution, Apply, Enabled, OthersMoved, OnlyPcMoved;
    ghost var w0, w1 := world.w, world.w;
    Unmoved(w0);
    var u := world.ReadClock();
    OnlyPcTwice(w0, w1, world.w);
    w1 := world.w;
    var left := SatSub(deadline, u);
    world.DoNap(StartNap);
    OnlyPcTwice(w0, w1, world.w);
    w1 := world.w;
    world.Sleep(Min(left, NAP_LIMIT));
    OnlyPcTwice(w0, w1, world.w);
    w1 := world.w;
    world.DoNap(WakeUp);
    OnlyPcTwice(w0, w1, world.w);
  }

  /** Sleeps out the rest of the interval in naps of at most `NAP_LIMIT`, looking at the stop
      flag before each. It comes back early only for the flag, never before the deadline
      otherwise, and after no more naps than the rest has room for. */
  method SleepOut(world: Surroundings, rest: nat) returns (stopped: bool, naps: nat)
    requires world.Valid() && world.w.pc == Planning(rest)
    modifies world
    ensures world.Valid() && OnlyPcMoved(old(world.w), world.w)
    ensures world.w.pc == if stopped then Done else Check
    ensures world.now >= old(world.now) && (stopped ==> world.stop)
    ensures !stopped ==> world.now >= old(world.now) + rest
    ensures naps * 50_000_000 < rest + 50_000_000
    ensures old(world.stop) && rest > 0 ==> naps == 0
  {
    hide IsExecution, Apply, Enabled, OthersMoved, OnlyPcMoved;
    ghost var w0, w1 := world.w, world.w;
    Unmoved(w0);
    var start := world.ReadClock();
    OnlyPcTwice(w0, w1, world.w);
    var deadline := start + rest;
    w1 := world.w;
    world.DoNap(FixDeadline);
    OnlyPcTwice(w0, w1, world.w);
    naps := 0;
    var end := Napped;
    while end == Napped
      invariant world.Valid() && OnlyPcMoved(w0, world.w)
      invariant world.w.pc == if end == DeadlineCame then Check else if end == StopSeen then Done else NapTest(deadline)
      invariant old(world.now) <= start <= world.now && deadline == start + rest
      invariant old(world.stop) ==> world.stop && naps == 0
      invariant end == DeadlineCame ==> world.now >= deadline
      invariant end == StopSeen ==> world.stop
      invariant world.now < deadline ==> naps * NAP_LIMIT <= world.now - start
      invariant naps * NAP_LIMIT < rest + NAP_LIMIT
      decreases end == Napped, SatSub(deadline, world.now)
    {
      w1 := world.w;
      end := Nap(world, deadline);
      OnlyPcTwice(w0, w1, world.w);
      if end == Napped {
        naps := naps + 1;
      }
    }
    stopped := end == StopSeen;
  }

  /** The end of a cycle: either the work took the whole interval, which is counted, or the rest
      of it is slept out. Unless stopped, the next cycle starts an interval or more after this one. */
  method PaceCycle(world: Surroundings, interval: nat, cycleStart: nat, overruns: nat)
    returns (stopped: bool, overruns': nat, spent: nat)
    requires world.Valid() && world.w.pc == Measuring && interval == world.cfg.interval
    requires cycleStart == world.w.cycleStart && overruns == world.w.overruns && cycleStart <= world.now
    modifies world
    ensures world.Valid() && world.w.pc == if stopped then Done else Check
    ensures var s, t := old(world.w), world.w;
            && t.prev == s.prev && t.turns == s.turns && t.shared == s.shared
            && t.ticks == s.ticks && t.overruns == overruns' && SameRecords(s, t)
    ensures world.w.spans == old(world.w.spans) + [spent]
    ensures old(world.now) <= cycleStart + spent <= world.now
    ensures overruns' == overruns + if spent >= interval then 1 else 0
    ensures !stopped ==> world.now >= cycleStart + interval
    ensures stopped ==> world.stop && spent < interval
  {
    hide IsExecution, Apply;
    var t := world.ReadClock();
    spent := SatSub(t, cycleStart);
    world.DoCount(Measure);
    if spent < interval {
      var naps;
      stopped, naps := SleepOut(world, interval - spent);
      overruns' := overruns;
    } else {
      world.Elapse();
      stopped, overruns' := false, overruns + 1;
      world.DoCount(CountOverrun);
    }
  }

  /** Any number of passes, from the start of the program, in any surroundings and with any results
      of the scans: unless the flag goes up, each scan leads to one handover. */
  method Run(thread: Thread, out: Surroundings, scans: seq<Scan>) returns (running: bool)
    requires thread.Valid() && out.Valid() && out.cfg == thread.cfg && thread.Follows(out.w) && out.w.pc == Check
    modifies thread, thread.engine, out, thread.board, thread.board.history, thread.board.history.slots,
             thread.board.events, thread.board.events.slots
    ensures thread.Valid() && out.Valid() && thread.Follows(out.w)
    ensures out.w.pc == (if running then Check else Done) && (!running ==> out.stop)
    ensures running ==> |out.w.published| == |old(out.w.published)| + |scans|
  {
    hide IsExecution;
    running := true;
    for i := 0 to |scans|
      invariant thread.Valid() && out.Valid() && thread.Follows(out.w)
      invariant out.w.pc == (if running then Check else Done) && (!running ==> out.stop)
      invariant running ==> |out.w.published| == |old(out.w.published)| + i
    {
      if !running {
        break;
      }
      running := thread.Pass(out, scans[i]);
    }
  }
}
