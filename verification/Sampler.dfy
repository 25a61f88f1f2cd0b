/** The sampler thread, its readers and the stop flag (src/sampler.rs), as a step system.

    A run is any interleaving of moves: the clock advances, readers take and release the read
    lock, the stop flag is raised, and the sampler makes its own moves one at a time. Scan
    results, work times and hash orders are whatever the moves say. */
module Sampler {
  import opened Prelude
  import opened Procfs
  import opened Delta
  import opened SnapshotMeaning
  import opened Rules
  import opened Automaton
  import opened AlertEngine
  import opened EngineTheorems
  import opened Pipeline
  import opened RingBuffer

  /** `historyCap` and `eventCap` are the capacities after the ring's clamp to at least one. */
  datatype Config = Config(
    k: SysConst, rules: seq<Rule>, interval: nat, historyCap: Positive, eventCap: Positive)

  datatype HistoryPoint = HistoryPoint(
    cpuPct: real, memPct: real, netRxBps: real, netTxBps: real, procCount: nat, scanMicros: nat)

  /** The two casts truncate to 32 and 64 bits. */
  function PointOf(s: Snapshot): HistoryPoint {
    HistoryPoint(
      s.system.cpuPct, s.system.mem.UsedPct(), s.system.netRxBps, s.system.netTxBps,
      s.system.procCount % 0x1_0000_0000, s.system.scanTime / 1000 % 0x1_0000_0000_0000_0000)
  }

  datatype ActiveAlert = ActiveAlert(rule: string, subject: string, held: nat)

  function ActiveAlerts(alerts: seq<Alert>): (r: seq<ActiveAlert>)
    ensures |r| == |alerts|
    ensures forall i :: 0 <= i < |r| ==> r[i] == ActiveAlert(alerts[i].rule, alerts[i].subject, alerts[i].held)
  {
    seq(|alerts|, i requires 0 <= i < |alerts| =>
      ActiveAlert(alerts[i].rule, alerts[i].subject, alerts[i].held))
  }

  // ---- the shared state ----

  /** The rings are represented by their contents and their push counters. */
  datatype Shared = Shared(
    latest: Option<Snapshot>,
    history: seq<HistoryPoint>, historyPushed: nat,
    events: seq<Event>, eventsPushed: nat,
    active: seq<ActiveAlert>, lastError: Option<string>)

  /** What one cycle hands over. `from`, `at`, `ids` and `states` record between which instants the
      active list was taken, of which subjects, and from which engine states. */
  datatype Outcome = Outcome(
    snapshot: Option<Snapshot>, log: seq<Entry>, error: Option<string>,
    from: nat, at: nat, ids: seq<SubjectId>, alerts: seq<Alert>, states: States)

  const EMPTY := Shared(None, [], 0, [], 0, [], None)

  // ---- the handover, statement by statement ----

  datatype Stage = PointNext | EventNext(i: nat) | LatestNext | ActiveNext | ErrorNext | ReleaseNext

  function WithPoint(cfg: Config, sh: Shared, o: Outcome): Shared {
    if o.snapshot.Some? then
      sh.(history := PushOnto(cfg.historyCap, sh.history, PointOf(o.snapshot.value)),
          historyPushed := sh.historyPushed + 1)
    else sh
  }

  function WithEvent(cfg: Config, sh: Shared, e: Event): Shared {
    sh.(events := PushOnto(cfg.eventCap, sh.events, e), eventsPushed := sh.eventsPushed + 1)
  }

  function WithEvents(cfg: Config, sh: Shared, events: seq<Event>): Shared {
    if |events| == 0 then sh else WithEvent(cfg, WithEvents(cfg, sh, Front(events)), Last(events))
  }

  function WithLatest(sh: Shared, o: Outcome): Shared {
    if o.snapshot.Some? then sh.(latest := o.snapshot) else sh
  }

  /** The shared state in the middle of a handover. */
  function AtStage(cfg: Config, sh: Shared, o: Outcome, stage: Stage): Shared
    requires stage.EventNext? ==> stage.i <= |o.log|
  {
    var a := WithPoint(cfg, sh, o);
    var b := WithEvents(cfg, a, EventsOf(o.log));
    var c := WithLatest(b, o);
    var d := c.(active := ActiveAlerts(o.alerts));
    match stage
    case PointNext => sh
    case EventNext(i) => WithEvents(cfg, a, EventsOf(o.log)[..i])
    case LatestNext => b
    case ActiveNext => c
    case ErrorNext => d
    case ReleaseNext => d.(lastError := o.error)
  }

  /** A whole handover. */
  function Publish(cfg: Config, sh: Shared, o: Outcome): Shared {
    AtStage(cfg, sh, o, ReleaseNext)
  }

  function SharedAfter(cfg: Config, published: seq<Outcome>): Shared {
    if |published| == 0 then EMPTY else Publish(cfg, SharedAfter(cfg, Front(published)), Last(published))
  }

  // ---- states and moves ----

  datatype Lock = Free | Writing | ReadBy(readers: nat)

  datatype Pc =
    | Check                              // the loop test
    | Starting                           // the flag was down; the cycle has not begun
    | Collecting
    | Diffing(cur: Sample)
    | Evaluating(cur: Sample, snap: Snapshot)
    | Listing(out: Outcome)              // about to ask the engine for its active alerts
    | Waiting(out: Outcome)              // for the write lock
    | Publishing(out: Outcome, stage: Stage)
    | Counting
    | Measuring
    | CountingOverrun
    | Planning(rest: nat)                // deadline not yet fixed
    | NapTest(deadline: nat)
    | NapStopTest(deadline: nat)
    | NapStart(deadline: nat)
    | Napping(deadline: nat, wake: nat)
    | Done

  /** The first line is shared or local state of the program; the second is bookkeeping for the
      theorems: good samples, handovers completed, cycle starts, measured work times, how many
      handovers and cycle starts there had been when the stop flag went up, whether it went up
      between the load that found it down and the start of the cycle, and how many are reading. */
  datatype World = World(
    clock: nat, stop: bool, lock: Lock, pc: Pc, cycleStart: nat, prev: Option<Sample>, turns: seq<Turn>,
    shared: Shared, ticks: nat, overruns: nat,
    samples: seq<Sample>, published: seq<Outcome>, starts: seq<nat>, spans: seq<nat>,
    publishedAtStop: nat, startsAtStop: nat, lateStop: bool, reading: nat)

  const INIT := World(0, false, Free, Check, 0, None, [], EMPTY, 0, 0, [], [], [], [], 0, 0, false, 0)

  datatype Move =
    | Advance(d: nat)
    | RaiseStop
    | ReadLock
    | ReadUnlock
    | LoadStop
    | BeginCycle
    | CollectOk(sample: Sample)
    | CollectErr(message: string)
    | TakeDiff(diff: Snapshot)
    | Evaluate(post: States, log: seq<Entry>)
    | ListActive(from: nat, ids: seq<SubjectId>, alerts: seq<Alert>)
    | WriteLock
    | WriteNext
    | CountTick
    | Measure
    | CountOverrun
    | FixDeadline
    | TestDeadline
    | TestStop
    | StartNap
    | WakeUp

  const NAP_LIMIT: nat := 50_000_000

  function Blank(snapshot: Option<Snapshot>, log: seq<Entry>, error: Option<string>): Outcome {
    Outcome(snapshot, log, error, 0, 0, [], [], map[])
  }

  ghost predicate Enabled(cfg: Config, s: World, m: Move) {
    match m
    case Advance(_) => true
    case RaiseStop => true
    case ReadLock => s.lock != Writing
    case ReadUnlock => s.lock.ReadBy?
    case LoadStop => s.pc == Check
    case BeginCycle => s.pc == Starting
    case CollectOk(sample) => s.pc == Collecting && s.cycleStart <= sample.at <= s.clock
    case CollectErr(_) => s.pc == Collecting
    case TakeDiff(snap) => s.pc.Diffing? && s.prev.Some? && IsDiff(cfg.k, s.prev.value, s.pc.cur, snap)
    case Evaluate(post, log) =>
      s.pc.Evaluating? && Evaluated(cfg.rules, After(s.turns), |s.turns| + 1, s.pc.snap, s.clock, post, log)
    case ListActive(from, ids, alerts) =>
      s.pc.Listing? && s.cycleStart <= from <= s.clock
      && ListsActive(cfg.rules, After(s.turns), from, s.clock, ids, alerts)
      && IdSet(ids) == ActiveSet(After(s.turns))
    case WriteLock => s.pc.Waiting? && s.lock == Free
    case WriteNext => s.pc.Publishing?
    case CountTick => s.pc == Counting
    case Measure => s.pc == Measuring
    case CountOverrun => s.pc == CountingOverrun
    case FixDeadline => s.pc.Planning?
    case TestDeadline => s.pc.NapTest?
    case TestStop => s.pc.NapStopTest?
    case StartNap => s.pc.NapStart?
    case WakeUp => s.pc.Napping? && s.clock >= s.pc.wake
  }

  function NextStage(o: Outcome, stage: Stage): Stage {
    match stage
    case PointNext => if |o.log| > 0 then EventNext(0) else LatestNext
    case EventNext(i) => if i + 1 < |o.log| then EventNext(i + 1) else LatestNext
    case LatestNext => ActiveNext
    case ActiveNext => ErrorNext
    case ErrorNext => ReleaseNext
    case ReleaseNext => ReleaseNext
  }

  /** One statement of the handover. */
  function WriteStage(cfg: Config, sh: Shared, o: Outcome, stage: Stage): Shared {
    match stage
    case PointNext => WithPoint(cfg, sh, o)
    case EventNext(i) => if i < |o.log| then WithEvent(cfg, sh, o.log[i].event) else sh
    case LatestNext => WithLatest(sh, o)
    case ActiveNext => sh.(active := ActiveAlerts(o.alerts))
    case ErrorNext => sh.(lastError := o.error)
    case ReleaseNext => sh
  }

  function Apply(cfg: Config, s: World, m: Move): World
    requires Enabled(cfg, s, m)
  {
    match m
    case Advance(d) => s.(clock := s.clock + d)
    case RaiseStop =>
      if s.stop then s
      else
        s.(stop := true, publishedAtStop := |s.published|, startsAtStop := |s.starts|, lateStop := s.pc == Starting)
    case ReadLock => s.(lock := ReadBy(if s.lock.ReadBy? then s.lock.readers + 1 else 1), reading := s.reading + 1)
    case ReadUnlock =>
      s.(lock := if s.lock.readers <= 1 then Free else ReadBy(s.lock.readers - 1), reading := SatSub(s.reading, 1))
    case LoadStop => s.(pc := if s.stop then Done else Starting)
    case BeginCycle => s.(pc := Collecting, cycleStart := s.clock, starts := s.starts + [s.clock])
    case CollectOk(cur) =>
      if s.prev.Some? then s.(pc := Diffing(cur))
      else s.(pc := Listing(Blank(None, [], None)), prev := Some(cur), samples := s.samples + [cur])
    case CollectErr(e) => s.(pc := Listing(Blank(None, [], Some(e))))
    case TakeDiff(snap) => s.(pc := Evaluating(s.pc.cur, snap))
    case Evaluate(post, log) =>
      s.(pc := Listing(Blank(Some(s.pc.snap), log, None)),
         turns := s.turns + [Turn(s.pc.snap, s.clock, post, log)],
         prev := Some(s.pc.cur), samples := s.samples + [s.pc.cur])
    case ListActive(from, ids, alerts) =>
      s.(pc := Waiting(s.pc.out.(from := from, at := s.clock, ids := ids, alerts := alerts, states := After(s.turns))))
    case WriteLock => s.(pc := Publishing(s.pc.out, PointNext), lock := Writing)
    case WriteNext =>
      if s.pc.stage != ReleaseNext then
        s.(shared := WriteStage(cfg, s.shared, s.pc.out, s.pc.stage),
           pc := Publishing(s.pc.out, NextStage(s.pc.out, s.pc.stage)))
      else
        s.(pc := Counting, lock := Free, published := s.published + [s.pc.out])
    case CountTick => s.(pc := Measuring, ticks := s.ticks + 1)
    case Measure =>
      var spent := SatSub(s.clock, s.cycleStart);
      if spent < cfg.interval then s.(pc := Planning(cfg.interval - spent), spans := s.spans + [spent])
      else s.(pc := CountingOverrun, spans := s.spans + [spent])
    case CountOverrun => s.(pc := Check, overruns := s.overruns + 1)
    case FixDeadline => s.(pc := NapTest(s.clock + s.pc.rest))
    case TestDeadline => s.(pc := if s.clock < s.pc.deadline then NapStopTest(s.pc.deadline) else Check)
    case TestStop => s.(pc := if s.stop then Done else NapStart(s.pc.deadline))
    case StartNap =>
      s.(pc := Napping(s.pc.deadline, s.clock + Min(SatSub(s.pc.deadline, s.clock), NAP_LIMIT)))
    case WakeUp => s.(pc := NapTest(s.pc.deadline))
  }

  // ---- runs ----

  ghost predicate IsExecution(cfg: Config, moves: seq<Move>, s: World)
    decreases |moves|
  {
    if |moves| == 0 then s == INIT
    else exists t: World ::
           IsExecution(cfg, Front(moves), t) && Enabled(cfg, t, Last(moves)) && s == Apply(cfg, t, Last(moves))
  }

  // ---- invariants ----

  /** After the start of a cycle, before its handover is complete. */
  predicate Begun(pc: Pc) {
    pc.Collecting? || pc.Diffing? || pc.Evaluating? || pc.Listing? || pc.Waiting? || pc.Publishing?
  }

  /** A handover is bound to follow, whatever becomes of the flag. */
  predicate InCycle(pc: Pc) {
    pc == Starting || Begun(pc)
  }

  /** The writer holds the lock during the handover and at no other time, and nobody reads then. */
  predicate LockInv(s: World) {
    && (s.lock == Writing <==> s.pc.Publishing?)
    && (s.lock.ReadBy? ==> s.lock.readers > 0)
    && s.reading == if s.lock.ReadBy? then s.lock.readers else 0
  }

  /** Handovers are atomic for everyone who respects the lock. */
  predicate AtomicInv(cfg: Config, s: World) {
    var base := SharedAfter(cfg, s.published);
    if s.pc.Publishing? then
      && (s.pc.stage.EventNext? ==> s.pc.stage.i < |s.pc.out.log|)
      && s.shared == AtStage(cfg, base, s.pc.out, s.pc.stage)
    else s.shared == base
  }

  predicate CountInv(cfg: Config, s: World) {
    && |s.published| == s.ticks + (if s.pc == Counting then 1 else 0)
    && |s.starts| == |s.published| + (if Begun(s.pc) then 1 else 0)
    && |s.published| == |s.spans| + (if s.pc == Counting || s.pc == Measuring then 1 else 0)
    && Overruns(cfg.interval, s.spans) == s.overruns + (if s.pc == CountingOverrun then 1 else 0)
  }

  function Overruns(interval: nat, spans: seq<nat>): nat {
    if |spans| == 0 then 0 else Overruns(interval, Front(spans)) + if Last(spans) >= interval then 1 else 0
  }

  predicate StopInv(s: World) {
    s.stop ==>
      && |s.starts| + (if s.pc == Starting then 1 else 0) == s.startsAtStop + (if s.lateStop then 1 else 0)
      && (s.pc == Starting ==> s.lateStop)
      && s.publishedAtStop <= |s.published|
      && |s.published| + (if InCycle(s.pc) then 1 else 0) <= s.publishedAtStop + 1
  }

  ghost predicate Paced(interval: nat, starts: seq<nat>) {
    forall i :: 0 < i < |starts| ==> starts[i] >= starts[i - 1] + interval
  }

  /** What the program counter says about when the next cycle is due. */
  predicate PcPaced(cfg: Config, s: World) {
    var due := s.cycleStart + cfg.interval;
    match s.pc
    case Check => |s.starts| > 0 ==> s.clock >= due
    case Starting => |s.starts| > 0 ==> s.clock >= due
    case CountingOverrun => s.clock >= due
    case Planning(rest) => s.clock + rest >= due
    case NapTest(deadline) => deadline >= due
    case NapStopTest(deadline) => deadline >= due
    case NapStart(deadline) => deadline >= due
    case Napping(deadline, _) => deadline >= due
    case _ => true
  }

  ghost predicate PaceInv(cfg: Config, s: World) {
    && Paced(cfg.interval, s.starts)
    && (|s.starts| > 0 ==> Last(s.starts) == s.cycleStart)
    && s.cycleStart <= s.clock
    && PcPaced(cfg, s)
  }

  /** When the next cycle started, or now. */
  function Until(s: World, i: nat): nat {
    if i + 1 < |s.starts| then s.starts[i + 1] else s.clock
  }

  /** A measured work time reaches from the start of its own cycle, over the listing of the alerts it
      handed over, and not beyond the start of the next cycle. */
  ghost predicate WorkInv(s: World) {
    && |s.spans| <= |s.published| <= |s.starts|
    && (forall i :: 0 <= i < |s.published| ==>
          s.starts[i] <= s.published[i].from <= s.published[i].at <= s.clock)
    && (forall i :: 0 <= i < |s.spans| ==> s.published[i].at <= s.starts[i] + s.spans[i] <= Until(s, i))
    && (Listed(s.pc).Some? ==> s.cycleStart <= Listed(s.pc).value.from <= Listed(s.pc).value.at <= s.clock)
  }

  /** The outcomes handed over or on their way. */
  function Outcomes(s: World): seq<Outcome> {
    match s.pc
    case Listing(o) => s.published + [o]
    case Waiting(o) => s.published + [o]
    case Publishing(o, _) => s.published + [o]
    case _ => s.published
  }

  function Snaps(outs: seq<Outcome>): seq<Snapshot> {
    if |outs| == 0 then []
    else Snaps(Front(outs)) + if Last(outs).snapshot.Some? then [Last(outs).snapshot.value] else []
  }

  function Logs(outs: seq<Outcome>): seq<Entry> {
    if |outs| == 0 then [] else Logs(Front(outs)) + Last(outs).log
  }

  function TurnSnaps(turns: seq<Turn>): (r: seq<Snapshot>)
    ensures |r| == |turns| && forall i :: 0 <= i < |r| ==> r[i] == turns[i].snap
  {
    seq(|turns|, i requires 0 <= i < |turns| => turns[i].snap)
  }

  /** The active list of an outcome is a listing of the states it was taken from. */
  ghost predicate ListedFrom(cfg: Config, o: Outcome, states: States) {
    && o.states == states
    && ListsActive(cfg.rules, states, o.from, o.at, o.ids, o.alerts)
    && IdSet(o.ids) == ActiveSet(states)
  }

  /** Outcome by outcome: one with a snapshot reports one turn of the engine, any other reports
      no events. */
  ghost predicate Reports(outs: seq<Outcome>, turns: seq<Turn>)
    decreases |outs|
  {
    if |outs| == 0 then turns == []
    else
      var o := Last(outs);
      if o.snapshot.Some? then
        && |turns| > 0
        && Last(turns).snap == o.snapshot.value && Last(turns).log == o.log
        && Reports(Front(outs), Front(turns))
      else o.log == [] && Reports(Front(outs), turns)
  }

  lemma {:induction false} ReportsMeaning(outs: seq<Outcome>, turns: seq<Turn>)
    requires Reports(outs, turns)
    ensures Snaps(outs) == TurnSnaps(turns) && Logs(outs) == LogOf(turns)
  {
    if |outs| > 0 {
      if Last(outs).snapshot.Some? {
        ReportsMeaning(Front(outs), Front(turns));
      } else {
        ReportsMeaning(Front(outs), turns);
      }
    }
  }

  /** What was handed over is what the engine did, cycle by cycle. */
  ghost predicate EngineFacts(outs: seq<Outcome>, published: seq<Outcome>, turns: seq<Turn>,
                              listed: Option<Outcome>, cfg: Config)
  {
    var n := |Snaps(published)|;
    && Reports(outs, turns)
    && n <= |turns| && Reports(published, turns[..n])
    && (|published| > 0 ==> ListedFrom(cfg, Last(published), After(turns[..n])))
    && (listed.Some? ==> ListedFrom(cfg, listed.value, After(turns)))
  }

  /** The outcome whose active list has been taken but not yet handed over. */
  function Listed(pc: Pc): Option<Outcome> {
    match pc
    case Waiting(o) => Some(o)
    case Publishing(o, _) => Some(o)
    case _ => None
  }

  ghost predicate EngineInv(cfg: Config, s: World) {
    EngineFacts(Outcomes(s), s.published, s.turns, Listed(s.pc), cfg)
  }

  /** The engine is fed the diffs of consecutive good samples, at instants that never go back. */
  ghost predicate FeedInv(cfg: Config, s: World) {
    && (s.samples == [] ==> s.turns == [] && s.prev == None)
    && (s.samples != [] ==> Fed(cfg.k, cfg.rules, s.samples, s.turns) && s.prev == Some(Last(s.samples)))
    && ClockForward(s.turns)
    && (forall i :: 0 <= i < |s.turns| ==> s.turns[i].now <= s.clock)
    && (s.pc.Diffing? ==> s.prev.Some?)
    && (s.pc.Evaluating? ==> s.prev.Some? && IsDiff(cfg.k, s.prev.value, s.pc.cur, s.pc.snap))
  }

  ghost predicate Inv(cfg: Config, s: World) {
    LockInv(s) && AtomicInv(cfg, s) && CountInv(cfg, s) && StopInv(s) && PaceInv(cfg, s) && WorkInv(s)
    && EngineInv(cfg, s) && FeedInv(cfg, s)
  }

  // ---- every move keeps them ----

  lemma LockKept(cfg: Config, s: World, m: Move)
    requires LockInv(s) && Enabled(cfg, s, m)
    ensures LockInv(Apply(cfg, s, m))
  {
    hide IsDiff, Evaluated, ListsActive, WriteStage, NextStage, ActiveSet, IdSet, After;
  }

  lemma MeasureKeepsCount(cfg: Config, s: World)
    requires CountInv(cfg, s) && s.pc == Measuring
    ensures CountInv(cfg, Apply(cfg, s, Measure))
  {
    var spent := SatSub(s.clock, s.cycleStart);
    assert Front(s.spans + [spent]) == s.spans;
  }

  predicate Counts(m: Move) {
    m == BeginCycle || m == CountTick || m == Measure || m == CountOverrun || m == WriteNext
  }

  lemma CountingKept(cfg: Config, s: World, m: Move)
    requires CountInv(cfg, s) && Enabled(cfg, s, m) && Counts(m) && m != Measure
    ensures CountInv(cfg, Apply(cfg, s, m))
  {
    hide WriteStage, Overruns, NextStage, IsDiff, Evaluated, ListsActive, ActiveSet, IdSet, After;
  }

  lemma CountKept(cfg: Config, s: World, m: Move)
    requires CountInv(cfg, s) && Enabled(cfg, s, m)
    ensures CountInv(cfg, Apply(cfg, s, m))
  {
    hide CountInv, Enabled, Apply;
    if m == Measure {
      assert s.pc == Measuring by {
        MeasuresWhenMeasuring(cfg, s);
      }
      MeasureKeepsCount(cfg, s);
    } else if Counts(m) {
      CountingKept(cfg, s, m);
    } else {
      OtherMovesCountNothing(cfg, s, m);
      SameCounts(cfg, s, Apply(cfg, s, m));
    }
  }

  lemma MeasuresWhenMeasuring(cfg: Config, s: World)
    requires Enabled(cfg, s, Measure)
    ensures s.pc == Measuring
  {
  }

  predicate SamePhase(a: Pc, b: Pc) {
    && Begun(a) == Begun(b) && (a == Counting <==> b == Counting) && (a == Measuring <==> b == Measuring)
    && (a == CountingOverrun <==> b == CountingOverrun)
  }

  lemma OtherMovesCountNothing(cfg: Config, s: World, m: Move)
    requires Enabled(cfg, s, m) && !Counts(m)
    ensures var t := Apply(cfg, s, m);
            && t.published == s.published && t.ticks == s.ticks && t.starts == s.starts
            && t.spans == s.spans && t.overruns == s.overruns && SamePhase(s.pc, t.pc)
  {
    OtherMovesKeepPhase(cfg, s, m);
    hide Enabled, SamePhase, IsDiff, Evaluated, ListsActive, WriteStage, NextStage, ActiveSet, IdSet, After, Blank;
  }

  lemma OtherMovesKeepPhase(cfg: Config, s: World, m: Move)
    requires Enabled(cfg, s, m) && !Counts(m)
    ensures SamePhase(s.pc, Apply(cfg, s, m).pc)
  {
    hide IsDiff, Evaluated, ListsActive, WriteStage, NextStage, ActiveSet, IdSet, After, Blank, SatSub, Min;
  }

  lemma SameCounts(cfg: Config, s: World, t: World)
    requires CountInv(cfg, s) && SamePhase(s.pc, t.pc)
    requires t.published == s.published && t.ticks == s.ticks && t.starts == s.starts
             && t.spans == s.spans && t.overruns == s.overruns
    ensures CountInv(cfg, t)
  {
  }

  // ---- work times ----

  lemma BeginKeepsWork(cfg: Config, s: World)
    requires WorkInv(s) && CountInv(cfg, s) && s.pc == Starting
    ensures WorkInv(Apply(cfg, s, BeginCycle))
  {
    hide Overruns;
  }

  lemma MeasureKeepsWork(cfg: Config, s: World)
    requires WorkInv(s) && CountInv(cfg, s) && PaceInv(cfg, s) && s.pc == Measuring
    ensures WorkInv(Apply(cfg, s, Measure))
  {
    hide Overruns, Paced, WorkInv, PcPaced;
    var spent := SatSub(s.clock, s.cycleStart);
    OneMoreSpan(s, Planning(SatSub(cfg.interval, spent)), spent);
    OneMoreSpan(s, CountingOverrun, spent);
  }

  lemma OneMoreSpan(s: World, pc: Pc, spent: nat)
    requires WorkInv(s) && |s.starts| == |s.published| == |s.spans| + 1 && Listed(pc).None?
    requires s.clock == Last(s.starts) + spent
    ensures WorkInv(s.(pc := pc, spans := s.spans + [spent]))
  {
  }

  lemma ReleaseKeepsWork(cfg: Config, s: World)
    requires WorkInv(s) && CountInv(cfg, s) && PaceInv(cfg, s) && s.pc.Publishing? && s.pc.stage == ReleaseNext
    ensures WorkInv(Apply(cfg, s, WriteNext))
  {
    hide Overruns, Paced, WorkInv, PcPaced, WriteStage, NextStage;
    OneMoreAt(s, s.pc.out);
  }

  lemma OneMoreAt(s: World, o: Outcome)
    requires WorkInv(s) && Listed(s.pc) == Some(o) && |s.starts| == |s.published| + 1 && |s.spans| == |s.published|
    requires Last(s.starts) == s.cycleStart
    ensures WorkInv(s.(pc := Counting, lock := Free, published := s.published + [o]))
  {
  }

  lemma ListKeepsWork(cfg: Config, s: World, m: Move)
    requires WorkInv(s) && PaceInv(cfg, s) && m.ListActive? && Enabled(cfg, s, m)
    ensures WorkInv(Apply(cfg, s, m))
  {
    hide ListsActive, Paced;
  }

  /** Every other move leaves the records alone and the clock where it is or later. */
  lemma OtherMovesKeepRecords(cfg: Config, s: World, m: Move)
    requires Enabled(cfg, s, m) && m != BeginCycle && m != Measure && !m.ListActive?
    requires !(m == WriteNext && s.pc.stage == ReleaseNext)
    ensures var t := Apply(cfg, s, m);
            && t.published == s.published && t.starts == s.starts && t.spans == s.spans
            && t.cycleStart == s.cycleStart && t.clock >= s.clock && Listed(t.pc) == Listed(s.pc)
  {
    hide IsDiff, Evaluated, ListsActive, WriteStage, NextStage, ActiveSet, IdSet, After, SatSub, Min;
  }

  lemma SameWork(s: World, t: World)
    requires WorkInv(s) && t.published == s.published && t.starts == s.starts && t.spans == s.spans
    requires t.cycleStart == s.cycleStart && t.clock >= s.clock && Listed(t.pc) == Listed(s.pc)
    ensures WorkInv(t)
  {
  }

  lemma WorkKept(cfg: Config, s: World, m: Move)
    requires WorkInv(s) && CountInv(cfg, s) && PaceInv(cfg, s) && Enabled(cfg, s, m)
    ensures WorkInv(Apply(cfg, s, m))
  {
    hide WorkInv, CountInv, PaceInv, Apply, IsDiff, Evaluated, ListsActive;
    if m == BeginCycle {
      BeginKeepsWork(cfg, s);
    } else if m == Measure {
      MeasureKeepsWork(cfg, s);
    } else if m.ListActive? {
      ListKeepsWork(cfg, s, m);
    } else if m == WriteNext && s.pc.stage == ReleaseNext {
      ReleaseKeepsWork(cfg, s);
    } else {
      OtherMovesKeepRecords(cfg, s, m);
      SameWork(s, Apply(cfg, s, m));
    }
  }

  lemma StopKept(cfg: Config, s: World, m: Move)
    requires StopInv(s) && Enabled(cfg, s, m)
    ensures StopInv(Apply(cfg, s, m))
  {
    hide IsDiff, Evaluated, ListsActive, WriteStage, NextStage, ActiveSet, IdSet, After;
  }

  lemma BeginKeepsPace(cfg: Config, s: World)
    requires PaceInv(cfg, s) && s.pc == Starting
    ensures PaceInv(cfg, Apply(cfg, s, BeginCycle))
  {
  }

  /** No other move adds to the cycle starts. */
  lemma OtherMovesStartNothing(cfg: Config, s: World, m: Move)
    requires Enabled(cfg, s, m) && m != BeginCycle
    ensures var t := Apply(cfg, s, m);
            t.starts == s.starts && t.cycleStart == s.cycleStart && t.clock >= s.clock
  {
    hide IsDiff, Evaluated, ListsActive, WriteStage, NextStage, ActiveSet, IdSet, After;
  }

  lemma PcKeptPaced(cfg: Config, s: World, m: Move)
    requires PcPaced(cfg, s) && s.cycleStart <= s.clock && Enabled(cfg, s, m) && m != BeginCycle
    ensures PcPaced(cfg, Apply(cfg, s, m))
  {
    hide IsDiff, Evaluated, ListsActive, WriteStage, NextStage, ActiveSet, IdSet, After;
  }

  lemma PaceKept(cfg: Config, s: World, m: Move)
    requires PaceInv(cfg, s) && Enabled(cfg, s, m)
    ensures PaceInv(cfg, Apply(cfg, s, m))
  {
    if m == BeginCycle {
      BeginKeepsPace(cfg, s);
    } else {
      hide Apply, Enabled, PcPaced, Paced;
      OtherMovesStartNothing(cfg, s, m);
      PcKeptPaced(cfg, s, m);
    }
  }

  ghost predicate StageOk(o: Outcome, stage: Stage) {
    stage.EventNext? ==> stage.i < |o.log|
  }

  /** Each statement of the handover leads from one intermediate state to the next. */
  lemma StageStep(cfg: Config, sh: Shared, o: Outcome, stage: Stage)
    requires StageOk(o, stage) && stage != ReleaseNext
    ensures StageOk(o, NextStage(o, stage))
    ensures WriteStage(cfg, AtStage(cfg, sh, o, stage), o, stage) == AtStage(cfg, sh, o, NextStage(o, stage))
  {
    hide WithPoint, WithEvent;
    var events := EventsOf(o.log);
    if stage.EventNext? {
      assert Front(events[..stage.i + 1]) == events[..stage.i];
    }
    assert events[..|o.log|] == events;
  }

  lemma OneMorePublished(cfg: Config, published: seq<Outcome>, o: Outcome)
    ensures SharedAfter(cfg, published + [o]) == AtStage(cfg, SharedAfter(cfg, published), o, ReleaseNext)
  {
    hide AtStage;
    assert Front(published + [o]) == published;
  }

  lemma WriteKeepsAtomic(cfg: Config, s: World)
    requires AtomicInv(cfg, s) && s.pc.Publishing?
    ensures AtomicInv(cfg, Apply(cfg, s, WriteNext))
  {
    hide WriteStage, NextStage, AtStage, SharedAfter;
    if s.pc.stage == ReleaseNext {
      OneMorePublished(cfg, s.published, s.pc.out);
    } else {
      StageStep(cfg, SharedAfter(cfg, s.published), s.pc.out, s.pc.stage);
    }
  }

  lemma LockKeepsAtomic(cfg: Config, s: World)
    requires AtomicInv(cfg, s) && s.pc.Waiting? && s.lock == Free
    ensures AtomicInv(cfg, Apply(cfg, s, WriteLock))
  {
    hide WithPoint, WithEvents, WithEvent, WithLatest, SharedAfter;
  }

  lemma OtherMovesWriteNothing(cfg: Config, s: World, m: Move)
    requires Enabled(cfg, s, m) && m != WriteNext && m != WriteLock
    ensures var t := Apply(cfg, s, m);
            && t.shared == s.shared && t.published == s.published
            && t.pc.Publishing? == s.pc.Publishing? && (t.pc.Publishing? ==> t.pc == s.pc)
  {
    hide IsDiff, Evaluated, ListsActive, WriteStage, NextStage, ActiveSet, IdSet, After;
  }

  lemma AtomicKept(cfg: Config, s: World, m: Move)
    requires AtomicInv(cfg, s) && Enabled(cfg, s, m)
    ensures AtomicInv(cfg, Apply(cfg, s, m))
  {
    if m == WriteNext {
      WriteKeepsAtomic(cfg, s);
    } else if m == WriteLock {
      LockKeepsAtomic(cfg, s);
    } else {
      hide Apply, AtStage, SharedAfter, IsDiff, Evaluated, ListsActive;
      OtherMovesWriteNothing(cfg, s, m);
    }
  }

  lemma ReportsStep(outs: seq<Outcome>, turns: seq<Turn>, o: Outcome)
    requires Reports(outs, turns)
    ensures o.snapshot.None? && o.log == [] ==> Reports(outs + [o], turns)
    ensures forall t: Turn :: o.snapshot == Some(t.snap) && o.log == t.log ==> Reports(outs + [o], turns + [t])
  {
    assert Front(outs + [o]) == outs;
    forall t: Turn ensures Front(turns + [t]) == turns {
    }
  }

  /** A cycle that evaluated nothing reports nothing. */
  lemma EmptyReportKept(cfg: Config, s: World, m: Move)
    requires EngineInv(cfg, s) && Enabled(cfg, s, m)
    requires (m.CollectOk? && s.prev == None) || m.CollectErr?
    ensures EngineInv(cfg, Apply(cfg, s, m))
  {
    hide IsDiff, Evaluated, ListsActive, Reports;
    ReportsStep(s.published, s.turns, Apply(cfg, s, m).pc.out);
  }

  lemma EvaluateKept(cfg: Config, s: World, m: Move)
    requires EngineInv(cfg, s) && m.Evaluate? && Enabled(cfg, s, m)
    ensures EngineInv(cfg, Apply(cfg, s, m))
  {
    hide IsDiff, Evaluated, ListsActive, Reports, Snaps;
    var t := Apply(cfg, s, m);
    ReportsStep(s.published, s.turns, t.pc.out);
    assert Last(t.turns).snap == s.pc.snap && t.turns == s.turns + [Last(t.turns)];
    assert t.turns[..|Snaps(s.published)|] == s.turns[..|Snaps(s.published)|];
  }

  lemma SameReport(outs: seq<Outcome>, o: Outcome, o': Outcome, turns: seq<Turn>)
    requires Reports(outs + [o], turns) && o.snapshot == o'.snapshot && o.log == o'.log
    ensures Reports(outs + [o'], turns)
  {
    assert Front(outs + [o]) == outs && Front(outs + [o']) == outs;
  }

  lemma ListKept(cfg: Config, s: World, m: Move)
    requires EngineInv(cfg, s) && m.ListActive? && Enabled(cfg, s, m)
    ensures EngineInv(cfg, Apply(cfg, s, m))
  {
    hide IsDiff, Evaluated, ListsActive, Snaps, Reports;
    SameReport(s.published, s.pc.out, Apply(cfg, s, m).pc.out, s.turns);
  }

  /** Once handed over, an outcome is among the published ones. */
  lemma HandedOver(cfg: Config, published: seq<Outcome>, o: Outcome, turns: seq<Turn>)
    requires EngineFacts(published + [o], published, turns, Some(o), cfg)
    ensures EngineFacts(published + [o], published + [o], turns, None, cfg)
  {
    hide ListsActive, Reports, Snaps;
    ReportsMeaning(published + [o], turns);
    assert turns[..|turns|] == turns;
  }

  lemma ReleaseKept(cfg: Config, s: World, m: Move)
    requires EngineInv(cfg, s) && m == WriteNext && Enabled(cfg, s, m) && s.pc.stage == ReleaseNext
    ensures EngineInv(cfg, Apply(cfg, s, m))
  {
    hide EngineFacts, WriteStage, NextStage;
    HandedOver(cfg, s.published, s.pc.out, s.turns);
  }

  lemma EngineKept(cfg: Config, s: World, m: Move)
    requires EngineInv(cfg, s) && LockInv(s) && Enabled(cfg, s, m)
    ensures EngineInv(cfg, Apply(cfg, s, m))
  {
    if (m.CollectOk? && s.prev == None) || m.CollectErr? {
      EmptyReportKept(cfg, s, m);
    } else if m.Evaluate? {
      EvaluateKept(cfg, s, m);
    } else if m.ListActive? {
      ListKept(cfg, s, m);
    } else if m == WriteNext && s.pc.stage == ReleaseNext {
      ReleaseKept(cfg, s, m);
    } else {
      hide EngineFacts, IsDiff, Evaluated, ListsActive, WriteStage;
      OtherMovesReportNothing(cfg, s, m);
    }
  }

  lemma OtherMovesReportNothing(cfg: Config, s: World, m: Move)
    requires Enabled(cfg, s, m)
    requires !((m.CollectOk? && s.prev == None) || m.CollectErr? || m.Evaluate? || m.ListActive?)
    requires !(m == WriteNext && s.pc.stage == ReleaseNext)
    ensures var t := Apply(cfg, s, m);
            && Outcomes(t) == Outcomes(s) && t.published == s.published && t.turns == s.turns
            && Listed(t.pc) == Listed(s.pc)
  {
    hide IsDiff, Evaluated, ListsActive, WriteStage, NextStage, ActiveSet, IdSet, After;
  }

  lemma FeedKeptByEvaluate(cfg: Config, s: World, m: Move)
    requires FeedInv(cfg, s) && m.Evaluate? && Enabled(cfg, s, m)
    ensures FeedInv(cfg, Apply(cfg, s, m))
  {
    hide IsDiff, Evaluated, Fed, WriteStage;
    var turn := Turn(s.pc.snap, s.clock, m.post, m.log);
    FedExtends(cfg.k, cfg.rules, s.samples, s.turns, s.pc.cur, turn);
  }

  lemma FirstSampleKept(cfg: Config, s: World, m: Move)
    requires FeedInv(cfg, s) && m.CollectOk? && s.prev == None && Enabled(cfg, s, m)
    ensures FeedInv(cfg, Apply(cfg, s, m))
  {
    assert s.samples == [];
    assert Fed(cfg.k, cfg.rules, [m.sample], []);
  }

  /** Every other move leaves the engine and its samples alone. */
  lemma OtherMovesFeedNothing(cfg: Config, s: World, m: Move)
    requires Enabled(cfg, s, m) && !m.Evaluate? && !(m.CollectOk? && s.prev == None)
    requires (s.pc.Diffing? ==> s.prev.Some?) && (s.pc.Evaluating? ==> s.prev.Some?)
    requires s.pc.Evaluating? ==> IsDiff(cfg.k, s.prev.value, s.pc.cur, s.pc.snap)
    ensures var t := Apply(cfg, s, m);
            && t.samples == s.samples && t.turns == s.turns && t.prev == s.prev && t.clock >= s.clock
            && (t.pc.Diffing? ==> t.prev.Some?)
            && (t.pc.Evaluating? ==> t.prev.Some? && IsDiff(cfg.k, t.prev.value, t.pc.cur, t.pc.snap))
  {
    hide IsDiff, Evaluated, ListsActive, WriteStage, NextStage, ActiveSet, IdSet, After;
  }

  lemma FeedKept(cfg: Config, s: World, m: Move)
    requires FeedInv(cfg, s) && Enabled(cfg, s, m)
    ensures FeedInv(cfg, Apply(cfg, s, m))
  {
    hide Apply, Enabled, IsDiff, Fed, ClockForward;
    if m.Evaluate? {
      FeedKeptByEvaluate(cfg, s, m);
    } else if m.CollectOk? && s.prev == None {
      FirstSampleKept(cfg, s, m);
    } else {
      OtherMovesFeedNothing(cfg, s, m);
    }
  }

  // ---- theorems about every execution ----

  lemma InitIsGood(cfg: Config)
    ensures Inv(cfg, INIT)
  {
  }

  lemma {:induction false} ExecutionsKeepInv(cfg: Config, moves: seq<Move>, s: World)
    requires IsExecution(cfg, moves, s)
    ensures Inv(cfg, s)
  {
    if |moves| == 0 {
      InitIsGood(cfg);
    } else {
      var m := Last(moves);
      var t: World :| IsExecution(cfg, Front(moves), t) && Enabled(cfg, t, m) && s == Apply(cfg, t, m);
      ExecutionsKeepInv(cfg, Front(moves), t);
      EveryMoveKeepsInv(cfg, t, m);
    }
  }

  lemma EveryMoveKeepsInv(cfg: Config, s: World, m: Move)
    requires Inv(cfg, s) && Enabled(cfg, s, m)
    ensures Inv(cfg, Apply(cfg, s, m))
  {
    hide LockInv, AtomicInv, CountInv, StopInv, PaceInv, WorkInv, EngineInv, FeedInv, Enabled, Apply;
    LockKept(cfg, s, m);
    AtomicKept(cfg, s, m);
    CountKept(cfg, s, m);
    StopKept(cfg, s, m);
    PaceKept(cfg, s, m);
    WorkKept(cfg, s, m);
    EngineKept(cfg, s, m);
    FeedKept(cfg, s, m);
  }

  function Points(snaps: seq<Snapshot>): (r: seq<HistoryPoint>)
    ensures |r| == |snaps| && forall i :: 0 <= i < |r| ==> r[i] == PointOf(snaps[i])
  {
    seq(|snaps|, i requires 0 <= i < |snaps| => PointOf(snaps[i]))
  }

  /** The shared state says exactly what these turns of the engine amount to. */
  ghost predicate Describes(cfg: Config, turns: seq<Turn>, sh: Shared) {
    && sh.latest == (if |turns| > 0 then Some(Last(turns).snap) else None)
    && sh.history == Recent(cfg.historyCap, Points(TurnSnaps(turns))) && sh.historyPushed == |turns|
    && sh.events == Recent(cfg.eventCap, EventsOf(LogOf(turns))) && sh.eventsPushed == |LogOf(turns)|
  }

  lemma {:induction false} WithEventsMeaning(cfg: Config, sh: Shared, events: seq<Event>, before: seq<Event>)
    requires sh.events == Recent(cfg.eventCap, before)
    ensures WithEvents(cfg, sh, events) ==
            sh.(events := Recent(cfg.eventCap, before + events), eventsPushed := sh.eventsPushed + |events|)
  {
    if |events| == 0 {
      assert before + events == before;
    } else {
      WithEventsMeaning(cfg, sh, Front(events), before);
      RecentStep(cfg.eventCap, before + Front(events), Last(events));
      assert (before + Front(events)) + [Last(events)] == before + events;
    }
  }

  lemma EventsOfConcat(a: seq<Entry>, b: seq<Entry>)
    ensures EventsOf(a + b) == EventsOf(a) + EventsOf(b)
  {
  }

  /** The turns after one more outcome: one turn longer, or as they were. */
  ghost predicate OneOutcome(o: Outcome, turns: seq<Turn>, turns': seq<Turn>) {
    if o.snapshot.Some?
    then |turns'| > 0 && turns == Front(turns') && Last(turns').snap == o.snapshot.value && Last(turns').log == o.log
    else turns' == turns && o.log == []
  }

  lemma OutcomeLog(o: Outcome, turns: seq<Turn>, turns': seq<Turn>)
    requires OneOutcome(o, turns, turns')
    ensures EventsOf(LogOf(turns')) == EventsOf(LogOf(turns)) + EventsOf(o.log)
    ensures |LogOf(turns')| == |LogOf(turns)| + |o.log|
  {
    EventsOfConcat(LogOf(turns), o.log);
  }

  lemma OutcomePoint(cfg: Config, sh: Shared, o: Outcome, turns: seq<Turn>, turns': seq<Turn>)
    requires OneOutcome(o, turns, turns')
    requires sh.history == Recent(cfg.historyCap, Points(TurnSnaps(turns))) && sh.historyPushed == |turns|
    ensures var r := WithPoint(cfg, sh, o);
            r.history == Recent(cfg.historyCap, Points(TurnSnaps(turns'))) && r.historyPushed == |turns'|
  {
    if o.snapshot.Some? {
      var points := Points(TurnSnaps(turns));
      assert Points(TurnSnaps(turns')) == points + [PointOf(o.snapshot.value)];
      hide PointOf, Points, TurnSnaps, Recent;
      RecentStep(cfg.historyCap, points, PointOf(o.snapshot.value));
    }
  }

  /** One whole handover carries the description over one more turn, or over none. */
  lemma PublishDescribes(cfg: Config, sh: Shared, o: Outcome, turns: seq<Turn>, turns': seq<Turn>)
    requires Describes(cfg, turns, sh) && OneOutcome(o, turns, turns')
    ensures Describes(cfg, turns', Publish(cfg, sh, o))
  {
    hide PointOf, Points, TurnSnaps, Recent, PushOnto, LogOf, WithEvents;
    OutcomePoint(cfg, sh, o, turns, turns');
    OutcomeLog(o, turns, turns');
    WithEventsMeaning(cfg, WithPoint(cfg, sh, o), EventsOf(o.log), EventsOf(LogOf(turns)));
  }

  lemma {:induction false} HandoversDescribeTurns(cfg: Config, published: seq<Outcome>, turns: seq<Turn>)
    requires Reports(published, turns)
    ensures Describes(cfg, turns, SharedAfter(cfg, published))
    ensures |published| > 0 ==>
              var o := Last(published);
              SharedAfter(cfg, published).active == ActiveAlerts(o.alerts)
              && SharedAfter(cfg, published).lastError == o.error
  {
    if |published| > 0 {
      var o := Last(published);
      var turns0 := if o.snapshot.Some? then Front(turns) else turns;
      HandoversDescribeTurns(cfg, Front(published), turns0);
      PublishDescribes(cfg, SharedAfter(cfg, Front(published)), o, turns0, turns);
    }
  }

  /** A point of the history shows the figures of its own snapshot, the percentage of memory in use
      among them; the two counts keep their low 32 and 64 bits. */
  predicate Plots(h: HistoryPoint, s: SystemRate) {
    && h.cpuPct == s.cpuPct && h.netRxBps == s.netRxBps && h.netTxBps == s.netTxBps
    && IsMemShare(h.memPct, s.mem)
    && h.procCount == s.procCount % 4294967296
    && h.scanMicros == (s.scanTime / 1000) % 18446744073709551616
  }

  /** The history plots the last turns of the engine, in order, and the event log holds the last
      events; both hold all there are until their capacity is reached. */
  ghost predicate TellsTurns(cfg: Config, turns: seq<Turn>, sh: Shared) {
    && |sh.history| == Min(|turns|, cfg.historyCap)
    && (forall i :: 0 <= i < |sh.history| ==> Plots(sh.history[i], turns[|turns| - |sh.history| + i].snap.system))
    && (var log := LogOf(turns);
        && |sh.events| == Min(|log|, cfg.eventCap)
        && forall i :: 0 <= i < |sh.events| ==> sh.events[i] == log[|log| - |sh.events| + i].event)
  }

  lemma PointPlots(s: Snapshot)
    ensures Plots(PointOf(s), s.system)
  {
    UsedIsShare(s.system.mem);
  }

  /** What one handover leaves for the readers. */
  lemma HandoverShows(cfg: Config, sh: Shared, o: Outcome)
    ensures var r := Publish(cfg, sh, o);
            && (o.snapshot.Some? ==>
                  r.latest == o.snapshot && |r.history| > 0 && Plots(Last(r.history), o.snapshot.value.system))
            && (o.snapshot.None? ==> r.latest == sh.latest && r.history == sh.history)
            && |r.active| == |o.alerts| && r.lastError == o.error
            && (forall i :: 0 <= i < |r.active| ==>
                  r.active[i].rule == o.alerts[i].rule && r.active[i].subject == o.alerts[i].subject
                  && r.active[i].held == o.alerts[i].held)
  {
    hide PointOf, Plots;
    EventsLeaveTheRest(cfg, WithPoint(cfg, sh, o), EventsOf(o.log));
    if o.snapshot.Some? {
      PointPlots(o.snapshot.value);
    }
  }

  lemma {:induction false} EventsLeaveTheRest(cfg: Config, sh: Shared, events: seq<Event>)
    ensures var r := WithEvents(cfg, sh, events); r.history == sh.history && r.latest == sh.latest
  {
    if |events| > 0 {
      EventsLeaveTheRest(cfg, sh, Front(events));
    }
  }

  lemma DescriptionTells(cfg: Config, turns: seq<Turn>, sh: Shared)
    requires Describes(cfg, turns, sh)
    ensures TellsTurns(cfg, turns, sh)
  {
    hide PointOf, Plots, LogOf, Recent, EventsOf, Points, TurnSnaps;
    RecentAt(cfg.historyCap, Points(TurnSnaps(turns)));
    RecentAt(cfg.eventCap, EventsOf(LogOf(turns)));
    forall i | 0 <= i < |turns| ensures Plots(PointOf(turns[i].snap), turns[i].snap.system) {
      PointPlots(turns[i].snap);
    }
  }

  /** An entry of the list is true of its subject after these turns. */
  ghost predicate Tells(cfg: Config, turns: seq<Turn>, samples: seq<Sample>, o: Outcome,
                        id: SubjectId, a: ActiveAlert)
  {
    0 < |turns| < |samples|
    && Announces(cfg.rules, turns, samples[|turns|], o.from, o.at, id, a.rule, a.subject, a.held)
  }

  /** The active list has one entry for each subject on after these turns, longest held first, and
      every entry is true of its subject; the ages were read while the outcome was made. */
  ghost predicate ShowsActive(cfg: Config, turns: seq<Turn>, samples: seq<Sample>, o: Outcome,
                              active: seq<ActiveAlert>)
  {
    && NoDuplicates(o.ids) && IdSet(o.ids) == ActiveSet(After(turns)) && |active| == |o.ids|
    && (forall i, j :: 0 <= i < j < |active| ==> active[i].held >= active[j].held)
    && forall i :: 0 <= i < |active| ==> Tells(cfg, turns, samples, o, o.ids[i], active[i])
  }

  lemma ListingShows(cfg: Config, s: World, n: nat, o: Outcome)
    requires FeedInv(cfg, s) && n <= |s.turns| && ListedFrom(cfg, o, After(s.turns[..n]))
    ensures ShowsActive(cfg, s.turns[..n], s.samples, o, ActiveAlerts(o.alerts))
  {
    hide Fed, Tells, IsAlertFor, After;
    var mine, active := s.turns[..n], ActiveAlerts(o.alerts);
    forall i | 0 <= i < |active| ensures Tells(cfg, mine, s.samples, o, o.ids[i], active[i]) {
      assert IsAlertFor(cfg.rules, After(mine), o.from, o.at, o.ids[i], o.alerts[i]);
      OneListed(cfg, s, n, o, o.ids[i], o.alerts[i]);
    }
  }

  lemma OneListed(cfg: Config, s: World, n: nat, o: Outcome, id: SubjectId, a: Alert)
    requires FeedInv(cfg, s) && n <= |s.turns| && IsAlertFor(cfg.rules, After(s.turns[..n]), o.from, o.at, id, a)
    ensures Tells(cfg, s.turns[..n], s.samples, o, id, ActiveAlert(a.rule, a.subject, a.held))
  {
    hide Announces, DiffedAt, IsRun;
    if s.samples != [] {
      FedPrefix(cfg.k, cfg.rules, s.samples, s.turns, n);
      AlertsAreTruthful(cfg.k, cfg.rules, s.samples[..n + 1], s.turns[..n], o.from, o.at, id, a);
    }
  }

  lemma OutsideHandover(cfg: Config, s: World)
    requires AtomicInv(cfg, s) && EngineInv(cfg, s) && FeedInv(cfg, s) && !s.pc.Publishing?
    ensures s.shared == SharedAfter(cfg, s.published)
    ensures var mine := s.turns[..|Snaps(s.published)|];
            && Describes(cfg, mine, s.shared)
            && (|s.published| > 0 ==>
                  && s.shared.lastError == Last(s.published).error
                  && ShowsActive(cfg, mine, s.samples, Last(s.published), s.shared.active))
  {
    hide SharedAfter, Reports, ListsActive, Snaps, Describes, FeedInv, ShowsActive;
    var n := |Snaps(s.published)|;
    HandoversDescribeTurns(cfg, s.published, s.turns[..n]);
    if |s.published| > 0 {
      ListingShows(cfg, s, n, Last(s.published));
    }
  }

  /** Whoever can read the shared state, whenever, sees it after a whole number of cycles: the
      latest snapshot, the history, the event log and the active alerts all belong to the same
      first n turns of the engine, and n is behind the engine by at most the cycle in flight. The
      ages of the alerts were read between the start of the last cycle and now. */
  lemma ReadersSeeWholeCycles(cfg: Config, moves: seq<Move>, s: World) returns (n: nat)
    requires IsExecution(cfg, moves, s) && (s.reading > 0 || s.lock != Writing)
    ensures n <= |s.turns| <= n + 1
    ensures s.shared == SharedAfter(cfg, s.published)
    ensures Describes(cfg, s.turns[..n], s.shared)
    ensures s.shared.latest == if n == 0 then None else Some(s.turns[n - 1].snap)
    ensures TellsTurns(cfg, s.turns[..n], s.shared)
    ensures |s.published| > 0 ==>
              && |s.published| <= |s.starts| && s.shared.lastError == Last(s.published).error
              && s.starts[|s.published| - 1] <= Last(s.published).from <= Last(s.published).at <= s.clock
              && ShowsActive(cfg, s.turns[..n], s.samples, Last(s.published), s.shared.active)
  {
    hide IsExecution, AtomicInv, CountInv, StopInv, PaceInv, EngineInv, FeedInv, SharedAfter, ShowsActive, TellsTurns,
      Points, LogOf;
    ExecutionsKeepInv(cfg, moves, s);
    OutsideHandover(cfg, s);
    TurnsInFlight(cfg, s);
    n := |Snaps(s.published)|;
    DescriptionTells(cfg, s.turns[..n], s.shared);
  }

  lemma TurnsInFlight(cfg: Config, s: World)
    requires EngineInv(cfg, s)
    ensures |Snaps(s.published)| <= |s.turns| <= |Snaps(s.published)| + 1
  {
    ReportsMeaning(Outcomes(s), s.turns);
    if |Outcomes(s)| > |s.published| {
      assert Front(Outcomes(s)) == s.published;
    }
  }

  /** The write lock is taken for the handover and for nothing else, and nobody reads meanwhile. */
  lemma WorkHoldsNoLock(cfg: Config, moves: seq<Move>, s: World)
    requires IsExecution(cfg, moves, s)
    ensures s.lock == Writing <==> s.pc.Publishing?
    ensures s.pc.Publishing? ==> s.reading == 0
    ensures s.ticks <= |s.published| <= s.ticks + 1
  {
    ExecutionsKeepInv(cfg, moves, s);
  }

  /** Once the stop flag is up, one cycle at most still starts, and only if the flag went up between
      the load that found it down and the start of that cycle; and one handover at most is still
      completed. */
  lemma StopIsBounded(cfg: Config, moves: seq<Move>, s: World)
    requires IsExecution(cfg, moves, s) && s.stop
    ensures s.startsAtStop <= |s.starts| <= s.startsAtStop + 1
    ensures |s.starts| == s.startsAtStop + 1 <==> s.lateStop && s.pc != Starting
    ensures s.publishedAtStop <= |s.published| <= s.publishedAtStop + 1
  {
    hide IsExecution, LockInv, AtomicInv, CountInv, PaceInv, WorkInv, EngineInv, FeedInv;
    ExecutionsKeepInv(cfg, moves, s);
  }

  /** A sleeper is due within 50 ms, and not after its deadline unless that is past. */
  predicate NapInv(s: World) {
    s.pc.Napping? ==>
      s.pc.wake <= s.clock + 50_000_000 && (s.pc.wake <= s.pc.deadline || s.pc.wake <= s.clock)
  }

  lemma NapKept(cfg: Config, s: World, m: Move)
    requires NapInv(s) && Enabled(cfg, s, m)
    ensures NapInv(Apply(cfg, s, m))
  {
    hide IsDiff, Evaluated, ListsActive, WriteStage, NextStage, ActiveSet, IdSet, After;
  }

  /** So whenever the flag goes up during the rest of a cycle, the thread is due to look at it
      within 50 ms. */
  lemma {:induction false} NapsAreShort(cfg: Config, moves: seq<Move>, s: World)
    requires IsExecution(cfg, moves, s) && s.pc.Napping?
    ensures s.pc.wake <= s.clock + 50_000_000
    ensures s.pc.wake <= s.pc.deadline || s.pc.wake <= s.clock
  {
    NapInvHolds(cfg, moves, s);
  }

  lemma {:induction false} NapInvHolds(cfg: Config, moves: seq<Move>, s: World)
    requires IsExecution(cfg, moves, s)
    ensures NapInv(s)
  {
    if |moves| > 0 {
      var m := Last(moves);
      var t: World :| IsExecution(cfg, Front(moves), t) && Enabled(cfg, t, m) && s == Apply(cfg, t, m);
      NapInvHolds(cfg, Front(moves), t);
      hide Enabled, Apply;
      NapKept(cfg, t, m);
    }
  }

  // ---- the order of the samples ----

  ghost predicate InOrder(samples: seq<Sample>) {
    forall i, j :: 0 <= i < j < |samples| ==> samples[i].at <= samples[j].at
  }

  /** The baseline is not younger than the sample being worked on. */
  predicate BaselineInv(s: World) {
    |s.samples| > 0 ==>
      && Last(s.samples).at <= s.clock
      && (s.pc.Collecting? ==> Last(s.samples).at <= s.cycleStart)
      && (s.pc.Diffing? || s.pc.Evaluating? ==> Last(s.samples).at <= s.pc.cur.at)
  }

  predicate CurrentInv(s: World) {
    s.pc.Diffing? || s.pc.Evaluating? ==> s.pc.cur.at <= s.clock
  }

  predicate AtWork(pc: Pc) {
    pc.Collecting? || pc.Diffing? || pc.Evaluating?
  }

  lemma BeginKeepsOrder(cfg: Config, s: World)
    requires BaselineInv(s) && s.pc == Starting
    ensures var t := Apply(cfg, s, BeginCycle); t.samples == s.samples && BaselineInv(t) && CurrentInv(t)
  {
  }

  lemma CollectKeepsOrder(cfg: Config, s: World, m: Move)
    requires InOrder(s.samples) && BaselineInv(s) && m.CollectOk? && Enabled(cfg, s, m)
    ensures var t := Apply(cfg, s, m); InOrder(t.samples) && BaselineInv(t) && CurrentInv(t)
  {
    OneMoreInOrder(s.samples, m.sample);
    hide InOrder, Blank, IsDiff, Evaluated, ListsActive, WriteStage, NextStage, ActiveSet, IdSet, After, Min, SatSub;
  }

  lemma DiffKeepsOrder(cfg: Config, s: World, m: Move)
    requires BaselineInv(s) && CurrentInv(s) && m.TakeDiff? && Enabled(cfg, s, m)
    ensures var t := Apply(cfg, s, m); t.samples == s.samples && BaselineInv(t) && CurrentInv(t)
  {
    hide IsDiff;
  }

  lemma EvaluateKeepsOrder(cfg: Config, s: World, m: Move)
    requires InOrder(s.samples) && BaselineInv(s) && CurrentInv(s) && m.Evaluate? && Enabled(cfg, s, m)
    ensures var t := Apply(cfg, s, m); InOrder(t.samples) && BaselineInv(t) && CurrentInv(t)
  {
    OneMoreInOrder(s.samples, s.pc.cur);
    hide InOrder, Evaluated, After, Blank;
  }

  lemma OneMoreInOrder(samples: seq<Sample>, cur: Sample)
    requires InOrder(samples) && (|samples| > 0 ==> Last(samples).at <= cur.at)
    ensures InOrder(samples + [cur])
  {
  }

  lemma StartsWhenStarting(cfg: Config, s: World)
    requires Enabled(cfg, s, BeginCycle)
    ensures s.pc == Starting
  {
  }

  lemma OtherMovesSampleNothing(cfg: Config, s: World, m: Move)
    requires Enabled(cfg, s, m) && !(m == BeginCycle || m.CollectOk? || m.TakeDiff? || m.Evaluate?)
    ensures var t := Apply(cfg, s, m);
            && t.samples == s.samples && t.clock >= s.clock && t.cycleStart == s.cycleStart
            && (AtWork(t.pc) ==> t.pc == s.pc)
  {
    hide IsDiff, Evaluated, ListsActive, WriteStage, NextStage, ActiveSet, IdSet, After, Blank;
  }

  lemma OrderKept(cfg: Config, s: World, m: Move)
    requires InOrder(s.samples) && BaselineInv(s) && CurrentInv(s) && Enabled(cfg, s, m)
    ensures var t := Apply(cfg, s, m); InOrder(t.samples) && BaselineInv(t) && CurrentInv(t)
  {
    hide Apply, Enabled, InOrder;
    if m == BeginCycle {
      StartsWhenStarting(cfg, s);
      BeginKeepsOrder(cfg, s);
    } else if m.CollectOk? {
      CollectKeepsOrder(cfg, s, m);
    } else if m.TakeDiff? {
      DiffKeepsOrder(cfg, s, m);
    } else if m.Evaluate? {
      EvaluateKeepsOrder(cfg, s, m);
    } else {
      OtherMovesSampleNothing(cfg, s, m);
    }
  }

  lemma {:induction false} SamplesAreInOrder(cfg: Config, moves: seq<Move>, s: World)
    requires IsExecution(cfg, moves, s)
    ensures InOrder(s.samples) && BaselineInv(s) && CurrentInv(s)
  {
    if |moves| > 0 {
      var m := Last(moves);
      var t: World :| IsExecution(cfg, Front(moves), t) && Enabled(cfg, t, m) && s == Apply(cfg, t, m);
      SamplesAreInOrder(cfg, Front(moves), t);
      hide Enabled, Apply;
      OrderKept(cfg, t, m);
    }
  }

  /** `diff` is always given the earlier sample first, as it asks, so the interval it reports is the
      plain difference of the two instants. */
  lemma IntervalsAreExact(cfg: Config, moves: seq<Move>, s: World, i: nat)
    requires IsExecution(cfg, moves, s) && i < |s.turns|
    ensures |s.samples| == |s.turns| + 1
    ensures s.turns[i].snap.system.interval == s.samples[i + 1].at - s.samples[i].at
  {
    hide IsExecution, IsRun;
    ExecutionsKeepInv(cfg, moves, s);
    SamplesAreInOrder(cfg, moves, s);
    assert DiffedAt(cfg.k, s.samples, s.turns, i);
    SystemTellsTheSamples(s.samples[i], s.samples[i + 1]);
  }

  // ---- particular moves ----

  lemma OneMove(cfg: Config, before: seq<Move>, s: World, m: Move)
    requires IsExecution(cfg, before, s) && Enabled(cfg, s, m)
    ensures IsExecution(cfg, before + [m], Apply(cfg, s, m))
  {
    hide Enabled, Apply;
    assert Front(before + [m]) == before;
  }

  lemma LoadStopMove(cfg: Config, before: seq<Move>, s: World)
    requires IsExecution(cfg, before, s) && s.pc == Check
    ensures IsExecution(cfg, before + [LoadStop], s.(pc := if s.stop then Done else Starting))
  {
    hide IsExecution;
    OneMove(cfg, before, s, LoadStop);
  }

  lemma RaiseStopMove(cfg: Config, before: seq<Move>, s: World)
    requires IsExecution(cfg, before, s) && !s.stop
    ensures IsExecution(cfg, before + [RaiseStop],
                        s.(stop := true, publishedAtStop := |s.published|, startsAtStop := |s.starts|,
                           lateStop := s.pc == Starting))
  {
    hide IsExecution;
    OneMove(cfg, before, s, RaiseStop);
  }

  lemma BeginCycleMove(cfg: Config, before: seq<Move>, s: World)
    requires IsExecution(cfg, before, s) && s.pc == Starting
    ensures IsExecution(cfg, before + [BeginCycle],
                        s.(pc := Collecting, cycleStart := s.clock, starts := s.starts + [s.clock]))
  {
    hide IsExecution;
    OneMove(cfg, before, s, BeginCycle);
  }

  /** That late cycle does happen: there is a run in which a scan starts with the flag already up. */
  lemma LateScan(cfg: Config) returns (moves: seq<Move>, s: World)
    ensures IsExecution(cfg, moves, s) && s.stop && s.pc == Collecting && |s.starts| == s.startsAtStop + 1
  {
    assert IsExecution(cfg, [], INIT);
    hide IsExecution;
    LoadStopMove(cfg, [], INIT);
    moves, s := [] + [LoadStop], INIT.(pc := Starting);
    RaiseStopMove(cfg, moves, s);
    moves, s := moves + [RaiseStop], s.(stop := true, publishedAtStop := 0, startsAtStop := 0, lateStop := true);
    BeginCycleMove(cfg, moves, s);
    moves, s := moves + [BeginCycle], s.(pc := Collecting, cycleStart := 0, starts := [] + [0]);
  }

  lemma {:induction false} PacedSpan(interval: nat, starts: seq<nat>)
    requires Paced(interval, starts) && |starts| > 0
    ensures Last(starts) - starts[0] >= (|starts| - 1) * interval
  {
    if |starts| > 1 {
      PacedSpan(interval, Front(starts));
      var n := |starts| - 2;
      assert Last(Front(starts)) == starts[n] && starts[n + 1] >= starts[n] + interval;
      assert (n + 1) * interval == n * interval + interval;
    }
  }

  /** No catch-up bursts: scans start at least an interval apart, however long the work took, so
      n scans span at least n - 1 intervals. There is one work time for each cycle that got as far as
      measuring it, it reaches from the start of its cycle past the listing of its alerts and not into
      the next cycle, and the overruns counted are those that took the interval or longer. */
  lemma ScansArePaced(cfg: Config, moves: seq<Move>, s: World)
    requires IsExecution(cfg, moves, s)
    ensures Paced(cfg.interval, s.starts)
    ensures |s.starts| > 0 ==> Last(s.starts) - s.starts[0] >= (|s.starts| - 1) * cfg.interval
    ensures |s.spans| <= |s.published| <= |s.starts| <= |s.spans| + 1
    ensures forall i :: 0 <= i < |s.spans| ==>
              s.starts[i] <= s.published[i].at <= s.starts[i] + s.spans[i] <= Until(s, i)
    ensures Overruns(cfg.interval, s.spans) == s.overruns + if s.pc == CountingOverrun then 1 else 0
  {
    hide IsExecution, LockInv, AtomicInv, StopInv, EngineInv, FeedInv, Overruns;
    ExecutionsKeepInv(cfg, moves, s);
    if |s.starts| > 0 {
      PacedSpan(cfg.interval, s.starts);
    }
  }

  /** The engine theorems apply to every execution: its turns are a run, fed by the diffs of
      consecutive good samples on a clock that never goes back. So an alert is on exactly when
      what was sampled justifies it. */
  lemma SampledAlertsAreJustified(cfg: Config, moves: seq<Move>, s: World, id: SubjectId)
    requires IsExecution(cfg, moves, s) && id.rule < |cfg.rules| && cfg.rules[id.rule].Sane()
    ensures id in ActiveSet(After(s.turns)) <==>
            ShouldFire(cfg.rules[id.rule], HistoryOf(cfg.rules, s.turns, id))
    ensures id in After(s.turns) && id.procKey.Some? ==>
              s.prev.Some? && id.procKey.value in s.prev.value.procs
  {
    ExecutionsKeepInv(cfg, moves, s);
    if s.samples != [] {
      FedIsDistinct(cfg.k, cfg.rules, s.samples, s.turns);
      if id in After(s.turns) && id.procKey.Some? {
        StatesAreInBaseline(cfg.k, cfg.rules, s.samples, s.turns, id);
      }
    }
    EngineFiringTheorem(cfg.rules, s.turns, id);
  }
}
