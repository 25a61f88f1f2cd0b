/** The alert engine (src/rules.rs): every (rule, subject) automaton in one shared map, a tick
    counter, and a sweep that drops what was not seen this tick. */
module AlertEngine {
  import opened Prelude
  import opened Procfs
  import opened Delta
  import opened Rules
  import opened Automaton
  import opened Decimal

  /** `procKey` is None for the system as a whole. */
  datatype SubjectId = SubjectId(rule: nat, procKey: Option<ProcKey>)

  datatype Phase = Pending | Firing

  datatype State = State(phase: Phase, since: nat, seen: nat, caption: string)

  type States = map<SubjectId, State>

  datatype Event = Event(
    kind: Kind, ruleName: string, subject: string, metric: Metric,
    value: real, threshold: real, heldFor: nat)

  /** An event together with the subject it is about, which the event itself only labels. */
  datatype Entry = Entry(id: SubjectId, event: Event)

  function EventsOf(log: seq<Entry>): (events: seq<Event>)
    ensures |events| == |log|
    ensures forall i :: 0 <= i < |log| ==> events[i] == log[i].event
  {
    seq(|log|, i requires 0 <= i < |log| => log[i].event)
  }

  // ---- what a snapshot shows ----

  /** One call of `step`: a rule, the subject it is applied to, and the subject's value. */
  datatype Sighting = Sighting(id: SubjectId, rule: Rule, caption: string, value: real)

  function SystemValue(m: Metric, s: SystemRate): Option<real> {
    match m
    case CpuPct => Some(s.cpuPct)
    case MemPct => Some(s.mem.UsedPct())
    case NetRxBps => Some(s.netRxBps)
    case NetTxBps => Some(s.netTxBps)
    case ProcCount => Some(s.procCount as real)
    case _ => None
  }

  function ProcValue(m: Metric, p: ProcRate): Option<real> {
    match m
    case CpuPct => Some(p.cpuPct)
    case Rss => Some(p.rssBytes as real)
    case ReadBps => p.readBps
    case WriteBps => p.writeBps
    case Threads => Some(p.threads as real)
    case _ => None
  }

  /** A process takes part when its name matches, it is not new, and it has the value. */
  function Eligible(rule: Rule, p: ProcRate): Option<real> {
    if rule.target.Matches(p.comm) && !p.isNew then ProcValue(rule.metric, p) else None
  }

  function ProcLabel(p: ProcRate): string {
    p.comm + " (pid " + IntText(p.pid) + ")"
  }

  function ProcSighting(ri: nat, rule: Rule, p: ProcRate, v: real): Sighting {
    Sighting(SubjectId(ri, Some(p.key)), rule, ProcLabel(p), v)
  }

  function SystemSighting(ri: nat, rule: Rule, v: real): Sighting {
    Sighting(SubjectId(ri, None), rule, "system", v)
  }

  /** What a snapshot shows of one subject, looked up directly. */
  function Observe(rules: seq<Rule>, snap: Snapshot, id: SubjectId): Option<Sighting> {
    if id.rule >= |rules| then None
    else
      var rule := rules[id.rule];
      match (rule.target, id.procKey)
      case (System, None) =>
        (match SystemValue(rule.metric, snap.system)
         case None => None
         case Some(v) => Some(SystemSighting(id.rule, rule, v)))
      case (Process(_), Some(key)) =>
        (match FindRow(snap.procs, key)
         case None => None
         case Some(p) =>
           match Eligible(rule, p)
           case None => None
           case Some(v) => Some(ProcSighting(id.rule, rule, p, v)))
      case _ => None
  }

  // ---- the sightings in the order the engine meets them ----

  function ProcAgenda(ri: nat, rule: Rule, procs: seq<ProcRate>): seq<Sighting> {
    if |procs| == 0 then []
    else ProcAgenda(ri, rule, Front(procs)) +
         match Eligible(rule, Last(procs)) {
           case None => []
           case Some(v) => [ProcSighting(ri, rule, Last(procs), v)]
         }
  }

  lemma ProcAgendaNext(ri: nat, rule: Rule, procs: seq<ProcRate>, pi: nat)
    requires pi < |procs|
    ensures ProcAgenda(ri, rule, procs[..pi + 1]) ==
            ProcAgenda(ri, rule, procs[..pi]) +
            match Eligible(rule, procs[pi]) {
              case None => []
              case Some(v) => [ProcSighting(ri, rule, procs[pi], v)]
            }
  {
    assert Front(procs[..pi + 1]) == procs[..pi];
  }

  function RuleAgenda(ri: nat, rule: Rule, snap: Snapshot): seq<Sighting> {
    match rule.target
    case System =>
      (match SystemValue(rule.metric, snap.system)
       case None => []
       case Some(v) => [SystemSighting(ri, rule, v)])
    case Process(_) => ProcAgenda(ri, rule, snap.procs)
  }

  function Agenda(rules: seq<Rule>, snap: Snapshot): seq<Sighting> {
    if |rules| == 0 then []
    else Agenda(Front(rules), snap) + RuleAgenda(|rules| - 1, Last(rules), snap)
  }

  lemma AgendaNext(rules: seq<Rule>, ri: nat, snap: Snapshot)
    requires ri < |rules|
    ensures Agenda(rules[..ri + 1], snap) == Agenda(rules[..ri], snap) + RuleAgenda(ri, rules[ri], snap)
  {
    hide RuleAgenda;
    assert Front(rules[..ri + 1]) == rules[..ri];
  }

  // ---- one sighting ----

  function StatusOf(st: Option<State>): Status {
    match st
    case None => Inactive
    case Some(s) => if s.phase == Firing then FiringSince(s.since) else PendingSince(s.since)
  }

  function StateFor(status: Status, tick: nat, caption: string): Option<State> {
    match status
    case Inactive => None
    case PendingSince(since) => Some(State(Pending, since, tick, caption))
    case FiringSince(since) => Some(State(Firing, since, tick, caption))
  }

  function Look(states: States, id: SubjectId): Option<State> {
    if id in states then Some(states[id]) else None
  }

  function Put(states: States, id: SubjectId, st: Option<State>): States {
    if st.Some? then states[id := st.value] else states - {id}
  }

  function EventOf(rule: Rule, caption: string, sig: Signal): Event {
    Event(sig.kind, rule.name, caption, rule.metric, sig.value, sig.threshold, sig.heldFor)
  }

  function StepState(st: Option<State>, s: Sighting, now: nat, tick: nat): Option<State> {
    StateFor(Next(s.rule, StatusOf(st), Reading(now, Some(s.value))), tick, s.caption)
  }

  function StepEntries(st: Option<State>, s: Sighting, now: nat): seq<Entry> {
    match Emit(s.rule, StatusOf(st), Reading(now, Some(s.value)))
    case None => []
    case Some(sig) => [Entry(s.id, EventOf(s.rule, s.caption, sig))]
  }

  datatype Core = Core(states: States, log: seq<Entry>)

  /** The sightings applied one after another. */
  function Fold(states: States, now: nat, tick: nat, agenda: seq<Sighting>): Core {
    if |agenda| == 0 then Core(states, [])
    else
      var c := Fold(states, now, tick, Front(agenda));
      var s := Last(agenda);
      Core(Put(c.states, s.id, StepState(Look(c.states, s.id), s, now, tick)),
           c.log + StepEntries(Look(c.states, s.id), s, now))
  }

  lemma FoldOne(states: States, now: nat, tick: nat, agenda: seq<Sighting>, s: Sighting)
    ensures var c := Fold(states, now, tick, agenda);
            var c' := Fold(states, now, tick, agenda + [s]);
            && c'.states == Put(c.states, s.id, StepState(Look(c.states, s.id), s, now, tick))
            && c'.log == c.log + StepEntries(Look(c.states, s.id), s, now)
  {
    assert Front(agenda + [s]) == agenda;
  }

  // ---- the sweep ----

  function SeenAt(states: States, tick: nat): States {
    map id | id in states && states[id].seen == tick :: states[id]
  }

  lemma OneMoreEvent(log: seq<Entry>, gone: seq<Entry>, x: Entry)
    ensures EventsOf(log + (gone + [x])) == EventsOf(log + gone) + [x.event]
  {
    assert log + (gone + [x]) == (log + gone) + [x];
  }

  /** The states left when the sweep has yet to visit `todo`. */
  function Unswept(was: States, tick: nat, todo: set<SubjectId>): States {
    map id | id in was && (id in todo || was[id].seen == tick) :: was[id]
  }

  lemma SweepEnds(was: States, tick: nat)
    ensures Unswept(was, tick, was.Keys) == was && Unswept(was, tick, {}) == SeenAt(was, tick)
  {
  }

  lemma SweepVisits(was: States, tick: nat, todo: set<SubjectId>, id: SubjectId)
    requires todo <= was.Keys && id in todo
    ensures var states := Unswept(was, tick, todo);
            && id in states && states[id] == was[id]
            && Unswept(was, tick, todo - {id}) == if was[id].seen == tick then states else states - {id}
  {
  }

  ghost predicate Orphaned(states: States, tick: nat, id: SubjectId) {
    id in states && states[id].seen != tick && states[id].phase == Firing
  }

  function GoneEntry(rules: seq<Rule>, id: SubjectId, st: State, now: nat): Entry
    requires id.rule < |rules|
  {
    var rule := rules[id.rule];
    Entry(id, EventOf(rule, st.caption, Signal(ClearedGone, 0.0, rule.threshold, SatSub(now, st.since))))
  }

  /** One `ClearedGone` for each firing subject among `ids` that was not seen, in any order. */
  ghost predicate IsSweepOf(rules: seq<Rule>, states: States, now: nat, tick: nat,
                            ids: set<SubjectId>, gone: seq<Entry>)
  {
    && (forall i, j :: 0 <= i < j < |gone| ==> gone[i].id != gone[j].id)
    && (forall e :: e in gone ==>
          e.id in ids && Orphaned(states, tick, e.id) && e.id.rule < |rules|
          && e == GoneEntry(rules, e.id, states[e.id], now))
    && (forall id :: id in ids && Orphaned(states, tick, id) ==> exists e :: e in gone && e.id == id)
  }

  ghost predicate IsSweep(rules: seq<Rule>, states: States, now: nat, tick: nat, gone: seq<Entry>) {
    IsSweepOf(rules, states, now, tick, states.Keys, gone)
  }

  lemma OneMoreSwept(rules: seq<Rule>, states: States, now: nat, tick: nat,
                     ids: set<SubjectId>, gone: seq<Entry>, id: SubjectId)
    requires IsSweepOf(rules, states, now, tick, ids, gone)
    requires id !in ids && id in states && id.rule < |rules|
    ensures IsSweepOf(rules, states, now, tick, ids + {id},
              if Orphaned(states, tick, id) then gone + [GoneEntry(rules, id, states[id], now)] else gone)
  {
    if Orphaned(states, tick, id) {
      var e := GoneEntry(rules, id, states[id], now);
      forall i | 0 <= i < |gone| ensures gone[i].id != id {
        assert gone[i] in gone;
      }
      assert forall x :: x in gone + [e] <==> x in gone || x == e;
    }
  }

  // ---- one tick ----

  /** What one call of `evaluate` does to the states, and the entries it returns. */
  ghost predicate Evaluated(rules: seq<Rule>, pre: States, tick: nat, snap: Snapshot, now: nat,
                            post: States, log: seq<Entry>)
  {
    var c := Fold(pre, now, tick, Agenda(rules, snap));
    && post == SeenAt(c.states, tick)
    && |c.log| <= |log| && log[..|c.log|] == c.log
    && IsSweep(rules, c.states, now, tick, log[|c.log|..])
  }

  // ---- whole runs ----

  datatype Turn = Turn(snap: Snapshot, now: nat, post: States, log: seq<Entry>)

  function After(turns: seq<Turn>): States {
    if |turns| == 0 then map[] else Last(turns).post
  }

  function LogOf(turns: seq<Turn>): seq<Entry> {
    if |turns| == 0 then [] else LogOf(Front(turns)) + Last(turns).log
  }

  ghost predicate IsRun(rules: seq<Rule>, turns: seq<Turn>) {
    |turns| == 0 ||
    (var t := Last(turns);
     IsRun(rules, Front(turns)) && Evaluated(rules, After(Front(turns)), |turns|, t.snap, t.now, t.post, t.log))
  }

  /** Every state is for an existing rule and was seen at the last tick. */
  ghost predicate Fresh(rules: seq<Rule>, states: States, tick: nat) {
    forall id :: id in states ==> id.rule < |rules| && states[id].seen == tick
  }

  lemma {:induction false} AgendaIsForRules(rules: seq<Rule>, snap: Snapshot, s: Sighting)
    requires s in Agenda(rules, snap)
    ensures s.id.rule < |rules| && s.rule == rules[s.id.rule]
  {
    var here := RuleAgenda(|rules| - 1, Last(rules), snap);
    if s in here {
      if Last(rules).target.Process? {
        ProcAgendaMember(|rules| - 1, Last(rules), snap.procs, s);
      }
    } else {
      AgendaIsForRules(Front(rules), snap, s);
    }
  }

  lemma {:induction false} ProcAgendaMember(ri: nat, rule: Rule, procs: seq<ProcRate>, s: Sighting)
    ensures s in ProcAgenda(ri, rule, procs) <==>
            exists p :: p in procs && Eligible(rule, p).Some? && s == ProcSighting(ri, rule, p, Eligible(rule, p).value)
  {
    if |procs| > 0 {
      ProcAgendaMember(ri, rule, Front(procs), s);
      assert forall p :: p in procs <==> p in Front(procs) || p == Last(procs);
    }
  }

  lemma {:induction false} FoldKeepsRules(states: States, now: nat, tick: nat, agenda: seq<Sighting>, n: nat)
    requires forall id :: id in states ==> id.rule < n
    requires forall s :: s in agenda ==> s.id.rule < n
    ensures forall id :: id in Fold(states, now, tick, agenda).states ==> id.rule < n
  {
    if |agenda| > 0 {
      FoldKeepsRules(states, now, tick, Front(agenda), n);
      assert Last(agenda) in agenda;
    }
  }

  lemma RunIsFresh(rules: seq<Rule>, turns: seq<Turn>)
    requires IsRun(rules, turns)
    ensures Fresh(rules, After(turns), |turns|)
  {
    if |turns| > 0 {
      var t := Last(turns);
      RunIsFresh(rules, Front(turns));
      forall s | s in Agenda(rules, t.snap) ensures s.id.rule < |rules| {
        AgendaIsForRules(rules, t.snap, s);
      }
      FoldKeepsRules(After(Front(turns)), t.now, |turns|, Agenda(rules, t.snap), |rules|);
    }
  }

  lemma FoldIsForRules(rules: seq<Rule>, turns: seq<Turn>, snap: Snapshot, now: nat)
    requires IsRun(rules, turns)
    ensures forall id :: id in Fold(After(turns), now, |turns| + 1, Agenda(rules, snap)).states ==> id.rule < |rules|
  {
    RunIsFresh(rules, turns);
    forall s | s in Agenda(rules, snap) ensures s.id.rule < |rules| {
      AgendaIsForRules(rules, snap, s);
    }
    FoldKeepsRules(After(turns), now, |turns| + 1, Agenda(rules, snap), |rules|);
  }

  lemma TickSplits(rules: seq<Rule>, pre: States, tick: nat, t: Turn, log: seq<Entry>, gone: seq<Entry>)
    requires t.log == log + gone
    requires var c := Fold(pre, t.now, tick, Agenda(rules, t.snap));
             c.log == log && t.post == SeenAt(c.states, tick) && IsSweep(rules, c.states, t.now, tick, gone)
    ensures Evaluated(rules, pre, tick, t.snap, t.now, t.post, t.log)
  {
    hide Fold, Agenda, SeenAt, IsSweep;
    assert t.log[..|log|] == log && t.log[|log|..] == gone;
  }

  lemma OneMoreTurn(rules: seq<Rule>, turns: seq<Turn>, t: Turn, log: seq<Entry>, gone: seq<Entry>)
    requires IsRun(rules, turns) && t.log == log + gone
    requires var c := Fold(After(turns), t.now, |turns| + 1, Agenda(rules, t.snap));
             c.log == log && t.post == SeenAt(c.states, |turns| + 1)
             && IsSweep(rules, c.states, t.now, |turns| + 1, gone)
    ensures IsRun(rules, turns + [t]) && After(turns + [t]) == t.post
  {
    hide Fold, Agenda, SeenAt, IsSweep, Evaluated;
    TickSplits(rules, After(turns), |turns| + 1, t, log, gone);
    assert Front(turns + [t]) == turns;
  }

  // ---- the engine itself ----

  /** An entry of `active()`. */
  datatype Alert = Alert(rule: string, subject: string, held: nat, since: nat)

  function ActiveSet(states: States): set<SubjectId> {
    set id | id in states && states[id].phase == Firing
  }

  function AlertFor(rules: seq<Rule>, states: States, now: nat, id: SubjectId): Alert
    requires id in states && id.rule < |rules|
  {
    Alert(rules[id.rule].name, states[id].caption, SatSub(now, states[id].since), states[id].since)
  }

  /** The entry for a subject, its age taken at some instant between the two given ones. */
  predicate IsAlertFor(rules: seq<Rule>, states: States, from: nat, to: nat, id: SubjectId, a: Alert) {
    && id in ActiveSet(states) && id.rule < |rules|
    && a == AlertFor(rules, states, from, id).(held := a.held)
    && SatSub(from, a.since) <= a.held <= SatSub(to, a.since)
  }

  /** One alert for each of the given firing subjects, longest held first. */
  ghost predicate ListsActive(rules: seq<Rule>, states: States, from: nat, to: nat,
                              ids: seq<SubjectId>, alerts: seq<Alert>)
  {
    && NoDuplicates(ids)
    && |alerts| == |ids|
    && (forall i :: 0 <= i < |ids| ==> IsAlertFor(rules, states, from, to, ids[i], alerts[i]))
    && (forall i, j :: 0 <= i < j < |alerts| ==> alerts[i].held >= alerts[j].held)
  }

  ghost function IdSet(ids: seq<SubjectId>): set<SubjectId> {
    set id | id in ids
  }

  lemma SplicedMembers<T>(s: seq<T>, n: nat, x: T)
    requires n <= |s|
    ensures forall y :: y in s[..n] + [x] + s[n..] <==> y in s || y == x
  {
    assert s == s[..n] + s[n..];
    forall y ensures y in s[..n] + [x] + s[n..] <==> y in s || y == x {
    }
  }

  lemma SplicedListing(rules: seq<Rule>, states: States, from: nat, to: nat,
                       ids: seq<SubjectId>, alerts: seq<Alert>, n: nat, id: SubjectId, a: Alert)
    requires ListsActive(rules, states, from, to, ids, alerts) && n <= |alerts|
    requires IsAlertFor(rules, states, from, to, id, a) && id !in IdSet(ids)
    requires forall i :: 0 <= i < n ==> alerts[i].held >= a.held
    requires forall i :: n <= i < |alerts| ==> alerts[i].held < a.held
    ensures ListsActive(rules, states, from, to, ids[..n] + [id] + ids[n..], alerts[..n] + [a] + alerts[n..])
    ensures IdSet(ids[..n] + [id] + ids[n..]) == IdSet(ids) + {id}
  {
    hide IsAlertFor, AlertFor, ActiveSet;
    var r, rids := alerts[..n] + [a] + alerts[n..], ids[..n] + [id] + ids[n..];
    forall i | 0 <= i < |r|
      ensures i < n ==> r[i] == alerts[i] && rids[i] == ids[i]
      ensures i > n ==> r[i] == alerts[i - 1] && rids[i] == ids[i - 1]
    {
    }
    SplicedStaysDistinct(ids, n, id);
    SplicedStaysRanked(alerts, n, a);
    SplicedMembers(ids, n, id);
  }

  lemma SplicedStaysDistinct<T(!new)>(s: seq<T>, n: nat, x: T)
    requires NoDuplicates(s) && n <= |s| && x !in s
    ensures NoDuplicates(s[..n] + [x] + s[n..])
  {
    var r := s[..n] + [x] + s[n..];
    forall i, j | 0 <= i < j < |r| ensures r[i] != r[j] {
      var i', j' := if i > n then i - 1 else i, if j > n then j - 1 else j;
      assert i == n || r[i] == s[i'];
      assert j == n || r[j] == s[j'];
    }
  }

  lemma SplicedStaysRanked(alerts: seq<Alert>, n: nat, a: Alert)
    requires n <= |alerts| && forall i, j :: 0 <= i < j < |alerts| ==> alerts[i].held >= alerts[j].held
    requires forall i :: 0 <= i < n ==> alerts[i].held >= a.held
    requires forall i :: n <= i < |alerts| ==> alerts[i].held < a.held
    ensures var r := alerts[..n] + [a] + alerts[n..];
            forall i, j :: 0 <= i < j < |r| ==> r[i].held >= r[j].held
  {
    var r := alerts[..n] + [a] + alerts[n..];
    forall i, j | 0 <= i < j < |r| ensures r[i].held >= r[j].held {
      var i', j' := if i > n then i - 1 else i, if j > n then j - 1 else j;
      assert i == n || r[i] == alerts[i'];
      assert j == n || r[j] == alerts[j'];
    }
  }

  class Engine {
    const rules: seq<Rule>
    var states: States
    var tick: nat
    /** Every call of `Evaluate` so far. */
    ghost var turns: seq<Turn>

    ghost predicate Valid()
      reads this
    {
      IsRun(rules, turns) && states == After(turns) && tick == |turns|
    }

    constructor (rules: seq<Rule>)
      ensures Valid() && this.rules == rules && turns == [] && states == map[]
    {
      this.rules, states, tick, turns := rules, map[], 0, [];
    }

    method ActiveCount() returns (n: nat)
      ensures n == |ActiveSet(states)|
    {
      n := 0;
      var todo := states.Keys;
      ghost var done: set<SubjectId> := {};
      while todo != {}
        invariant todo <= states.Keys
        invariant done == ActiveSet(states) - todo && n == |done|
        decreases todo
      {
        var id :| id in todo;
        todo := todo - {id};
        if states[id].phase == Firing {
          done := done + {id};
          n := n + 1;
        }
      }
      assert done == ActiveSet(states);
    }

    /** `elapsed` reads the clock for each entry; `readings` are what it may find, one for each
        state, all between two instants. */
    method Active(readings: seq<nat>, ghost from: nat, ghost to: nat)
      returns (alerts: seq<Alert>, ghost ids: seq<SubjectId>)
      requires Valid() && |readings| == |states.Keys| && forall t :: t in readings ==> from <= t <= to
      ensures ListsActive(rules, states, from, to, ids, alerts) && IdSet(ids) == ActiveSet(states)
    {
      RunIsFresh(rules, turns);
      alerts, ids := [], [];
      var todo := states.Keys;
      var k := 0;
      while todo != {}
        invariant todo <= states.Keys && k + |todo| == |readings|
        invariant ListsActive(rules, states, from, to, ids, alerts) && IdSet(ids) == ActiveSet(states) - todo
        decreases todo
      {
        var id :| id in todo;
        if states[id].phase == Firing {
          var a := AlertFor(rules, states, readings[k], id);
          assert readings[k] in readings;
          alerts, ids := Rank(a, from, to, alerts, ids, id);
          assert IdSet(ids) == ActiveSet(states) - (todo - {id});
        } else {
          assert IdSet(ids) == ActiveSet(states) - (todo - {id});
        }
        todo, k := todo - {id}, k + 1;
      }
    }

    /** Puts one more alert into a list sorted by time held. */
    method Rank(a: Alert, ghost from: nat, ghost to: nat, alerts: seq<Alert>, ghost ids: seq<SubjectId>,
                ghost id: SubjectId) returns (r: seq<Alert>, ghost rids: seq<SubjectId>)
      requires ListsActive(rules, states, from, to, ids, alerts)
      requires IsAlertFor(rules, states, from, to, id, a) && id !in IdSet(ids)
      ensures ListsActive(rules, states, from, to, rids, r) && IdSet(rids) == IdSet(ids) + {id}
    {
      hide IsAlertFor;
      var n := |alerts|;
      while n > 0 && alerts[n - 1].held < a.held
        invariant 0 <= n <= |alerts|
        invariant forall i :: n <= i < |alerts| ==> alerts[i].held < a.held
      {
        n := n - 1;
      }
      r := alerts[..n] + [a] + alerts[n..];
      rids := ids[..n] + [id] + ids[n..];
      SplicedListing(rules, states, from, to, ids, alerts, n, id, a);
    }

    /** One rule applied to one subject (`step`). */
    method Step(id: SubjectId, rule: Rule, caption: string, value: real, now: nat,
                events: seq<Event>, ghost log: seq<Entry>)
      returns (events': seq<Event>, ghost log': seq<Entry>)
      requires events == EventsOf(log)
      modifies this`states
      ensures var s := Sighting(id, rule, caption, value);
              && states == Put(old(states), id, StepState(Look(old(states), id), s, now, tick))
              && log' == log + StepEntries(Look(old(states), id), s, now)
      ensures events' == EventsOf(log')
    {
      events', log' := events, log;
      var breaching := match rule.op case Gt => value > rule.threshold case Lt => value < rule.threshold;
      var stillActive := match rule.op case Gt => value > rule.clear case Lt => value < rule.clear;
      if id !in states {
        if breaching {
          if rule.sustain == 0 {
            states := states[id := State(Firing, now, tick, caption)];
            var e := Event(Fired, rule.name, caption, rule.metric, value, rule.threshold, 0);
            events', log' := events' + [e], log' + [Entry(id, e)];
          } else {
            states := states[id := State(Pending, now, tick, caption)];
          }
        }
      } else {
        var st := states[id].(seen := tick, caption := caption);
        states := states[id := st];
        match st.phase {
          case Pending =>
            if !breaching {
              states := states - {id};
            } else if SatSub(now, st.since) >= rule.sustain {
              var held := SatSub(now, st.since);
              states := states[id := st.(phase := Firing, since := now)];
              var e := Event(Fired, rule.name, caption, rule.metric, value, rule.threshold, held);
              events', log' := events' + [e], log' + [Entry(id, e)];
            }
          case Firing =>
            if !stillActive {
              var held := SatSub(now, st.since);
              var e := Event(Cleared, rule.name, caption, rule.metric, value, rule.clear, held);
              events', log' := events' + [e], log' + [Entry(id, e)];
              states := states - {id};
            }
        }
      }
    }

    /** One visit of the sweep. */
    method SweepOne(id: SubjectId, now: nat, events: seq<Event>,
                    ghost log: seq<Entry>, ghost gone: seq<Entry>, ghost was: States, ghost todo: set<SubjectId>)
      returns (events': seq<Event>, ghost gone': seq<Entry>)
      requires todo <= was.Keys && id in todo && id.rule < |rules|
      requires states == Unswept(was, tick, todo)
      requires IsSweepOf(rules, was, now, tick, was.Keys - todo, gone) && events == EventsOf(log + gone)
      modifies this`states
      ensures states == Unswept(was, tick, todo - {id})
      ensures IsSweepOf(rules, was, now, tick, was.Keys - (todo - {id}), gone') && events' == EventsOf(log + gone')
    {
      hide IsSweepOf, Unswept, EventsOf;
      SweepVisits(was, tick, todo, id);
      OneMoreSwept(rules, was, now, tick, was.Keys - todo, gone, id);
      assert was.Keys - todo + {id} == was.Keys - (todo - {id});
      events', gone' := events, gone;
      var st := states[id];
      if st.seen != tick {
        if st.phase == Firing {
          var e := Event(ClearedGone, rules[id.rule].name, st.caption, rules[id.rule].metric, 0.0,
                         rules[id.rule].threshold, SatSub(now, st.since));
          OneMoreEvent(log, gone, Entry(id, e));
          events', gone' := events + [e], gone + [Entry(id, e)];
        }
        states := states - {id};
      }
    }

    /** Drops every subject not seen this tick (the `retain`); the map is visited in any order. */
    method Sweep(now: nat, events: seq<Event>, ghost log: seq<Entry>)
      returns (events': seq<Event>, ghost gone: seq<Entry>)
      requires events == EventsOf(log)
      requires forall id :: id in states ==> id.rule < |rules|
      modifies this`states
      ensures states == SeenAt(old(states), tick)
      ensures IsSweep(rules, old(states), now, tick, gone) && events' == EventsOf(log + gone)
    {
      events', gone := events, [];
      ghost var was := states;
      var todo := states.Keys;
      assert log + gone == log;
      assert IsSweepOf(rules, was, now, tick, was.Keys - todo, gone);
      SweepEnds(was, tick);
      hide SeenAt, IsSweepOf, Unswept, EventsOf;
      while todo != {}
        invariant todo <= was.Keys && states == Unswept(was, tick, todo)
        invariant IsSweepOf(rules, was, now, tick, was.Keys - todo, gone)
        invariant events' == EventsOf(log + gone)
        decreases todo
      {
        var id :| id in todo;
        events', gone := SweepOne(id, now, events', log, gone, was, todo);
        todo := todo - {id};
      }
      assert was.Keys - todo == was.Keys;
    }

    /** The inner loop of `evaluate`: one process rule against every row of the table. */
    method StepEachProcess(ri: nat, rule: Rule, procs: seq<ProcRate>, now: nat, events: seq<Event>,
                           ghost log: seq<Entry>, ghost pre: States, ghost sofar: seq<Sighting>)
      returns (events': seq<Event>, ghost log': seq<Entry>)
      requires Core(states, log) == Fold(pre, now, tick, sofar) && events == EventsOf(log)
      modifies this`states
      ensures Core(states, log') == Fold(pre, now, tick, sofar + ProcAgenda(ri, rule, procs))
      ensures events' == EventsOf(log')
    {
      events', log' := events, log;
      assert sofar + ProcAgenda(ri, rule, procs[..0]) == sofar;
      hide Fold, ProcAgenda;
      for pi := 0 to |procs|
        invariant Core(states, log') == Fold(pre, now, tick, sofar + ProcAgenda(ri, rule, procs[..pi]))
        invariant events' == EventsOf(log')
      {
        var p := procs[pi];
        ProcAgendaNext(ri, rule, procs, pi);
        ghost var head := ProcAgenda(ri, rule, procs[..pi]);
        var v := None;
        if rule.target.Matches(p.comm) && !p.isNew {
          v := ProcValue(rule.metric, p);
        }
        if v.Some? {
          ghost var s := ProcSighting(ri, rule, p, v.value);
          FoldOne(pre, now, tick, sofar + head, s);
          assert (sofar + head) + [s] == sofar + (head + [s]);
          events', log' := Step(SubjectId(ri, Some(p.key)), rule, ProcLabel(p), v.value, now, events', log');
        } else {
          assert head + [] == head;
        }
      }
      assert procs[..|procs|] == procs;
    }

    /** The body of the outer loop of `evaluate`: one rule. */
    method StepRule(ri: nat, rule: Rule, snap: Snapshot, now: nat, events: seq<Event>,
                    ghost log: seq<Entry>, ghost pre: States, ghost sofar: seq<Sighting>)
      returns (events': seq<Event>, ghost log': seq<Entry>)
      requires Core(states, log) == Fold(pre, now, tick, sofar) && events == EventsOf(log)
      modifies this`states
      ensures Core(states, log') == Fold(pre, now, tick, sofar + RuleAgenda(ri, rule, snap))
      ensures events' == EventsOf(log')
    {
      match rule.target {
        case System =>
          var v := SystemValue(rule.metric, snap.system);
          if v.Some? {
            FoldOne(pre, now, tick, sofar, SystemSighting(ri, rule, v.value));
            events', log' := Step(SubjectId(ri, None), rule, "system", v.value, now, events, log);
          } else {
            assert sofar + [] == sofar;
            events', log' := events, log;
          }
        case Process(_) =>
          events', log' := StepEachProcess(ri, rule, snap.procs, now, events, log, pre, sofar);
      }
    }

    /** The outer loop of `evaluate`. */
    method StepEachRule(snap: Snapshot, now: nat) returns (events: seq<Event>, ghost log: seq<Entry>)
      modifies this`states
      ensures Core(states, log) == Fold(old(states), now, tick, Agenda(rules, snap)) && events == EventsOf(log)
    {
      ghost var pre := states;
      events, log := [], [];
      assert Fold(pre, now, tick, Agenda(rules[..0], snap)) == Core(pre, []);
      hide Fold, Agenda, RuleAgenda;
      for ri := 0 to |rules|
        invariant Core(states, log) == Fold(pre, now, tick, Agenda(rules[..ri], snap))
        invariant events == EventsOf(log)
      {
        AgendaNext(rules, ri, snap);
        events, log := StepRule(ri, rules[ri], snap, now, events, log, pre, Agenda(rules[..ri], snap));
      }
      assert rules[..|rules|] == rules;
    }

    /** Evaluates every rule against a snapshot (`evaluate`). */
    method Evaluate(snap: Snapshot, now: nat) returns (events: seq<Event>, ghost log: seq<Entry>)
      requires Valid()
      modifies this
      ensures Valid()
      ensures turns == old(turns) + [Turn(snap, now, states, log)] && events == EventsOf(log)
    {
      hide Fold, Agenda, IsRun, IsSweepOf, SeenAt;
      tick := tick + 1;
      events, log := StepEachRule(snap, now);
      FoldIsForRules(rules, turns, snap, now);
      ghost var gone;
      events, gone := Sweep(now, events, log);
      ghost var turn := Turn(snap, now, states, log + gone);
      OneMoreTurn(rules, turns, turn, log, gone);
      log := log + gone;
      turns := turns + [turn];
    }
  }
}
