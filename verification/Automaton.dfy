/** One alert automaton, for one rule and one subject, over the whole history of what was
    observed of that subject.

    `Next` and `Emit` say what one tick does. The theorems say what whole runs do, in terms
    of the observations alone: when the alert is on, what each event reports, how often it
    can fire, how much the value has to move between two events. */
module Automaton {
  import opened Prelude
  import opened Rules

  datatype Status = Inactive | PendingSince(since: nat) | FiringSince(since: nat)

  datatype Kind = Fired | Cleared | ClearedGone

  datatype Signal = Signal(kind: Kind, value: real, threshold: real, heldFor: nat)

  /** What one tick knows of a subject: its value, or None when the subject was not eligible. */
  datatype Reading = Reading(now: nat, value: Option<real>)

  // ---- one tick ----

  function Next(rule: Rule, st: Status, r: Reading): Status {
    match r.value
    case None => Inactive
    case Some(v) =>
      match st
      case Inactive =>
        if !rule.Breaching(v) then Inactive
        else if rule.sustain == 0 then FiringSince(r.now)
        else PendingSince(r.now)
      case PendingSince(since) =>
        if !rule.Breaching(v) then Inactive
        else if SatSub(r.now, since) >= rule.sustain then FiringSince(r.now)
        else st
      case FiringSince(_) =>
        if rule.StillActive(v) then st else Inactive
  }

  function Emit(rule: Rule, st: Status, r: Reading): Option<Signal> {
    match r.value
    case None =>
      if st.FiringSince? then Some(Signal(ClearedGone, 0.0, rule.threshold, SatSub(r.now, st.since)))
      else None
    case Some(v) =>
      match st
      case Inactive =>
        if rule.Breaching(v) && rule.sustain == 0 then Some(Signal(Fired, v, rule.threshold, 0)) else None
      case PendingSince(since) =>
        if rule.Breaching(v) && SatSub(r.now, since) >= rule.sustain
        then Some(Signal(Fired, v, rule.threshold, SatSub(r.now, since)))
        else None
      case FiringSince(since) =>
        if rule.StillActive(v) then None
        else Some(Signal(Cleared, v, rule.clear, SatSub(r.now, since)))
  }

  // ---- whole runs ----

  function StatusFrom(rule: Rule, st: Status, h: seq<Reading>): Status {
    if |h| == 0 then st else Next(rule, StatusFrom(rule, st, Front(h)), Last(h))
  }

  function StatusAfter(rule: Rule, h: seq<Reading>): Status {
    StatusFrom(rule, Inactive, h)
  }

  function Optional(s: Option<Signal>): seq<Signal> {
    if s.Some? then [s.value] else []
  }

  function SignalsFrom(rule: Rule, st: Status, h: seq<Reading>): seq<Signal> {
    if |h| == 0 then []
    else SignalsFrom(rule, st, Front(h)) + Optional(Emit(rule, StatusFrom(rule, st, Front(h)), Last(h)))
  }

  function Signals(rule: Rule, h: seq<Reading>): seq<Signal> {
    SignalsFrom(rule, Inactive, h)
  }

  /** The clock never runs backwards. */
  ghost predicate Monotone(h: seq<Reading>) {
    forall i, j :: 0 <= i <= j < |h| ==> h[i].now <= h[j].now
  }

  // ---- the history, without the automaton ----

  /** There is a value, and it is strictly past the bound. */
  predicate Past(op: Op, value: Option<real>, bound: real) {
    value.Some? && if op == Gt then value.value > bound else value.value < bound
  }

  predicate Hot(rule: Rule, r: Reading) {
    Past(rule.op, r.value, rule.threshold)
  }

  predicate Warm(rule: Rule, r: Reading) {
    Past(rule.op, r.value, rule.clear)
  }

  ghost predicate HotOn(rule: Rule, h: seq<Reading>, lo: nat, hi: nat)
    requires hi <= |h|
  {
    forall k :: lo <= k < hi ==> Hot(rule, h[k])
  }

  ghost predicate WarmOn(rule: Rule, h: seq<Reading>, lo: nat, hi: nat)
    requires hi <= |h|
  {
    forall k :: lo <= k < hi ==> Warm(rule, h[k])
  }

  /** Breaching at every tick of [j, s], for at least the sustain window, and past the clear
      boundary at every tick from s to the end. */
  ghost predicate Justifies(rule: Rule, h: seq<Reading>, j: nat, s: nat)
    requires j <= s < |h|
  {
    && HotOn(rule, h, j, s + 1)
    && h[s].now - h[j].now >= rule.sustain
    && WarmOn(rule, h, s, |h|)
  }

  ghost predicate ShouldFire(rule: Rule, h: seq<Reading>) {
    exists j: nat, s: nat :: j <= s < |h| && Justifies(rule, h, j, s)
  }

  /** Where the streak of breaching ticks that ends the history began; |h| if there is none. */
  function StreakStart(rule: Rule, h: seq<Reading>): (j: nat)
    ensures j <= |h|
    ensures HotOn(rule, h, j, |h|)
    ensures j > 0 ==> !Hot(rule, h[j - 1])
  {
    if |h| == 0 then 0
    else if Hot(rule, Last(h)) then StreakStart(rule, Front(h))
    else |h|
  }

  lemma StreakStartIsLeast(rule: Rule, h: seq<Reading>, j: nat)
    requires j <= |h| && HotOn(rule, h, j, |h|)
    ensures StreakStart(rule, h) <= j
  {
  }

  // ---- the exact firing theorem ----

  /** A pending alert has been breaching without a gap since the instant it remembers. */
  lemma {:induction false} PendingMeaning(rule: Rule, h: seq<Reading>)
    requires rule.Sane() && StatusAfter(rule, h).PendingSince?
    ensures rule.sustain > 0
    ensures StreakStart(rule, h) < |h|
    ensures StatusAfter(rule, h).since == h[StreakStart(rule, h)].now
  {
    var before := StatusAfter(rule, Front(h));
    if before.PendingSince? {
      PendingMeaning(rule, Front(h));
    } else {
      assert before.Inactive?;
      ColdWhenInactive(rule, Front(h));
    }
  }

  /** With a sane deadband a breaching tick never leaves the automaton inactive. */
  lemma ColdWhenInactive(rule: Rule, h: seq<Reading>)
    requires rule.Sane() && StatusAfter(rule, h).Inactive?
    ensures |h| > 0 ==> !Hot(rule, Last(h))
    ensures StreakStart(rule, h) == |h|
  {
  }

  lemma StaysOn(rule: Rule, st: Status, r: Reading)
    requires st.FiringSince? && Next(rule, st, r).FiringSince?
    ensures Warm(rule, r) && Next(rule, st, r) == st
  {
  }

  lemma TurnsOn(rule: Rule, st: Status, r: Reading)
    requires rule.Sane() && !st.FiringSince? && Next(rule, st, r).FiringSince?
    ensures Hot(rule, r) && Warm(rule, r) && Next(rule, st, r).since == r.now
    ensures SatSub(r.now, if st.PendingSince? then st.since else r.now) >= rule.sustain
  {
  }

  /** A firing alert is justified by its history, and remembers the instant it fired. */
  lemma {:induction false} FiringIsJustified(rule: Rule, h: seq<Reading>) returns (j: nat, s: nat)
    requires rule.Sane() && Monotone(h) && StatusAfter(rule, h).FiringSince?
    ensures j <= s < |h| && Justifies(rule, h, j, s)
    ensures StatusAfter(rule, h).since == h[s].now
  {
    var before := StatusAfter(rule, Front(h));
    hide Next, Hot, Warm;
    if before.FiringSince? {
      StaysOn(rule, before, Last(h));
      j, s := FiringIsJustified(rule, Front(h));
    } else {
      TurnsOn(rule, before, Last(h));
      s := |h| - 1;
      j := StreakStart(rule, h);
      if before.PendingSince? {
        PendingMeaning(rule, Front(h));
      } else {
        ColdWhenInactive(rule, Front(h));
      }
    }
  }

  lemma {:induction false} JustifiedFires(rule: Rule, h: seq<Reading>, j: nat, s: nat)
    requires rule.Sane() && Monotone(h)
    requires j <= s < |h| && Justifies(rule, h, j, s)
    ensures StatusAfter(rule, h).FiringSince?
  {
    var front := Front(h);
    if s < |h| - 1 {
      assert Warm(rule, h[s]);
      assert Justifies(rule, front, j, s);
      JustifiedFires(rule, front, j, s);
      assert Warm(rule, Last(h));
    } else {
      assert Hot(rule, Last(h));
      var before := StatusAfter(rule, front);
      assert HotOn(rule, front, j, |front|);
      StreakStartIsLeast(rule, front, j);
      if before.PendingSince? {
        PendingMeaning(rule, front);
      } else if before.Inactive? {
        ColdWhenInactive(rule, front);
      }
    }
  }

  /** The alert is on exactly when the history justifies it. */
  lemma FiringTheorem(rule: Rule, h: seq<Reading>)
    requires rule.Sane() && Monotone(h)
    ensures StatusAfter(rule, h).FiringSince? <==> ShouldFire(rule, h)
  {
    if StatusAfter(rule, h).FiringSince? {
      var j, s := FiringIsJustified(rule, h);
    } else if ShouldFire(rule, h) {
      var j: nat, s: nat :| j <= s < |h| && Justifies(rule, h, j, s);
      JustifiedFires(rule, h, j, s);
    }
  }

  ghost predicate HistoryDecides(rule: Rule) {
    forall h :: Monotone(h) ==> (StatusAfter(rule, h).FiringSince? <==> ShouldFire(rule, h))
  }

  /** A value past the threshold that does not keep a misordered alert on. */
  function Between(rule: Rule): (v: real)
    requires !rule.Sane()
    ensures rule.Breaching(v) && !rule.StillActive(v)
  {
    (rule.threshold + rule.clear) / 2.0
  }

  /** The deadband check made while parsing is exactly what the firing theorem needs. */
  lemma SanityIsExact(rule: Rule)
    ensures rule.Sane() <==> HistoryDecides(rule)
  {
    if rule.Sane() {
      forall h | Monotone(h)
        ensures StatusAfter(rule, h).FiringSince? <==> ShouldFire(rule, h)
      {
        FiringTheorem(rule, h);
      }
    } else {
      var v := Between(rule);
      var a, b := Reading(0, Some(v)), Reading(rule.sustain, Some(v));
      var h := if rule.sustain == 0 then [a] else [a, b];
      assert Front(h) == if rule.sustain == 0 then [] else [a];
      assert Front([a]) == [] && StatusAfter(rule, []) == Inactive;
      assert StatusAfter(rule, [a]) == if rule.sustain == 0 then FiringSince(0) else PendingSince(0);
      assert StatusAfter(rule, h).FiringSince?;
      assert !Warm(rule, Last(h));
      assert Monotone(h);
    }
  }

  // ---- what the events report ----

  /** A `Fired` signal carries the value seen, the threshold it passed, and exactly how long
      the current streak of breaching ticks has lasted. */
  lemma FiredReport(rule: Rule, h: seq<Reading>, sig: Signal)
    requires rule.Sane() && Monotone(h) && |h| > 0
    requires Emit(rule, StatusAfter(rule, Front(h)), Last(h)) == Some(sig) && sig.kind == Fired
    ensures Last(h).value == Some(sig.value) && rule.Breaching(sig.value) && sig.threshold == rule.threshold
    ensures StreakStart(rule, h) < |h|
    ensures sig.heldFor == Last(h).now - h[StreakStart(rule, h)].now >= rule.sustain
  {
    var before := StatusAfter(rule, Front(h));
    if before.PendingSince? {
      PendingMeaning(rule, Front(h));
    } else {
      ColdWhenInactive(rule, Front(h));
    }
  }

  predicate IsClear(k: Kind) {
    k != Fired
  }

  /** A signal marks exactly the ticks at which the alert turns on or off, and its kind says
      which: on, off with a value in hand, or off because the subject was not eligible. */
  lemma SignalMarksTheEdge(rule: Rule, st: Status, r: Reading)
    ensures Emit(rule, st, r).Some? <==> st.FiringSince? != Next(rule, st, r).FiringSince?
    ensures Emit(rule, st, r).Some? ==>
              (Emit(rule, st, r).value.kind == Fired <==> Next(rule, st, r).FiringSince?)
    ensures Emit(rule, st, r).Some? ==>
              (Emit(rule, st, r).value.kind == ClearedGone <==> r.value.None?)
  {
  }

  /** Signals alternate: a `Fired`, then a clear, and so on, starting from whether the alert
      was already on and ending with whether it is on now. */
  ghost predicate Alternates(on: bool, sigs: seq<Signal>, endsOn: bool)
    decreases |sigs|
  {
    if |sigs| == 0 then on == endsOn
    else (Last(sigs).kind == Fired <==> endsOn) && Alternates(on, Front(sigs), !endsOn)
  }

  lemma {:induction false} SignalsAlternate(rule: Rule, st: Status, h: seq<Reading>)
    ensures Alternates(st.FiringSince?, SignalsFrom(rule, st, h), StatusFrom(rule, st, h).FiringSince?)
  {
    if |h| > 0 {
      SignalsAlternate(rule, st, Front(h));
      var sigs, was := SignalsFrom(rule, st, Front(h)), StatusFrom(rule, st, Front(h));
      SignalMarksTheEdge(rule, was, Last(h));
      hide Emit, Next;
      var e := Emit(rule, was, Last(h));
      if e.Some? {
        assert Front(sigs + [e.value]) == sigs;
      } else {
        assert sigs + [] == sigs;
      }
    }
  }

  // ---- time spent firing is what the clearing events report ----

  function ClosedTime(sigs: seq<Signal>): nat {
    if |sigs| == 0 then 0
    else ClosedTime(Front(sigs)) + if IsClear(Last(sigs).kind) then Last(sigs).heldFor else 0
  }

  /** Total length of the intervals between consecutive ticks at the start of which the alert was on. */
  function FiringTime(rule: Rule, h: seq<Reading>): nat {
    if |h| <= 1 then 0
    else FiringTime(rule, Front(h)) +
         if StatusAfter(rule, Front(h)).FiringSince? then SatSub(Last(h).now, h[|h| - 2].now) else 0
  }

  lemma {:induction false} FiringSinceIsPast(rule: Rule, h: seq<Reading>)
    requires Monotone(h) && StatusAfter(rule, h) != Inactive
    ensures |h| > 0 && StatusAfter(rule, h).since <= Last(h).now
  {
    var front := Front(h);
    if StatusAfter(rule, front) != Inactive {
      FiringSinceIsPast(rule, front);
      assert Last(front) == h[|h| - 2];
    }
  }

  /** How long an alert that is on has been on. */
  function Age(st: Status, now: nat): nat {
    if st.FiringSince? then SatSub(now, st.since) else 0
  }

  function ReportedBy(e: Option<Signal>): nat {
    if e.Some? && IsClear(e.value.kind) then e.value.heldFor else 0
  }

  lemma OneTickOfTime(rule: Rule, st: Status, was: nat, r: Reading)
    requires was <= r.now && (st.FiringSince? ==> st.since <= was)
    ensures ReportedBy(Emit(rule, st, r)) + Age(Next(rule, st, r), r.now)
            == Age(st, was) + if st.FiringSince? then SatSub(r.now, was) else 0
  {
  }

  lemma ClosedTimeStep(rule: Rule, h: seq<Reading>)
    requires |h| > 0
    ensures ClosedTime(Signals(rule, h)) == ClosedTime(Signals(rule, Front(h)))
                                            + ReportedBy(Emit(rule, StatusAfter(rule, Front(h)), Last(h)))
  {
    var before := Signals(rule, Front(h));
    var e := Emit(rule, StatusAfter(rule, Front(h)), Last(h));
    if e.Some? {
      assert Front(before + [e.value]) == before;
    } else {
      assert before + [] == before;
    }
  }

  /** Conservation: the held times of the clearing events, plus the age of an alert still on,
      are together the time the alert has been on. */
  lemma {:induction false} HeldTimesAddUp(rule: Rule, h: seq<Reading>)
    requires Monotone(h) && |h| > 0
    ensures ClosedTime(Signals(rule, h)) + Age(StatusAfter(rule, h), Last(h).now) == FiringTime(rule, h)
  {
    var front := Front(h);
    var st := StatusAfter(rule, front);
    ClosedTimeStep(rule, h);
    if |front| > 0 {
      HeldTimesAddUp(rule, front);
      if st.FiringSince? { FiringSinceIsPast(rule, front); }
      assert Last(front) == h[|h| - 2];
      OneTickOfTime(rule, st, Last(front).now, Last(h));
    } else {
      OneTickOfTime(rule, st, Last(h).now, Last(h));
    }
  }

  // ---- rate bound from the sustain window ----

  function CountFired(sigs: seq<Signal>): nat {
    if |sigs| == 0 then 0
    else CountFired(Front(sigs)) + if Last(sigs).kind == Fired then 1 else 0
  }

  /** The same count, each firing weighted by the sustain window it needed. */
  function SustainSpent(rule: Rule, sigs: seq<Signal>): nat {
    if |sigs| == 0 then 0
    else SustainSpent(rule, Front(sigs)) + if Last(sigs).kind == Fired then rule.sustain else 0
  }

  lemma {:induction false} SustainSpentIsCount(rule: Rule, sigs: seq<Signal>)
    ensures SustainSpent(rule, sigs) == CountFired(sigs) * rule.sustain
  {
    if |sigs| > 0 {
      SustainSpentIsCount(rule, Front(sigs));
    }
  }

  /** The instant up to which the past firings have used up the run. */
  function UsedUpTo(rule: Rule, h: seq<Reading>): nat
    requires |h| > 0
  {
    match StatusAfter(rule, h)
    case Inactive => Last(h).now
    case PendingSince(since) => since
    case FiringSince(since) => since
  }

  lemma {:induction false} FiringsUseDisjointStretches(rule: Rule, h: seq<Reading>)
    requires Monotone(h) && |h| > 0
    ensures h[0].now <= UsedUpTo(rule, h) <= Last(h).now
    ensures SustainSpent(rule, Signals(rule, h)) <= UsedUpTo(rule, h) - h[0].now
  {
    var front := Front(h);
    var e := Emit(rule, StatusAfter(rule, front), Last(h));
    if e.Some? {
      assert Front(Signals(rule, front) + [e.value]) == Signals(rule, front);
    } else {
      assert Signals(rule, front) + [] == Signals(rule, front);
    }
    if |front| > 0 {
      FiringsUseDisjointStretches(rule, front);
      assert front[0] == h[0] && Last(front) == h[|h| - 2];
    }
  }

  /** An alert with a sustain window cannot fire more often than the run has room for. */
  lemma SustainBoundsTheRate(rule: Rule, h: seq<Reading>)
    requires Monotone(h) && |h| > 0
    ensures CountFired(Signals(rule, h)) * rule.sustain <= Last(h).now - h[0].now
  {
    FiringsUseDisjointStretches(rule, h);
    SustainSpentIsCount(rule, Signals(rule, h));
  }

  // ---- the deadband ----

  ghost predicate Observed(h: seq<Reading>) {
    forall i :: 0 <= i < |h| ==> h[i].value.Some?
  }

  /** How far the observed value has moved, up and down together. */
  function Variation(h: seq<Reading>): real
    requires Observed(h)
  {
    if |h| <= 1 then 0.0
    else Variation(Front(h)) + AbsReal(Last(h).value.value - h[|h| - 2].value.value)
  }

  function Clip(x: real): real {
    if x > 0.0 then x else 0.0
  }

  /** How far past the last boundary the value has come back since the last signal. */
  function Retreat(rule: Rule, st: Status, v: real): real {
    match rule.op
    case Gt => if st.FiringSince? then Clip(rule.threshold - v) else Clip(v - rule.clear)
    case Lt => if st.FiringSince? then Clip(v - rule.threshold) else Clip(rule.clear - v)
  }

  /** n crossings of the deadband. */
  function Crossings(rule: Rule, n: nat): (d: real)
    ensures d >= 0.0
  {
    if n == 0 then 0.0 else Crossings(rule, n - 1) + rule.Deadband()
  }

  lemma {:induction false} CrossingsIsProduct(rule: Rule, n: nat)
    ensures Crossings(rule, n) == n as real * rule.Deadband()
  {
    if n > 0 {
      CrossingsIsProduct(rule, n - 1);
      assert n as real * rule.Deadband() == (n - 1) as real * rule.Deadband() + rule.Deadband();
    }
  }

  /** One tick: the move pays for the crossing a signal needs, or for the retreat. */
  lemma OneMovePays(rule: Rule, st: Status, r: Reading, was: real)
    requires rule.Sane() && r.value.Some?
    ensures var now := r.value.value;
            AbsReal(now - was) + Retreat(rule, st, was) >=
            Retreat(rule, Next(rule, st, r), now) + if Emit(rule, st, r).Some? then rule.Deadband() else 0.0
  {
  }

  lemma {:induction false} VariationPaysForSignals(rule: Rule, st: Status, h: seq<Reading>)
    requires rule.Sane() && Observed(h) && |h| > 0
    ensures var n := |SignalsFrom(rule, st, h)|;
            Variation(h) >= if n == 0 then 0.0
                            else Crossings(rule, n - 1)
                                 + Retreat(rule, StatusFrom(rule, st, h), Last(h).value.value)
  {
    var front := Front(h);
    if |front| == 0 {
      assert StatusFrom(rule, st, front) == st;
    } else {
      VariationPaysForSignals(rule, st, front);
      OneMovePays(rule, StatusFrom(rule, st, front), Last(h), Last(front).value.value);
    }
  }

  /** While a subject stays observed, each signal after the first costs the value a trip across
      the whole deadband. Holds for any stretch of any run, whatever the status it starts from. */
  lemma DeadbandTheorem(rule: Rule, st: Status, h: seq<Reading>, trips: nat)
    requires rule.Sane() && Observed(h) && |SignalsFrom(rule, st, h)| == trips + 1
    ensures Variation(h) >= trips as real * rule.Deadband()
  {
    assert Variation(h) >= Crossings(rule, trips) by {
      VariationPaysForSignals(rule, st, h);
    }
    CrossingsIsProduct(rule, trips);
  }

  /** The signals of a history are those of its first part and then those of the rest, from the
      status the first part ends in. */
  lemma {:induction false} SignalsSplit(rule: Rule, st: Status, a: seq<Reading>, b: seq<Reading>)
    ensures StatusFrom(rule, st, a + b) == StatusFrom(rule, StatusFrom(rule, st, a), b)
    ensures SignalsFrom(rule, st, a + b) == SignalsFrom(rule, st, a) + SignalsFrom(rule, StatusFrom(rule, st, a), b)
  {
    if |b| == 0 {
      assert a + b == a;
    } else {
      hide Next, Emit;
      SignalsSplit(rule, st, a, Front(b));
      assert Front(a + b) == a + Front(b) && Last(a + b) == Last(b);
    }
  }

  ghost predicate InDeadband(rule: Rule, h: seq<Reading>) {
    forall i :: 0 <= i < |h| ==> Warm(rule, h[i]) && !Hot(rule, h[i])
  }

  /** A value that stays inside the deadband turns nothing on and nothing off. */
  lemma {:induction false} NoFlappingInsideTheDeadband(rule: Rule, st: Status, h: seq<Reading>)
    requires InDeadband(rule, h)
    ensures SignalsFrom(rule, st, h) == []
    ensures StatusFrom(rule, st, h).FiringSince? == st.FiringSince?
  {
    if |h| > 0 {
      assert InDeadband(rule, Front(h));
      NoFlappingInsideTheDeadband(rule, st, Front(h));
      assert Warm(rule, Last(h)) && !Hot(rule, Last(h));
    }
  }
}
