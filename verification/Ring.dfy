/** The fixed-capacity ring buffer (src/ring.rs): a circular array that refines "the last
    `capacity` values pushed". */
module RingBuffer {
  import opened Prelude

  /** The last `capacity` values of a sequence. */
  function Recent<T>(capacity: nat, values: seq<T>): (r: seq<T>)
    ensures |r| == Min(capacity, |values|)
  {
    if |values| <= capacity then values else values[|values| - capacity..]
  }

  /** They are the last ones, in order. */
  lemma RecentAt<T>(capacity: nat, values: seq<T>)
    ensures var r := Recent(capacity, values);
            forall i :: 0 <= i < |r| ==> r[i] == values[|values| - |r| + i]
  {
  }

  /** The values a sequence has lost to its capacity. */
  function Evicted<T>(capacity: nat, values: seq<T>): (r: seq<T>)
    ensures r + Recent(capacity, values) == values
  {
    values[..|values| - Min(capacity, |values|)]
  }

  /** What a push does to the contents, without the values pushed before. */
  function PushOnto<T>(capacity: nat, contents: seq<T>, v: T): seq<T> {
    Recent(capacity, contents + [v])
  }

  lemma RecentStep<T>(capacity: nat, values: seq<T>, v: T)
    requires capacity > 0
    ensures Recent(capacity, values + [v]) == PushOnto(capacity, Recent(capacity, values), v)
    ensures Evicted(capacity, values + [v]) ==
            Evicted(capacity, values) + if |values| >= capacity then [Recent(capacity, values)[0]] else []
  {
    if |values| >= capacity {
      FullStep(values, |values| - capacity, v);
    }
  }

  /** Dropping one more from a longer sequence. */
  lemma FullStep<T>(values: seq<T>, i: nat, v: T)
    requires i < |values|
    ensures (values + [v])[i + 1..] == (values[i..] + [v])[1..]
    ensures (values + [v])[..i + 1] == values[..i] + [values[i..][0]]
  {
    assert values[..i + 1] == values[..i] + [values[i]];
  }

  /** An index brought back below n, by going round. */
  function Wrap(i: nat, n: nat): (j: nat)
    requires n > 0
    ensures j < n
  {
    if i < n then i else Wrap(i - n, n)
  }

  /** Which is the machine's remainder. */
  lemma {:induction false} WrapIsRemainder(i: nat, n: nat)
    requires n > 0
    ensures Wrap(i, n) == i % n
  {
    if i >= n {
      WrapIsRemainder(i - n, n);
      RemainderOfSum(i - n, n);
    }
  }

  lemma RemainderOfSum(a: nat, n: nat)
    requires n > 0
    ensures (a + n) % n == a % n
  {
    var q, r := a / n, a % n;
    assert a + n == (q + 1) * n + r;
    RemainderIs(a + n, n, q + 1, r);
  }

  lemma RemainderIs(a: nat, n: nat, q: nat, r: nat)
    requires r < n && a == q * n + r
    ensures a % n == r
  {
    var d := a / n - q;
    assert d * n == r - a % n;
    NoSmallMultiple(d, n);
  }

  lemma NoSmallMultiple(d: int, n: nat)
    ensures d == 0 || d * n >= n || d * n + n <= 0
  {
    if d >= 1 {
      assert (d - 1) * n >= 0;
    } else if d <= -1 {
      assert (-d - 1) * n >= 0;
    }
  }

  lemma WrapOnce(i: nat, n: nat)
    requires n <= i < 2 * n
    ensures Wrap(i, n) == i - n
  {
  }

  function Somes<T>(values: seq<T>): (r: seq<Option<T>>)
    ensures |r| == |values| && forall i :: 0 <= i < |r| ==> r[i] == Some(values[i])
  {
    seq(|values|, i requires 0 <= i < |values| => Some(values[i]))
  }

  /** The live slots, oldest first: the array cut at the head once it is full. */
  function Unroll<T>(slots: seq<Option<T>>, head: nat, len: nat): (r: seq<Option<T>>)
    requires head <= |slots| && len <= |slots|
    ensures |r| == len
  {
    if len == |slots| then slots[head..] + slots[..head] else slots[..len]
  }

  lemma UnrolledSlot<T>(slots: seq<Option<T>>, head: nat, len: nat, i: nat)
    requires head < |slots| && i < len <= |slots|
    ensures slots[Wrap((if len == |slots| then head else 0) + i, |slots|)] == Unroll(slots, head, len)[i]
  {
  }

  /** Writing at the head adds the value at the end, and drops the oldest only when full. */
  lemma WriteAtHead<T>(slots: seq<Option<T>>, head: nat, len: nat, v: T)
    requires head < |slots| && len <= |slots| && (len < |slots| ==> head == len)
    ensures var r := Unroll(slots, head, len);
            Unroll(slots[head := Some(v)], Wrap(head + 1, |slots|), Min(len + 1, |slots|))
            == (if len == |slots| then r[1..] else r) + [Some(v)]
  {
    var after := slots[head := Some(v)];
    if len < |slots| {
      assert after[..head + 1] == slots[..head] + [Some(v)];
      if head + 1 == |slots| {
        assert after[0..] + after[..0] == after[..head + 1];
      }
    } else if head + 1 == |slots| {
      assert after[0..] + after[..0] == slots[..head] + [Some(v)];
      assert (slots[head..] + slots[..head])[1..] == slots[..head];
    } else {
      assert after[head + 1..] == slots[head + 1..] && after[..head + 1] == slots[..head] + [Some(v)];
      assert (slots[head..] + slots[..head])[1..] == slots[head + 1..] + slots[..head];
    }
  }

  /** The representation invariant, over the array as a sequence. */
  ghost predicate Holds<T>(slots: seq<Option<T>>, head: nat, len: nat, values: seq<T>) {
    && head < |slots|
    && len == Min(|values|, |slots|)
    // until the ring is full, the head is the length and every slot beyond it is empty
    && (len < |slots| ==> head == len && forall i :: len <= i < |slots| ==> slots[i] == None)
    && Unroll(slots, head, len) == Somes(Recent(|slots|, values))
  }

  lemma SomesAfterPush<T>(capacity: nat, was: seq<T>, v: T)
    requires 0 < capacity && |was| <= capacity
    ensures Somes(PushOnto(capacity, was, v)) ==
            (if |was| == capacity then Somes(was)[1..] else Somes(was)) + [Some(v)]
  {
  }

  lemma PushHolds<T>(slots: seq<Option<T>>, head: nat, len: nat, values: seq<T>, v: T)
    requires Holds(slots, head, len, values)
    ensures Holds(slots[head := Some(v)], Wrap(head + 1, |slots|), Min(len + 1, |slots|), values + [v])
  {
    hide Unroll, Somes, Recent;
    WriteAtHead(slots, head, len, v);
    RecentStep(|slots|, values, v);
    SomesAfterPush(|slots|, Recent(|slots|, values), v);
  }

  lemma OldestIsAtHead<T>(slots: seq<Option<T>>, head: nat, len: nat, values: seq<T>)
    requires Holds(slots, head, len, values)
    ensures slots[head] == if len == |slots| then Some(Recent(|slots|, values)[0]) else None
  {
    if len == |slots| {
      assert slots[head] == Unroll(slots, head, len)[0];
    }
  }

  lemma LiveSlot<T>(slots: seq<Option<T>>, head: nat, len: nat, values: seq<T>, i: nat)
    requires Holds(slots, head, len, values) && i < len
    ensures slots[Wrap((if len == |slots| then head else 0) + i, |slots|)] == Some(Recent(|slots|, values)[i])
  {
    UnrolledSlot(slots, head, len, i);
  }

  lemma NewestSlot<T>(slots: seq<Option<T>>, head: nat, len: nat, values: seq<T>)
    requires Holds(slots, head, len, values) && len > 0
    ensures slots[Wrap(head + |slots| - 1, |slots|)] == Some(Last(Recent(|slots|, values)))
  {
    var cap := |slots|;
    LiveSlot(slots, head, len, values, len - 1);
    if head > 0 {
      WrapOnce(head + cap - 1, cap);
      if len == cap { WrapOnce(head + len - 1, cap); }
    }
  }

  // ---- whole runs of pushes ----

  /** The contents after pushing these values into an empty ring, one at a time. */
  function Pushed<T>(capacity: nat, values: seq<T>): seq<T> {
    if |values| == 0 then [] else PushOnto(capacity, Pushed(capacity, Front(values)), Last(values))
  }

  /** The values those pushes return. */
  function Returned<T>(capacity: nat, values: seq<T>): seq<T>
    requires capacity > 0
  {
    if |values| == 0 then []
    else
      var was := Pushed(capacity, Front(values));
      Returned(capacity, Front(values)) + if |was| == capacity then [was[0]] else []
  }

  /** Nothing is lost and nothing is invented: what the pushes returned, followed by what the
      ring holds, is everything that was pushed, in order. */
  lemma {:induction false} PushesKeepEverything<T>(capacity: nat, values: seq<T>)
    requires capacity > 0
    ensures Pushed(capacity, values) == Recent(capacity, values)
    ensures Returned(capacity, values) + Pushed(capacity, values) == values
  {
    if |values| > 0 {
      PushesKeepEverything(capacity, Front(values));
      RecentStep(capacity, Front(values), Last(values));
      assert Front(values) + [Last(values)] == values;
    }
  }

  class Ring<T> {
    const slots: array<Option<T>>
    /** Index the next push writes to. */
    var head: nat
    var len: nat
    /** Pushes ever; `Clear` does not reset it. */
    var pushed: nat
    /** Every value pushed since the last `Clear`. */
    ghost var since: seq<T>

    ghost predicate Valid()
      reads this, slots
    {
      Holds(slots[..], head, len, since) && |since| <= pushed
    }

    function Capacity(): nat {
      slots.Length
    }

    /** The live values, oldest first. */
    ghost function Contents(): seq<T>
      reads this
    {
      Recent(slots.Length, since)
    }

    /** A zero capacity is raised to one. */
    constructor (capacity: nat)
      ensures Valid() && fresh(slots)
      ensures Capacity() == Max(capacity, 1) && since == [] && pushed == 0
    {
      slots := new Option<T>[if capacity == 0 then 1 else capacity](_ => None);
      head, len, pushed, since := 0, 0, 0, [];
    }

    method Len() returns (n: nat)
      requires Valid()
      ensures n == |Contents()|
    {
      n := len;
    }

    method IsFull() returns (full: bool)
      requires Valid()
      ensures full <==> |Contents()| == Capacity()
    {
      full := len == slots.Length;
    }

    /** Overwrites the oldest value when full, and returns it. */
    method Push(v: T) returns (evicted: Option<T>)
      requires Valid()
      modifies this, slots
      ensures Valid()
      ensures since == old(since) + [v] && pushed == old(pushed) + 1
      ensures Contents() == PushOnto(Capacity(), old(Contents()), v)
      ensures evicted == if |old(Contents())| == Capacity() then Some(old(Contents())[0]) else None
    {
      hide Unroll, Somes, Recent;
      var cap := slots.Length;
      ghost var before := slots[..];
      OldestIsAtHead(before, head, len, since);
      PushHolds(before, head, len, since, v);
      RecentStep(cap, since, v);
      evicted := slots[head];
      slots[head] := Some(v);
      assert slots[..] == before[head := Some(v)];
      WrapIsRemainder(head + 1, cap);
      head := (head + 1) % cap;
      if len < cap {
        len := len + 1;
      }
      pushed := pushed + 1;
      since := since + [v];
    }

    /** Where the value at a logical index lives. */
    function Phys(logical: nat): (i: nat)
      requires slots.Length > 0
      reads this
      ensures i < slots.Length
    {
      ((if len == slots.Length then head else 0) + logical) % slots.Length
    }

    /** Logical index 0 is the oldest value. */
    method Get(logical: nat) returns (v: Option<T>)
      requires Valid()
      ensures v == if logical < |Contents()| then Some(Contents()[logical]) else None
    {
      if logical >= len {
        return None;
      }
      LiveSlot(slots[..], head, len, since, logical);
      WrapIsRemainder((if len == slots.Length then head else 0) + logical, slots.Length);
      v := slots[Phys(logical)];
    }

    method Newest() returns (v: Option<T>)
      requires Valid()
      ensures v == if |Contents()| > 0 then Some(Last(Contents())) else None
    {
      if len == 0 {
        return None;
      }
      var cap := slots.Length;
      NewestSlot(slots[..], head, len, since);
      WrapIsRemainder(head + cap - 1, cap);
      v := slots[(head + cap - 1) % cap];
    }

    method Oldest() returns (v: Option<T>)
      requires Valid()
      ensures v == if |Contents()| > 0 then Some(Contents()[0]) else None
    {
      v := Get(0);
    }

    /** Oldest to newest. */
    method IterChrono() returns (values: seq<T>)
      requires Valid()
      ensures values == Contents()
    {
      hide Unroll, Recent;
      values := [];
      ghost var all := Contents();
      for i := 0 to len
        invariant values == all[..i]
      {
        var v := Get(i);
        if v.Some? {
          values := values + [v.value];
        }
      }
      assert all[..len] == all;
    }

    method Clear()
      requires Valid()
      modifies this, slots
      ensures Valid() && since == [] && pushed == old(pushed)
    {
      for i := 0 to slots.Length
        invariant forall j :: 0 <= j < i ==> slots[j] == None
        invariant head == old(head) && len == old(len) && pushed == old(pushed)
      {
        slots[i] := None;
      }
      head, len, since := 0, 0, [];
    }
  }
}
