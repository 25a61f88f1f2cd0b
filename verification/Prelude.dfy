/** Small vocabulary shared by every other module. */
module Prelude {

  datatype Option<+T> = None | Some(value: T)

  type Positive = n: nat | n > 0 witness 1

  /** The source's `saturating_sub` on unsigned counters, and
      `saturating_duration_since` on instants. */
  function SatSub(a: nat, b: nat): nat {
    if a >= b then a - b else 0
  }

  function Min(a: int, b: int): int {
    if a <= b then a else b
  }

  function Max(a: int, b: int): int {
    if a >= b then a else b
  }

  function AbsReal(x: real): real {
    if x >= 0.0 then x else -x
  }

  function Last<T>(s: seq<T>): T
    requires |s| > 0
  {
    s[|s| - 1]
  }

  function Front<T>(s: seq<T>): seq<T>
    requires |s| > 0
  {
    s[..|s| - 1]
  }

  ghost predicate NoDuplicates<T(!new)>(s: seq<T>) {
    forall i, j :: 0 <= i < j < |s| ==> s[i] != s[j]
  }

  lemma RemoveOne<T>(s: seq<T>, i: nat)
    requires i < |s|
    ensures multiset(s[..i] + s[i + 1..]) == multiset(s) - multiset{s[i]}
  {
    assert s == s[..i] + [s[i]] + s[i + 1..];
  }

  lemma FrontMultiset<T>(s: seq<T>)
    requires |s| > 0
    ensures multiset(s) == multiset(Front(s)) + multiset{Last(s)}
  {
    assert s == Front(s) + [Last(s)];
  }

  /** The last element of one sequence can be taken out of any permutation of it. */
  lemma PeelLast<T>(a: seq<T>, b: seq<T>) returns (i: nat)
    requires multiset(a) == multiset(b) && |a| > 0
    ensures i < |b| && b[i] == Last(a)
    ensures multiset(Front(a)) == multiset(b[..i] + b[i + 1..])
  {
    FrontMultiset(a);
    assert Last(a) in multiset(b);
    i :| i < |b| && b[i] == Last(a);
    RemoveOne(b, i);
  }
}
