/**
  The commit rule: the index a leader commits is the middle element of the sorted match indices.
  It is the highest index that a majority supports, and every such majority shares a peer with
  every majority that can elect a leader.
 */
module Commit {
  import opened Common
  import opened Histories

  /** The peers whose log is known to match the leader's up to `v`. */
  function Supporters(m: seq<nat>, v: nat): set<nat> {
    set i | 0 <= i < |m| && m[i] >= v
  }

  /** The highest index supported by at least `n - n/2` of the `n` peers. */
  ghost predicate IsCommitTarget(m: seq<nat>, t: nat) {
    && |Supporters(m, t)| >= |m| - |m| / 2
    && (forall v: nat :: |Supporters(m, v)| >= |m| - |m| / 2 ==> v <= t)
  }

  function Count(s: seq<nat>, v: nat): nat {
    if s == [] then 0 else Count(s[..|s| - 1], v) + (if s[|s| - 1] >= v then 1 else 0)
  }

  lemma {:induction false} CountIsSupport(m: seq<nat>, v: nat)
    ensures Count(m, v) == |Supporters(m, v)|
  {
    if m == [] {
      assert Supporters(m, v) == {};
    } else {
      var n := |m| - 1;
      CountIsSupport(m[..n], v);
      assert Supporters(m, v) == if m[n] >= v then Supporters(m[..n], v) + {n} else Supporters(m[..n], v);
    }
  }

  lemma {:induction false} CountConcat(a: seq<nat>, b: seq<nat>, v: nat)
    ensures Count(a + b, v) == Count(a, v) + Count(b, v)
  {
    if b == [] {
      assert a + b == a;
    } else {
      var n := |b| - 1;
      CountConcat(a, b[..n], v);
      assert (a + b)[..|a + b| - 1] == a + b[..n];
    }
  }

  ghost predicate Sorted(s: seq<nat>) {
    forall i, j :: 0 <= i <= j < |s| ==> s[i] <= s[j]
  }

  lemma CountInserted(r: seq<nat>, i: nat, x: nat, v: nat)
    requires i <= |r|
    ensures Count(r[..i] + [x] + r[i..], v) == Count(r, v) + Count([x], v)
  {
    assert r == r[..i] + r[i..];
    CountConcat(r[..i], r[i..], v);
    CountConcat(r[..i] + [x], r[i..], v);
    CountConcat(r[..i], [x], v);
  }

  method InsertInt(s: seq<nat>, x: nat) returns (r: seq<nat>)
    requires Sorted(s)
    ensures Sorted(r) && |r| == |s| + 1
    ensures forall v: nat :: Count(r, v) == Count(s, v) + Count([x], v)
  {
    hide Count;
    var i := 0;
    while i < |s| && s[i] <= x
      invariant 0 <= i <= |s|
      invariant forall j :: 0 <= j < i ==> s[j] <= x
    {
      i := i + 1;
    }
    forall v: nat ensures Count(s[..i] + [x] + s[i..], v) == Count(s, v) + Count([x], v) {
      CountInserted(s, i, x, v);
    }
    r := s[..i] + [x] + s[i..];
  }

  /** `sort.Ints`. */
  method SortInts(s: seq<nat>) returns (r: seq<nat>)
    ensures Sorted(r) && |r| == |s|
    ensures forall v: nat :: Count(r, v) == Count(s, v)
  {
    hide Count, Sorted;
    r := [];
    EmptyIsSorted();
    assert s[..0] == [];
    for k := 0 to |s|
      invariant Sorted(r) && |r| == k
      invariant forall v: nat :: Count(r, v) == Count(s[..k], v)
    {
      r := InsertInt(r, s[k]);
      assert s[..k + 1] == s[..k] + [s[k]];
      forall v: nat ensures Count(s[..k + 1], v) == Count(s[..k], v) + Count([s[k]], v) {
        CountConcat(s[..k], [s[k]], v);
      }
    }
    assert s[..|s|] == s;
  }

  lemma EmptyIsSorted()
    ensures Sorted([])
  {
  }

  lemma {:induction false} CountAll(s: seq<nat>, v: nat)
    ensures (forall i :: 0 <= i < |s| ==> s[i] >= v) ==> Count(s, v) == |s|
    ensures (forall i :: 0 <= i < |s| ==> s[i] < v) ==> Count(s, v) == 0
    ensures Count(s, v) <= |s|
  {
    if s != [] { CountAll(s[..|s| - 1], v); }
  }

  /** In a sorted sequence, element `k` is the highest value reached by at least `|s| - k` elements. */
  lemma SortedRank(s: seq<nat>, k: nat, v: nat)
    requires Sorted(s) && k < |s|
    ensures Count(s, s[k]) >= |s| - k
    ensures Count(s, v) >= |s| - k ==> v <= s[k]
  {
    hide Count;
    assert s == s[..k] + s[k..];
    CountConcat(s[..k], s[k..], s[k]);
    CountAll(s[k..], s[k]);
    assert s == s[..k + 1] + s[k + 1..];
    CountConcat(s[..k + 1], s[k + 1..], v);
    CountAll(s[..k + 1], v);
    CountAll(s[k + 1..], v);
  }

  /** Copy, sort, take the middle. */
  method Middle(matchIndex: seq<nat>) returns (target: nat)
    requires matchIndex != []
    ensures IsCommitTarget(matchIndex, target)
  {
    var s := SortInts(matchIndex);
    target := s[|matchIndex| / 2];
    SortedRank(s, |matchIndex| / 2, 0);
    CountIsSupport(matchIndex, target);
    forall v: nat | |Supporters(matchIndex, v)| >= |matchIndex| - |matchIndex| / 2 ensures v <= target {
      CountIsSupport(matchIndex, v);
      SortedRank(s, |matchIndex| / 2, v);
    }
  }

  lemma CommitTargetUnique(m: seq<nat>, t: nat, u: nat)
    requires IsCommitTarget(m, t) && IsCommitTarget(m, u)
    ensures t == u
  {
    assert u <= t && t <= u;
  }

  /** Sets of peers too large to be disjoint share a peer. */
  lemma Overlap(n: nat, a: set<nat>, b: set<nat>) returns (p: nat)
    requires a <= Below(n) && b <= Below(n) && |a| + |b| > n
    ensures p in a && p in b
  {
    SubsetSize(a + b, Below(n));
    assert |a + b| + |a * b| == |a| + |b|;
    assert a * b != {};
    p :| p in a * b;
  }

  /** Whoever elects a leader includes a peer that supports the committed index. */
  lemma CommitMeetsElection(m: seq<nat>, t: nat, voters: set<nat>) returns (p: nat)
    requires IsCommitTarget(m, t) && voters <= Below(|m|) && |voters| >= |m| / 2 + 1
    ensures p in voters && p < |m| && m[p] >= t
  {
    p := Overlap(|m|, Supporters(m, t), voters);
  }
}
