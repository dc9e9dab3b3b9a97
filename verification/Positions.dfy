/**
  Neighbours in a list from which some positions have been taken out.  The list that the checker
  searches is a fixed row of positions `0..n`; position 0 is the sentinel and is never taken out.
 */
module Positions {

  /** The first position after `p` that is still in the list, or `n` if there is none. */
  function Next(gone: set<nat>, n: nat, p: nat): (q: nat)
    requires p < n
    ensures p < q <= n && (q < n ==> q !in gone)
    ensures forall r :: p < r < q ==> r in gone
    decreases n - p
  {
    if p + 1 == n || p + 1 !in gone then p + 1 else Next(gone, n, p + 1)
  }

  /** The last position before `p` that is still in the list. */
  function Prev(gone: set<nat>, p: nat): (q: nat)
    requires 0 < p && 0 !in gone
    ensures q < p && q !in gone
    ensures forall r :: q < r < p ==> r in gone
  {
    if p - 1 !in gone then p - 1 else Prev(gone, p - 1)
  }

  /** No position still in the list is passed over. */
  lemma NextReaches(gone: set<nat>, n: nat, p: nat, r: nat)
    requires p < r < n && r !in gone
    ensures Next(gone, n, p) <= r
  {
    assert r < Next(gone, n, p) ==> r in gone;
  }

  lemma NextUnique(gone: set<nat>, n: nat, p: nat, q: nat)
    requires p < q <= n && (q < n ==> q !in gone)
    requires forall r :: p < r < q ==> r in gone
    ensures Next(gone, n, p) == q
  {
    var q' := Next(gone, n, p);
    assert q' < q ==> q' in gone;
    assert q < q' ==> q in gone;
  }

  lemma PrevUnique(gone: set<nat>, p: nat, q: nat)
    requires q < p && q !in gone && 0 !in gone
    requires forall r :: q < r < p ==> r in gone
    ensures Prev(gone, p) == q
  {
    var q' := Prev(gone, p);
    assert q < q' ==> q' in gone;
    assert q' < q ==> q in gone;
  }

  /** Next and Prev mirror each other on the positions still in the list. */
  lemma Mirror(gone: set<nat>, n: nat, p: nat)
    requires p < n && 0 !in gone && p !in gone
    ensures Next(gone, n, p) < n ==> Prev(gone, Next(gone, n, p)) == p
    ensures 0 < p ==> Next(gone, n, Prev(gone, p)) == p
  {
    if Next(gone, n, p) < n { PrevUnique(gone, Next(gone, n, p), p); }
    if 0 < p { NextUnique(gone, n, Prev(gone, p), p); }
  }

  /** Taking out `x` changes the successor of its predecessor only. */
  lemma NextAfterRemoval(gone: set<nat>, n: nat, x: nat, p: nat)
    requires 0 < x < n && x !in gone && 0 !in gone
    requires p < n && p !in gone && p != x
    ensures Next(gone + {x}, n, p) == if p == Prev(gone, x) then Next(gone, n, x) else Next(gone, n, p)
  {
    var q := Next(gone, n, p);
    Mirror(gone, n, p);
    Mirror(gone, n, x);
    if q == x {
      NextUnique(gone + {x}, n, p, Next(gone, n, x));
    } else {
      NextUnique(gone + {x}, n, p, q);
    }
  }

  /** Taking out `x` changes the predecessor of its successor only. */
  lemma PrevAfterRemoval(gone: set<nat>, n: nat, x: nat, p: nat)
    requires 0 < x < n && x !in gone && 0 !in gone
    requires 0 < p < n && p !in gone && p != x
    ensures Prev(gone + {x}, p) == if p == Next(gone, n, x) then Prev(gone, x) else Prev(gone, p)
  {
    var q := Prev(gone, p);
    Mirror(gone, n, p);
    Mirror(gone, n, x);
    if q == x {
      PrevUnique(gone + {x}, p, Prev(gone, x));
    } else {
      PrevUnique(gone + {x}, p, q);
    }
  }
}
