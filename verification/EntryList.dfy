/**
  The doubly linked list of call and return events that the checker walks, and the in-place
  removal and re-insertion of an operation (`lift` and `unlift`).
 */
module EntryList {
  import opened Positions
  import opened Entries

  /** A call carries a link to its return in `mate`; for a return `mate` is null. */
  class Node<V(0)> {
    const value: V
    const mate: Node?<V>
    const id: nat
    var next: Node?<V>
    var prev: Node?<V>

    constructor (value: V, mate: Node?<V>, id: nat)
      ensures this.value == value && this.mate == mate && this.id == id && next == null && prev == null
    {
      this.value, this.mate, this.id, this.next, this.prev := value, mate, id, null, null;
    }

    /** The sentinel node in front of a history: no value, and the id with all 64 bits set. */
    constructor Head()
      ensures mate == null && id == 0xFFFF_FFFF_FFFF_FFFF && next == null && prev == null
    {
      mate, id, next, prev := null, 0xFFFF_FFFF_FFFF_FFFF, null, null;
    }
  }

  ghost function Elements(s: seq<nat>): set<nat> {
    set x | x in s
  }

  ghost function At<V(0)>(all: seq<Node<V>>, p: nat): Node?<V> {
    if p < |all| then all[p] else null
  }

  // ---------------------------------------------------------------------------------
  // Links as positions: what the next and prev fields of a row of nodes say

  datatype Links = Links(next: seq<nat>, prev: seq<nat>)

  ghost predicate WellShaped(l: Links, n: nat) {
    && |l.next| == |l.prev| == n
    && (forall p :: 0 <= p < n ==> l.next[p] <= n && l.prev[p] < n)
  }

  /** The nodes that are not `gone` form, in order, a list linked in both directions. */
  ghost predicate Linked(l: Links, n: nat, gone: set<nat>)
    requires WellShaped(l, n) && 0 !in gone
  {
    forall p :: 0 <= p < n && p !in gone ==> PointsInto(l, n, gone, p)
  }

  /** Position `p` points to its neighbours in the list without `gone`. */
  ghost predicate PointsInto(l: Links, n: nat, gone: set<nat>, p: nat)
    requires WellShaped(l, n) && p < n && 0 !in gone
  {
    && l.next[p] == Next(gone, n, p)
    && (0 < p ==> l.prev[p] == Prev(gone, p))
  }

  /** `out` lists the positions taken out, in the order they were taken out. */
  ghost predicate Removals(n: nat, out: seq<nat>) {
    && (forall k :: 0 <= k < |out| ==> 0 < out[k] < n)
    && (forall j, k :: 0 <= j < k < |out| ==> out[j] != out[k])
  }

  /** Every removed node still points to the neighbours it had at the moment it was taken out. */
  ghost predicate Remembers(l: Links, n: nat, out: seq<nat>)
    requires WellShaped(l, n) && Removals(n, out)
  {
    forall k :: 0 <= k < |out| ==> PointsInto(l, n, Elements(out[..k]), out[k])
  }

  /** The list of `n` positions after exactly the removals `out`. */
  ghost predicate Without(l: Links, n: nat, out: seq<nat>) {
    && 0 < n && WellShaped(l, n) && Removals(n, out)
    && Linked(l, n, Elements(out)) && Remembers(l, n, out)
  }

  /** The effect of unlinking `x` from its neighbours. */
  ghost function Unlinked(l: Links, n: nat, x: nat): (l': Links)
    requires WellShaped(l, n) && x < n
    ensures WellShaped(l', n)
  {
    Links(l.next[l.prev[x] := l.next[x]],
          if l.next[x] < n then l.prev[l.next[x] := l.prev[x]] else l.prev)
  }

  /** The effect of making the neighbours that `x` remembers point to `x` again. */
  ghost function Relinked(l: Links, n: nat, x: nat): (l': Links)
    requires WellShaped(l, n) && x < n
    ensures WellShaped(l', n)
  {
    Links(l.next[l.prev[x] := x],
          if l.next[x] < n then l.prev[l.next[x] := x] else l.prev)
  }

  lemma ElementsSnoc(out: seq<nat>, x: nat)
    ensures Elements(out + [x]) == Elements(out) + {x}
    ensures (out + [x])[..|out|] == out
  {
    forall y ensures y in out + [x] <==> y in Elements(out) + {x} {
      if y == x { assert (out + [x])[|out|] == x; }
      if y in out { var k :| 0 <= k < |out| && out[k] == y; assert (out + [x])[k] == y; }
    }
  }

  lemma UnlinkedIsWithout(l: Links, n: nat, out: seq<nat>, x: nat)
    requires Without(l, n, out) && 0 < x < n && x !in out
    ensures Without(Unlinked(l, n, x), n, out + [x])
  {
    hide Linked, Remembers, Unlinked;
    ElementsSnoc(out, x);
    UnlinkedLinked(l, n, Elements(out), x);
    UnlinkedRemembers(l, n, out, x);
  }

  lemma UnlinkedLinked(l: Links, n: nat, gone: set<nat>, x: nat)
    requires WellShaped(l, n) && 0 < x < n && x !in gone && 0 !in gone && Linked(l, n, gone)
    ensures Linked(Unlinked(l, n, x), n, gone + {x})
  {
    hide Unlinked, PointsInto;
    forall p | 0 <= p < n && p !in gone + {x} ensures PointsInto(Unlinked(l, n, x), n, gone + {x}, p) {
      UnlinkedAt(l, n, gone, x, p);
    }
  }

  lemma UnlinkedAt(l: Links, n: nat, gone: set<nat>, x: nat, p: nat)
    requires WellShaped(l, n) && 0 < x < n && x !in gone && 0 !in gone && p < n && p !in gone && p != x
    requires PointsInto(l, n, gone, x) && PointsInto(l, n, gone, p)
    ensures PointsInto(Unlinked(l, n, x), n, gone + {x}, p)
  {
    hide Next, Prev;
    Mirror(gone, n, x);
    NextAfterRemoval(gone, n, x, p);
    if 0 < p { PrevAfterRemoval(gone, n, x, p); }
  }

  lemma UnlinkedRemembers(l: Links, n: nat, out: seq<nat>, x: nat)
    requires Without(l, n, out) && 0 < x < n && x !in out
    ensures Removals(n, out + [x]) && Remembers(Unlinked(l, n, x), n, out + [x])
  {
    var gone, l' := Elements(out), Unlinked(l, n, x);
    assert PointsInto(l, n, gone, x);
    forall k | 0 <= k < |out + [x]| ensures PointsInto(l', n, Elements((out + [x])[..k]), (out + [x])[k]) {
      assert (out + [x])[..k] == out[..k];
      if k < |out| {
        assert PointsInto(l, n, Elements(out[..k]), out[k]);
        assert out[k] in gone;
      } else {
        assert out[..k] == out;
      }
    }
  }

  lemma RelinkedIsWithout(l: Links, n: nat, out: seq<nat>, x: nat)
    requires Without(l, n, out + [x]) && 0 < x < n
    ensures Without(Relinked(l, n, x), n, out) && x !in out && l.prev[x] != x
  {
    ElementsSnoc(out, x);
    RemovalsSnoc(n, out, x);
    assert (out + [x])[|out|] == x;
    assert PointsInto(l, n, Elements(out), x);
    RelinkedLinked(l, n, Elements(out), x);
    RelinkedRemembers(l, n, out, x);
  }

  lemma RemovalsSnoc(n: nat, out: seq<nat>, x: nat)
    requires Removals(n, out + [x])
    ensures Removals(n, out) && x !in out
  {
    assert forall k :: 0 <= k < |out| ==> (out + [x])[k] == out[k];
    assert (out + [x])[|out|] == x;
  }

  lemma RelinkedRemembers(l: Links, n: nat, out: seq<nat>, x: nat)
    requires WellShaped(l, n) && Removals(n, out + [x]) && Removals(n, out) && x !in out
    requires Remembers(l, n, out + [x]) && 0 < x < n && PointsInto(l, n, Elements(out), x)
    ensures Remembers(Relinked(l, n, x), n, out)
  {
    forall k | 0 <= k < |out| ensures PointsInto(Relinked(l, n, x), n, Elements(out[..k]), out[k]) {
      assert (out + [x])[..k] == out[..k] && (out + [x])[k] == out[k];
      assert PointsInto(l, n, Elements((out + [x])[..k]), (out + [x])[k]);
      assert out[k] in Elements(out);
    }
  }

  lemma RelinkedLinked(l: Links, n: nat, gone: set<nat>, x: nat)
    requires WellShaped(l, n) && 0 < x < n && x !in gone && 0 !in gone
    requires Linked(l, n, gone + {x}) && PointsInto(l, n, gone, x)
    ensures Linked(Relinked(l, n, x), n, gone)
  {
    hide Relinked, PointsInto;
    RelinkedSelf(l, n, gone, x);
    forall p | 0 <= p < n && p !in gone ensures PointsInto(Relinked(l, n, x), n, gone, p) {
      if p != x { RelinkedAt(l, n, gone, x, p); }
    }
  }

  lemma RelinkedSelf(l: Links, n: nat, gone: set<nat>, x: nat)
    requires WellShaped(l, n) && 0 < x < n && x !in gone && 0 !in gone && PointsInto(l, n, gone, x)
    ensures PointsInto(Relinked(l, n, x), n, gone, x)
  {
    hide Next, Prev;
  }

  lemma RelinkedAt(l: Links, n: nat, gone: set<nat>, x: nat, p: nat)
    requires WellShaped(l, n) && 0 < x < n && x !in gone && 0 !in gone && p < n && p !in gone && p != x
    requires PointsInto(l, n, gone, x) && PointsInto(l, n, gone + {x}, p)
    ensures PointsInto(Relinked(l, n, x), n, gone, p)
  {
    hide Next, Prev;
    Mirror(gone, n, x);
    Mirror(gone, n, p);
    NextAfterRemoval(gone, n, x, p);
    if 0 < p { PrevAfterRemoval(gone, n, x, p); }
  }

  lemma UnlinkedTwice(l: Links, n: nat, out: seq<nat>, c: nat, r: nat)
    requires Without(l, n, out) && 0 < c < r < n && c !in out && r !in out
    ensures Without(Unlinked(Unlinked(l, n, c), n, r), n, out + [c] + [r])
  {
    UnlinkedIsWithout(l, n, out, c);
    UnlinkedIsWithout(Unlinked(l, n, c), n, out + [c], r);
  }

  lemma RelinkedTwice(l: Links, n: nat, out: seq<nat>, c: nat, r: nat)
    requires Without(l, n, out + [c] + [r]) && 0 < c < r < n
    ensures l.prev[r] != r && Relinked(l, n, r).prev[c] != c
    ensures Without(Relinked(Relinked(l, n, r), n, c), n, out) && c !in out && r !in out
  {
    RelinkedIsWithout(l, n, out + [c], r);
    RelinkedIsWithout(Relinked(l, n, r), n, out, c);
  }

  // ---------------------------------------------------------------------------------
  // Whole runs of lifts and unlifts

  /** The operation with its call at `c` and its return at `r` is lifted, or put back. */
  datatype Move = Move(lifts: bool, c: nat, r: nat)

  /** Any operation still in the list can be lifted; only the one lifted last can be put back. */
  ghost predicate Moves(n: nat, l: Links, out: seq<nat>, l': Links, out': seq<nat>, m: Move) {
    && WellShaped(l, n) && 0 < m.c < m.r < n
    && if m.lifts then
         && m.c !in out && m.r !in out && out' == out + [m.c] + [m.r]
         && l' == Unlinked(Unlinked(l, n, m.c), n, m.r)
       else
         && out == out' + [m.c] + [m.r]
         && l' == Relinked(Relinked(l, n, m.r), n, m.c)
  }

  /** From the whole list on, operations are lifted and put back, the last one first. */
  ghost predicate LifoRun(n: nat, lists: seq<Links>, outs: seq<seq<nat>>, moves: seq<Move>) {
    && |lists| == |outs| == |moves| + 1 && outs[0] == [] && Without(lists[0], n, [])
    && forall k :: 0 <= k < |moves| ==> Moves(n, lists[k], outs[k], lists[k + 1], outs[k + 1], moves[k])
  }

  lemma MoveIsWithout(n: nat, l: Links, out: seq<nat>, l': Links, out': seq<nat>, m: Move)
    requires Without(l, n, out) && Moves(n, l, out, l', out', m)
    ensures Without(l', n, out')
  {
    hide Without;
    if m.lifts {
      UnlinkedTwice(l, n, out, m.c, m.r);
    } else {
      RelinkedTwice(l, n, out', m.c, m.r);
    }
  }

  /** After every such run the list is the original one without exactly the operations on the stack. */
  lemma {:induction false} LifoRunIsWithout(n: nat, lists: seq<Links>, outs: seq<seq<nat>>, moves: seq<Move>, k: nat)
    requires LifoRun(n, lists, outs, moves) && k < |lists|
    ensures Without(lists[k], n, outs[k])
  {
    hide Without, Moves;
    if k > 0 {
      LifoRunIsWithout(n, lists, outs, moves, k - 1);
      assert Moves(n, lists[k - 1], outs[k - 1], lists[k - 1 + 1], outs[k - 1 + 1], moves[k - 1]);
      MoveIsWithout(n, lists[k - 1], outs[k - 1], lists[k], outs[k], moves[k - 1]);
    }
  }

  /** When everything has been put back, the original list is there again. */
  lemma UnwoundIsWhole(n: nat, lists: seq<Links>, outs: seq<seq<nat>>, moves: seq<Move>, k: nat, p: nat)
    requires LifoRun(n, lists, outs, moves) && k < |lists| && outs[k] == [] && p < n
    ensures WellShaped(lists[k], n) && lists[k].next[p] == p + 1 && (p > 0 ==> lists[k].prev[p] == p - 1)
  {
    hide LifoRun;
    LifoRunIsWithout(n, lists, outs, moves, k);
    assert Elements([]) == {};
    assert PointsInto(lists[k], n, {}, p);
    NextUnique({}, n, p, p + 1);
    if p > 0 { PrevUnique({}, p, p - 1); }
  }

  // ---------------------------------------------------------------------------------
  // The nodes themselves

  ghost predicate Distinct<V(0)>(all: seq<Node<V>>) {
    forall p, q :: 0 <= p < q < |all| ==> all[p] != all[q]
  }

  /** The next and prev fields of the nodes `all` say what `l` says. */
  ghost predicate Represents<V(0)>(all: seq<Node<V>>, l: Links)
    reads all`next, all`prev
  {
    && Distinct(all)
    && WellShaped(l, |all|)
    && (forall p :: 0 <= p < |all| ==> all[p].next == At(all, l.next[p]))
    && (forall p :: 0 < p < |all| ==> all[p].prev == all[l.prev[p]])
  }

  /** A call has its return ahead of it, so its next link is not null. */
  lemma CallHasNext(l: Links, n: nat, out: seq<nat>, c: nat, r: nat)
    requires Without(l, n, out) && 0 < c < r < n && c !in out && r !in out
    ensures l.next[c] <= r
  {
    hide Next, Prev, Remembers;
    assert PointsInto(l, n, Elements(out), c);
    NextReaches(Elements(out), n, c, r);
  }

  /** That is also so for the call put back last: it remembers a successor no later than its return. */
  lemma LiftedCallHasNext(l: Links, n: nat, out: seq<nat>, c: nat, r: nat)
    requires Without(l, n, out + [c]) && 0 < c < r < n && r !in out
    ensures l.next[c] <= r
  {
    hide Next, Prev, Linked;
    assert (out + [c])[..|out|] == out && (out + [c])[|out|] == c;
    RemovalsSnoc(n, out, c);
    assert PointsInto(l, n, Elements(out), c);
    NextReaches(Elements(out), n, c, r);
  }

  /** Takes the call `entry` and its return out of the list. */
  method Lift<V(0)>(entry: Node<V>, ghost all: seq<Node<V>>, ghost l: Links, ghost out: seq<nat>,
                    ghost c: nat, ghost r: nat, ghost after: seq<nat>)
    returns (ghost l': Links)
    requires after == out + [c] + [r]
    requires Represents(all, l) && Without(l, |all|, out)
    requires 0 < c < r < |all| && c !in out && r !in out
    requires entry == all[c] && entry.mate == all[r]
    modifies all`next, all`prev
    ensures Represents(all, l') && Without(l', |all|, after)
    ensures Moves(|all|, l, out, l', after, Move(true, c, r))
  {
    UnlinkedTwice(l, |all|, out, c, r);
    CallHasNext(l, |all|, out, c, r);
    ghost var l1 := Unlinked(l, |all|, c);
    l' := Unlinked(l1, |all|, r);
    UnlinkCall(entry, all, l, c);
    UnlinkReturn(entry.mate, all, l1, r);
  }

  /** Puts a lifted call and its return back where they were; only the last one lifted may be put back. */
  method Unlift<V(0)>(entry: Node<V>, ghost all: seq<Node<V>>, ghost l: Links, ghost out: seq<nat>,
                      ghost c: nat, ghost r: nat, ghost before: seq<nat>)
    returns (ghost l': Links)
    requires 0 < c < r < |all| && before == out + [c] + [r]
    requires Represents(all, l) && Without(l, |all|, before)
    requires entry == all[c] && entry.mate == all[r]
    modifies all`next, all`prev
    ensures Represents(all, l') && Without(l', |all|, out) && c !in out && r !in out
    ensures Moves(|all|, l, before, l', out, Move(false, c, r))
  {
    RelinkedTwice(l, |all|, out, c, r);
    ghost var l1 := Relinked(l, |all|, r);
    l' := Relinked(l1, |all|, c);
    RelinkedIsWithout(l, |all|, out + [c], r);
    LiftedCallHasNext(l1, |all|, out, c, r);
    RelinkReturn(entry.mate, all, l, r);
    RelinkCall(entry, all, l1, c);
  }

  /** The first half of `lift`: the neighbours of a call bypass it. */
  method UnlinkCall<V(0)>(n: Node<V>, ghost all: seq<Node<V>>, ghost l: Links, ghost x: nat)
    requires Represents(all, l) && 0 < x < |all| && n == all[x] && l.next[x] < |all|
    modifies all`next, all`prev
    ensures Represents(all, Unlinked(l, |all|, x))
  {
    n.prev.next := n.next;
    ghost var l1 := l.(next := l.next[l.prev[x] := l.next[x]]);
    assert Represents(all, l1) && n.next == all[l1.next[x]];
    n.next.prev := n.prev;
  }

  /**
    The second half: the neighbours of a return, which may be the last of the list, bypass it.  When a
    call is followed by its own return, this works on the link that the first half has just changed.
   */
  method UnlinkReturn<V(0)>(n: Node<V>, ghost all: seq<Node<V>>, ghost l: Links, ghost x: nat)
    requires Represents(all, l) && 0 < x < |all| && n == all[x]
    modifies all`next, all`prev
    ensures Represents(all, Unlinked(l, |all|, x))
  {
    n.prev.next := n.next;
    ghost var l1 := l.(next := l.next[l.prev[x] := l.next[x]]);
    assert Represents(all, l1);
    if n.next != null {
      assert n.next == all[l1.next[x]];
      n.next.prev := n.prev;
    }
  }

  /** The first half of `unlift`: the neighbours that a return remembers point to it again. */
  method RelinkReturn<V(0)>(n: Node<V>, ghost all: seq<Node<V>>, ghost l: Links, ghost x: nat)
    requires Represents(all, l) && 0 < x < |all| && n == all[x] && l.prev[x] != x
    modifies all`next, all`prev
    ensures Represents(all, Relinked(l, |all|, x))
  {
    n.prev.next := n;
    ghost var l1 := l.(next := l.next[l.prev[x] := x]);
    assert Represents(all, l1);
    if n.next != null {
      assert n.next == all[l1.next[x]];
      n.next.prev := n;
    }
  }

  /** The second half: so do the neighbours that a call remembers. */
  method RelinkCall<V(0)>(n: Node<V>, ghost all: seq<Node<V>>, ghost l: Links, ghost x: nat)
    requires Represents(all, l) && 0 < x < |all| && n == all[x] && l.prev[x] != x && l.next[x] < |all|
    modifies all`next, all`prev
    ensures Represents(all, Relinked(l, |all|, x))
  {
    n.prev.next := n;
    ghost var l1 := l.(next := l.next[l.prev[x] := x]);
    assert Represents(all, l1) && n.next == all[l1.next[x]];
    n.next.prev := n;
  }

  // ---------------------------------------------------------------------------------
  // Building the list

  ghost function Some<V(0)>(n: Node?<V>): set<Node<V>> {
    if n == null then {} else {n}
  }

  /**
    Puts `n` in front of `mark`; does nothing when there is no mark.  The clauses with side conditions
    only matter if the two nodes are the same or already neighbours.
   */
  method InsertBefore<V(0)>(n: Node<V>, mark: Node?<V>) returns (r: Node<V>)
    modifies n`next, n`prev, Some(mark)`prev, (if mark != null then Some(mark.prev) else {})`next
    ensures r == n
    ensures mark == null ==> n.next == old(n.next) && n.prev == old(n.prev)
    ensures mark != null && old(mark.prev) != n ==> n.next == mark
    ensures mark != null && (n != mark || old(mark.prev) == null) ==> mark.prev == n
    ensures mark != null && old(mark.prev) != null ==> n.prev == old(mark.prev) && old(mark.prev).next == n
    ensures mark != null && old(mark.prev) == null && n != mark ==> n.prev == old(n.prev)
  {
    if mark != null {
      var beforeMark := mark.prev;
      mark.prev := n;
      n.next := mark;
      if beforeMark != null {
        n.prev := beforeMark;
        beforeMark.next := n;
      }
    }
    r := n;
  }

  /** `nodes` are linked one after the other, with nothing in front of the first. */
  ghost predicate Chain<V(0)>(nodes: seq<Node<V>>)
    reads nodes`next, nodes`prev
  {
    && Distinct(nodes)
    && (forall p {:trigger nodes[p].next} :: 0 <= p < |nodes| ==>
          nodes[p].next == if p + 1 < |nodes| then nodes[p + 1] else null)
    && (forall p {:trigger nodes[p].prev} :: 0 <= p < |nodes| ==> nodes[p].prev == if 0 < p then nodes[p - 1] else null)
  }

  /** Each node holds the event at its position, and each call is linked to its own return. */
  ghost predicate Holds<V(0)>(nodes: seq<Node<V>>, es: seq<Entry<V>>)
  {
    |nodes| == |es| && HoldsFrom(nodes, es, 0)
  }

  /** `nodes` hold the events from position `i` on. */
  ghost predicate HoldsFrom<V(0)>(nodes: seq<Node<V>>, es: seq<Entry<V>>, i: nat)
  {
    && i <= |es| && |nodes| == |es| - i
    && (forall p :: i <= p < |es| ==> HoldsAt(nodes, es, i, p))
  }

  ghost predicate HoldsAt<V(0)>(nodes: seq<Node<V>>, es: seq<Entry<V>>, i: nat, p: nat)
    requires i <= p < |es| && |nodes| == |es| - i
  {
    && nodes[p - i].value == es[p].value && nodes[p - i].id == es[p].id
    && nodes[p - i].mate == MateOf(nodes, es, i, p)
  }

  ghost function MateOf<V(0)>(nodes: seq<Node<V>>, es: seq<Entry<V>>, i: nat, p: nat): Node?<V>
    requires i <= p < |es| && |nodes| == |es| - i
  {
    if es[p].kind.ReturnEntry? || ReturnAt(es, es[p].id) < i then null else At(nodes, ReturnAt(es, es[p].id) - i)
  }

  /** `mates` knows the node of every return from position `i` on. */
  ghost predicate Finds<V(0)>(mates: map<nat, Node<V>>, nodes: seq<Node<V>>, es: seq<Entry<V>>, i: nat)
    requires i <= |es| && |nodes| == |es| - i
  {
    forall p :: i <= p < |es| && es[p].kind.ReturnEntry? ==> es[p].id in mates && mates[es[p].id] == nodes[p - i]
  }

  lemma HoldsOneMore<V(0)>(n: Node<V>, nodes: seq<Node<V>>, es: seq<Entry<V>>, i: nat)
    requires Paired(es) && i < |es| && HoldsFrom(nodes, es, i + 1)
    requires n.value == es[i].value && n.id == es[i].id
    requires n.mate == MateOf([n] + nodes, es, i, i)
    ensures HoldsFrom([n] + nodes, es, i)
  {
    forall p | i <= p < |es| ensures HoldsAt([n] + nodes, es, i, p) {
      if i < p {
        assert HoldsAt(nodes, es, i + 1, p);
        assert PairedAt(es, p);
        assert ([n] + nodes)[p - i] == nodes[p - i - 1];
      }
    }
  }

  lemma MateKnown<V(0)>(n: Node<V>, mates: map<nat, Node<V>>, nodes: seq<Node<V>>, es: seq<Entry<V>>, i: nat)
    requires Paired(es) && i < |es| && |nodes| == |es| - (i + 1) && Finds(mates, nodes, es, i + 1)
    ensures MateOf([n] + nodes, es, i, i) ==
              if es[i].kind.CallEntry? && es[i].id in mates then mates[es[i].id] else null
  {
    assert PairedAt(es, i);
    var r := ReturnAt(es, es[i].id);
    assert es[r].kind.ReturnEntry?;
  }

  lemma FindsOneMore<V(0)>(n: Node<V>, mates: map<nat, Node<V>>, nodes: seq<Node<V>>, es: seq<Entry<V>>, i: nat)
    requires Paired(es) && i < |es| && |nodes| == |es| - (i + 1) && Finds(mates, nodes, es, i + 1)
    ensures Finds(if es[i].kind.ReturnEntry? then mates[es[i].id := n] else mates, [n] + nodes, es, i)
  {
    forall p | i < p < |es| && es[p].kind.ReturnEntry?
      ensures es[p].id in mates && mates[es[p].id] == ([n] + nodes)[p - i]
      ensures es[i].kind.ReturnEntry? ==> es[p].id != es[i].id
    {
      assert PairedAt(es, p) && PairedAt(es, i);
    }
  }

  /** An unlinked node is put at the front of a chain. */
  method PutFirst<V(0)>(entry: Node<V>, root: Node?<V>, ghost nodes: seq<Node<V>>)
    requires Chain(nodes) && root == At(nodes, 0) && entry !in nodes && entry.next == null && entry.prev == null
    modifies entry`next, entry`prev, Some(root)`prev
    ensures Chain([entry] + nodes)
  {
    assert root != null ==> root == nodes[0] && nodes[0].prev == null;
    var _ := InsertBefore(entry, root);
  }

  /** A new node at the front of a chain. */
  method AddFirst<V(0)>(value: V, mate: Node?<V>, id: nat, root: Node?<V>, ghost nodes: seq<Node<V>>)
    returns (entry: Node<V>)
    requires Chain(nodes) && root == At(nodes, 0)
    modifies Some(root)`prev
    ensures fresh(entry) && entry.value == value && entry.mate == mate && entry.id == id
    ensures Chain([entry] + nodes)
  {
    entry := new Node(value, mate, id);
    PutFirst(entry, root, nodes);
  }

  /** Builds the list from the last event to the first. */
  method MakeLinkedEntries<V(0)>(es: seq<Entry<V>>) returns (root: Node?<V>, ghost nodes: seq<Node<V>>)
    requires Paired(es)
    ensures fresh(nodes) && root == At(nodes, 0)
    ensures Chain(nodes) && Holds(nodes, es)
  {
    root, nodes := null, [];
    var mates: map<nat, Node<V>> := map[];
    for i := |es| downto 0
      invariant fresh(nodes) && root == At(nodes, 0) && Chain(nodes)
      invariant HoldsFrom(nodes, es, i) && Finds(mates, nodes, es, i)
    {
      var elem := es[i];
      var entry;
      if elem.kind.ReturnEntry? {
        entry := AddFirst(elem.value, null, elem.id, root, nodes);
      } else {
        entry := AddFirst(elem.value, if elem.id in mates then mates[elem.id] else null, elem.id, root, nodes);
      }
      MateKnown(entry, mates, nodes, es, i);
      HoldsOneMore(entry, nodes, es, i);
      FindsOneMore(entry, mates, nodes, es, i);
      if elem.kind.ReturnEntry? {
        mates := mates[elem.id := entry];
      }
      root := entry;
      nodes := [entry] + nodes;
    }
  }

  /** The number of nodes from `n` on. */
  method Length<V(0)>(n: Node?<V>, ghost nodes: seq<Node<V>>) returns (l: nat)
    requires Chain(nodes) && n == At(nodes, 0)
    ensures l == |nodes|
  {
    l := 0;
    var m := n;
    while m != null
      invariant l <= |nodes| && m == At(nodes, l)
      decreases |nodes| - l
    {
      m := m.next;
      l := l + 1;
    }
  }
}
