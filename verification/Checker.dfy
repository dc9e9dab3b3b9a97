/**
  `checkSingle`: the search itself, on the linked list, with an explicit backtrack stack, a bitset
  of linearized operations and a memo table.
 */
module Checker {
  import opened Linearizability
  import opened Entries
  import opened EntryList
  import opened Search
  import opened Layout
  import opened Bitset
  import opened MemoTable

  datatype CallsEntry<V(0), +S> = CallsEntry(entry: Node<V>, state: S)

  /** Sentinel and events, with every call linked to its return. */
  ghost predicate HoldsAll<V(0)>(all: seq<Node<V>>, h: History<V>, es: seq<Entry<V>>)
    requires Lays(h, es)
  {
    && |all| == |es| + 1
    && (forall p :: 0 < p <= |es| ==> HoldsEvent(all, h, es, p))
  }

  ghost predicate HoldsEvent<V(0)>(all: seq<Node<V>>, h: History<V>, es: seq<Entry<V>>, p: nat)
    requires Lays(h, es) && |all| == |es| + 1 && 0 < p <= |es|
  {
    assert IsEvent(h, es, p) && HasEvents(h, es, es[p - 1].id);
    && all[p].value == es[p - 1].value && all[p].id == es[p - 1].id
    && all[p].mate == if es[p - 1].kind.CallEntry? then all[h[es[p - 1].id].ret] else null
  }

  /** The stack of the search: calls lifted so far, each with the model state before it. */
  ghost predicate StackIs<S, V(0)>(calls: seq<CallsEntry<V, S>>, all: seq<Node<V>>, h: History<V>, path: seq<nat>,
                                   states: seq<S>) {
    && |calls| == |path| && |states| == |path| + 1
    && (forall k :: 0 <= k < |calls| ==>
          && path[k] in h && 0 <= h[path[k]].call < |all|
          && calls[k].entry == all[h[path[k]].call] && calls[k].state == states[k])
  }

  /** The list position the search is at: a live one, or past the end when nothing is left. */
  ghost predicate AtPosition(n: nat, gone: set<nat>, e: nat) {
    0 < e <= n && e !in gone && (e == n ==> forall p :: 0 < p < n ==> p in gone)
  }

  /** Past a call, the next position is still on or before its return. */
  lemma NextIsLive(l: Links, n: nat, gone: set<nat>, c: nat, r: nat)
    requires LinksAre(l, n, gone) && 0 < c < r < n && c !in gone && r !in gone
    ensures c < l.next[c] <= r && l.next[c] !in gone
    ensures forall p :: c < p < l.next[c] ==> p in gone
  {
    assert PointsInto(l, n, gone, c);
  }

  lemma FirstIsLive(l: Links, n: nat, gone: set<nat>)
    requires LinksAre(l, n, gone)
    ensures AtPosition(n, gone, l.next[0])
    ensures forall p :: 0 < p < l.next[0] ==> p in gone
  {
    assert PointsInto(l, n, gone, 0);
  }

  // ---------------------------------------------------------------------------------
  // The loop invariant on values, and what each kind of iteration does to it

  ghost predicate Inv<S, V>(m: Model<S, V>, h: History<V>, es: seq<Entry<V>>, path: seq<nat>, states: seq<S>, e: nat,
                            cached: set<Pair<S>>) {
    && Lays(h, es) && Within(h, path)
    && Searching(m, h, path, states, e, cached)
    && AtPosition(|es| + 1, Gone(h, path), e)
    && cached <= Reach(m, h, |h|)
  }

  ghost function Gone<V>(h: History<V>, path: seq<nat>): set<nat>
    requires Within(h, path)
  {
    Elements(OutOf(h, path))
  }

  /** The links form the list without the positions `gone`. */
  ghost predicate LinksAre(l: Links, n: nat, gone: set<nat>) {
    0 < n && 0 !in gone && n !in gone && WellShaped(l, n) && Linked(l, n, gone)
  }

  ghost predicate AtCall<V>(h: History<V>, es: seq<Entry<V>>, path: seq<nat>, e: nat, i: nat) {
    && 0 < e <= |es| && es[e - 1].kind.CallEntry? && es[e - 1].id == i
    && i in h && i !in Done(path, |path|) && h[i].call == e
  }

  lemma CurrentEvent<V>(h: History<V>, es: seq<Entry<V>>, path: seq<nat>, e: nat)
    requires Lays(h, es) && Within(h, path) && 0 < e <= |es| && e !in Gone(h, path)
    ensures var i := es[e - 1].id;
            && i in h && i !in Done(path, |path|)
            && e == (if es[e - 1].kind.CallEntry? then h[i].call else h[i].ret)
            && 0 < h[i].call < h[i].ret <= |es|
            && h[i].call !in Gone(h, path) && h[i].ret !in Gone(h, path)
  {
    var i := es[e - 1].id;
    assert IsEvent(h, es, e) && HasEvents(h, es, i);
    OutElements(h, path, e);
    assert path[..|path|] == path;
    StillLinked(h, es, path, i);
  }

  lemma GapIsDead<V>(h: History<V>, es: seq<Entry<V>>, path: seq<nat>, c: int, e': nat)
    requires Lays(h, es) && Within(h, path) && 0 <= c
    requires forall p :: c < p < e' ==> p in Gone(h, path)
    ensures forall p :: c < p < e' ==> !Live(h, Done(path, |path|), p)
  {
    forall p | c < p < e' ensures !Live(h, Done(path, |path|), p) {
      assert p in Gone(h, path);
      LiveIffLinked(h, es, path, p);
    }
  }

  lemma StillLinked<V>(h: History<V>, es: seq<Entry<V>>, path: seq<nat>, i: nat)
    requires Lays(h, es) && Within(h, path) && i in h && i !in Done(path, |path|)
    ensures 0 < h[i].call < h[i].ret <= |es|
    ensures h[i].call !in Gone(h, path) && h[i].ret !in Gone(h, path)
  {
    assert HasEvents(h, es, i);
    assert Live(h, Done(path, |path|), h[i].call) && Live(h, Done(path, |path|), h[i].ret);
    LiveIffLinked(h, es, path, h[i].call);
    LiveIffLinked(h, es, path, h[i].ret);
  }

  lemma NextLinkExists(l: Links, n: nat, gone: set<nat>)
    requires LinksAre(l, n, gone)
    ensures |l.next| == n
  {
  }

  /** From the call of an operation still in the list, `next` leads to the next live position. */
  lemma NextPositionOf<V>(h: History<V>, es: seq<Entry<V>>, path: seq<nat>, l: Links, i: nat)
    requires Lays(h, es) && Within(h, path) && LinksAre(l, |es| + 1, Gone(h, path)) && i in h
    requires i !in Done(path, |path|)
    ensures 0 < h[i].call < l.next[h[i].call] <= |es|
    ensures AtPosition(|es| + 1, Gone(h, path), l.next[h[i].call])
    ensures forall p :: h[i].call < p < l.next[h[i].call] ==> !Live(h, Done(path, |path|), p)
  {
    hide Lays, Within, Gone, Live, LinksAre, Done;
    StillLinked(h, es, path, i);
    NextLinkExists(l, |es| + 1, Gone(h, path));
    var c, gone := h[i].call, Gone(h, path);
    NextIsLive(l, |es| + 1, gone, c, h[i].ret);
    var e' := l.next[c];
    GapIsDead(h, es, path, c, e');
  }

  /** The call at `e` cannot come next. */
  lemma StepAdvance<S, V>(m: Model<S, V>, h: History<V>, es: seq<Entry<V>>, path: seq<nat>, states: seq<S>, l: Links,
                          e: nat, cached: set<Pair<S>>, i: nat)
    requires Inv(m, h, es, path, states, e, cached) && AtCall(h, es, path, e, i)
    requires LinksAre(l, |es| + 1, Gone(h, path))
    requires DeadEnd(m, h, Done(path, |path|), states[|path|], i)
    ensures e < l.next[e] <= |es| && Inv(m, h, es, path, states, l.next[e], cached)
  {
    NextPositionOf(h, es, path, l, i);
    Advance(m, h, path, states, e, cached, i, l.next[e]);
  }

  lemma OutSnoc<V>(h: History<V>, path: seq<nat>, i: nat)
    requires Within(h, path) && i in h && h[i].call >= 0 && h[i].ret >= 0
    ensures Within(h, path + [i])
    ensures OutOf(h, path + [i]) == OutOf(h, path) + [h[i].call] + [h[i].ret]
  {
    assert (path + [i])[..|path|] == path;
  }

  /** The call at `e` comes next: from here on the list is the one without it. */
  lemma StepPush<S(!new), V(!new)>(m: Model<S, V>, h: History<V>, es: seq<Entry<V>>, path: seq<nat>, states: seq<S>,
                                   e: nat, cached: set<Pair<S>>, i: nat, s': S, l': Links)
    requires Inv(m, h, es, path, states, e, cached) && AtCall(h, es, path, e, i) && WellBehaved(m)
    requires StepOf(m, states[|path|], h, i) == (true, s')
    requires Within(h, path + [i]) && LinksAre(l', |es| + 1, Gone(h, path + [i]))
    requires forall c :: c in cached && c.0 == Done(path, |path|) + {i} ==> !m.equal(s', c.1)
    ensures 0 < l'.next[0] <= |es| + 1
    ensures Inv(m, h, es, path + [i], states + [s'], l'.next[0], cached + {(Done(path, |path|) + {i}, s')})
    ensures |Reach(m, h, |h|) - (cached + {(Done(path, |path|) + {i}, s')})| < |Reach(m, h, |h|) - cached|
  {
    hide Within, Gone, Reach, AtPosition, StepOf, OutOf, Level, Tried, NoReturnBefore, Justified, Linked;
    var path', pair := path + [i], (Done(path, |path|) + {i}, s');
    OutSnoc(h, path, i);
    DonePrefix(path, |path|, i);
    PushPosition(h, es, path', l');
    assert Done(path', |path'|) == pair.0;
    Push(m, h, path, states, e, cached, i, s', l'.next[0]);
    PushedPairIsReachable(m, h, path', states + [s']);
    var reach := Reach(m, h, |h|);
    assert pair in reach - cached;
    assert reach - (cached + {pair}) == (reach - cached) - {pair};
  }

  lemma PushPosition<V>(h: History<V>, es: seq<Entry<V>>, path: seq<nat>, l: Links)
    requires Lays(h, es) && Within(h, path) && LinksAre(l, |es| + 1, Gone(h, path))
    ensures AtPosition(|es| + 1, Gone(h, path), l.next[0])
    ensures forall p :: p < l.next[0] ==> !Live(h, Done(path, |path|), p)
  {
    var gone := Gone(h, path);
    FirstIsLive(l, |es| + 1, gone);
    GapIsDead(h, es, path, 0, l.next[0]);
    forall p | p <= 0 ensures !Live(h, Done(path, |path|), p) {
      forall i | i in h ensures h[i].call != p && h[i].ret != p { assert HasEvents(h, es, i); }
    }
  }

  /** At a return with an empty stack every order has been refuted. */
  lemma StepFail<S, V>(m: Model<S, V>, h: History<V>, es: seq<Entry<V>>, states: seq<S>, e: nat, cached: set<Pair<S>>)
    requires Inv(m, h, es, [], states, e, cached) && 0 < e <= |es| && es[e - 1].kind.ReturnEntry?
    ensures !Linearizable(m, h)
  {
    CurrentEvent(h, es, [], e);
    AtReturn(m, h, Done([], 0), states[0], e, es[e - 1].id);
    assert h - Done([], 0) == h;
  }

  /** At a return with a non-empty stack the last operation is taken back. */
  lemma StepPop<S, V>(m: Model<S, V>, h: History<V>, es: seq<Entry<V>>, path: seq<nat>, states: seq<S>, e: nat,
                      cached: set<Pair<S>>, front: seq<nat>, i: nat, l': Links)
    requires Inv(m, h, es, path, states, e, cached) && path != [] && path[|path| - 1] == i
    requires front == path[..|path| - 1]
    requires 0 < e <= |es| && es[e - 1].kind.ReturnEntry?
    requires Within(h, front) && LinksAre(l', |es| + 1, Gone(h, front))
    ensures i in h && 0 < h[i].call < l'.next[h[i].call] <= |es|
    ensures Inv(m, h, es, front, states[..|path|], l'.next[h[i].call], cached)
  {
    CurrentEvent(h, es, path, e);
    AtReturn(m, h, Done(path, |path|), states[|path|], e, es[e - 1].id);
    assert Level(m, h, path, states, |path| - 1);
    DonePrefix(path, |path| - 1, i);
    NextPositionOf(h, es, front, l', i);
    Pop(m, h, path, states, e, cached, i, Done(path, |path| - 1), l'.next[h[i].call]);
  }

  /** Nothing but the sentinel is left: the stack is a linearization. */
  lemma StepSuccess<S, V>(m: Model<S, V>, h: History<V>, es: seq<Entry<V>>, path: seq<nat>, states: seq<S>, l: Links,
                          e: nat, cached: set<Pair<S>>)
    requires Inv(m, h, es, path, states, e, cached) && LinksAre(l, |es| + 1, Gone(h, path)) && l.next[0] == |es| + 1
    ensures Linearizable(m, h)
  {
    FirstIsLive(l, |es| + 1, Gone(h, path));
    forall i | i in h.Keys ensures i in Done(path, |path|) {
      assert HasEvents(h, es, i);
      LiveIffLinked(h, es, path, h[i].call);
    }
    Success(m, h, path, states);
  }

  // ---------------------------------------------------------------------------------
  // The search on the heap

  /** The untouched row of `n` positions, linked one after the other. */
  ghost function Straight(n: nat): (l: Links)
    requires 0 < n
    ensures WellShaped(l, n)
  {
    Links(seq(n, p requires 0 <= p < n => p + 1), seq(n, p requires 0 <= p < n => if p == 0 then 0 else p - 1))
  }

  lemma StraightIsWhole(n: nat)
    requires 0 < n
    ensures Without(Straight(n), n, [])
  {
    assert Elements([]) == {};
    forall p | 0 <= p < n ensures PointsInto(Straight(n), n, {}, p) {
    }
  }

  /** Puts the sentinel in front of a chain. */
  method AddHead<V(0)>(subhistory: Node?<V>, ghost nodes: seq<Node<V>>) returns (head: Node<V>)
    requires Chain(nodes) && subhistory == At(nodes, 0)
    modifies Some(subhistory)`prev
    ensures fresh(head) && Represents([head] + nodes, Straight(|nodes| + 1))
  {
    head := new Node.Head();
    PutFirst(head, subhistory, nodes);
    ChainIsStraight([head] + nodes);
  }

  lemma ChainIsStraight<V(0)>(all: seq<Node<V>>)
    requires Chain(all) && |all| > 0
    ensures Represents(all, Straight(|all|))
  {
  }

  lemma ReturnPosition<V>(es: seq<Entry<V>>, i: nat)
    requires Paired(es) && i in HistoryOf(es)
    ensures HistoryOf(es)[i].ret == ReturnAt(es, i) + 1
  {
  }

  lemma HoldsEventAt<V(0)>(nodes: seq<Node<V>>, es: seq<Entry<V>>, p: nat)
    requires Holds(nodes, es) && p < |es|
    ensures |nodes| == |es| && nodes[p].value == es[p].value && nodes[p].id == es[p].id
    ensures nodes[p].mate == if es[p].kind.ReturnEntry? then null else At(nodes, ReturnAt(es, es[p].id))
  {
    assert HoldsAt(nodes, es, 0, p);
  }

  lemma HeadHolds<V(0)>(head: Node<V>, nodes: seq<Node<V>>, h: History<V>, es: seq<Entry<V>>)
    requires Paired(es) && h == HistoryOf(es) && Lays(h, es) && Holds(nodes, es)
    ensures HoldsAll([head] + nodes, h, es)
  {
    hide HistoryOf, Paired, Holds, PairedAt;
    var all := [head] + nodes;
    HoldsLength(nodes, es);
    forall p | 0 < p <= |es| ensures HoldsEvent(all, h, es, p) {
      HoldsEventAt(nodes, es, p - 1);
      assert IsEvent(h, es, p) && HasEvents(h, es, es[p - 1].id);
      ReturnPosition(es, es[p - 1].id);
      assert all[p] == nodes[p - 1];
    }
  }

  lemma LinksOfPath<V>(l: Links, n: nat, h: History<V>, es: seq<Entry<V>>, path: seq<nat>)
    requires Within(h, path) && n == |es| + 1 && Without(l, n, OutOf(h, path))
    ensures LinksAre(l, |es| + 1, Gone(h, path)) && WellShaped(l, n)
  {
  }

  /** What the node at the current position says. */
  lemma CurrentNode<V(0)>(all: seq<Node<V>>, h: History<V>, es: seq<Entry<V>>, path: seq<nat>, e: nat)
    requires Lays(h, es) && Within(h, path) && HoldsAll(all, h, es) && 0 < e <= |es| && e !in Gone(h, path)
    ensures var i := es[e - 1].id;
            && i in h && all[e].id == i && 0 < h[i].call < h[i].ret < |all|
            && (all[e].mate != null <==> AtCall(h, es, path, e, i))
            && (all[e].mate != null ==>
                  && all[e].mate == all[h[i].ret] && all[e].value == h[i].input && all[h[i].ret].value == h[i].output
                  && e !in OutOf(h, path) && h[i].ret !in OutOf(h, path))
            && (all[e].mate == null <==> es[e - 1].kind.ReturnEntry?)
  {
    var i := es[e - 1].id;
    CurrentEvent(h, es, path, e);
    assert HoldsEvent(all, h, es, e) && HasEvents(h, es, i);
    assert HoldsEvent(all, h, es, h[i].ret);
  }

  lemma InvInitially<S, V>(m: Model<S, V>, h: History<V>, es: seq<Entry<V>>)
    requires Lays(h, es)
    ensures Inv(m, h, es, [], [m.init], 1, {})
    ensures OutOf(h, []) == [] && Done([], 0) == {}
  {
    LaysIsLaid(h, es);
    forall i | i in h ensures h[i].call >= 1 && h[i].ret >= 1 { assert HasEvents(h, es, i); }
  }

  /** The tables of the search: the bitset of linearized operations and the memo table. */
  ghost predicate TablesAre<S(!new)>(cache: MemoTable<S>, linearized: Bitset, done: set<nat>, cached: set<Pair<S>>,
                                     capacity: nat)
    reads cache, cache.repr, linearized
  {
    && cache.Valid() && cache.pairs == cached
    && linearized !in cache.repr && linearized.Length == cache.length && capacity <= 64 * linearized.Length
    && Members(linearized) == done
  }

  /** Looks up the pair that linearizing `id` would lead to. */
  method TryMemo<S(!new), V(!new)>(m: Model<S, V>, cache: MemoTable<S>, linearized: Bitset, id: nat, newState: S,
                                   ghost done: set<nat>, ghost cached: set<Pair<S>>, ghost capacity: nat)
    returns (hit: bool, newEntry: CacheEntry<S>)
    requires TablesAre(cache, linearized, done, cached, capacity) && id < capacity
    ensures hit <==> exists c :: c in cached && c.0 == done + {id} && m.equal(newState, c.1)
    ensures fresh(newEntry.linearized) && newEntry.linearized.Length == cache.length
    ensures newEntry.state == newState && Members(newEntry.linearized) == done + {id}
  {
    var newLinearized := Clone(linearized);
    newLinearized := Set(newLinearized, id);
    newEntry := CacheEntry(newLinearized, newState);
    hit := cache.Contains(m, newEntry);
  }

  /** Stores the pair and marks `id` as linearized. */
  method Remember<S(!new)>(cache: MemoTable<S>, linearized: Bitset, id: nat, newEntry: CacheEntry<S>,
                           ghost done: set<nat>, ghost cached: set<Pair<S>>, ghost capacity: nat)
    requires TablesAre(cache, linearized, done, cached, capacity) && id < capacity
    requires newEntry.linearized.Length == cache.length && newEntry.linearized != linearized
    requires newEntry.linearized !in cache.repr
    requires Members(newEntry.linearized) == done + {id}
    modifies cache, linearized
    ensures cache.repr == old(cache.repr) + {newEntry.linearized}
    ensures TablesAre(cache, linearized, done + {id}, cached + {(done + {id}, newEntry.state)}, capacity)
  {
    cache.Add(newEntry);
    var _ := Set(linearized, id);
  }

  /** Lifts the call at `e` and goes back to the front of the list. */
  method LiftCurrent<V(0)>(entry: Node<V>, head: Node<V>, ghost all: seq<Node<V>>, ghost l: Links, ghost h: History<V>,
                           ghost es: seq<Entry<V>>, ghost path: seq<nat>, ghost e: nat, ghost i: nat)
    returns (next: Node?<V>, ghost l': Links)
    requires Lays(h, es) && Within(h, path) && HoldsAll(all, h, es)
    requires Represents(all, l) && Without(l, |all|, OutOf(h, path))
    requires AtCall(h, es, path, e, i) && e !in Gone(h, path) && entry == all[e] && head == all[0]
    modifies all`next, all`prev
    ensures Within(h, path + [i]) && Represents(all, l') && Without(l', |all|, OutOf(h, path + [i]))
    ensures WellShaped(l', |all|) && next == At(all, l'.next[0])
  {
    CurrentNode(all, h, es, path, e);
    OutSnoc(h, path, i);
    l' := Lift(entry, all, l, OutOf(h, path), e, h[i].ret, OutOf(h, path + [i]));
    next := head.next;
  }

  /** Puts the last lifted call back and goes on behind it. */
  method UnliftLast<V(0)>(entry: Node<V>, ghost all: seq<Node<V>>, ghost l: Links, ghost h: History<V>,
                          ghost es: seq<Entry<V>>, ghost front: seq<nat>, ghost i: nat)
    returns (next: Node?<V>, ghost l': Links)
    requires Lays(h, es) && Within(h, front + [i]) && HoldsAll(all, h, es)
    requires Represents(all, l) && Without(l, |all|, OutOf(h, front + [i]))
    requires i in h && 0 <= h[i].call < |all| && entry == all[h[i].call]
    modifies all`next, all`prev
    ensures Within(h, front) && Represents(all, l') && Without(l', |all|, OutOf(h, front))
    ensures WellShaped(l', |all|) && next == At(all, l'.next[h[i].call])
  {
    WithinFront(h, front, i);
    OutSnoc(h, front, i);
    assert HasEvents(h, es, i) && HoldsEvent(all, h, es, h[i].call);
    l' := Unlift(entry, all, l, OutOf(h, front), h[i].call, h[i].ret, OutOf(h, front + [i]));
    next := entry.next;
  }

  lemma WithinFront<V>(h: History<V>, front: seq<nat>, i: nat)
    requires Within(h, front + [i])
    ensures Within(h, front) && i in h && h[i].call >= 0 && h[i].ret >= 0
  {
    assert forall k :: 0 <= k < |front| ==> (front + [i])[k] == front[k];
    assert (front + [i])[|front|] == i;
  }

  // ---------------------------------------------------------------------------------
  // One iteration at a time

  /** Where the search is: everything its invariant is about, as a value. */
  datatype View<!S, !V(0)> = View(m: Model<S, V>, h: History<V>, es: seq<Entry<V>>, all: seq<Node<V>>,
                                 path: seq<nat>, states: seq<S>, l: Links, e: nat, ghost cached: set<Pair<S>>)

  ghost predicate Good<S(!new), V(0, !new)>(g: View<S, V>) {
    && WellBehaved(g.m) && Lays(g.h, g.es) && Within(g.h, g.path)
    && |g.all| == |g.es| + 1 && |g.states| == |g.path| + 1
    && WellShaped(g.l, |g.all|) && 0 < g.e <= |g.all|
    && Inv(g.m, g.h, g.es, g.path, g.states, g.e, g.cached)
    && HoldsAll(g.all, g.h, g.es)
    && Without(g.l, |g.all|, OutOf(g.h, g.path))
  }

  ghost function Unexplored<S, V(0)>(g: View<S, V>): nat {
    |Reach(g.m, g.h, |g.h|) - g.cached|
  }

  ghost function Pushed<S, V(0)>(g: View<S, V>, i: nat, s': S, l': Links): View<S, V>
    requires |l'.next| > 0
  {
    g.(path := g.path + [i], states := g.states + [s'], l := l', e := l'.next[0],
       cached := g.cached + {(Done(g.path, |g.path|) + {i}, s')})
  }

  ghost function Popped<S, V(0)>(g: View<S, V>, front: seq<nat>, c: nat, l': Links): View<S, V>
    requires |g.path| <= |g.states| && c < |l'.next|
  {
    g.(path := front, states := g.states[..|g.path|], l := l', e := l'.next[c])
  }

  lemma GoodPushed<S(!new), V(0, !new)>(g: View<S, V>, i: nat, s': S, l': Links)
    requires Good(g) && AtCall(g.h, g.es, g.path, g.e, i)
    requires StepOf(g.m, g.states[|g.path|], g.h, i) == (true, s')
    requires Within(g.h, g.path + [i]) && Without(l', |g.all|, OutOf(g.h, g.path + [i]))
    requires forall c :: c in g.cached && c.0 == Done(g.path, |g.path|) + {i} ==> !g.m.equal(s', c.1)
    ensures Good(Pushed(g, i, s', l')) && Unexplored(Pushed(g, i, s', l')) < Unexplored(g)
  {
    hide Inv, Without, HoldsAll, WellBehaved, LinksAre, Within, Lays, Reach;
    LinksOfPath(l', |g.all|, g.h, g.es, g.path + [i]);
    StepPush(g.m, g.h, g.es, g.path, g.states, g.e, g.cached, i, s', l');
  }

  lemma GoodPopped<S(!new), V(0, !new)>(g: View<S, V>, front: seq<nat>, i: nat, l': Links)
    requires Good(g) && g.path != [] && g.path[|g.path| - 1] == i && front == g.path[..|g.path| - 1]
    requires 0 < g.e <= |g.es| && g.es[g.e - 1].kind.ReturnEntry?
    requires Within(g.h, front) && Without(l', |g.all|, OutOf(g.h, front))
    ensures i in g.h && 0 < g.h[i].call <= |g.es|
    ensures Good(Popped(g, front, g.h[i].call, l'))
  {
    hide Inv, Without, HoldsAll, WellBehaved, LinksAre, Within, Lays, Reach;
    LinksOfPath(l', |g.all|, g.h, g.es, front);
    StepPop(g.m, g.h, g.es, g.path, g.states, g.e, g.cached, front, i, l');
  }

  lemma GoodAdvanced<S(!new), V(0, !new)>(g: View<S, V>, i: nat)
    requires Good(g) && AtCall(g.h, g.es, g.path, g.e, i)
    requires DeadEnd(g.m, g.h, Done(g.path, |g.path|), g.states[|g.path|], i)
    ensures g.e < |g.l.next| && g.e < g.l.next[g.e] <= |g.es| && Good(g.(e := g.l.next[g.e]))
  {
    hide Inv, Without, HoldsAll, WellBehaved, LinksAre, Within, Lays, Reach;
    LinksOfPath(g.l, |g.all|, g.h, g.es, g.path);
    StepAdvance(g.m, g.h, g.es, g.path, g.states, g.l, g.e, g.cached, i);
  }

  lemma NotAtEnd(n: nat, gone: set<nat>, e: nat, first: nat)
    requires AtPosition(n, gone, e) && AtPosition(n, gone, first) && first != n
    ensures 0 < e < n && e !in gone
  {
    assert first !in gone;
  }

  /** As long as the list is not empty the search is at an event, and its node says which. */
  lemma GoodLook<S(!new), V(0, !new)>(g: View<S, V>)
    requires Good(g) && g.l.next[0] != |g.all|
    ensures 0 < g.e <= |g.es| && g.e !in Gone(g.h, g.path)
    ensures var i := g.es[g.e - 1].id;
            && i in g.h && g.all[g.e].id == i && 0 < g.h[i].call < g.h[i].ret < |g.all|
            && (g.all[g.e].mate != null <==> AtCall(g.h, g.es, g.path, g.e, i))
            && (g.all[g.e].mate != null ==>
                  && g.all[g.e].mate == g.all[g.h[i].ret] && g.all[g.e].value == g.h[i].input
                  && g.all[g.h[i].ret].value == g.h[i].output)
            && (g.all[g.e].mate == null <==> g.es[g.e - 1].kind.ReturnEntry?)
  {
    hide Searching, Without, HoldsAll, WellBehaved, Within, Lays, Reach, AtPosition, LinksAre, Gone, AtCall;
    LinksOfPath(g.l, |g.all|, g.h, g.es, g.path);
    FirstIsLive(g.l, |g.es| + 1, Gone(g.h, g.path));
    NotAtEnd(|g.es| + 1, Gone(g.h, g.path), g.e, g.l.next[0]);
    CurrentNode(g.all, g.h, g.es, g.path, g.e);
  }

  lemma GoodVerdict<S(!new), V(0, !new)>(g: View<S, V>)
    requires Good(g)
    ensures g.l.next[0] == |g.all| ==> Linearizable(g.m, g.h)
    ensures g.path == [] && 0 < g.e <= |g.es| && g.es[g.e - 1].kind.ReturnEntry? ==> !Linearizable(g.m, g.h)
  {
    hide Inv, Without, HoldsAll, WellBehaved, LinksAre, Within, Lays, Reach;
    LinksOfPath(g.l, |g.all|, g.h, g.es, g.path);
    if g.l.next[0] == |g.all| {
      StepSuccess(g.m, g.h, g.es, g.path, g.states, g.l, g.e, g.cached);
    }
    if g.path == [] && 0 < g.e <= |g.es| && g.es[g.e - 1].kind.ReturnEntry? {
      StepFail(g.m, g.h, g.es, g.states, g.e, g.cached);
    }
  }

  lemma GoodHit<S(!new), V(0, !new)>(g: View<S, V>, i: nat, s': S, c: Pair<S>)
    requires Good(g) && AtCall(g.h, g.es, g.path, g.e, i)
    requires StepOf(g.m, g.states[|g.path|], g.h, i) == (true, s')
    requires c in g.cached && c.0 == Done(g.path, |g.path|) + {i} && g.m.equal(s', c.1)
    ensures DeadEnd(g.m, g.h, Done(g.path, |g.path|), g.states[|g.path|], i)
  {
    hide Without, HoldsAll, WellBehaved, LinksAre, Within, Lays, Reach;
    CacheHit(g.m, g.h, g.path, g.states, g.e, g.cached, i, s', c);
  }

  lemma StackPush<S, V(0)>(calls: seq<CallsEntry<V, S>>, all: seq<Node<V>>, h: History<V>, path: seq<nat>,
                           states: seq<S>, i: nat, s': S)
    requires StackIs(calls, all, h, path, states) && i in h && 0 <= h[i].call < |all|
    ensures StackIs(calls + [CallsEntry(all[h[i].call], states[|path|])], all, h, path + [i], states + [s'])
  {
  }

  lemma StackPop<S, V(0)>(calls: seq<CallsEntry<V, S>>, all: seq<Node<V>>, h: History<V>, path: seq<nat>,
                          states: seq<S>, front: seq<nat>)
    requires StackIs(calls, all, h, path, states) && calls != [] && |front| == |path| - 1 && front == path[..|path| - 1]
    ensures path != [] && path[|path| - 1] in h && 0 <= h[path[|path| - 1]].call < |all|
    ensures calls[|calls| - 1].entry == all[h[path[|path| - 1]].call] && calls[|calls| - 1].state == states[|front|]
    ensures StackIs(calls[..|calls| - 1], all, h, front, states[..|path|])
  {
  }

  lemma GoodInitially<S(!new), V(0, !new)>(m: Model<S, V>, es: seq<Entry<V>>, head: Node<V>, nodes: seq<Node<V>>,
                                           g: View<S, V>)
    requires WellBehaved(m) && Paired(es) && Holds(nodes, es)
    requires g == View(m, HistoryOf(es), es, [head] + nodes, [], [m.init], Straight(|nodes| + 1), 1, {})
    ensures Good(g) && Done(g.path, |g.path|) == {}
    ensures StackIs([], g.all, g.h, g.path, g.states)
  {
    hide Inv, HoldsAll, WellBehaved, Paired, Holds, Lays, HistoryOf;
    HistoryLays(es);
    HeadHolds(head, nodes, g.h, es);
    StraightIsWhole(|nodes| + 1);
    InvInitially(m, g.h, es);
    HoldsLength(nodes, es);
  }

  lemma HoldsLength<V(0)>(nodes: seq<Node<V>>, es: seq<Entry<V>>)
    requires Holds(nodes, es)
    ensures |nodes| == |es|
  {}

  lemma TablesInitially<S(!new)>(cache: MemoTable<S>, linearized: Bitset, n: nat)
    requires cache.Valid() && cache.pairs == {} && cache.repr == {} && linearized.Length == cache.length
    requires n <= 64 * linearized.Length && Members(linearized) == {}
    ensures TablesAre(cache, linearized, {}, {}, n)
  {
  }

  lemma GoodShape<S(!new), V(0, !new)>(g: View<S, V>)
    requires Good(g)
    ensures Lays(g.h, g.es) && Within(g.h, g.path) && HoldsAll(g.all, g.h, g.es)
    ensures |g.all| == |g.es| + 1 && |g.states| == |g.path| + 1 && WellShaped(g.l, |g.all|) && 0 < g.e <= |g.all|
    ensures Without(g.l, |g.all|, OutOf(g.h, g.path))
  {
    hide Inv, Without, HoldsAll, WellBehaved, Within, Lays;
  }

  /** Takes the last linearized operation out of the bitset again. */
  method Forget<S(!new)>(cache: MemoTable<S>, linearized: Bitset, id: nat, ghost path: seq<nat>, ghost front: seq<nat>,
                         ghost last: nat, ghost cached: set<Pair<S>>, ghost capacity: nat)
    requires TablesAre(cache, linearized, Done(path, |path|), cached, capacity)
    requires path == front + [last] && last !in Done(path, |front|) && id == last < capacity
    modifies linearized
    ensures TablesAre(cache, linearized, Done(front, |front|), cached, capacity)
  {
    var _ := Clear(linearized, id);
    DonePrefix(front, |front|, last);
  }

  lemma GoodTop<S(!new), V(0, !new)>(g: View<S, V>, front: seq<nat>, last: nat)
    requires Good(g) && g.path == front + [last]
    ensures last in g.h && 0 < g.h[last].call <= |g.es| && last !in Done(g.path, |front|)
    ensures g.all[g.h[last].call].id == last && g.es[g.h[last].call - 1].id == last
  {
    hide Without, WellBehaved, Reach, AtPosition, Tried, NoReturnBefore, Justified, Within;
    assert g.path[|front|] == last;
    assert Level(g.m, g.h, g.path, g.states, |front|);
    assert HasEvents(g.h, g.es, last);
    assert IsEvent(g.h, g.es, g.h[last].call);
    assert HoldsEvent(g.all, g.h, g.es, g.h[last].call);
  }

  /** The search is at list position `g.e` in model state `g.states[|g.path|]`. */
  ghost predicate IsAt<S, V(0)>(g: View<S, V>, entry: Node?<V>, state: S) {
    entry == At(g.all, g.e) && |g.states| == |g.path| + 1 && state == g.states[|g.path|]
  }

  ghost predicate SameInput<S, V(0)>(g: View<S, V>, g': View<S, V>) {
    g'.m == g.m && g'.h == g.h && g'.es == g.es && g'.all == g.all
  }

  /** One backtracking iteration: the last operation is put back and the search goes on behind its call. */
  method Backtrack<S(!new), V(0, !new)>(calls: seq<CallsEntry<V, S>>, cache: MemoTable<S>, linearized: Bitset,
                                        ghost g: View<S, V>, ghost n: nat)
    returns (entry: Node?<V>, state: S, calls': seq<CallsEntry<V, S>>, ghost g': View<S, V>)
    requires Good(g) && StackIs(calls, g.all, g.h, g.path, g.states) && Represents(g.all, g.l)
    requires |calls| == |g.path| > 0
    requires TablesAre(cache, linearized, Done(g.path, |g.path|), g.cached, n)
    requires forall p :: 0 <= p < |g.es| ==> g.es[p].id < n
    requires 0 < g.e <= |g.es| && g.es[g.e - 1].kind.ReturnEntry?
    modifies g.all`next, g.all`prev, linearized
    ensures Good(g') && StackIs(calls', g'.all, g'.h, g'.path, g'.states) && Represents(g'.all, g'.l)
    ensures |calls'| == |g'.path| == |calls| - 1
    ensures TablesAre(cache, linearized, Done(g'.path, |g'.path|), g'.cached, n)
    ensures IsAt(g', entry, state) && SameInput(g, g') && Unexplored(g') == Unexplored(g)
  {
    hide Good, StackIs, TablesAre, Represents, Without, Within, Lays, HoldsAll, Done, OutOf;
    GoodShape(g);
    ghost var front, last := g.path[..|g.path| - 1], g.path[|g.path| - 1];
    assert g.path == front + [last];
    GoodTop(g, front, last);
    StackPop(calls, g.all, g.h, g.path, g.states, front);
    var callsTop := calls[|calls| - 1];
    entry := callsTop.entry;
    state := callsTop.state;
    Forget(cache, linearized, entry.id, g.path, front, last, g.cached, n);
    calls' := calls[..|calls| - 1];
    ghost var l;
    entry, l := UnliftLast(entry, g.all, g.l, g.h, g.es, front, last);
    GoodPopped(g, front, last, l);
    g' := Popped(g, front, g.h[last].call, l);
  }

  /** The current call goes on the stack, with the state before it. */
  lemma CurrentPushed<S, V(0)>(calls: seq<CallsEntry<V, S>>, entry: Node<V>, state: S, g: View<S, V>, i: nat, s': S)
    requires StackIs(calls, g.all, g.h, g.path, g.states) && IsAt(g, entry, state)
    requires AtCall(g.h, g.es, g.path, g.e, i) && g.e < |g.all|
    ensures StackIs(calls + [CallsEntry(entry, state)], g.all, g.h, g.path + [i], g.states + [s'])
  {
    hide StackIs, Done;
    StackPush(calls, g.all, g.h, g.path, g.states, i, s');
  }

  /** One iteration that linearizes the current call: it is memoised, lifted, and the search restarts at the front. */
  method TakeNext<S(!new), V(0, !new)>(entry: Node<V>, head: Node<V>, state: S, newState: S, newEntry: CacheEntry<S>,
                                       calls: seq<CallsEntry<V, S>>, cache: MemoTable<S>, linearized: Bitset,
                                       ghost g: View<S, V>, ghost i: nat, ghost n: nat)
    returns (entry': Node?<V>, calls': seq<CallsEntry<V, S>>, ghost g': View<S, V>)
    requires Good(g) && StackIs(calls, g.all, g.h, g.path, g.states) && Represents(g.all, g.l)
    requires TablesAre(cache, linearized, Done(g.path, |g.path|), g.cached, n)
    requires IsAt(g, entry, state) && |g.all| > 0 && head == g.all[0] && entry.id == i < n
    requires AtCall(g.h, g.es, g.path, g.e, i) && g.e !in Gone(g.h, g.path) && g.e < |g.all|
    requires StepOf(g.m, g.states[|g.path|], g.h, i) == (true, newState)
    requires forall c :: c in g.cached && c.0 == Done(g.path, |g.path|) + {i} ==> !g.m.equal(newState, c.1)
    requires newEntry.linearized.Length == cache.length && newEntry.linearized != linearized
    requires newEntry.linearized !in cache.repr
    requires newEntry.state == newState && Members(newEntry.linearized) == Done(g.path, |g.path|) + {i}
    modifies g.all`next, g.all`prev, linearized, cache
    ensures Good(g') && StackIs(calls', g'.all, g'.h, g'.path, g'.states) && Represents(g'.all, g'.l)
    ensures |calls'| == |calls| + 1
    ensures TablesAre(cache, linearized, Done(g'.path, |g'.path|), g'.cached, n)
    ensures IsAt(g', entry', newState) && SameInput(g, g') && |g'.path| == |g.path| + 1
    ensures Unexplored(g') < Unexplored(g)
  {
    hide Good, StackIs, TablesAre, Represents, Without, Within, Lays, HoldsAll, Done, OutOf, Members, Unexplored;
    hide StepOf, Gone, AtCall, WellBehaved;
    GoodShape(g);
    DonePrefix(g.path, |g.path|, i);
    calls' := calls + [CallsEntry(entry, state)];
    CurrentPushed(calls, entry, state, g, i, newState);
    ghost var l;
    entry', l := RememberAndLift(entry, head, newEntry, cache, linearized, g, i, n);
    GoodPushed(g, i, newState, l);
    g' := Pushed(g, i, newState, l);
  }

  /** What that iteration changes on the heap: memo table, bitset and list. */
  method RememberAndLift<S(!new), V(0, !new)>(entry: Node<V>, head: Node<V>, newEntry: CacheEntry<S>,
                                              cache: MemoTable<S>, linearized: Bitset,
                                              ghost g: View<S, V>, ghost i: nat, ghost n: nat)
    returns (next: Node?<V>, ghost l: Links)
    requires Good(g) && Represents(g.all, g.l)
    requires TablesAre(cache, linearized, Done(g.path, |g.path|), g.cached, n)
    requires 0 < |g.all| && head == g.all[0] && entry.id == i < n
    requires AtCall(g.h, g.es, g.path, g.e, i) && g.e < |g.all| && entry == g.all[g.e]
    requires Within(g.h, g.path) && g.e !in Gone(g.h, g.path)
    requires newEntry.linearized.Length == cache.length && newEntry.linearized != linearized
    requires newEntry.linearized !in cache.repr && Members(newEntry.linearized) == Done(g.path, |g.path|) + {i}
    modifies g.all`next, g.all`prev, linearized, cache
    ensures Within(g.h, g.path + [i]) && Represents(g.all, l) && Without(l, |g.all|, OutOf(g.h, g.path + [i]))
    ensures WellShaped(l, |g.all|) && next == At(g.all, l.next[0])
    ensures TablesAre(cache, linearized, Done(g.path, |g.path|) + {i},
                      g.cached + {(Done(g.path, |g.path|) + {i}, newEntry.state)}, n)
  {
    hide Good, TablesAre, Represents, Without, Within, Lays, HoldsAll, Done, OutOf, Members, Gone, AtCall;
    GoodShape(g);
    Remember(cache, linearized, entry.id, newEntry, Done(g.path, |g.path|), g.cached, n);
    next, l := LiftCurrent(entry, head, g.all, g.l, g.h, g.es, g.path, g.e, i);
  }

  lemma Neighbours<S, V(0)>(g: View<S, V>)
    requires Represents(g.all, g.l) && |g.all| > 0 && g.e <= |g.all|
    ensures g.all[0].next == At(g.all, g.l.next[0])
    ensures g.e < |g.all| ==> g.all[g.e].next == At(g.all, g.l.next[g.e])
  {
  }

  lemma SameUnexplored<S, V(0)>(g: View<S, V>, e: nat)
    ensures Unexplored(g.(e := e)) == Unexplored(g)
  {
  }

  /** One iteration at a call: it is either linearized next or found to be a dead end and passed over. */
  method TryCall<S(!new), V(0, !new)>(m: Model<S, V>, entry: Node<V>, head: Node<V>, state: S,
                                      calls: seq<CallsEntry<V, S>>, cache: MemoTable<S>, linearized: Bitset,
                                      ghost g: View<S, V>, ghost n: nat)
    returns (entry': Node?<V>, state': S, calls': seq<CallsEntry<V, S>>, ghost g': View<S, V>)
    requires Good(g) && StackIs(calls, g.all, g.h, g.path, g.states) && Represents(g.all, g.l) && |calls| == |g.path|
    requires TablesAre(cache, linearized, Done(g.path, |g.path|), g.cached, n)
    requires forall p :: 0 <= p < |g.es| ==> g.es[p].id < n
    requires IsAt(g, entry, state) && |g.all| > 0 && head == g.all[0] && m == g.m && head.next != null
    requires entry.mate != null
    modifies g.all`next, g.all`prev, linearized, cache
    ensures Good(g') && StackIs(calls', g'.all, g'.h, g'.path, g'.states) && Represents(g'.all, g'.l)
    ensures |calls'| == |g'.path|
    ensures TablesAre(cache, linearized, Done(g'.path, |g'.path|), g'.cached, n)
    ensures IsAt(g', entry', state') && SameInput(g, g')
    ensures || Unexplored(g') < Unexplored(g)
            || (Unexplored(g') == Unexplored(g) && calls' == calls && g.e < g'.e <= |g.all|)
  {
    hide Good, StackIs, TablesAre, Done, Members, Gone, Lays, Within, HoldsAll, Without, OutOf, Represents, Unexplored;
    GoodShape(g);
    Neighbours(g);
    GoodLook(g);
    ghost var i := g.es[g.e - 1].id;
    var matching := entry.mate;
    var (stepOk, newState) := m.step(state, entry.value, matching.value);
    if stepOk {
      var hit, newCacheEntry := TryMemo(m, cache, linearized, entry.id, newState, Done(g.path, |g.path|), g.cached, n);
      if !hit {
        entry', calls', g' := TakeNext(entry, head, state, newState, newCacheEntry, calls, cache, linearized, g, i, n);
        state' := newState;
        return;
      }
      ghost var c :| c in g.cached && c.0 == Done(g.path, |g.path|) + {i} && m.equal(newState, c.1);
      GoodHit(g, i, newState, c);
    }
    GoodAdvanced(g, i);
    SameUnexplored(g, g.l.next[g.e]);
    entry', state', calls', g' := entry.next, state, calls, g.(e := g.l.next[g.e]);
  }

  /** The loop of `checkSingle`; `kill(t)` is what the t-th load of the shared kill flag returns. */
  method SearchLoop<S(!new), V(0, !new)>(m: Model<S, V>, kill: nat -> bool, headEntry: Node<V>, first: Node?<V>,
                                         cache: MemoTable<S>, linearized: Bitset, ghost start: View<S, V>, ghost n: nat)
    returns (ok: bool, ghost killed: bool)
    requires Good(start) && StackIs([], start.all, start.h, start.path, start.states) && Represents(start.all, start.l)
    requires TablesAre(cache, linearized, Done(start.path, |start.path|), start.cached, n)
    requires forall p :: 0 <= p < |start.es| ==> start.es[p].id < n
    requires IsAt(start, first, m.init) && m == start.m && start.path == []
    requires |start.all| > 0 && headEntry == start.all[0]
    modifies start.all`next, start.all`prev, linearized, cache
    ensures ok ==> Linearizable(m, start.h)
    ensures !ok && !killed ==> !Linearizable(m, start.h)
    ensures killed ==> exists t: nat :: kill(t)
  {
    hide Good, StackIs, TablesAre, Unexplored, Done, Members, Gone, Linearizable;
    hide Lays, Within, HoldsAll, Without, OutOf, AtCall, Represents;
    killed := false;
    var calls: seq<CallsEntry<V, S>> := [];
    var state := m.init;
    var entry := first;
    var t: nat := 0;
    ghost var g := start;
    while headEntry.next != null
      invariant SameInput(start, g)
      invariant Good(g) && StackIs(calls, g.all, g.h, g.path, g.states) && |calls| == |g.path|
      invariant Represents(g.all, g.l)
      invariant TablesAre(cache, linearized, Done(g.path, |g.path|), g.cached, n)
      invariant IsAt(g, entry, state)
      decreases Unexplored(g), |calls|, |g.all| - g.e
    {
      if kill(t) {
        killed := true;
        return false, killed;
      }
      t := t + 1;
      GoodShape(g);
      Neighbours(g);
      GoodLook(g);
      if entry.mate != null {
        entry, state, calls, g := TryCall(m, entry, headEntry, state, calls, cache, linearized, g, n);
      } else {
        if |calls| == 0 {
          GoodVerdict(g);
          return false, killed;
        }
        entry, state, calls, g := Backtrack(calls, cache, linearized, g, n);
      }
    }
    GoodShape(g);
    Neighbours(g);
    GoodVerdict(g);
    ok := true;
  }

  /** `checkSingle` decides linearizability, whatever the kill flag does in the meantime. */
  method CheckSingle<S(!new), V(0, !new)>(m: Model<S, V>, subhistory: Node?<V>, kill: nat -> bool,
                                          ghost es: seq<Entry<V>>, ghost nodes: seq<Node<V>>)
    returns (ok: bool, ghost killed: bool)
    requires WellBehaved(m) && Paired(es) && forall p :: 0 <= p < |es| ==> es[p].id < |es| / 2
    requires Chain(nodes) && Holds(nodes, es) && subhistory == At(nodes, 0)
    modifies nodes`next, nodes`prev
    ensures ok ==> Linearizable(m, HistoryOf(es))
    ensures !ok && !killed ==> !Linearizable(m, HistoryOf(es))
    ensures killed ==> exists t: nat :: kill(t)
  {
    hide Good, StackIs, TablesAre, HistoryOf, Holds, Paired, WellBehaved;
    hide Straight, Done, Members, Linearizable, Represents;
    HoldsLength(nodes, es);
    var size := Length(subhistory, nodes);
    var n := size / 2;
    var linearized := NewBitset(n);
    var cache := new MemoTable<S>(linearized.Length);
    var headEntry := AddHead(subhistory, nodes);
    ghost var g := View(m, HistoryOf(es), es, [headEntry] + nodes, [], [m.init], Straight(|nodes| + 1), 1, {});
    GoodInitially(m, es, headEntry, nodes, g);
    TablesInitially(cache, linearized, n);
    ok, killed := SearchLoop(m, kill, headEntry, subhistory, cache, linearized, g, n);
  }
}
