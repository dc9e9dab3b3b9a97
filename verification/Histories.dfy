/**
  Turning recorded operations or events into the event sequence that is searched: `makeEntries`,
  `renumber` and `convertEntries`.  Each step is proved to leave linearizability unchanged.
 */
module Histories {
  import opened Linearizability
  import opened Entries

  // ---------------------------------------------------------------------------------
  // Operations with timestamps

  /** The history that a list of operations denotes: an operation is named by its index. */
  function Indexed<V>(ops: seq<Operation<V>>): (h: History<V>)
    ensures forall i :: i in h <==> 0 <= i < |ops|
    ensures forall i :: 0 <= i < |ops| ==> h[i] == ops[i]
  {
    map i | 0 <= i < |ops| :: ops[i]
  }

  /** Every operation returns after its call, and no two timestamps are the same. */
  ghost predicate Timely<V>(ops: seq<Operation<V>>) {
    && (forall i :: 0 <= i < |ops| ==> ops[i].call < ops[i].ret)
    && (forall i, j :: 0 <= i < |ops| && 0 <= j < |ops| ==> ops[i].call != ops[j].ret)
    && (forall i, j :: 0 <= i < j < |ops| ==> ops[i].call != ops[j].call && ops[i].ret != ops[j].ret)
  }

  function CallOf<V>(ops: seq<Operation<V>>, i: nat): Entry<V>
    requires i < |ops|
  {
    Entry(CallEntry, ops[i].input, i, ops[i].call)
  }

  function ReturnOf<V>(ops: seq<Operation<V>>, i: nat): Entry<V>
    requires i < |ops|
  {
    Entry(ReturnEntry, ops[i].output, i, ops[i].ret)
  }

  ghost predicate ByTime<V>(es: seq<Entry<V>>) {
    forall p, q :: 0 <= p < q < |es| ==> es[p].time < es[q].time
  }

  /** In the order of their times; entries with the same time in any order. */
  ghost predicate InOrder<V>(es: seq<Entry<V>>) {
    forall p, q :: 0 <= p < q < |es| ==> es[p].time <= es[q].time
  }

  ghost predicate NoTies<V>(es: seq<Entry<V>>) {
    forall p, q :: 0 <= p < q < |es| ==> es[p].time != es[q].time
  }

  /** Inserts into a sequence sorted by time. */
  method Insert<V>(es: seq<Entry<V>>, e: Entry<V>) returns (r: seq<Entry<V>>)
    requires InOrder(es)
    ensures InOrder(r) && |r| == |es| + 1
    ensures forall x :: x in r <==> x == e || x in es
    ensures ByTime(es) && (forall p :: 0 <= p < |es| ==> es[p].time != e.time) ==> ByTime(r)
  {
    hide ByTime;
    var k := 0;
    while k < |es| && es[k].time <= e.time
      invariant 0 <= k <= |es|
      invariant forall p :: 0 <= p < k ==> es[p].time <= e.time
    {
      k := k + 1;
    }
    r := es[..k] + [e] + es[k..];
    InsertedElements(es, k, e);
    InsertedInOrder(es, k, e);
  }

  lemma InsertedElements<V>(es: seq<Entry<V>>, k: nat, e: Entry<V>)
    requires k <= |es|
    ensures forall x :: x in es[..k] + [e] + es[k..] <==> x == e || x in es
  {
    assert es == es[..k] + es[k..];
  }

  lemma InsertedInOrder<V>(es: seq<Entry<V>>, k: nat, e: Entry<V>)
    requires k <= |es| && InOrder(es)
    requires (forall p :: 0 <= p < k ==> es[p].time <= e.time) && (k < |es| ==> e.time < es[k].time)
    ensures InOrder(es[..k] + [e] + es[k..])
    ensures ByTime(es) && (forall p :: 0 <= p < |es| ==> es[p].time != e.time) ==> ByTime(es[..k] + [e] + es[k..])
  {
    var r := es[..k] + [e] + es[k..];
    forall p | 0 <= p < |r| ensures r[p] == if p < k then es[p] else if p == k then e else es[p - 1] { }
  }

  /** Sorting by time; without ties there is only one result. */
  method SortByTime<V>(es: seq<Entry<V>>) returns (r: seq<Entry<V>>)
    ensures InOrder(r) && |r| == |es|
    ensures forall x :: x in r <==> x in es
    ensures NoTies(es) ==> ByTime(r)
  {
    r := [];
    for k := 0 to |es|
      invariant InOrder(r) && |r| == k
      invariant forall x :: x in r <==> x in es[..k]
      invariant NoTies(es) ==> ByTime(r)
    {
      if NoTies(es) {
        forall p | 0 <= p < |r| ensures r[p].time != es[k].time {
          assert r[p] in r && r[p] in es[..k];
        }
      }
      r := Insert(r, es[k]);
      assert es[..k + 1] == es[..k] + [es[k]];
    }
    assert es[..|es|] == es;
  }

  ghost predicate IsEventOf<V>(e: Entry<V>, ops: seq<Operation<V>>) {
    e.id < |ops| && e == if e.kind.CallEntry? then CallOf(ops, e.id) else ReturnOf(ops, e.id)
  }

  /** The events of `ops`: as many as there are calls and returns, and all of them. */
  ghost predicate AllEventsOf<V>(es: seq<Entry<V>>, ops: seq<Operation<V>>) {
    && |es| == 2 * |ops|
    && (forall p :: 0 <= p < |es| ==> IsEventOf(es[p], ops))
    && (forall i :: 0 <= i < |ops| ==> CallOf(ops, i) in es && ReturnOf(ops, i) in es)
  }

  /** The same in the order of their times, without ties. */
  ghost predicate EventsOf<V>(es: seq<Entry<V>>, ops: seq<Operation<V>>) {
    ByTime(es) && AllEventsOf(es, ops)
  }

  method MakeEntries<V>(history: seq<Operation<V>>) returns (entries: seq<Entry<V>>)
    ensures InOrder(entries) && AllEventsOf(entries, history)
    ensures Timely(history) ==> EventsOf(entries, history)
  {
    entries := [];
    var id := 0;
    for k := 0 to |history|
      invariant id == k && |entries| == 2 * k
      invariant forall i :: 0 <= i < k ==>
                  entries[2 * i] == CallOf(history, i) && entries[2 * i + 1] == ReturnOf(history, i)
    {
      var elem := history[k];
      entries := entries + [Entry(CallEntry, elem.input, id, elem.call)];
      entries := entries + [Entry(ReturnEntry, elem.output, id, elem.ret)];
      id := id + 1;
    }
    ghost var unsorted := entries;
    entries := SortByTime(entries);
    SortedEvents(unsorted, entries, history);
  }

  lemma UnsortedEvent<V>(es: seq<Entry<V>>, ops: seq<Operation<V>>, p: nat)
    requires |es| == 2 * |ops| && p < |es|
    requires forall i :: 0 <= i < |ops| ==> es[2 * i] == CallOf(ops, i) && es[2 * i + 1] == ReturnOf(ops, i)
    ensures es[p] == if p % 2 == 0 then CallOf(ops, p / 2) else ReturnOf(ops, p / 2)
  {
    assert p == 2 * (p / 2) || p == 2 * (p / 2) + 1;
  }

  lemma SortedEvents<V>(unsorted: seq<Entry<V>>, es: seq<Entry<V>>, ops: seq<Operation<V>>)
    requires |es| == |unsorted| == 2 * |ops|
    requires forall i :: 0 <= i < |ops| ==> unsorted[2 * i] == CallOf(ops, i) && unsorted[2 * i + 1] == ReturnOf(ops, i)
    requires forall x :: x in es <==> x in unsorted
    ensures AllEventsOf(es, ops) && (Timely(ops) ==> NoTies(unsorted))
  {
    forall i | 0 <= i < |ops| ensures CallOf(ops, i) in es && ReturnOf(ops, i) in es {
      assert unsorted[2 * i] in unsorted && unsorted[2 * i + 1] in unsorted;
    }
    forall p | 0 <= p < |es| ensures IsEventOf(es[p], ops) {
      assert es[p] in unsorted;
      var q :| 0 <= q < |unsorted| && unsorted[q] == es[p];
      UnsortedEvent(unsorted, ops, q);
    }
    if Timely(ops) {
      forall p, q | 0 <= p < q < |unsorted| ensures unsorted[p].time != unsorted[q].time {
        UnsortedEvent(unsorted, ops, p);
        UnsortedEvent(unsorted, ops, q);
      }
    }
  }

  /** The event of this kind and id stands at one position only. */
  lemma EventPosition<V>(es: seq<Entry<V>>, ops: seq<Operation<V>>, p: nat)
    requires EventsOf(es, ops) && p < |es|
    ensures IndexOf(es, es[p].kind, es[p].id) == p
  {
    var q := IndexOf(es, es[p].kind, es[p].id);
    assert q <= p;
    assert IsEventOf(es[p], ops) && IsEventOf(es[q], ops);
  }

  lemma CallPosition<V>(es: seq<Entry<V>>, ops: seq<Operation<V>>, i: nat)
    requires EventsOf(es, ops) && i < |ops|
    ensures CallAt(es, i) < |es| && es[CallAt(es, i)] == CallOf(ops, i)
  {
    var p :| 0 <= p < |es| && es[p] == CallOf(ops, i);
    EventPosition(es, ops, p);
  }

  lemma ReturnPosition<V>(es: seq<Entry<V>>, ops: seq<Operation<V>>, i: nat)
    requires EventsOf(es, ops) && i < |ops|
    ensures ReturnAt(es, i) < |es| && es[ReturnAt(es, i)] == ReturnOf(ops, i)
  {
    var p :| 0 <= p < |es| && es[p] == ReturnOf(ops, i);
    EventPosition(es, ops, p);
  }

  lemma OperationPositions<V>(es: seq<Entry<V>>, ops: seq<Operation<V>>, i: nat)
    requires EventsOf(es, ops) && Timely(ops) && i < |ops|
    ensures CallAt(es, i) < ReturnAt(es, i) < |es|
    ensures es[CallAt(es, i)] == CallOf(ops, i) && es[ReturnAt(es, i)] == ReturnOf(ops, i)
  {
    hide IndexOf, AllEventsOf;
    CallPosition(es, ops, i);
    ReturnPosition(es, ops, i);
  }

  /** The sorted events are a complete history with dense ids, linearizable exactly when the operations are. */
  lemma EventsKeepLinearizability<S, V>(m: Model<S, V>, es: seq<Entry<V>>, ops: seq<Operation<V>>)
    requires EventsOf(es, ops) && Timely(ops)
    ensures Paired(es) && forall p :: 0 <= p < |es| ==> es[p].id < |es| / 2
    ensures Linearizable(m, HistoryOf(es)) <==> Linearizable(m, Indexed(ops))
  {
    forall p | 0 <= p < |es| ensures PairedAt(es, p) && es[p].id < |es| / 2 {
      assert IsEventOf(es[p], ops);
      EventPosition(es, ops, p);
      OperationPositions(es, ops, es[p].id);
    }
    EventsKeepOrder(es, ops);
    ClockDoesNotMatter(m, m.init, Indexed(ops), HistoryOf(es));
  }

  lemma EventsKeepOrder<V>(es: seq<Entry<V>>, ops: seq<Operation<V>>)
    requires EventsOf(es, ops) && Timely(ops) && Paired(es)
    ensures SameUpToClock(Indexed(ops), HistoryOf(es))
  {
    hide EventsOf, Timely, Paired, HistoryOf;
    var h, g := Indexed(ops), HistoryOf(es);
    forall i ensures i in h.Keys <==> i in g.Keys {
      if i in g.Keys {
        KnownId(es, ops, i);
      }
      if i in h.Keys { EventOperation(es, ops, i); }
    }
    assert h.Keys == g.Keys;
    forall i, j | i in h && j in h
      ensures h[i].input == g[i].input && h[i].output == g[i].output && Precedes(h[i], h[j]) == Precedes(g[i], g[j])
    {
      EventOperation(es, ops, i);
      EventOperation(es, ops, j);
      TimeOrder(es, ops, g[i].ret - 1, g[j].call - 1);
    }
  }

  lemma KnownId<V>(es: seq<Entry<V>>, ops: seq<Operation<V>>, i: nat)
    requires EventsOf(es, ops) && Paired(es) && i in HistoryOf(es).Keys
    ensures i < |ops|
  {
    var p :| 0 <= p < |es| && es[p].id == i;
    assert IsEventOf(es[p], ops);
  }

  lemma TimeOrder<V>(es: seq<Entry<V>>, ops: seq<Operation<V>>, p: nat, q: nat)
    requires EventsOf(es, ops) && p < |es| && q < |es|
    ensures p < q <==> es[p].time < es[q].time
  {
  }

  lemma EventOperation<V>(es: seq<Entry<V>>, ops: seq<Operation<V>>, i: nat)
    requires EventsOf(es, ops) && Timely(ops) && Paired(es) && i < |ops|
    ensures i in HistoryOf(es)
    ensures var o := HistoryOf(es)[i];
            && 0 < o.call < o.ret <= |es| && o.input == ops[i].input && o.output == ops[i].output
            && es[o.call - 1].time == ops[i].call && es[o.ret - 1].time == ops[i].ret
  {
    hide HistoryOf, EventsOf, Timely, Paired, IndexOf;
    OperationPositions(es, ops, i);
    assert es[CallAt(es, i)].id in Ids(es);
    HistoryAt(es, i);
  }

  // ---------------------------------------------------------------------------------
  // Events with arbitrary ids

  datatype Event<+V> = Event(kind: Kind, value: V, id: nat)

  function Converted<V>(events: seq<Event<V>>): (es: seq<Entry<V>>)
    ensures |es| == |events|
    ensures forall p :: 0 <= p < |es| ==> es[p] == Entry(events[p].kind, events[p].value, events[p].id, -1)
  {
    seq(|events|, p requires 0 <= p < |events| => Entry(events[p].kind, events[p].value, events[p].id, -1))
  }

  method ConvertEntries<V>(events: seq<Event<V>>) returns (entries: seq<Entry<V>>)
    ensures entries == Converted(events)
  {
    entries := [];
    for k := 0 to |events|
      invariant |entries| == k && forall p :: 0 <= p < k ==> entries[p] == Converted(events)[p]
    {
      entries := entries + [Entry(events[k].kind, events[k].value, events[k].id, -1)];
    }
  }

  /** The same events with ids numbered from 0 in the order of their first occurrence. */
  ghost predicate Renumbered<V>(events: seq<Event<V>>, e: seq<Event<V>>) {
    && |e| == |events|
    && (forall p :: 0 <= p < |e| ==> e[p].kind == events[p].kind && e[p].value == events[p].value)
    && (forall p, q :: 0 <= p < |e| && 0 <= q < |e| ==> (e[p].id == e[q].id <==> events[p].id == events[q].id))
    && (forall p, v :: 0 <= p < |e| && 0 <= v < e[p].id ==> Used(e, p, v))
  }

  ghost predicate Used<V>(e: seq<Event<V>>, k: nat, v: nat)
    requires k <= |e|
  {
    exists q :: 0 <= q < k && e[q].id == v
  }

  lemma StillUsed<V>(e: seq<Event<V>>, x: Event<V>)
    ensures forall k, v :: 0 <= k <= |e| && 0 <= v ==> Used(e, k, v) == Used(e + [x], k, v)
    ensures forall v :: 0 <= v ==> Used(e + [x], |e| + 1, v) == (Used(e, |e|, v) || v == x.id)
  {
    forall k, v | 0 <= k <= |e| && 0 <= v ensures Used(e, k, v) == Used(e + [x], k, v) {
      if q :| 0 <= q < k && e[q].id == v { assert (e + [x])[q].id == v; }
    }
    assert (e + [x])[|e|] == x;
    forall v | 0 <= v ensures Used(e + [x], |e| + 1, v) == (Used(e, |e|, v) || v == x.id) {
      if q :| 0 <= q < |e| && e[q].id == v { assert (e + [x])[q].id == v; }
    }
  }

  method Renumber<V>(events: seq<Event<V>>) returns (e: seq<Event<V>>)
    ensures Renumbered(events, e)
  {
    e := [];
    var m: map<nat, nat> := map[];
    var id := 0;
    for k := 0 to |events|
      invariant Renumbered(events[..k], e)
      invariant forall p :: 0 <= p < k ==> events[p].id in m && m[events[p].id] == e[p].id < id
      invariant forall i :: i in m ==> exists p :: 0 <= p < k && events[p].id == i
      invariant forall v :: 0 <= v < id ==> Used(e, k, v)
    {
      var v := events[k];
      assert events[..k + 1] == events[..k] + [v];
      ghost var before := e;
      StillUsed(e, Event(v.kind, v.value, if v.id in m then m[v.id] else id));
      if v.id in m {
        e := e + [Event(v.kind, v.value, m[v.id])];
      } else {
        e := e + [Event(v.kind, v.value, id)];
        m := m[v.id := id];
        id := id + 1;
      }
      assert forall p :: 0 <= p < k ==> e[p] == before[p];
      ghost var n := k + 1;
      forall u | 0 <= u < id ensures Used(e, n, u) {
        assert Used(e, |before| + 1, u) == (Used(before, |before|, u) || u == e[k].id);
      }
    }
    assert events[..|events|] == events;
  }

  // Each id of a complete history accounts for two events

  lemma {:induction false} ImageSize(a: set<nat>, f: map<nat, nat>)
    requires a <= f.Keys && forall x, y :: x in a && y in a && f[x] == f[y] ==> x == y
    ensures |set x | x in a :: f[x]| == |a|
  {
    if a != {} {
      var x :| x in a;
      ImageSize(a - {x}, f);
      assert (set y | y in a :: f[y]) == (set y | y in a - {x} :: f[y]) + {f[x]};
    }
  }

  ghost function PositionsOf<V>(es: seq<Entry<V>>, kind: Kind): set<nat> {
    set p | 0 <= p < |es| && es[p].kind == kind
  }

  lemma KindSize<V>(es: seq<Entry<V>>, kind: Kind)
    requires Paired(es)
    ensures |PositionsOf(es, kind)| == |Ids(es)|
  {
    var at := map i | i in Ids(es) :: IndexOf(es, kind, i);
    forall i | i in Ids(es) ensures at[i] < |es| && es[at[i]].id == i && es[at[i]].kind == kind {
      var p :| 0 <= p < |es| && es[p].id == i;
      assert PairedAt(es, p);
    }
    ImageSize(Ids(es), at);
    forall p ensures p in PositionsOf(es, kind) <==> p in set i | i in Ids(es) :: at[i] {
      if p in PositionsOf(es, kind) {
        assert PairedAt(es, p);
        assert at[es[p].id] == p;
      }
    }
    assert PositionsOf(es, kind) == set i | i in Ids(es) :: at[i];
  }

  function Below(n: nat): (s: set<nat>)
    ensures |s| == n && forall p :: p in s <==> 0 <= p < n
  {
    if n == 0 then {} else Below(n - 1) + {n - 1}
  }

  lemma TwoEventsEach<V>(es: seq<Entry<V>>)
    requires Paired(es)
    ensures |es| == 2 * |Ids(es)|
  {
    KindSize(es, CallEntry);
    KindSize(es, ReturnEntry);
    assert PositionsOf(es, CallEntry) + PositionsOf(es, ReturnEntry) == Below(|es|);
  }

  /** Renumbering keeps a history complete, makes its ids dense, and does not change linearizability. */
  lemma RenumberingKeepsLinearizability<S, V>(m: Model<S, V>, events: seq<Event<V>>, e: seq<Event<V>>)
    requires Renumbered(events, e) && Paired(Converted(events))
    ensures Paired(Converted(e)) && forall p :: 0 <= p < |e| ==> e[p].id < |e| / 2
    ensures Linearizable(m, HistoryOf(Converted(e))) <==> Linearizable(m, HistoryOf(Converted(events)))
  {
    var es, es' := Converted(events), Converted(e);
    forall p | 0 <= p < |e| ensures PairedAt(es', p) {
      RenumberedAt(events, e, p);
    }
    forall p | 0 <= p < |e| ensures e[p].id < |e| / 2 {
      DenseIds(events, e, p);
    }
    forall i | i in Ids(es) ensures CallAt(es, i) < |e| {
      HistoryAt(es, i);
    }
    var f := map i | i in Ids(es) :: es'[CallAt(es, i)].id;
    RenumberingRenames(events, e, f);
    RenamingPreserves(m, m.init, f, HistoryOf(es), HistoryOf(es'));
  }

  lemma SameIndex<V>(events: seq<Event<V>>, e: seq<Event<V>>, kind: Kind, p: nat)
    requires Renumbered(events, e) && p < |e|
    ensures IndexOf(Converted(e), kind, e[p].id) == IndexOf(Converted(events), kind, events[p].id)
  {
    var es, es' := Converted(events), Converted(e);
    assert forall q :: 0 <= q < |e| ==> Is(es[q], kind, events[p].id) == Is(es'[q], kind, e[p].id);
  }

  lemma RenumberedAt<V>(events: seq<Event<V>>, e: seq<Event<V>>, p: nat)
    requires Renumbered(events, e) && Paired(Converted(events)) && p < |e|
    ensures PairedAt(Converted(e), p)
  {
    assert PairedAt(Converted(events), p);
    SameIndex(events, e, CallEntry, p);
    SameIndex(events, e, ReturnEntry, p);
  }

  lemma DenseIds<V>(events: seq<Event<V>>, e: seq<Event<V>>, p: nat)
    requires Renumbered(events, e) && Paired(Converted(e)) && p < |e|
    ensures e[p].id < |e| / 2
  {
    var ids, below := Ids(Converted(e)), Below(e[p].id + 1);
    forall v | v in below ensures v in ids {
      if v == e[p].id {
        assert Converted(e)[p].id == v;
      } else {
        assert Used(e, p, v);
        var q :| 0 <= q < p && e[q].id == v;
        assert Converted(e)[q].id == v;
      }
    }
    assert ids == below + (ids - below);
    TwoEventsEach(Converted(e));
  }

  lemma RenumberingOnto<V>(events: seq<Event<V>>, e: seq<Event<V>>, f: map<nat, nat>)
    requires Renumbered(events, e) && Paired(Converted(events)) && Paired(Converted(e))
    requires f.Keys == Ids(Converted(events))
    requires forall i :: i in f ==> CallAt(Converted(events), i) < |e| && f[i] == e[CallAt(Converted(events), i)].id
    ensures f.Values == HistoryOf(Converted(e)).Keys
  {
    hide HistoryOf, Renumbered, Paired, IndexOf, CallAt;
    var g := HistoryOf(Converted(e));
    forall i | i in f ensures f[i] in g { RenumberedOperation(events, e, i, f[i]); }
    forall v ensures v in f.Values <==> v in g.Keys {
      if v in g.Keys {
        RenumberedLength(events, e);
        var p :| 0 <= p < |e| && Converted(e)[p].id == v;
        SameId(events, e, p);
        assert events[p].id in f && f[events[p].id] == v;
      }
    }
  }

  lemma RenumberingRenames<V>(events: seq<Event<V>>, e: seq<Event<V>>, f: map<nat, nat>)
    requires Renumbered(events, e) && Paired(Converted(events)) && Paired(Converted(e))
    requires f.Keys == Ids(Converted(events))
    requires forall i :: i in f ==> CallAt(Converted(events), i) < |e| && f[i] == e[CallAt(Converted(events), i)].id
    ensures Renames(f, HistoryOf(Converted(events)), HistoryOf(Converted(e)))
  {
    hide HistoryOf, Renumbered, Paired, IndexOf, CallAt;
    var h, g := HistoryOf(Converted(events)), HistoryOf(Converted(e));
    forall i | i in f ensures f[i] in g && h[i] == g[f[i]] {
      RenumberedOperation(events, e, i, f[i]);
    }
    RenumberingOnto(events, e, f);
    forall i, j | i in f && j in f && f[i] == f[j] ensures i == j {
      RenumberedOperation(events, e, i, f[i]);
      RenumberedOperation(events, e, j, f[j]);
      SameIds(events, e, CallAt(Converted(events), i), CallAt(Converted(events), j));
    }
  }

  lemma SameIds<V>(events: seq<Event<V>>, e: seq<Event<V>>, p: nat, q: nat)
    requires Renumbered(events, e) && p < |e| && q < |e|
    ensures e[p].id == e[q].id <==> events[p].id == events[q].id
  {
  }

  lemma RenumberedLength<V>(events: seq<Event<V>>, e: seq<Event<V>>)
    requires Renumbered(events, e)
    ensures |e| == |events|
  {
  }

  lemma SameId<V>(events: seq<Event<V>>, e: seq<Event<V>>, p: nat)
    requires Renumbered(events, e) && Paired(Converted(events)) && p < |e|
    ensures CallAt(Converted(events), events[p].id) < |e| && e[CallAt(Converted(events), events[p].id)].id == e[p].id
    ensures events[p].id in Ids(Converted(events))
  {
    assert PairedAt(Converted(events), p);
    assert Converted(events)[p].id == events[p].id;
  }

  lemma RenumberedOperation<V>(events: seq<Event<V>>, e: seq<Event<V>>, i: nat, v: nat)
    requires Renumbered(events, e) && Paired(Converted(events)) && Paired(Converted(e))
    requires i in Ids(Converted(events)) && CallAt(Converted(events), i) < |e|
    requires v == e[CallAt(Converted(events), i)].id
    ensures v in HistoryOf(Converted(e)) && HistoryOf(Converted(events))[i] == HistoryOf(Converted(e))[v]
    ensures events[CallAt(Converted(events), i)].id == i
  {
    hide HistoryOf, Renumbered, Paired;
    RenumberedLength(events, e);
    var es, es' := Converted(events), Converted(e);
    var p := CallAt(es, i);
    assert Is(es[p], CallEntry, i);
    SameIndex(events, e, CallEntry, p);
    SameIndex(events, e, ReturnEntry, p);
    HistoryAt(es, i);
    assert es'[p].id in Ids(es');
    HistoryAt(es', v);
    SameValue(events, e, p);
    SameValue(events, e, ReturnAt(es, i));
  }

  lemma SameValue<V>(events: seq<Event<V>>, e: seq<Event<V>>, p: nat)
    requires Renumbered(events, e) && p < |e|
    ensures e[p].value == events[p].value
  {
  }
}
