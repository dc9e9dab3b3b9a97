/** How the operations of a history lie on the positions of the event list. */
module Layout {
  import opened Linearizability
  import opened Entries
  import opened EntryList
  import opened Search

  /** The call and the return of operation `i` are events of the list (position 0 is the sentinel). */
  ghost predicate HasEvents<V>(h: History<V>, es: seq<Entry<V>>, i: nat)
    requires i in h
  {
    && 0 < h[i].call < h[i].ret <= |es|
    && es[h[i].call - 1].id == i && es[h[i].call - 1].kind.CallEntry? && es[h[i].call - 1].value == h[i].input
    && es[h[i].ret - 1].id == i && es[h[i].ret - 1].kind.ReturnEntry? && es[h[i].ret - 1].value == h[i].output
  }

  /** The event at list position `p` is the call or the return of an operation of `h`. */
  ghost predicate IsEvent<V>(h: History<V>, es: seq<Entry<V>>, p: nat)
    requires 0 < p <= |es|
  {
    var i := es[p - 1].id;
    i in h && p == if es[p - 1].kind.CallEntry? then h[i].call else h[i].ret
  }

  ghost predicate Lays<V>(h: History<V>, es: seq<Entry<V>>) {
    && (forall i :: i in h ==> HasEvents(h, es, i))
    && (forall p :: 0 < p <= |es| ==> IsEvent(h, es, p))
  }

  lemma HistoryHasEvents<V>(es: seq<Entry<V>>, i: nat)
    requires Paired(es) && i in HistoryOf(es)
    ensures HasEvents(HistoryOf(es), es, i)
  {
    var p :| 0 <= p < |es| && es[p].id == i;
    assert PairedAt(es, p);
  }

  lemma HistoryIsEvent<V>(es: seq<Entry<V>>, p: nat)
    requires Paired(es) && 0 < p <= |es|
    ensures IsEvent(HistoryOf(es), es, p)
  {
    assert PairedAt(es, p - 1);
  }

  lemma HistoryLays<V>(es: seq<Entry<V>>)
    requires Paired(es)
    ensures Lays(HistoryOf(es), es)
  {
    hide Paired, HistoryOf, HasEvents, IsEvent;
    forall i | i in HistoryOf(es) ensures HasEvents(HistoryOf(es), es, i) { HistoryHasEvents(es, i); }
    forall p | 0 < p <= |es| ensures IsEvent(HistoryOf(es), es, p) { HistoryIsEvent(es, p); }
  }

  lemma LaysIsLaid<V>(h: History<V>, es: seq<Entry<V>>)
    requires Lays(h, es)
    ensures Laid(h)
  {
    forall i, j | i in h && j in h
      ensures 0 < h[i].call < h[i].ret && h[i].call != h[j].ret
      ensures i != j ==> h[i].call != h[j].call && h[i].ret != h[j].ret
    {
      assert HasEvents(h, es, i) && HasEvents(h, es, j);
    }
  }

  ghost predicate Within<V>(h: History<V>, path: seq<nat>) {
    forall k :: 0 <= k < |path| ==> path[k] in h && h[path[k]].call >= 0 && h[path[k]].ret >= 0
  }

  /** The positions taken out of the list when the operations of `path` have been lifted in turn. */
  ghost function OutOf<V>(h: History<V>, path: seq<nat>): seq<nat>
    requires Within(h, path)
  {
    if path == [] then [] else
      var i := path[|path| - 1];
      OutOf(h, path[..|path| - 1]) + [h[i].call] + [h[i].ret]
  }

  lemma {:induction false} OutElements<V>(h: History<V>, path: seq<nat>, p: nat)
    requires Within(h, path)
    ensures p in OutOf(h, path) <==> exists i :: i in path && (h[i].call == p || h[i].ret == p)
  {
    if path != [] {
      var front, i := path[..|path| - 1], path[|path| - 1];
      OutElements(h, front, p);
      assert path == front + [i];
      assert OutOf(h, path) == OutOf(h, front) + [h[i].call] + [h[i].ret];
      assert forall j :: j in path <==> j in front || j == i;
    }
  }

  /** The list without the lifted operations holds exactly the live positions. */
  lemma LiveIffLinked<V>(h: History<V>, es: seq<Entry<V>>, path: seq<nat>, p: nat)
    requires Lays(h, es) && Within(h, path)
    ensures Live(h, Done(path, |path|), p) <==> 0 < p <= |es| && p !in Elements(OutOf(h, path))
  {
    OutElements(h, path, p);
    LaysIsLaid(h, es);
    assert path[..|path|] == path;
    if i :| i in h && i !in Done(path, |path|) && (h[i].call == p || h[i].ret == p) {
      assert HasEvents(h, es, i);
    }
    if 0 < p <= |es| {
      assert IsEvent(h, es, p);
    }
  }
}
