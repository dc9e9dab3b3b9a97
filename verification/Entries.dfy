/**
  Histories as sequences of call and return events, and what such a sequence says about when each
  operation ran.
 */
module Entries {
  import opened Linearizability

  datatype Kind = CallEntry | ReturnEntry

  datatype Entry<+V> = Entry(kind: Kind, value: V, id: nat, time: int)

  predicate Is<V>(e: Entry<V>, kind: Kind, id: nat) {
    e.kind == kind && e.id == id
  }

  /** The first event of this kind for this id; the length of the sequence if there is none. */
  function IndexOf<V>(es: seq<Entry<V>>, kind: Kind, id: nat): (p: nat)
    ensures p <= |es|
    ensures p < |es| ==> Is(es[p], kind, id)
    ensures forall q :: 0 <= q < p ==> !Is(es[q], kind, id)
  {
    if es == [] || Is(es[0], kind, id) then 0 else
      var p := IndexOf(es[1..], kind, id);
      assert forall q :: 0 < q < 1 + p ==> es[q] == es[1..][q - 1];
      1 + p
  }

  function CallAt<V>(es: seq<Entry<V>>, id: nat): nat { IndexOf(es, CallEntry, id) }
  function ReturnAt<V>(es: seq<Entry<V>>, id: nat): nat { IndexOf(es, ReturnEntry, id) }

  /** A complete history: every id that occurs is called once and then returns once. */
  ghost predicate Paired<V>(es: seq<Entry<V>>) {
    forall p :: 0 <= p < |es| ==> PairedAt(es, p)
  }

  ghost predicate PairedAt<V>(es: seq<Entry<V>>, p: nat)
    requires p < |es|
  {
    && IndexOf(es, es[p].kind, es[p].id) == p
    && CallAt(es, es[p].id) < ReturnAt(es, es[p].id) < |es|
  }

  ghost function Ids<V>(es: seq<Entry<V>>): set<nat> {
    set p | 0 <= p < |es| :: es[p].id
  }

  /** The operations of a complete history; the k-th event happens at time k, counting from 1. */
  ghost function HistoryOf<V>(es: seq<Entry<V>>): (h: History<V>)
    requires Paired(es)
    ensures h.Keys == Ids(es)
  {
    map id | id in Ids(es) :: OperationAt(es, id)
  }

  ghost function OperationAt<V>(es: seq<Entry<V>>, id: nat): Operation<V>
    requires Paired(es) && id in Ids(es)
  {
    var p :| 0 <= p < |es| && es[p].id == id;
    assert PairedAt(es, p);
    Operation(es[CallAt(es, id)].value, CallAt(es, id) + 1, es[ReturnAt(es, id)].value, ReturnAt(es, id) + 1)
  }

  lemma HistoryAt<V>(es: seq<Entry<V>>, i: nat)
    requires Paired(es) && i in Ids(es)
    ensures i in HistoryOf(es) && CallAt(es, i) < ReturnAt(es, i) < |es|
    ensures HistoryOf(es)[i] ==
            Operation(es[CallAt(es, i)].value, CallAt(es, i) + 1, es[ReturnAt(es, i)].value, ReturnAt(es, i) + 1)
  {
    var p :| 0 <= p < |es| && es[p].id == i;
    assert PairedAt(es, p);
  }
}
