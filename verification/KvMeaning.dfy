/**
  What the sequential model of the key/value store accepts, said without the model: an order of
  operations is accepted exactly if every get returns what the updates before it have made of its key.
  The updates are those of the server, without its duplicate filter.
 */
module KvMeaning {
  import opened Linearizability
  import opened Histories
  import opened KvModel
  import opened KvServer
  import Driver

  /** A call with an input and a return with an output. */
  ghost predicate Typed(o: KvOperation) {
    o.input.In? && o.output.Out?
  }

  ghost predicate IsGet(o: KvOperation) {
    o.input.In? && o.input.input.op == 0
  }

  /** The operation as a command for a server. */
  function CommandOf(o: KvOperation): Op {
    if !o.input.In? then Op("", "", GetOp, 0, 0) else
      var i := o.input.input;
      Op(i.key, i.value, if i.op == 0 then GetOp else if i.op == 1 then PutOp else AppendOp, 0, 0)
  }

  /** The first `k` operations of the order, as commands. */
  ghost function CommandsBefore(h: KvHistory, order: seq<nat>, k: nat): (ops: seq<Op>)
    requires k <= |order| && forall i :: i in order ==> i in h
    ensures |ops| == k && forall j :: 0 <= j < k ==> ops[j] == CommandOf(h[order[j]])
  {
    seq(k, j requires 0 <= j < k => CommandOf(h[order[j]]))
  }

  /** The operation at place `k`, if it is a get, returns the value its key has by then. */
  ghost predicate RightAt(h: KvHistory, order: seq<nat>, k: nat)
    requires k < |order| && forall i :: i in order ==> i in h
  {
    var o := h[order[k]];
    && Typed(o)
    && (IsGet(o) ==> o.output.output.value == Lookup(PerformAll(CommandsBefore(h, order, k)), o.input.input.key))
  }

  lemma StepPerforms(db: Store, o: KvOperation)
    requires Typed(o)
    ensures StoreStep(db, o.input, o.output).1 == Perform(db, CommandOf(o))
    ensures StoreStep(db, o.input, o.output).0 <==>
            (IsGet(o) ==> o.output.output.value == Lookup(db, o.input.input.key))
  {
  }

  lemma PerformNext(h: KvHistory, order: seq<nat>, k: nat)
    requires k < |order| && forall i :: i in order ==> i in h
    ensures PerformAll(CommandsBefore(h, order, k + 1)) ==
            Perform(PerformAll(CommandsBefore(h, order, k)), CommandOf(h[order[k]]))
  {
    assert CommandsBefore(h, order, k + 1)[..k] == CommandsBefore(h, order, k);
  }

  lemma {:induction false} AcceptsFrom(h: KvHistory, order: seq<nat>, k: nat)
    requires k <= |order| && forall i :: i in order ==> i in h
    ensures Accepts(WholeStore(), PerformAll(CommandsBefore(h, order, k)), h, order[k..]) <==>
            forall j :: k <= j < |order| ==> RightAt(h, order, j)
    decreases |order| - k
  {
    hide PerformAll;
    if k < |order| {
      AcceptsFrom(h, order, k + 1);
      PerformNext(h, order, k);
      var o, db := h[order[k]], PerformAll(CommandsBefore(h, order, k));
      assert order[k..][0] == order[k] && order[k..][1..] == order[k + 1..];
      if Typed(o) { StepPerforms(db, o); }
      assert (forall j :: k <= j < |order| ==> RightAt(h, order, j)) <==>
             RightAt(h, order, k) && (forall j :: k + 1 <= j < |order| ==> RightAt(h, order, j));
    }
  }

  /** From the empty store, the model accepts exactly the orders in which every get is right. */
  lemma AcceptsExactly(h: KvHistory, order: seq<nat>)
    requires forall i :: i in order ==> i in h
    ensures Accepts(WholeStore(), map[], h, order) <==> forall k :: 0 <= k < |order| ==> RightAt(h, order, k)
  {
    AcceptsFrom(h, order, 0);
    assert order[0..] == order;
  }

  ghost predicate IsSequentialOrder(h: KvHistory, order: seq<nat>) {
    && Enumerates(order, h.Keys) && RespectsRealTime(h, order)
    && forall k :: 0 <= k < |order| ==> RightAt(h, order, k)
  }

  /** So a history is linearizable exactly if some real-time order makes every get right. */
  lemma LinearizableExactly(h: KvHistory)
    ensures Linearizable(WholeStore(), h) <==> exists order :: IsSequentialOrder(h, order)
  {
    hide RightAt;
    if Linearizable(WholeStore(), h) {
      var order :| Linearizes(WholeStore(), map[], h, order);
      AcceptsExactly(h, order);
      assert IsSequentialOrder(h, order);
    }
    if order :| IsSequentialOrder(h, order) {
      AcceptsExactly(h, order);
      assert Linearizes(WholeStore(), map[], h, order);
    }
  }

  // ---------------------------------------------------------------------------------
  // Values out of nowhere

  predicate IsSuffix(s: string, t: string) {
    |s| <= |t| && t[|t| - |s|..] == s
  }

  ghost predicate Updates(op: Op, key: string, value: string) {
    !op.kind.GetOp? && op.key == key && IsSuffix(op.value, value)
  }

  lemma {:induction false} LastUpdate(ops: seq<Op>, key: string) returns (j: nat)
    requires Lookup(PerformAll(ops), key) != ""
    ensures j < |ops| && Updates(ops[j], key, Lookup(PerformAll(ops), key))
  {
    var n := |ops| - 1;
    if ops[n].kind.GetOp? || ops[n].key != key {
      j := LastUpdate(ops[..n], key);
    } else {
      j := n;
    }
  }

  /** Some update of the history writes the end of the value to this key, and was not called after `g` returned. */
  ghost predicate Written(h: KvHistory, g: nat, u: nat)
    requires g in h && Typed(h[g])
  {
    && u in h && u != g && !Precedes(h[g], h[u])
    && h[u].input.In? && Updates(CommandOf(h[u]), Key(h[g]), h[g].output.output.value)
  }

  /** In a linearizable history no get returns a value out of nowhere. */
  lemma GetsAreWritten(h: KvHistory, g: nat)
    requires Linearizable(WholeStore(), h) && g in h && IsGet(h[g])
    ensures Typed(h[g]) && (h[g].output.output.value != "" ==> exists u :: Written(h, g, u))
  {
    LinearizableExactly(h);
    var order :| IsSequentialOrder(h, order);
    assert g in order;
    var k :| 0 <= k < |order| && order[k] == g;
    assert RightAt(h, order, k);
    if h[g].output.output.value != "" {
      var j := LastUpdate(CommandsBefore(h, order, k), Key(h[g]));
      assert Written(h, g, order[j]);
    }
  }

  /** The checker rejects a history with such a get. */
  method RejectsUnwritten(history: seq<KvOperation>, ghost g: nat) returns (ok: bool)
    requires Timely(history) && g < |history| && IsGet(history[g]) && Typed(history[g])
    requires history[g].output.output.value != "" && forall u :: !Written(Indexed(history), g, u)
    ensures !ok
  {
    hide Linearizable, Timely, WholeStore, Written;
    ghost var timedOut;
    ok, timedOut := Driver.CheckOperationsTimeout(history, _ => false);
    if ok {
      GetsAreWritten(Indexed(history), g);
    }
  }

  function Put(key: string, value: string, call: int, ret: int): KvOperation {
    Operation(In(KvInput(1, key, value)), call, Out(KvOutput("")), ret)
  }

  function Get(key: string, value: string, call: int, ret: int): KvOperation {
    Operation(In(KvInput(0, key, "")), call, Out(KvOutput(value)), ret)
  }

  /** For instance one that puts "a" and then gets "z". */
  method RejectsPutThenOther() returns (ok: bool)
    ensures !ok
  {
    var history := [Put("k", "a", 0, 1), Get("k", "z", 2, 3)];
    ghost var h := Indexed(history);
    forall u ensures !Written(h, 1, u) {
      if u == 0 { assert !IsSuffix("a", "z"); }
    }
    ok := RejectsUnwritten(history, 1);
  }
}
