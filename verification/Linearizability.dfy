/**
  The specification that the checker of `linearizability/` decides: what it means for a
  concurrent history to be linearizable with respect to a sequential model.  Nothing in this
  module knows about searching; it is the independent reference the search is proved against.
 */
module Linearizability {

  /** The sequential model: `Init`, `Step` and `Equal` of the Go struct `Model`. */
  datatype Model<!S, !V> = Model(init: S, step: (S, V, V) -> (bool, S), equal: (S, S) -> bool)

  /** One completed operation: its input and output, and when it was called and returned. */
  datatype Operation<+V> = Operation(input: V, call: int, output: V, ret: int)

  /** A history names its operations by ids. */
  type History<V> = map<nat, Operation<V>>

  /** Real-time order: `a` returned before `b` was called. */
  predicate Precedes<V>(a: Operation<V>, b: Operation<V>) {
    a.ret < b.call
  }

  ghost predicate WellTimed<V>(h: History<V>) {
    forall i :: i in h ==> h[i].call <= h[i].ret
  }

  /** `order` lists every id of `ids` exactly once. */
  ghost predicate Enumerates(order: seq<nat>, ids: set<nat>) {
    && (forall i :: i in ids <==> i in order)
    && (forall j, k :: 0 <= j < k < |order| ==> order[j] != order[k])
  }

  /** No operation is placed before one that had returned before it was called. */
  ghost predicate RespectsRealTime<V>(h: History<V>, order: seq<nat>)
    requires forall i :: i in order ==> i in h
  {
    forall j, k :: 0 <= j < k < |order| ==> !Precedes(h[order[k]], h[order[j]])
  }

  /** The sequential model accepts the operations one by one, in this order, from state `s`. */
  ghost predicate Accepts<S, V>(m: Model<S, V>, s: S, h: History<V>, order: seq<nat>)
    requires forall i :: i in order ==> i in h
  {
    order == [] ||
    var (ok, s') := m.step(s, h[order[0]].input, h[order[0]].output);
    ok && Accepts(m, s', h, order[1..])
  }

  ghost predicate Linearizes<S, V>(m: Model<S, V>, s: S, h: History<V>, order: seq<nat>) {
    && Enumerates(order, h.Keys)
    && RespectsRealTime(h, order)
    && Accepts(m, s, h, order)
  }

  ghost predicate LinearizableFrom<S, V>(m: Model<S, V>, s: S, h: History<V>) {
    exists order :: Linearizes(m, s, h, order)
  }

  ghost predicate Linearizable<S, V>(m: Model<S, V>, h: History<V>) {
    LinearizableFrom(m, m.init, h)
  }

  /** What the checker needs of `Equal`: reflexive, and equal states accept the same steps for ever. */
  ghost predicate WellBehaved<S(!new), V(!new)>(m: Model<S, V>) {
    && (forall s :: m.equal(s, s))
    && (forall s, t, v, w :: m.equal(s, t) ==> SameStep(m, s, t, v, w))
  }

  ghost predicate SameStep<S, V>(m: Model<S, V>, s: S, t: S, v: V, w: V) {
    && m.step(s, v, w).0 == m.step(t, v, w).0
    && (m.step(s, v, w).0 ==> m.equal(m.step(s, v, w).1, m.step(t, v, w).1))
  }

  // ---------------------------------------------------------------------------------
  // One step at a time

  /** No operation of `h` returned before `i` was called, so `i` may be linearized first. */
  ghost predicate Minimal<V>(h: History<V>, i: nat)
    requires i in h
  {
    forall j :: j in h && j != i ==> !Precedes(h[j], h[i])
  }

  function StepOf<S, V>(m: Model<S, V>, s: S, h: History<V>, i: nat): (bool, S)
    requires i in h
  {
    m.step(s, h[i].input, h[i].output)
  }

  /** Operation `i` can come first, and what is left can follow. */
  ghost predicate CanStart<S, V>(m: Model<S, V>, s: S, h: History<V>, i: nat) {
    && i in h
    && Minimal(h, i)
    && StepOf(m, s, h, i).0
    && LinearizableFrom(m, StepOf(m, s, h, i).1, h - {i})
  }

  lemma {:induction false} AcceptsFrame<S, V>(m: Model<S, V>, s: S, h: History<V>, h': History<V>, order: seq<nat>)
    requires forall i :: i in order ==> i in h && i in h' && h[i] == h'[i]
    ensures Accepts(m, s, h, order) == Accepts(m, s, h', order)
  {
    if order != [] {
      AcceptsFrame(m, StepOf(m, s, h, order[0]).1, h, h', order[1..]);
    }
  }

  lemma StartFirst<S, V>(m: Model<S, V>, s: S, h: History<V>, i: nat)
    requires CanStart(m, s, h, i)
    ensures LinearizableFrom(m, s, h)
  {
    var rest := h - {i};
    var s' := StepOf(m, s, h, i).1;
    var tail :| Linearizes(m, s', rest, tail);
    PrependEnumerates(tail, rest.Keys, i);
    assert rest.Keys + {i} == h.Keys;
    PrependRespects(h, tail, i);
    var order := [i] + tail;
    assert order[1..] == tail;
    AcceptsFrame(m, s', rest, h, tail);
    assert Linearizes(m, s, h, order);
  }

  lemma PrependEnumerates(tail: seq<nat>, ids: set<nat>, i: nat)
    requires Enumerates(tail, ids) && i !in ids
    ensures Enumerates([i] + tail, ids + {i})
  {
    var order := [i] + tail;
    assert forall j :: 0 < j < |order| ==> order[j] == tail[j - 1] && tail[j - 1] in tail;
    assert forall j :: j in order <==> j == i || j in tail;
  }

  lemma PrependRespects<V>(h: History<V>, tail: seq<nat>, i: nat)
    requires i in h && Minimal(h, i) && Enumerates(tail, (h - {i}).Keys) && RespectsRealTime(h - {i}, tail)
    ensures forall j :: j in [i] + tail ==> j in h
    ensures RespectsRealTime(h, [i] + tail)
  {
    var rest, order := h - {i}, [i] + tail;
    assert forall j :: 0 < j < |order| ==> order[j] == tail[j - 1] && tail[j - 1] in tail;
    forall j, k | 0 <= j < k < |order| ensures !Precedes(h[order[k]], h[order[j]]) {
      assert tail[k - 1] in rest.Keys;
      if j > 0 { assert !Precedes(rest[tail[k - 1]], rest[tail[j - 1]]); }
    }
  }

  lemma FirstCanStart<S, V>(m: Model<S, V>, s: S, h: History<V>, order: seq<nat>)
    requires Linearizes(m, s, h, order) && h != map[]
    ensures order != [] && CanStart(m, s, h, order[0])
    ensures Linearizes(m, StepOf(m, s, h, order[0]).1, h - {order[0]}, order[1..])
  {
    var k :| k in h.Keys;
    assert k in order;
    var i := order[0];
    DropFirstEnumerates(order, h.Keys);
    FirstIsMinimal(h, order);
    var rest, tail := h - {i}, order[1..];
    assert rest.Keys == h.Keys - {i};
    AcceptsFrame(m, StepOf(m, s, h, i).1, rest, h, tail);
    assert Linearizes(m, StepOf(m, s, h, i).1, rest, tail);
  }

  lemma DropFirstEnumerates(order: seq<nat>, ids: set<nat>)
    requires Enumerates(order, ids) && order != []
    ensures Enumerates(order[1..], ids - {order[0]}) && order[0] in ids
  {
    var tail := order[1..];
    forall j ensures j in ids - {order[0]} <==> j in tail {
      if j in tail {
        var k :| 0 <= k < |tail| && tail[k] == j;
        assert order[k + 1] == j;
      }
      if j in ids && j != order[0] {
        var k :| 0 <= k < |order| && order[k] == j;
        assert tail[k - 1] == j;
      }
    }
  }

  lemma FirstIsMinimal<V>(h: History<V>, order: seq<nat>)
    requires Enumerates(order, h.Keys) && RespectsRealTime(h, order) && order != []
    ensures order[0] in h && Minimal(h, order[0])
    ensures forall j :: j in order[1..] ==> j in h
    ensures RespectsRealTime(h, order[1..])
  {
    assert order[0] in h.Keys;
    forall j | j in h && j != order[0] ensures !Precedes(h[j], h[order[0]]) {
      assert j in h.Keys;
      var k :| 0 <= k < |order| && order[k] == j;
    }
  }

  /** A history is linearizable exactly when it is empty or some minimal operation can start it. */
  lemma Unfold<S, V>(m: Model<S, V>, s: S, h: History<V>)
    ensures LinearizableFrom(m, s, h) <==> h == map[] || exists i :: CanStart(m, s, h, i)
  {
    if h == map[] {
      assert Linearizes(m, s, h, []);
    } else if LinearizableFrom(m, s, h) {
      var order :| Linearizes(m, s, h, order);
      FirstCanStart(m, s, h, order);
    }
    if i :| CanStart(m, s, h, i) {
      StartFirst(m, s, h, i);
    }
  }

  // ---------------------------------------------------------------------------------
  // States and names that cannot be told apart

  lemma {:induction false} EqualAccepts<S(!new), V(!new)>(m: Model<S, V>, s: S, t: S, h: History<V>, order: seq<nat>)
    requires WellBehaved(m) && m.equal(s, t)
    requires forall i :: i in order ==> i in h
    ensures Accepts(m, s, h, order) == Accepts(m, t, h, order)
  {
    if order != [] {
      var o := h[order[0]];
      assert SameStep(m, s, t, o.input, o.output);
      if m.step(s, o.input, o.output).0 {
        EqualAccepts(m, StepOf(m, s, h, order[0]).1, StepOf(m, t, h, order[0]).1, h, order[1..]);
      }
    }
  }

  /** Equal states have the same future. */
  lemma EqualStates<S(!new), V(!new)>(m: Model<S, V>, s: S, t: S, h: History<V>)
    requires WellBehaved(m) && m.equal(s, t)
    ensures LinearizableFrom(m, s, h) <==> LinearizableFrom(m, t, h)
  {
    forall order | Enumerates(order, h.Keys)
      ensures Linearizes(m, s, h, order) == Linearizes(m, t, h, order)
    {
      EqualAccepts(m, s, t, h, order);
    }
    if LinearizableFrom(m, s, h) {
      var order :| Linearizes(m, s, h, order);
      assert Linearizes(m, t, h, order);
    }
    if LinearizableFrom(m, t, h) {
      var order :| Linearizes(m, t, h, order);
      assert Linearizes(m, s, h, order);
    }
  }

  /** `f` renames the ids of `h` one to one to those of `g`, keeping values and real-time order. */
  ghost predicate Renames<V>(f: map<nat, nat>, h: History<V>, g: History<V>) {
    && f.Keys == h.Keys && f.Values == g.Keys
    && (forall i, j :: i in f && j in f && f[i] == f[j] ==> i == j)
    && (forall i :: i in f ==> f[i] in g && h[i].input == g[f[i]].input && h[i].output == g[f[i]].output)
    && (forall i, j :: i in f && j in f ==> Precedes(h[i], h[j]) == Precedes(g[f[i]], g[f[j]]))
  }

  lemma RenamesRemove<V>(f: map<nat, nat>, h: History<V>, g: History<V>, i: nat)
    requires Renames(f, h, g) && i in h
    ensures Renames(f - {i}, h - {i}, g - {f[i]})
  {
    var f' := f - {i};
    forall v ensures v in f'.Values <==> v in (g - {f[i]}).Keys {
      if v in (g - {f[i]}).Keys {
        assert v in f.Values;
        var k :| k in f && f[k] == v;
        assert k in f' && f'[k] == v;
      }
    }
  }

  /** Linearizability does not depend on the names of operations, nor on clock values beyond their order. */
  lemma {:induction false} RenamingPreserves<S, V>(m: Model<S, V>, s: S, f: map<nat, nat>, h: History<V>, g: History<V>)
    requires Renames(f, h, g)
    ensures LinearizableFrom(m, s, h) <==> LinearizableFrom(m, s, g)
    decreases |h|
  {
    Unfold(m, s, h);
    Unfold(m, s, g);
    if h == map[] {
      assert f == map[];
      assert g.Keys == {};
    } else {
      var k :| k in h;
      assert f[k] in g;
      if i :| CanStart(m, s, h, i) {
        RenamingStart(m, s, f, h, g, i);
        RenamingPreserves(m, StepOf(m, s, h, i).1, f - {i}, h - {i}, g - {f[i]});
        assert CanStart(m, s, g, f[i]);
      }
      if i' :| CanStart(m, s, g, i') {
        assert i' in f.Values;
        var i :| i in f && f[i] == i';
        RenamingStart(m, s, f, h, g, i);
        RenamingPreserves(m, StepOf(m, s, h, i).1, f - {i}, h - {i}, g - {f[i]});
        assert CanStart(m, s, h, i);
      }
    }
  }

  lemma RenamingStart<S, V>(m: Model<S, V>, s: S, f: map<nat, nat>, h: History<V>, g: History<V>, i: nat)
    requires Renames(f, h, g) && i in h
    ensures Minimal(h, i) == Minimal(g, f[i])
    ensures StepOf(m, s, h, i) == StepOf(m, s, g, f[i])
    ensures Renames(f - {i}, h - {i}, g - {f[i]}) && |h - {i}| < |h|
  {
    RenamesRemove(f, h, g, i);
    RemoveShrinks(h, i);
    if Minimal(h, i) {
      forall j' | j' in g && j' != f[i] ensures !Precedes(g[j'], g[f[i]]) {
        assert j' in f.Values;
        var j :| j in f && f[j] == j';
      }
    }
  }

  lemma RemoveShrinks<V>(h: History<V>, i: nat)
    requires i in h
    ensures |h - {i}| == |h| - 1
  {
    assert (h - {i}).Keys == h.Keys - {i};
  }

  /** Same operations, possibly on another clock with the same real-time order. */
  ghost predicate SameUpToClock<V>(h: History<V>, g: History<V>) {
    && h.Keys == g.Keys
    && (forall i :: i in h ==> h[i].input == g[i].input && h[i].output == g[i].output)
    && (forall i, j :: i in h && j in h ==> Precedes(h[i], h[j]) == Precedes(g[i], g[j]))
  }

  lemma ClockDoesNotMatter<S, V>(m: Model<S, V>, s: S, h: History<V>, g: History<V>)
    requires SameUpToClock(h, g)
    ensures LinearizableFrom(m, s, h) <==> LinearizableFrom(m, s, g)
  {
    var f := map i | i in h.Keys :: i;
    forall i ensures i in f.Values <==> i in g.Keys {
      if i in g.Keys { assert f[i] == i; }
    }
    assert f.Values == g.Keys;
    RenamingPreserves(m, s, f, h, g);
  }
}
