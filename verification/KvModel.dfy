/**
  The sequential specification of the key/value store (`KvModel`), one key at a time and for the
  whole store, and locality: a history of the whole store is linearizable exactly when, for every
  key, the operations on that key are.
 */
module KvModel {
  import opened Linearizability
  import opened Histories

  /** 0 is get, 1 is put, anything else append. */
  datatype KvInput = KvInput(op: nat, key: string, value: string)
  datatype KvOutput = KvOutput(value: string)

  /** What an event of a key/value history can carry; a call carries an input, a return an output. */
  datatype KvValue = Nil | In(input: KvInput) | Out(output: KvOutput)

  type KvOperation = Operation<KvValue>
  type KvHistory = History<KvValue>

  function Key(o: KvOperation): string {
    if o.input.In? then o.input.input.key else ""
  }

  /** Values of the wrong kind, on which the type assertions of the code panic, are not accepted. */
  function Step(state: string, input: KvValue, output: KvValue): (bool, string) {
    if !input.In? || !output.Out? then (false, state)
    else if input.input.op == 0 then (output.output.value == state, state)
    else if input.input.op == 1 then (true, input.input.value)
    else (true, state + input.input.value)
  }

  /** The model the checker is run with: the value of a single key. */
  function PerKey(): Model<string, KvValue> {
    Model("", Step, (s, t) => s == t)
  }

  lemma PerKeyWellBehaved()
    ensures WellBehaved(PerKey())
  {
    forall s: string, t: string, v: KvValue, w: KvValue | PerKey().equal(s, t)
      ensures SameStep(PerKey(), s, t, v, w)
    {
    }
  }

  type Store = map<string, string>

  function Lookup(db: Store, key: string): string {
    if key in db then db[key] else ""
  }

  /** The whole store: an operation acts on its key and leaves the other keys alone. */
  function StoreStep(db: Store, input: KvValue, output: KvValue): (bool, Store) {
    var key := if input.In? then input.input.key else "";
    var (ok, value) := Step(Lookup(db, key), input, output);
    (ok, if !input.In? || input.input.op == 0 then db else db[key := value])
  }

  function WholeStore(): Model<Store, KvValue> {
    Model(map[], StoreStep, (s, t) => s == t)
  }

  /** The operations of `h` on one key. */
  function OfKey(h: KvHistory, key: string): (g: KvHistory)
    ensures forall i :: i in g <==> i in h && Key(h[i]) == key
    ensures forall i :: i in g ==> g[i] == h[i]
  {
    map i | i in h && Key(h[i]) == key :: h[i]
  }

  lemma OfKeyRemove(h: KvHistory, i: nat, key: string)
    requires i in h
    ensures OfKey(h - {i}, key) == OfKey(h, key) - {i}
    ensures Key(h[i]) != key ==> OfKey(h - {i}, key) == OfKey(h, key)
  {
  }

  lemma StepOfKey(db: Store, h: KvHistory, i: nat)
    requires i in h
    ensures var key := Key(h[i]);
            && i in OfKey(h, key)
            && StepOf(WholeStore(), db, h, i).0 == StepOf(PerKey(), Lookup(db, key), OfKey(h, key), i).0
            && Lookup(StepOf(WholeStore(), db, h, i).1, key) == StepOf(PerKey(), Lookup(db, key), OfKey(h, key), i).1
            && forall other :: other != key ==> Lookup(StepOf(WholeStore(), db, h, i).1, other) == Lookup(db, other)
  {
  }

  ghost predicate KeyByKey(db: Store, h: KvHistory) {
    forall key :: LinearizableFrom(PerKey(), Lookup(db, key), OfKey(h, key))
  }

  lemma {:induction false} WholeGivesKeys(db: Store, h: KvHistory, key: string)
    requires LinearizableFrom(WholeStore(), db, h)
    ensures LinearizableFrom(PerKey(), Lookup(db, key), OfKey(h, key))
    decreases |h|
  {
    hide Step, StoreStep, LinearizableFrom;
    Unfold(WholeStore(), db, h);
    Unfold(PerKey(), Lookup(db, key), OfKey(h, key));
    if h != map[] {
      var i :| CanStart(WholeStore(), db, h, i);
      var db' := StepOf(WholeStore(), db, h, i).1;
      RemoveShrinks(h, i);
      WholeGivesKeys(db', h - {i}, key);
      OfKeyRemove(h, i, key);
      StepOfKey(db, h, i);
      if Key(h[i]) == key {
        assert CanStart(PerKey(), Lookup(db, key), OfKey(h, key), i);
      }
    }
  }

  /** Some operation returns first; the first one in its key's order may come first overall. */
  lemma EarliestReturn(h: KvHistory) returns (x: nat)
    requires h != map[]
    ensures x in h && forall i :: i in h ==> h[x].ret <= h[i].ret
    decreases |h|
  {
    var i :| i in h;
    if h - {i} == map[] {
      x := i;
      assert forall j :: j in h && j != i ==> j in h - {i};
    } else {
      RemoveShrinks(h, i);
      var y := EarliestReturn(h - {i});
      assert forall j :: j in h && j != i ==> j in h - {i};
      x := if h[i].ret <= h[y].ret then i else y;
    }
  }

  lemma {:induction false} KeysGiveWhole(db: Store, h: KvHistory)
    requires WellTimed(h) && KeyByKey(db, h)
    ensures LinearizableFrom(WholeStore(), db, h)
    decreases |h|
  {
    Unfold(WholeStore(), db, h);
    if h != map[] {
      var x := EarliestReturn(h);
      var key := Key(h[x]);
      var sub := OfKey(h, key);
      assert x in sub;
      Unfold(PerKey(), Lookup(db, key), sub);
      var f :| CanStart(PerKey(), Lookup(db, key), sub, f);
      FirstOfKeyIsMinimal(h, x, f);
      StepOfKey(db, h, f);
      var db' := StepOf(WholeStore(), db, h, f).1;
      forall k ensures LinearizableFrom(PerKey(), Lookup(db', k), OfKey(h - {f}, k)) {
        OfKeyRemove(h, f, k);
      }
      RemoveShrinks(h, f);
      KeysGiveWhole(db', h - {f});
      assert CanStart(WholeStore(), db, h, f);
    }
  }

  lemma FirstOfKeyIsMinimal(h: KvHistory, x: nat, f: nat)
    requires WellTimed(h) && x in h && forall i :: i in h ==> h[x].ret <= h[i].ret
    requires f in OfKey(h, Key(h[x])) && Minimal(OfKey(h, Key(h[x])), f)
    ensures Minimal(h, f)
  {
    var sub := OfKey(h, Key(h[x]));
    assert x in sub;
    assert h[f].call <= h[x].ret;
  }

  /** Locality: the whole store's history is linearizable exactly when every key's is. */
  lemma Locality(db: Store, h: KvHistory)
    requires WellTimed(h)
    ensures LinearizableFrom(WholeStore(), db, h) <==> KeyByKey(db, h)
  {
    if KeyByKey(db, h) { KeysGiveWhole(db, h); }
    if LinearizableFrom(WholeStore(), db, h) {
      forall key ensures LinearizableFrom(PerKey(), Lookup(db, key), OfKey(h, key)) {
        WholeGivesKeys(db, h, key);
      }
    }
  }

  // ---------------------------------------------------------------------------------
  // Partition

  /** The indices of the operations on `key`, in order. */
  function Where(history: seq<KvOperation>, key: string): (w: seq<nat>)
    ensures forall j :: 0 <= j < |w| ==> w[j] < |history| && Key(history[w[j]]) == key
    ensures forall j, k :: 0 <= j < k < |w| ==> w[j] < w[k]
    ensures forall i :: 0 <= i < |history| && Key(history[i]) == key ==> i in w
  {
    if history == [] then [] else
      var n := |history| - 1;
      var w := Where(history[..n], key);
      if Key(history[n]) == key then w + [n] else w
  }

  /** The operations on `key`, in order. */
  function Selected(history: seq<KvOperation>, key: string): (s: seq<KvOperation>)
    ensures |s| == |Where(history, key)|
  {
    seq(|Where(history, key)|, j requires 0 <= j < |Where(history, key)| => history[Where(history, key)[j]])
  }

  lemma SelectedSnoc(history: seq<KvOperation>, v: KvOperation, key: string)
    ensures Selected(history + [v], key) == Selected(history, key) + (if Key(v) == key then [v] else [])
  {
    assert (history + [v])[..|history|] == history;
  }

  /** `parts` are the operations of `history` key by key; the order of the keys is arbitrary. */
  ghost predicate Partitions(history: seq<KvOperation>, parts: seq<seq<KvOperation>>, keys: seq<string>) {
    && |keys| == |parts|
    && (forall j, k :: 0 <= j < k < |keys| ==> keys[j] != keys[k])
    && (forall i :: 0 <= i < |history| ==> Key(history[i]) in keys)
    && (forall j :: 0 <= j < |keys| ==> parts[j] == Selected(history, keys[j]) && parts[j] != [])
  }

  /** `m` holds the operations of `history` by key. */
  ghost predicate Grouped(history: seq<KvOperation>, m: map<string, seq<KvOperation>>) {
    && (forall i :: 0 <= i < |history| ==> Key(history[i]) in m)
    && (forall key :: key in m ==> m[key] == Selected(history, key) && m[key] != [])
    && (forall key :: key !in m ==> Selected(history, key) == [])
  }

  lemma GroupOneMore(history: seq<KvOperation>, m: map<string, seq<KvOperation>>, v: KvOperation)
    requires Grouped(history, m)
    ensures Grouped(history + [v], m[Key(v) := (if Key(v) in m then m[Key(v)] else []) + [v]])
  {
    hide Where, Selected;
    var m' := m[Key(v) := (if Key(v) in m then m[Key(v)] else []) + [v]];
    forall key ensures Selected(history + [v], key) == if key in m' then m'[key] else [] {
      SelectedSnoc(history, v, key);
    }
    forall i | 0 <= i < |history + [v]| ensures Key((history + [v])[i]) in m' {
      if i < |history| { assert (history + [v])[i] == history[i]; }
    }
  }

  method Partition(history: seq<KvOperation>) returns (parts: seq<seq<KvOperation>>, ghost keys: seq<string>)
    ensures Partitions(history, parts, keys)
  {
    hide Where, Selected;
    var m: map<string, seq<KvOperation>> := map[];
    NothingGrouped();
    for k := 0 to |history|
      invariant Grouped(history[..k], m)
    {
      var key := Key(history[k]);
      assert history[..k + 1] == history[..k] + [history[k]];
      GroupOneMore(history[..k], m, history[k]);
      m := m[key := (if key in m then m[key] else []) + [history[k]]];
    }
    assert history[..|history|] == history;
    parts, keys := [], [];
    var rest := m.Keys;
    while rest != {}
      invariant rest <= m.Keys && |keys| == |parts|
      invariant forall key :: key in m ==> (key in keys <==> key !in rest)
      invariant forall j :: 0 <= j < |keys| ==> keys[j] in m && parts[j] == m[keys[j]]
      invariant forall j, k :: 0 <= j < k < |keys| ==> keys[j] != keys[k]
    {
      var key :| key in rest;
      parts, keys, rest := parts + [m[key]], keys + [key], rest - {key};
    }
  }

  lemma NothingGrouped()
    ensures Grouped([], map[])
  {
  }

  /** The operations at the places `w` of a history, under their numbers in `w` or under their own. */
  ghost predicate PickedOut(w: seq<nat>, g: KvHistory, h: KvHistory) {
    && (forall j: nat :: j in g <==> j < |w|)
    && (forall i :: i in h <==> i in w)
    && (forall j :: 0 <= j < |w| ==> g[j] == h[w[j]])
    && (forall j, k :: 0 <= j < k < |w| ==> w[j] < w[k])
  }

  lemma PickedOutRenames(w: seq<nat>, f: map<nat, nat>, g: KvHistory, h: KvHistory)
    requires PickedOut(w, g, h) && f.Keys == g.Keys && forall j :: j in f ==> f[j] == w[j]
    ensures Renames(f, g, h)
  {
    forall i ensures i in f.Values <==> i in h.Keys {
      if i in h.Keys {
        var j :| 0 <= j < |w| && w[j] == i;
        assert j in f && f[j] == i;
      }
    }
    assert f.Values == h.Keys;
  }

  lemma PickedOutLinearizable(w: seq<nat>, g: KvHistory, h: KvHistory)
    requires PickedOut(w, g, h)
    ensures LinearizableFrom(PerKey(), "", g) <==> LinearizableFrom(PerKey(), "", h)
  {
    hide LinearizableFrom, Renames;
    var f := map j: nat | j in g.Keys :: w[j];
    PickedOutRenames(w, f, g, h);
    RenamingPreserves(PerKey(), "", f, g, h);
  }

  lemma SelectedAt(history: seq<KvOperation>, key: string, j: nat)
    requires j < |Where(history, key)|
    ensures Selected(history, key)[j] == history[Where(history, key)[j]]
  {
  }

  lemma SelectedPickedOut(history: seq<KvOperation>, key: string)
    ensures PickedOut(Where(history, key), Indexed(Selected(history, key)), OfKey(Indexed(history), key))
  {
    hide Selected, Where, Indexed, OfKey;
    var w, h := Where(history, key), OfKey(Indexed(history), key);
    forall i | i in h ensures i in w { }
    forall i | i in w ensures i in h { var j :| 0 <= j < |w| && w[j] == i; }
    forall j | 0 <= j < |w| ensures Indexed(Selected(history, key))[j] == h[w[j]] { SelectedAt(history, key, j); }
  }

  /** The list of a key's operations denotes the key's sub-history, up to the names of operations. */
  lemma SelectedIsOfKey(history: seq<KvOperation>, key: string)
    ensures Linearizable(PerKey(), Indexed(Selected(history, key))) <==>
            LinearizableFrom(PerKey(), "", OfKey(Indexed(history), key))
  {
    hide LinearizableFrom, OfKey, Selected, Where, Indexed, Step, PickedOut;
    SelectedPickedOut(history, key);
    PickedOutLinearizable(Where(history, key), Indexed(Selected(history, key)), OfKey(Indexed(history), key));
  }

  /** Checking the partitions one by one decides the whole store's history. */
  lemma PartitionsDecide(history: seq<KvOperation>, parts: seq<seq<KvOperation>>, keys: seq<string>)
    requires Partitions(history, parts, keys) && WellTimed(Indexed(history))
    ensures Linearizable(WholeStore(), Indexed(history)) <==>
            forall j :: 0 <= j < |parts| ==> Linearizable(PerKey(), Indexed(parts[j]))
  {
    Locality(map[], Indexed(history));
    forall key ensures LinearizableFrom(PerKey(), "", OfKey(Indexed(history), key)) <== key !in keys {
      if key !in keys {
        assert OfKey(Indexed(history), key) == map[];
        Unfold(PerKey(), "", map[]);
      }
    }
    forall j | 0 <= j < |parts|
      ensures Linearizable(PerKey(), Indexed(parts[j])) <==>
              LinearizableFrom(PerKey(), "", OfKey(Indexed(history), keys[j]))
    {
      SelectedIsOfKey(history, keys[j]);
    }
    if forall j :: 0 <= j < |parts| ==> Linearizable(PerKey(), Indexed(parts[j])) {
      forall key ensures LinearizableFrom(PerKey(), Lookup(map[], key), OfKey(Indexed(history), key)) {
        if key in keys { var j :| 0 <= j < |keys| && keys[j] == key; }
      }
    }
    if KeyByKey(map[], Indexed(history)) {
      forall j | 0 <= j < |parts| ensures Linearizable(PerKey(), Indexed(parts[j])) {
        assert LinearizableFrom(PerKey(), Lookup(map[], keys[j]), OfKey(Indexed(history), keys[j]));
      }
    }
  }
}
