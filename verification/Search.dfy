/**
  The theory of the depth-first search in `checkSingle`, on values: which facts about the stack,
  the memo table and the current list position every step keeps, and why they make the verdict
  right.  An operation's `call` and `ret` are positions in the event list.
 */
module Search {
  import opened Common
  import opened Linearizability

  /** Calls come before returns and no position is used twice. */
  ghost predicate Laid<V>(h: History<V>) {
    && (forall i :: i in h ==> 0 < h[i].call < h[i].ret)
    && (forall i, j :: i in h && j in h ==> h[i].call != h[j].ret)
    && (forall i, j :: i in h && j in h && i != j ==> h[i].call != h[j].call && h[i].ret != h[j].ret)
  }

  /** The operations on the first `k` entries of the stack. */
  ghost function Done(path: seq<nat>, k: nat): set<nat>
    requires k <= |path|
  {
    set i | i in path[..k]
  }

  /** With `done` already linearized and the model in state `s`, the rest has no linearization. */
  ghost predicate Hopeless<S, V>(m: Model<S, V>, h: History<V>, done: set<nat>, s: S) {
    !LinearizableFrom(m, s, h - done)
  }

  /** Taking `i` next leads nowhere. */
  ghost predicate DeadEnd<S, V>(m: Model<S, V>, h: History<V>, done: set<nat>, s: S, i: nat)
    requires i in h
  {
    StepOf(m, s, h, i).0 ==> Hopeless(m, h, done + {i}, StepOf(m, s, h, i).1)
  }

  /** Every operation still in the list that is called before position `e` is a dead end. */
  ghost predicate Tried<S, V>(m: Model<S, V>, h: History<V>, done: set<nat>, s: S, e: int) {
    forall i :: i in h && i !in done && h[i].call < e ==> DeadEnd(m, h, done, s, i)
  }

  ghost predicate NoReturnBefore<V>(h: History<V>, done: set<nat>, e: int) {
    forall i :: i in h && i !in done ==> e <= h[i].ret
  }

  /** Position `p` is in the list without the operations `done`. */
  ghost predicate Live<V>(h: History<V>, done: set<nat>, p: int) {
    exists i :: i in h && i !in done && (h[i].call == p || h[i].ret == p)
  }

  /** Entry `k` of the stack: a legal next operation, all earlier candidates having failed. */
  ghost predicate Level<S, V>(m: Model<S, V>, h: History<V>, path: seq<nat>, states: seq<S>, k: nat)
    requires k < |path| && |states| == |path| + 1
  {
    && path[k] in h && path[k] !in Done(path, k)
    && StepOf(m, states[k], h, path[k]) == (true, states[k + 1])
    && Tried(m, h, Done(path, k), states[k], h[path[k]].call)
    && NoReturnBefore(h, Done(path, k), h[path[k]].call)
  }

  ghost predicate Path<S, V>(m: Model<S, V>, h: History<V>, path: seq<nat>, states: seq<S>) {
    && |states| == |path| + 1 && states[0] == m.init
    && (forall k :: 0 <= k < |path| ==> Level(m, h, path, states, k))
  }

  type Pair<S> = (set<nat>, S)

  ghost predicate OnPath<S>(path: seq<nat>, states: seq<S>, c: Pair<S>)
    requires |states| == |path| + 1
  {
    exists k :: 0 < k <= |path| && c == (Done(path, k), states[k])
  }

  /** A memoised pair is either on the stack or known to be hopeless. */
  ghost predicate Justified<S, V>(m: Model<S, V>, h: History<V>, path: seq<nat>, states: seq<S>, c: Pair<S>)
    requires |states| == |path| + 1
  {
    OnPath(path, states, c) || Hopeless(m, h, c.0, c.1)
  }

  /** The invariant of the search loop. */
  ghost predicate Searching<S, V>(m: Model<S, V>, h: History<V>, path: seq<nat>, states: seq<S>, e: int,
                                  cached: set<Pair<S>>) {
    && Laid(h)
    && Path(m, h, path, states)
    && Tried(m, h, Done(path, |path|), states[|path|], e)
    && NoReturnBefore(h, Done(path, |path|), e)
    && (forall c :: c in cached ==> Justified(m, h, path, states, c))
  }

  // ---------------------------------------------------------------------------------
  // The three kinds of step

  lemma DonePrefix(path: seq<nat>, k: nat, i: nat)
    requires k <= |path|
    ensures Done(path + [i], k) == Done(path, k)
    ensures Done(path + [i], |path| + 1) == Done(path, |path|) + {i}
    ensures forall j :: 0 <= j <= k ==> Done(path[..k], j) == Done(path, j)
  {
    assert (path + [i])[..k] == path[..k];
    assert (path + [i])[..|path| + 1] == path + [i] && path[..|path|] == path;
    assert (path + [i])[|path|] == i;
    assert forall j :: j in path + [i] <==> j in path || j == i;
    forall j | 0 <= j <= k ensures Done(path[..k], j) == Done(path, j) {
      assert path[..k][..j] == path[..j];
    }
  }

  lemma DoneStep(path: seq<nat>, k: nat)
    requires 0 < k <= |path|
    ensures Done(path, k) == Done(path, k - 1) + {path[k - 1]}
  {
    var front, last := path[..k - 1], path[k - 1];
    assert path[..k] == front + [last];
    assert forall j :: j in front + [last] <==> j in front || j == last;
  }

  /** At a return every remaining candidate has been tried, so the current branch is hopeless. */
  lemma AtReturn<S, V>(m: Model<S, V>, h: History<V>, done: set<nat>, s: S, e: int, j: nat)
    requires Laid(h) && Tried(m, h, done, s, e)
    requires j in h && j !in done && h[j].ret == e
    ensures Hopeless(m, h, done, s)
  {
    var rest := h - done;
    Unfold(m, s, rest);
    assert j in rest;
    forall i ensures !CanStart(m, s, rest, i) {
      if i in rest && Minimal(rest, i) && StepOf(m, s, rest, i).0 {
        assert !(i != j && Precedes(rest[j], rest[i]));
        assert DeadEnd(m, h, done, s, i);
        assert rest - {i} == h - (done + {i});
      }
    }
  }

  /** The current call cannot be next: go on with the next position. */
  lemma Advance<S, V>(m: Model<S, V>, h: History<V>, path: seq<nat>, states: seq<S>, e: int, cached: set<Pair<S>>,
                      i: nat, e': int)
    requires Searching(m, h, path, states, e, cached)
    requires i in h && h[i].call == e && DeadEnd(m, h, Done(path, |path|), states[|path|], i)
    requires e < e' && forall p :: e < p < e' ==> !Live(h, Done(path, |path|), p)
    ensures Searching(m, h, path, states, e', cached)
  {
    var done := Done(path, |path|);
    NextPosition(m, h, done, states[|path|], e, i, e');
  }

  lemma NextPosition<S, V>(m: Model<S, V>, h: History<V>, done: set<nat>, s: S, e: int, i: nat, e': int)
    requires Laid(h) && Tried(m, h, done, s, e) && NoReturnBefore(h, done, e)
    requires i in h && h[i].call == e && DeadEnd(m, h, done, s, i)
    requires e < e' && forall p :: e < p < e' ==> !Live(h, done, p)
    ensures Tried(m, h, done, s, e') && NoReturnBefore(h, done, e')
  {
    forall j | j in h && j !in done && h[j].call < e' ensures DeadEnd(m, h, done, s, j) {
      assert Live(h, done, h[j].call);
      assert h[j].call == e ==> j == i;
    }
    forall j | j in h && j !in done ensures e' <= h[j].ret {
      assert Live(h, done, h[j].ret);
      assert h[j].ret != e;
    }
  }

  /** A memoised pair that would come next is not on the stack, hence hopeless, and so is every equal one. */
  lemma CacheHit<S(!new), V(!new)>(m: Model<S, V>, h: History<V>, path: seq<nat>, states: seq<S>, e: int,
                                   cached: set<Pair<S>>, i: nat, s': S, c: Pair<S>)
    requires WellBehaved(m) && Searching(m, h, path, states, e, cached)
    requires i !in Done(path, |path|)
    requires c in cached && c.0 == Done(path, |path|) + {i} && m.equal(s', c.1)
    ensures !OnPath(path, states, c)
    ensures Hopeless(m, h, c.0, s')
  {
    forall k | 0 < k <= |path| ensures c != (Done(path, k), states[k]) {
      assert forall j :: j in path[..k] ==> j in path[..|path|];
      assert i !in Done(path, k);
    }
    assert Justified(m, h, path, states, c);
    EqualStates(m, s', c.1, h - c.0);
  }

  /** Linearizing `i` next. */
  lemma Push<S, V>(m: Model<S, V>, h: History<V>, path: seq<nat>, states: seq<S>, e: int, cached: set<Pair<S>>, i: nat,
                   s': S, e': int)
    requires Searching(m, h, path, states, e, cached)
    requires i in h && h[i].call == e && i !in Done(path, |path|)
    requires StepOf(m, states[|path|], h, i) == (true, s')
    requires forall p :: p < e' ==> !Live(h, Done(path, |path|) + {i}, p)
    ensures Searching(m, h, path + [i], states + [s'], e', cached + {(Done(path, |path|) + {i}, s')})
  {
    var path', states' := path + [i], states + [s'];
    var done := Done(path, |path|);
    DonePrefix(path, |path|, i);
    forall k | 0 <= k < |path'| ensures Level(m, h, path', states', k) {
      DonePrefix(path, k, i);
      if k < |path| { assert Level(m, h, path, states, k); }
    }
    forall c | c in cached + {(done + {i}, s')} ensures Justified(m, h, path', states', c) {
      PushJustified(m, h, path, states, i, s', c);
    }
    assert forall j :: j in h && j !in done + {i} ==> Live(h, done + {i}, h[j].call) && Live(h, done + {i}, h[j].ret);
  }

  lemma PushJustified<S, V>(m: Model<S, V>, h: History<V>, path: seq<nat>, states: seq<S>, i: nat, s': S, c: Pair<S>)
    requires |states| == |path| + 1
    requires c == (Done(path, |path|) + {i}, s') || Justified(m, h, path, states, c)
    ensures Justified(m, h, path + [i], states + [s'], c)
  {
    DonePrefix(path, |path|, i);
    if c == (Done(path, |path|) + {i}, s') {
      assert c == (Done(path + [i], |path| + 1), (states + [s'])[|path| + 1]);
    } else if OnPath(path, states, c) {
      var k :| 0 < k <= |path| && c == (Done(path, k), states[k]);
      DonePrefix(path, k, i);
      assert c == (Done(path + [i], k), (states + [s'])[k]);
    }
  }

  /** Undoing the last operation after its branch has turned out hopeless. */
  lemma Pop<S, V>(m: Model<S, V>, h: History<V>, path: seq<nat>, states: seq<S>, e: int, cached: set<Pair<S>>, i: nat,
                  before: set<nat>, e': int)
    requires Searching(m, h, path, states, e, cached) && path != [] && before == Done(path, |path| - 1)
    requires Hopeless(m, h, Done(path, |path|), states[|path|])
    requires path[|path| - 1] == i && i in h && h[i].call < e'
    requires forall p :: h[i].call < p < e' ==> !Live(h, before, p)
    ensures Searching(m, h, path[..|path| - 1], states[..|path|], e', cached)
  {
    hide Justified, Tried, NoReturnBefore, Live, Done;
    var d := |path| - 1;
    DoneStep(path, |path|);
    DonePrefix(path, d, i);
    assert Level(m, h, path, states, d);
    assert DeadEnd(m, h, Done(path, d), states[d], i);
    NextPosition(m, h, Done(path, d), states[d], h[i].call, i, e');
    forall k | 0 <= k < d ensures Level(m, h, path[..d], states[..|path|], k) {
      assert Level(m, h, path, states, k);
    }
    forall c | c in cached ensures Justified(m, h, path[..d], states[..|path|], c) {
      PopJustified(m, h, path, states, c);
    }
  }

  lemma PopJustified<S, V>(m: Model<S, V>, h: History<V>, path: seq<nat>, states: seq<S>, c: Pair<S>)
    requires |states| == |path| + 1 && path != []
    requires Hopeless(m, h, Done(path, |path|), states[|path|])
    requires Justified(m, h, path, states, c)
    ensures Justified(m, h, path[..|path| - 1], states[..|path|], c)
  {
    var d := |path| - 1;
    if OnPath(path, states, c) {
      var k :| 0 < k <= |path| && c == (Done(path, k), states[k]);
      if k <= d {
        DonePrefix(path, d, path[d]);
        assert c == (Done(path[..d], k), states[..|path|][k]);
      }
    }
  }

  // ---------------------------------------------------------------------------------
  // The verdict

  /** Everything linearized: the stack itself is a linearization. */
  lemma Success<S, V>(m: Model<S, V>, h: History<V>, path: seq<nat>, states: seq<S>)
    requires Path(m, h, path, states) && h.Keys <= Done(path, |path|)
    ensures Linearizable(m, h)
  {
    assert h - Done(path, |path|) == map[];
    Unfold(m, states[|path|], map[]);
    Unwind(m, h, path, states, |path|);
    assert h - Done(path, 0) == h;
  }

  lemma {:induction false} Unwind<S, V>(m: Model<S, V>, h: History<V>, path: seq<nat>, states: seq<S>, k: nat)
    requires Path(m, h, path, states) && k <= |path|
    requires LinearizableFrom(m, states[k], h - Done(path, k))
    ensures LinearizableFrom(m, states[0], h - Done(path, 0))
  {
    if k > 0 {
      var i, rest := path[k - 1], h - Done(path, k - 1);
      assert Level(m, h, path, states, k - 1);
      DoneStep(path, k);
      assert rest - {i} == h - Done(path, k);
      assert CanStart(m, states[k - 1], rest, i);
      StartFirst(m, states[k - 1], rest, i);
      Unwind(m, h, path, states, k - 1);
    }
  }

  // ---------------------------------------------------------------------------------
  // Termination: there are only finitely many pairs to memoise

  ghost function Successors<S, V>(m: Model<S, V>, h: History<V>, from: set<Pair<S>>): set<Pair<S>> {
    set c, i | c in from && i in h.Keys && i !in c.0 && StepOf(m, c.1, h, i).0 :: (c.0 + {i}, StepOf(m, c.1, h, i).1)
  }

  /** The pairs that at most `k` steps can reach. */
  ghost function Reach<S, V>(m: Model<S, V>, h: History<V>, k: nat): set<Pair<S>> {
    if k == 0 then {({}, m.init)} else Reach(m, h, k - 1) + Successors(m, h, Reach(m, h, k - 1))
  }

  lemma {:induction false} PathReached<S, V>(m: Model<S, V>, h: History<V>, path: seq<nat>, states: seq<S>, k: nat)
    requires Path(m, h, path, states) && k <= |path|
    ensures (Done(path, k), states[k]) in Reach(m, h, k)
  {
    if k > 0 {
      PathReached(m, h, path, states, k - 1);
      assert Level(m, h, path, states, k - 1);
      var c, i := (Done(path, k - 1), states[k - 1]), path[k - 1];
      DoneStep(path, k);
      var from := Reach(m, h, k - 1);
      assert c in from && i in h.Keys && i !in c.0 && StepOf(m, c.1, h, i) == (true, states[k]);
      assert (c.0 + {i}, StepOf(m, c.1, h, i).1) in Successors(m, h, from);
    } else {
      assert Done(path, 0) == {};
    }
  }

  lemma {:induction false} ReachGrows<S, V>(m: Model<S, V>, h: History<V>, j: nat, k: nat)
    requires j <= k
    ensures Reach(m, h, j) <= Reach(m, h, k)
    decreases k - j
  {
    if j < k { ReachGrows(m, h, j, k - 1); }
  }

  lemma {:induction false} PathLength<S, V>(m: Model<S, V>, h: History<V>, path: seq<nat>, states: seq<S>, k: nat)
    requires Path(m, h, path, states) && k <= |path|
    ensures Done(path, k) <= h.Keys && |Done(path, k)| == k
  {
    if k > 0 {
      PathLength(m, h, path, states, k - 1);
      assert Level(m, h, path, states, k - 1);
      DoneStep(path, k);
    }
  }

  /** Every pair the search can push is one of the finitely many pairs of `Reach(m, h, |h|)`. */
  lemma PushedPairIsReachable<S, V>(m: Model<S, V>, h: History<V>, path: seq<nat>, states: seq<S>)
    requires Path(m, h, path, states)
    ensures (Done(path, |path|), states[|path|]) in Reach(m, h, |h|)
  {
    PathReached(m, h, path, states, |path|);
    PathLength(m, h, path, states, |path|);
    SubsetSize(Done(path, |path|), h.Keys);
    assert |h.Keys| == |h|;
    ReachGrows(m, h, |path|, |h|);
  }
}
