/**
  Linearizability from linearization points: if every operation can be given a point that agrees
  with real time, and the points tell a consistent story about a sequence of states, then the
  history is linearizable.
 */
module Points {
  import opened Linearizability

  /**
    `states[a]` is the state after point `a`.  At every point at most one operation changes the
    state, and it comes first; all others at that point see the new state and leave it alone.
   */
  ghost predicate Story<S, V>(m: Model<S, V>, h: History<V>, pt: map<nat, nat>, states: seq<S>,
                              updates: map<nat, nat>) {
    && pt.Keys == h.Keys && |states| > 0
    && (forall i :: i in h ==> pt[i] < |states|)
    && (forall i, j :: i in h && j in h && Precedes(h[i], h[j]) ==> pt[i] < pt[j])
    && (forall a :: 0 < a < |states| ==> PointUpdates(m, h, pt, states, updates, a))
    && (forall i :: i in h && !IsUpdate(pt, updates, i) ==> StepOf(m, states[pt[i]], h, i) == (true, states[pt[i]]))
  }

  /** `updates[a]` is the operation that changes the state at point `a`. */
  ghost predicate IsUpdate(pt: map<nat, nat>, updates: map<nat, nat>, i: nat)
    requires i in pt
  {
    pt[i] > 0 && pt[i] in updates && updates[pt[i]] == i
  }

  ghost predicate PointUpdates<S, V>(m: Model<S, V>, h: History<V>, pt: map<nat, nat>, states: seq<S>,
                                     updates: map<nat, nat>, a: nat)
    requires 0 < a < |states|
  {
    if a in updates then
      && updates[a] in h && updates[a] in pt && pt[updates[a]] == a
      && StepOf(m, states[a - 1], h, updates[a]) == (true, states[a])
    else
      states[a] == states[a - 1]
  }

  /** What is left of the history once every point before `a`, and the update at `a`, are behind us. */
  ghost predicate From<V>(h: History<V>, rest: History<V>, pt: map<nat, nat>, updates: map<nat, nat>, a: nat)
    requires pt.Keys == h.Keys
  {
    && (forall i :: i in rest ==> i in h && rest[i] == h[i] && pt[i] >= a && (pt[i] == a ==> !IsUpdate(pt, updates, i)))
    && (forall i :: i in h && pt[i] > a ==> i in rest)
  }

  lemma LowestIsMinimal<S, V>(m: Model<S, V>, h: History<V>, rest: History<V>, pt: map<nat, nat>, states: seq<S>,
                              updates: map<nat, nat>, i: nat)
    requires Story(m, h, pt, states, updates) && i in rest && i in h
    requires forall j :: j in rest ==> j in h && rest[j] == h[j] && pt[i] <= pt[j]
    ensures Minimal(rest, i)
  {
  }

  lemma TakeRead<S, V>(m: Model<S, V>, h: History<V>, rest: History<V>, pt: map<nat, nat>, states: seq<S>,
                       updates: map<nat, nat>, a: nat, i: nat)
    requires Story(m, h, pt, states, updates) && a < |states| && From(h, rest, pt, updates, a) && i in rest
    requires pt[i] == a
    ensures Minimal(rest, i) && StepOf(m, states[a], rest, i) == (true, states[a]) && |rest - {i}| < |rest|
    ensures From(h, rest - {i}, pt, updates, a)
  {
    LowestIsMinimal(m, h, rest, pt, states, updates, i);
    RemoveShrinks(rest, i);
  }

  lemma TakeUpdate<S, V>(m: Model<S, V>, h: History<V>, rest: History<V>, pt: map<nat, nat>, states: seq<S>,
                         updates: map<nat, nat>, a: nat, b: nat)
    requires Story(m, h, pt, states, updates) && b == a + 1 < |states| && From(h, rest, pt, updates, a)
    requires forall i :: i in rest ==> pt[i] != a
    ensures b in updates ==>
              && updates[b] in rest && Minimal(rest, updates[b])
              && StepOf(m, states[a], rest, updates[b]) == (true, states[b])
              && From(h, rest - {updates[b]}, pt, updates, b)
    ensures b !in updates ==> states[b] == states[a] && From(h, rest, pt, updates, b)
  {
    assert PointUpdates(m, h, pt, states, updates, b);
    if b in updates {
      LowestIsMinimal(m, h, rest, pt, states, updates, updates[b]);
    }
  }

  lemma {:induction false} StoryFrom<S, V>(m: Model<S, V>, h: History<V>, rest: History<V>, pt: map<nat, nat>,
                                           states: seq<S>, updates: map<nat, nat>, a: nat)
    requires Story(m, h, pt, states, updates) && a < |states| && From(h, rest, pt, updates, a)
    ensures LinearizableFrom(m, states[a], rest)
    decreases |states| - a, |rest|
  {
    hide LinearizableFrom, StepOf, Minimal, PointUpdates;
    Unfold(m, states[a], rest);
    if i :| i in rest && pt[i] == a {
      TakeRead(m, h, rest, pt, states, updates, a, i);
      StoryFrom(m, h, rest - {i}, pt, states, updates, a);
      assert CanStart(m, states[a], rest, i);
    } else if a + 1 < |states| {
      var b := a + 1;
      TakeUpdate(m, h, rest, pt, states, updates, a, b);
      if b in updates {
        StoryFrom(m, h, rest - {updates[b]}, pt, states, updates, b);
        assert CanStart(m, states[a], rest, updates[b]);
      } else {
        StoryFrom(m, h, rest, pt, states, updates, b);
      }
    } else {
      assert rest.Keys == {};
    }
  }

  /** Linearization points make a history linearizable. */
  lemma StoryLinearizes<S, V>(m: Model<S, V>, h: History<V>, pt: map<nat, nat>, states: seq<S>, updates: map<nat, nat>)
    requires Story(m, h, pt, states, updates) && states[0] == m.init
    ensures Linearizable(m, h)
  {
    StoryFrom(m, h, h, pt, states, updates, 0);
  }
}
