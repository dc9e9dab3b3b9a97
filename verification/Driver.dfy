/**
  The drivers around the search.  `CheckOperationsTimeout` starts one goroutine per partition and
  collects their results over a channel while a shared flag may tell the rest to give up; the
  protocol is a state machine here, and its verdict is proved right over every run.  The sequential
  methods put all stages of the checker together.
 */
module Driver {
  import opened Linearizability
  import opened Entries
  import opened EntryList
  import opened Histories
  import opened Checker
  import opened KvModel

  // ---------------------------------------------------------------------------------
  // One worker

  /** What a goroutine does for one partition. */
  method CheckOne<S(!new), V(0, !new)>(m: Model<S, V>, ops: seq<Operation<V>>, kill: nat -> bool)
    returns (ok: bool, ghost killed: bool)
    requires WellBehaved(m) && Timely(ops)
    ensures ok ==> Linearizable(m, Indexed(ops))
    ensures !ok && !killed ==> !Linearizable(m, Indexed(ops))
    ensures killed ==> exists t: nat :: kill(t)
  {
    hide Linearizable, Timely, Indexed, HistoryOf, Paired, Chain, Holds, WellBehaved, EventsOf;
    var entries := MakeEntries(ops);
    EventsKeepLinearizability(m, entries, ops);
    var l, nodes := MakeLinkedEntries(entries);
    ok, killed := CheckSingle(m, l, kill, entries, nodes);
  }

  /**
    The same for a history of events with arbitrary ids.  A model without a partition function for
    events gets a single partition; `timeout` tells whether the timer fires before its result.
   */
  method CheckEventsTimeout<S(!new), V(0, !new)>(m: Model<S, V>, history: seq<Event<V>>, timeout: bool)
    returns (ok: bool)
    requires WellBehaved(m) && Paired(Converted(history))
    ensures !timeout ==> (ok <==> Linearizable(m, HistoryOf(Converted(history))))
    ensures timeout ==> ok
  {
    hide Linearizable, HistoryOf, Paired, Chain, Holds, WellBehaved, Renumbered;
    var renumbered := Renumber(history);
    RenumberingKeepsLinearizability(m, history, renumbered);
    var entries := ConvertEntries(renumbered);
    var l, nodes := MakeLinkedEntries(entries);
    if timeout {
      return true;
    }
    ghost var killed;
    ok, killed := CheckSingle(m, l, _ => false, entries, nodes);
  }

  // ---------------------------------------------------------------------------------
  // The collecting loop and its workers, as a protocol

  datatype Worker = Running | Finished(result: bool)

  /** `received` are the workers whose result the driver has taken from the channel. */
  datatype State = State(workers: seq<Worker>, received: set<nat>, ok: bool, count: nat, kill: bool, returned: bool,
                         timedOut: bool)

  ghost predicate Init(lin: seq<bool>, s: State) {
    && |s.workers| == |lin| && (forall i :: 0 <= i < |lin| ==> s.workers[i] == Running)
    && s.received == {} && s.ok && s.count == 0 && !s.kill && !s.returned && !s.timedOut
  }

  /**
    Worker `i` ends.  By the contract of `CheckOne` a true result is always genuine, and a false one
    is genuine unless the worker has seen the kill flag set.
   */
  ghost predicate WorkerEnds(lin: seq<bool>, s: State, s': State, i: nat, r: bool) {
    && i < |s.workers| == |lin| && s.workers[i] == Running
    && (r ==> lin[i]) && (!r ==> !lin[i] || s.kill)
    && s' == s.(workers := s.workers[i := Finished(r)])
  }

  /** The driver takes the result of worker `i` from the channel. */
  ghost predicate Receives(s: State, s': State, i: nat) {
    && !s.returned && i < |s.workers| && s.workers[i].Finished? && i !in s.received
    && var ok := s.ok && s.workers[i].result;
       if !ok then
         s' == s.(received := s.received + {i}, ok := false, kill := true, returned := true)
       else
         s' == s.(received := s.received + {i}, count := s.count + 1, returned := s.count + 1 >= |s.workers|)
  }

  ghost predicate TimesOut(s: State, s': State) {
    !s.returned && s' == s.(returned := true, timedOut := true)
  }

  ghost predicate Next(lin: seq<bool>, s: State, s': State) {
    || (exists i: nat, r :: WorkerEnds(lin, s, s', i, r))
    || (exists i: nat :: Receives(s, s', i))
    || TimesOut(s, s')
  }

  ghost predicate Run(lin: seq<bool>, run: seq<State>) {
    && |run| > 0 && Init(lin, run[0])
    && (forall k :: 0 <= k < |run| - 1 ==> Next(lin, run[k], run[k + 1]))
  }

  /** What every state of every run satisfies. */
  ghost predicate Sound(lin: seq<bool>, s: State) {
    && |s.workers| == |lin|
    && s.received <= Below(|lin|) && s.count <= |s.received| && (s.ok ==> s.count == |s.received|)
    && (forall i :: 0 <= i < |lin| && s.workers[i].Finished? ==> FinishedRight(lin, s, i))
    && (forall i :: i in s.received && s.ok ==> lin[i])
    && (s.kill ==> s.returned && !s.ok)
    && (!s.ok ==> s.returned && exists i :: 0 <= i < |lin| && !lin[i])
    && (s.returned && s.ok && !s.timedOut ==> |lin| > 0 && s.count >= |lin|)
  }

  ghost predicate FinishedRight(lin: seq<bool>, s: State, i: nat)
    requires i < |lin| == |s.workers| && s.workers[i].Finished?
  {
    && (s.workers[i].result ==> lin[i])
    && (!s.workers[i].result ==> !lin[i] || s.kill)
  }

  lemma SoundNext(lin: seq<bool>, s: State, s': State)
    requires Sound(lin, s) && Next(lin, s, s')
    ensures Sound(lin, s')
  {
    if i: nat, r :| WorkerEnds(lin, s, s', i, r) {
      forall j | 0 <= j < |lin| && s'.workers[j].Finished? ensures FinishedRight(lin, s', j) {
        if j != i { assert FinishedRight(lin, s, j); }
      }
    } else if i: nat :| Receives(s, s', i) {
      assert FinishedRight(lin, s, i);
      forall j | 0 <= j < |lin| && s'.workers[j].Finished? ensures FinishedRight(lin, s', j) {
        assert FinishedRight(lin, s, j);
      }
    } else {
      forall j | 0 <= j < |lin| && s'.workers[j].Finished? ensures FinishedRight(lin, s', j) {
        assert FinishedRight(lin, s, j);
      }
    }
  }

  lemma {:induction false} RunSound(lin: seq<bool>, run: seq<State>, k: nat)
    requires Run(lin, run) && k < |run|
    ensures Sound(lin, run[k])
  {
    if k > 0 {
      RunSound(lin, run, k - 1);
      assert Next(lin, run[k - 1], run[k - 1 + 1]);
      SoundNext(lin, run[k - 1], run[k]);
    }
  }

  /**
    In every run, whatever the order of results, the timing of the kill flag and timeouts: a false
    verdict means that some partition is not linearizable, and a true verdict without a timeout means
    that all of them are.
   */
  lemma Verdict(lin: seq<bool>, run: seq<State>, k: nat)
    requires Run(lin, run) && k < |run| && run[k].returned
    ensures !run[k].ok ==> exists i :: 0 <= i < |lin| && !lin[i]
    ensures run[k].ok && !run[k].timedOut ==> forall i :: 0 <= i < |lin| ==> lin[i]
    ensures |lin| == 0 ==> run[k].timedOut
  {
    RunSound(lin, run, k);
    var s := run[k];
    if s.ok && !s.timedOut {
      var all := Below(|lin|);
      assert all == s.received + (all - s.received);
      assert forall i :: 0 <= i < |lin| ==> i in all;
    }
  }

  // ---------------------------------------------------------------------------------
  // All stages together, for the key/value store

  lemma PartsTimely(history: seq<KvOperation>, parts: seq<seq<KvOperation>>, keys: seq<string>, j: nat)
    requires Timely(history) && Partitions(history, parts, keys) && j < |parts|
    ensures Timely(parts[j])
  {
    var w := Where(history, keys[j]);
    assert forall k :: 0 <= k < |parts[j]| ==> parts[j][k] == history[w[k]];
  }

  lemma PartitionsNonempty(history: seq<KvOperation>, parts: seq<seq<KvOperation>>, keys: seq<string>)
    requires Partitions(history, parts, keys) && history != []
    ensures |parts| > 0
  {
    assert Key(history[0]) in keys;
  }

  /**
    The verdict on the whole store, over every run of the protocol in which the workers check the
    partitions of a history.
   */
  lemma VerdictOnStore(history: seq<KvOperation>, parts: seq<seq<KvOperation>>, keys: seq<string>,
                       lin: seq<bool>, run: seq<State>, k: nat)
    requires Timely(history) && Partitions(history, parts, keys) && |lin| == |parts|
    requires forall i :: 0 <= i < |lin| ==> (lin[i] <==> Linearizable(PerKey(), Indexed(parts[i])))
    requires Run(lin, run) && k < |run| && run[k].returned
    ensures !run[k].ok ==> !Linearizable(WholeStore(), Indexed(history))
    ensures run[k].ok && !run[k].timedOut ==> Linearizable(WholeStore(), Indexed(history))
  {
    hide Linearizable, Timely, Indexed, Partitions, WholeStore, PerKey, Run;
    TimelyIsWellTimed(history);
    PartitionsDecide(history, parts, keys);
    Verdict(lin, run, k);
  }

  /**
    `CheckOperationsTimeout` with the key/value model.  Results are taken in any order;
    `timeout(k)` tells whether the timer fires before result k.  On an empty history without a
    timeout the Go loop would wait for ever, hence the first precondition.
   */
  method CheckOperationsTimeout(history: seq<KvOperation>, timeout: nat -> bool)
    returns (ok: bool, ghost timedOut: bool)
    requires history != [] && Timely(history)
    ensures !ok ==> !Linearizable(WholeStore(), Indexed(history))
    ensures ok && !timedOut ==> Linearizable(WholeStore(), Indexed(history))
    ensures timedOut ==> exists k: nat :: timeout(k)
  {
    hide Linearizable, Timely, Indexed, Partitions, WholeStore, PerKey;
    ghost var keys;
    var partitions;
    partitions, keys := Partition(history);
    PartitionsNonempty(history, partitions, keys);
    TimelyIsWellTimed(history);
    PartitionsDecide(history, partitions, keys);
    PerKeyWellBehaved();
    ok, timedOut := true, false;
    var waiting := Below(|partitions|);  // the workers whose result is still to come
    var count: nat := 0;
    while true
      invariant ok && !timedOut && count < |partitions| && |waiting| == |partitions| - count
      invariant forall j :: j in waiting ==> 0 <= j < |partitions|
      invariant forall j :: 0 <= j < |partitions| && j !in waiting ==> Linearizable(PerKey(), Indexed(partitions[j]))
      decreases waiting
    {
      if timeout(count) {
        timedOut := true;
        break;
      }
      var j :| j in waiting;
      PartsTimely(history, partitions, keys, j);
      ghost var killed;
      var result;
      result, killed := CheckOne(PerKey(), partitions[j], _ => false);
      assert waiting == (waiting - {j}) + {j};
      waiting := waiting - {j};
      ok := ok && result;
      if !ok {
        break;
      }
      count := count + 1;
      if count >= |partitions| {
        assert |waiting| == 0;
        break;
      }
    }
  }

  lemma TimelyIsWellTimed<V>(history: seq<Operation<V>>)
    requires Timely(history)
    ensures WellTimed(Indexed(history))
  {
  }
}
