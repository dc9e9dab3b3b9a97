/**
  The service is linearizable: in every run, what the clients have seen so far is a linearizable
  history of the sequential key/value store, and every acknowledged update took effect exactly once.
 */
module KvLinearizable {
  import Driver
  import opened Linearizability
  import opened KvModel
  import opened KvServer
  import opened KvSystem
  import opened KvInvariant
  import opened Points
  import opened Histories

  // ---------------------------------------------------------------------------------
  // What the clients saw

  function OpCode(kind: Kind): nat {
    match kind
    case GetOp => 0
    case PutOp => 1
    case AppendOp => 2
  }

  function OutputOf(x: Record): string {
    if x.done.Some? then x.done.value.output else ""
  }

  /** A record as an operation; one that has not returned yet is given the present as its return time. */
  function OperationOf(x: Record, now: nat): KvOperation {
    Operation(In(KvInput(OpCode(x.op.kind), x.op.key, x.op.value)), x.callTime,
              Out(KvOutput(OutputOf(x))), if x.done.Some? then x.done.value.retTime else now)
  }

  /** An operation counts once it has returned, or as soon as its update is in the log. */
  ghost predicate Counts(s: System, r: nat)
    requires r < |s.records|
  {
    s.records[r].done.Some? || (!s.records[r].op.kind.GetOp? && Occurs(s.log, s.records[r].op, |s.log|))
  }

  /** The history so far, completed with the updates under way that have already reached the log. */
  ghost function HistoryOf(s: System): KvHistory {
    map r | 0 <= r < |s.records| && Counts(s, r) :: OperationOf(s.records[r], s.clock)
  }

  // ---------------------------------------------------------------------------------
  // Points

  function Bound(s: System, r: nat): nat
    requires r < |s.records|
  {
    if s.records[r].done.Some? then s.records[r].done.value.retLen else |s.log|
  }

  ghost predicate IsPoint(s: System, r: nat, a: nat)
    requires r < |s.records|
  {
    a <= Bound(s, r) && JustifiedAt(s.log, s.records[r].op, OutputOf(s.records[r]), a)
  }

  lemma HasPoint(s: System, r: nat)
    requires DoneInv(s.log, s.records) && r < |s.records| && Counts(s, r)
    ensures exists a: nat :: IsPoint(s, r, a)
  {
    hide StateAt;
    if s.records[r].done.Some? {
      var a: nat :| && a <= s.records[r].done.value.retLen
                    && JustifiedAt(s.log, s.records[r].op, s.records[r].done.value.output, a);
      assert IsPoint(s, r, a);
    } else {
      var f := FirstOccurrence(s.log, s.records[r].op, |s.log|);
      assert IsPoint(s, r, f + 1);
    }
  }

  ghost function PointOf(s: System, r: nat): (a: nat)
    requires DoneInv(s.log, s.records) && r < |s.records| && Counts(s, r)
    ensures IsPoint(s, r, a)
  {
    HasPoint(s, r);
    var a: nat :| IsPoint(s, r, a);
    a
  }

  ghost function PointsOf(s: System): map<nat, nat>
    requires DoneInv(s.log, s.records)
  {
    map r | 0 <= r < |s.records| && Counts(s, r) :: PointOf(s, r)
  }

  ghost function StatesOf(s: System): seq<Store> {
    seq(|s.log| + 1, a requires 0 <= a <= |s.log| => StateAt(s.log, a).db)
  }

  /** The first occurrence of an update in the log. */
  ghost predicate IsFirstUpdate(log: seq<Entry>, a: nat) {
    0 < a <= |log| && !log[a - 1].op.kind.GetOp? && !Occurs(log, log[a - 1].op, a - 1)
  }

  lemma EntryRecorded(s: System, k: nat)
    requires KnownInv(s.log, s.started, s.requests, s.records) && k < |s.log|
    ensures exists r :: 0 <= r < |s.records| && s.records[r].op == s.log[k].op
  {
    assert EntryPlaced(s.log, s.started, k);
    assert KvInvariant.Recorded(s.records, s.log[k].op);
  }

  ghost function RecordAt(s: System, k: nat): (r: nat)
    requires KnownInv(s.log, s.started, s.requests, s.records) && k < |s.log|
    ensures r < |s.records| && s.records[r].op == s.log[k].op
  {
    EntryRecorded(s, k);
    var r :| 0 <= r < |s.records| && s.records[r].op == s.log[k].op;
    r
  }

  ghost function UpdatesOf(s: System): map<nat, nat>
    requires KnownInv(s.log, s.started, s.requests, s.records)
  {
    map a | 0 < a <= |s.log| && IsFirstUpdate(s.log, a) :: RecordAt(s, a - 1)
  }

  lemma SameOpSameRecord(s: System, r: nat, q: nat)
    requires RecordsInv(s.clerks, s.records, |s.log|, s.clock)
    requires r < |s.records| && q < |s.records| && s.records[r].op == s.records[q].op
    ensures r == q
  {
    assert r != q ==> PairOk(s.records[r], s.records[q]);
  }

  /** The point of an operation lies behind the log as it was when the operation was called. */
  lemma PointAfterCall(s: System, r: nat, a: nat)
    requires PlacedInv(s.log, s.records) && r < |s.records| && IsPoint(s, r, a)
    ensures s.records[r].callLen < a
  {
    hide StateAt;
    var op := s.records[r].op;
    if op.kind.GetOp? {
      var i :| 0 <= i < a && s.log[i].op == op;
    } else {
      assert s.log[a - 1].op == op;
    }
  }

  // ---------------------------------------------------------------------------------
  // Exactly once

  /** The first occurrence of an operation in the log passes the duplicate filter. */
  lemma FirstIsEffective(s: System, k: nat)
    requires Inv(s) && k < |s.log| && !Occurs(s.log, s.log[k].op, k)
    ensures Effective(Ops(s.log), k)
  {
    hide StateAt, ReplyInv, ReplicaInv, HandlerInv, RecordOk, ClerkOk;
    var q := RecordAt(s, k);
    forall j | 0 <= j < k && s.log[j].op.client == s.log[k].op.client ensures s.log[j].op.seqNo < s.log[k].op.seqNo {
      var r := RecordAt(s, j);
      assert s.log[j].op != s.log[k].op;
      assert PairOk(s.records[q], s.records[r]);
      if s.log[j].op.seqNo > s.log[k].op.seqNo {
        var _ := DoneBefore(s, q);
      }
    }
  }

  lemma DoneBefore(s: System, r: nat) returns (a: nat)
    requires DoneInv(s.log, s.records) && r < |s.records| && s.records[r].done.Some?
    ensures 0 < a <= |s.log| && a <= s.records[r].done.value.retLen && Occurs(s.log, s.records[r].op, a)
  {
    hide StateAt;
    a :| a <= s.records[r].done.value.retLen && JustifiedAt(s.log, s.records[r].op, s.records[r].done.value.output, a);
    if !s.records[r].op.kind.GetOp? { assert s.log[a - 1].op == s.records[r].op; }
  }

  /**
    Every acknowledged Put or Append takes effect exactly once: exactly one of its log entries passes
    the duplicate filter, and it was committed between the call and the return.
   */
  lemma ExactlyOnce(run: seq<System>, steps: seq<Step>, n: nat, r: nat) returns (k: nat)
    requires Run(run, steps) && n < |run|
    requires r < |run[n].records| && run[n].records[r].done.Some? && !run[n].records[r].op.kind.GetOp?
    ensures var s := run[n];
            && k < |s.log| && s.log[k].op == s.records[r].op && Effective(Ops(s.log), k)
            && s.records[r].callLen <= k < s.records[r].done.value.retLen
            && forall j :: 0 <= j < |s.log| && s.log[j].op == s.records[r].op && Effective(Ops(s.log), j) ==> j == k
  {
    hide Run, StateAt, RecordsInv, ReplyInv, ReplicaInv, HandlerInv, KnownInv;
    var s := run[n];
    RunInv(run, steps, n);
    var a: nat :| && a <= s.records[r].done.value.retLen
                  && JustifiedAt(s.log, s.records[r].op, s.records[r].done.value.output, a);
    k := a - 1;
    FirstIsEffective(s, k);
    forall j | 0 <= j < |s.log| && s.log[j].op == s.records[r].op && Effective(Ops(s.log), j) ensures j == k {
      assert Ops(s.log)[j] == Ops(s.log)[k];
    }
  }

  /** Every get returns the value its key had at some log length between its call and its return. */
  lemma GetIsCurrent(run: seq<System>, steps: seq<Step>, n: nat, r: nat) returns (a: nat)
    requires Run(run, steps) && n < |run|
    requires r < |run[n].records| && run[n].records[r].done.Some? && run[n].records[r].op.kind.GetOp?
    ensures var s, x := run[n], run[n].records[r];
            && x.callLen < a <= x.done.value.retLen <= |s.log|
            && x.done.value.output == Lookup(StateAt(s.log, a).db, x.op.key)
  {
    hide Run, StateAt, ReplyInv, ReplicaInv, HandlerInv, KnownInv;
    var s := run[n];
    RunInv(run, steps, n);
    assert RecordOk(s.clerks, s.records, |s.log|, s.clock, r);
    HasPoint(s, r);
    a :| IsPoint(s, r, a);
    PointAfterCall(s, r, a);
  }

  // ---------------------------------------------------------------------------------
  // The story the log tells

  lemma FirstIsUnique(log: seq<Entry>, op: Op, a: nat, b: nat)
    requires 0 < a <= |log| && log[a - 1].op == op && !Occurs(log, op, a - 1)
    requires 0 < b <= |log| && log[b - 1].op == op && !Occurs(log, op, b - 1)
    ensures a == b
  {
  }

  lemma UpdatePoint(s: System, a: nat)
    requires Inv(s) && IsFirstUpdate(s.log, a)
    ensures var r := RecordAt(s, a - 1);
            && Counts(s, r) && PointOf(s, r) == a
            && StepOf(WholeStore(), StatesOf(s)[a - 1], HistoryOf(s), r) == (true, StatesOf(s)[a])
  {
    hide StateAt, RecordsInv, ReplyInv, ReplicaInv, HandlerInv, PlacedInv, KnownInv;
    var r := RecordAt(s, a - 1);
    var op := s.log[a - 1].op;
    assert Occurs(s.log, op, |s.log|);
    var b := PointOf(s, r);
    FirstIsUnique(s.log, op, a, b);
    FirstIsEffective(s, a - 1);
    FilterAt(s.log, a - 1);
    StateAtStep(s.log, a - 1);
  }

  lemma FilterAt(log: seq<Entry>, k: nat)
    requires k < |log|
    ensures IsNew(StateAt(log, k), log[k].op) <==> Effective(Ops(log), k)
  {
    FilterMeansEffective(Ops(log), k);
  }

  lemma QuietPoint(s: System, a: nat)
    requires 0 < a <= |s.log| && !IsFirstUpdate(s.log, a)
    ensures StatesOf(s)[a] == StatesOf(s)[a - 1]
  {
    StateAtStep(s.log, a - 1);
    if !s.log[a - 1].op.kind.GetOp? {
      var k :| 0 <= k < a - 1 && s.log[k].op == s.log[a - 1].op;
      Redelivered(Ops(s.log), a - 1, k);
    }
  }

  lemma ReadPoint(s: System, r: nat)
    requires Inv(s) && r < |s.records| && Counts(s, r)
    requires !IsUpdate(PointsOf(s), UpdatesOf(s), r)
    ensures PointOf(s, r) <= |s.log|
    ensures StepOf(WholeStore(), StatesOf(s)[PointOf(s, r)], HistoryOf(s), r) == (true, StatesOf(s)[PointOf(s, r)])
  {
    hide StateAt, RecordsInv, ReplyInv, ReplicaInv, HandlerInv, PlacedInv, KnownInv, DoneInv;
    var a, op := PointOf(s, r), s.records[r].op;
    if !op.kind.GetOp? {
      assert IsFirstUpdate(s.log, a);
      SameOpSameRecord(s, r, RecordAt(s, a - 1));
    }
  }

  lemma PointsAgreeWithTime(s: System, i: nat, j: nat)
    requires Inv(s) && i in HistoryOf(s) && j in HistoryOf(s) && Precedes(HistoryOf(s)[i], HistoryOf(s)[j])
    ensures PointOf(s, i) < PointOf(s, j)
  {
    hide StateAt, ReplyInv, ReplicaInv, HandlerInv, KnownInv, DoneInv, JustifiedAt, PlacedInv;
    var x, y := s.records[i], s.records[j];
    assert RecordOk(s.clerks, s.records, |s.log|, s.clock, i) && RecordOk(s.clerks, s.records, |s.log|, s.clock, j);
    assert i != j;
    assert PairOk(x, y);
    PointAfterCall(s, j, PointOf(s, j));
  }

  lemma LogTellsStory(s: System)
    requires Inv(s)
    ensures Story(WholeStore(), HistoryOf(s), PointsOf(s), StatesOf(s), UpdatesOf(s))
  {
    hide Inv, StepOf, Counts, JustifiedAt, StateAt, IsFirstUpdate;
    assert DoneInv(s.log, s.records) && KnownInv(s.log, s.started, s.requests, s.records) by { InvParts(s); }
    var m, h, pt, states, updates := WholeStore(), HistoryOf(s), PointsOf(s), StatesOf(s), UpdatesOf(s);
    assert pt.Keys == h.Keys;
    forall i | i in h
      ensures pt[i] < |states|
      ensures !IsUpdate(pt, updates, i) ==> StepOf(m, states[pt[i]], h, i) == (true, states[pt[i]])
    {
      PointInLog(s, i);
      if !IsUpdate(pt, updates, i) { ReadPoint(s, i); }
    }
    forall i, j | i in h && j in h && Precedes(h[i], h[j]) ensures pt[i] < pt[j] {
      PointsAgreeWithTime(s, i, j);
    }
    forall a | 0 < a < |states| ensures PointUpdates(m, h, pt, states, updates, a) {
      if a in updates { UpdatePoint(s, a); } else { QuietPoint(s, a); }
    }
  }

  lemma InvParts(s: System)
    requires Inv(s)
    ensures DoneInv(s.log, s.records) && KnownInv(s.log, s.started, s.requests, s.records)
  {
  }

  lemma PointInLog(s: System, r: nat)
    requires DoneInv(s.log, s.records) && r < |s.records| && Counts(s, r)
    ensures PointOf(s, r) <= |s.log|
  {
  }

  /** In every state of every run, what has happened so far is linearizable. */
  lemma ServiceLinearizable(run: seq<System>, steps: seq<Step>, k: nat)
    requires Run(run, steps) && k < |run|
    ensures Linearizable(WholeStore(), HistoryOf(run[k]))
  {
    hide Run, Inv, Linearizable, Story;
    var s := run[k];
    RunInv(run, steps, k);
    InvParts(s);
    LogTellsStory(s);
    assert StatesOf(s)[0] == map[];
    StoryLinearizes(WholeStore(), HistoryOf(s), PointsOf(s), StatesOf(s), UpdatesOf(s));
  }

  /** The operations as the clients recorded them. */
  function ClientHistory(s: System): (ops: seq<KvOperation>)
    ensures |ops| == |s.records| && forall r :: 0 <= r < |ops| ==> ops[r] == OperationOf(s.records[r], s.clock)
  {
    seq(|s.records|, r requires 0 <= r < |s.records| => OperationOf(s.records[r], s.clock))
  }

  /** When no call is pending, the recorded history meets what the checker asks for, and is linearizable. */
  lemma ReadyForChecker(run: seq<System>, steps: seq<Step>, k: nat)
    requires Run(run, steps) && k < |run|
    requires forall r :: 0 <= r < |run[k].records| ==> run[k].records[r].done.Some?
    ensures Timely(ClientHistory(run[k]))
    ensures Linearizable(WholeStore(), Indexed(ClientHistory(run[k])))
  {
    hide Run, Linearizable, KnownInv, DoneInv, ReplyInv, ReplicaInv, HandlerInv, PlacedInv;
    var s := run[k];
    RunInv(run, steps, k);
    ServiceLinearizable(run, steps, k);
    assert HistoryOf(s) == Indexed(ClientHistory(s));
    forall i, j | 0 <= i < |s.records| && 0 <= j < |s.records|
      ensures s.records[i].callTime < s.records[i].done.value.retTime
      ensures s.records[i].callTime != s.records[j].done.value.retTime
      ensures i != j ==> s.records[i].callTime != s.records[j].callTime
      ensures i != j ==> s.records[i].done.value.retTime != s.records[j].done.value.retTime
    {
      assert RecordOk(s.clerks, s.records, |s.log|, s.clock, i);
      assert i != j ==> PairOk(s.records[i], s.records[j]) && PairOk(s.records[j], s.records[i]);
    }
  }

  /** So the checker accepts what the service has done, whatever the timer does. */
  method CheckerNeverRejects(ghost run: seq<System>, ghost steps: seq<Step>, ghost k: nat,
                             history: seq<KvOperation>, timeout: nat -> bool)
    returns (ok: bool)
    requires Run(run, steps) && k < |run| && run[k].records != []
    requires forall r :: 0 <= r < |run[k].records| ==> run[k].records[r].done.Some?
    requires history == ClientHistory(run[k])
    ensures ok
  {
    hide Run, Linearizable, Timely, WholeStore;
    ReadyForChecker(run, steps, k);
    ghost var timedOut;
    ok, timedOut := Driver.CheckOperationsTimeout(history, timeout);
  }
}
