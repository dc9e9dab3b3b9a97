/**
  The key/value state machine of `kvraft/server.go`: how a server applies committed commands,
  filters duplicates and takes and restores snapshots.
 */
module KvServer {
  import opened Common
  import opened KvModel

  datatype Kind = GetOp | PutOp | AppendOp

  datatype Op = Op(key: string, value: string, kind: Kind, client: int, seqNo: nat)

  /** The last request of a client that was applied, with the value a get returned. */
  datatype LatestReply = LatestReply(seqNo: nat, value: string)

  datatype KvState = KvState(db: Store, duplicate: map<int, LatestReply>)

  const Empty: KvState := KvState(map[], map[])

  /** The duplicate filter lets the command through. */
  predicate IsNew(st: KvState, op: Op) {
    op.client !in st.duplicate || st.duplicate[op.client].seqNo < op.seqNo
  }

  /** The effect of a command on the store, without any filter. */
  function Perform(db: Store, op: Op): Store {
    match op.kind
    case GetOp => db
    case PutOp => db[op.key := op.value]
    case AppendOp => db[op.key := Lookup(db, op.key) + op.value]
  }

  function ReplyTo(db: Store, op: Op): LatestReply {
    LatestReply(op.seqNo, if op.kind.GetOp? then Lookup(db, op.key) else "")
  }

  function Apply(st: KvState, op: Op): KvState {
    if IsNew(st, op) then KvState(Perform(st.db, op), st.duplicate[op.client := ReplyTo(st.db, op)]) else st
  }

  /** The state after applying the committed commands `log` one by one. */
  function Replay(log: seq<Op>): KvState {
    if log == [] then Empty else Apply(Replay(log[..|log| - 1]), log[|log| - 1])
  }

  lemma ReplaySnoc(log: seq<Op>, op: Op)
    ensures Replay(log + [op]) == Apply(Replay(log), op)
  {
    assert (log + [op])[..|log|] == log;
  }

  lemma ReplayStep(log: seq<Op>, k: nat)
    requires k < |log|
    ensures Replay(log[..k + 1]) == Apply(Replay(log[..k]), log[k])
  {
    assert log[..k + 1] == log[..k] + [log[k]];
    ReplaySnoc(log[..k], log[k]);
  }

  // ---------------------------------------------------------------------------------
  // What the filter means

  /** The command at `k` has a higher number than every earlier one of the same client. */
  ghost predicate Effective(log: seq<Op>, k: nat)
    requires k < |log|
  {
    forall j :: 0 <= j < k && log[j].client == log[k].client ==> log[j].seqNo < log[k].seqNo
  }

  /** The table holds, for every client seen, the highest number and the reply given to it. */
  ghost predicate TableOf(log: seq<Op>, dup: map<int, LatestReply>) {
    && (forall c :: c in dup ==> Recorded(log, dup, c))
    && (forall j :: 0 <= j < |log| ==> log[j].client in dup && log[j].seqNo <= dup[log[j].client].seqNo)
  }

  ghost predicate Recorded(log: seq<Op>, dup: map<int, LatestReply>, c: int)
    requires c in dup
  {
    exists k :: IsReplyAt(log, dup[c], c, k)
  }

  ghost predicate IsReplyAt(log: seq<Op>, r: LatestReply, c: int, k: nat) {
    && k < |log| && log[k].client == c && Effective(log, k)
    && r == ReplyTo(Replay(log[..k]).db, log[k])
  }

  lemma IsReplyLater(log: seq<Op>, op: Op, r: LatestReply, c: int, k: nat)
    requires IsReplyAt(log, r, c, k)
    ensures IsReplyAt(log + [op], r, c, k)
  {
    assert (log + [op])[..k] == log[..k];
  }

  lemma {:induction false} ReplayTable(log: seq<Op>)
    ensures TableOf(log, Replay(log).duplicate)
  {
    if log != [] {
      var n := |log| - 1;
      var front, op := log[..n], log[n];
      ReplayTable(front);
      assert log == front + [op];
      TableSnoc(front, op);
    }
  }

  lemma TableSnoc(log: seq<Op>, op: Op)
    requires TableOf(log, Replay(log).duplicate)
    ensures TableOf(log + [op], Apply(Replay(log), op).duplicate)
  {
    var dup, dup' := Replay(log).duplicate, Apply(Replay(log), op).duplicate;
    var log' := log + [op];
    forall c | c in dup' ensures Recorded(log', dup', c) {
      if c in dup && dup'[c] == dup[c] {
        var k: nat :| IsReplyAt(log, dup[c], c, k);
        IsReplyLater(log, op, dup[c], c, k);
      } else {
        assert log'[..|log|] == log;
        assert forall j :: 0 <= j < |log| ==> log'[j] == log[j];
        assert IsReplyAt(log', dup'[c], c, |log|);
      }
    }
    forall j | 0 <= j < |log'| ensures log'[j].client in dup' && log'[j].seqNo <= dup'[log'[j].client].seqNo {
      if j < |log| { assert log'[j] == log[j]; }
    }
  }

  /** The filter lets through exactly the commands whose number exceeds all earlier ones of their client. */
  lemma FilterMeansEffective(log: seq<Op>, k: nat)
    requires k < |log|
    ensures IsNew(Replay(log[..k]), log[k]) <==> Effective(log, k)
  {
    ReplayTable(log[..k]);
    var dup, c := Replay(log[..k]).duplicate, log[k].client;
    assert forall j :: 0 <= j < k ==> log[..k][j] == log[j];
    if c in dup {
      assert Recorded(log[..k], dup, c);
      var j: nat :| IsReplyAt(log[..k], dup[c], c, j);
      assert log[j].seqNo == dup[c].seqNo;
    }
  }

  /** The effective commands of `log`, in order. */
  ghost function EffectiveOps(log: seq<Op>): seq<Op> {
    if log == [] then [] else
      var n := |log| - 1;
      EffectiveOps(log[..n]) + (if Effective(log, n) then [log[n]] else [])
  }

  function PerformAll(ops: seq<Op>): Store {
    if ops == [] then map[] else Perform(PerformAll(ops[..|ops| - 1]), ops[|ops| - 1])
  }

  /** Replaying with the filter is the same as performing the effective commands without one. */
  lemma {:induction false} ReplayIsEffective(log: seq<Op>)
    ensures Replay(log).db == PerformAll(EffectiveOps(log))
  {
    hide Effective, Perform, IsNew;
    if log != [] {
      var n := |log| - 1;
      ReplayIsEffective(log[..n]);
      FilterMeansEffective(log, n);
      if Effective(log, n) {
        var ops := EffectiveOps(log[..n]);
        assert (ops + [log[n]])[..|ops|] == ops;
      } else {
        assert EffectiveOps(log) == EffectiveOps(log[..n]);
      }
    }
  }

  /** Committed commands that are already covered are filtered out, so redelivering them is harmless. */
  lemma Redelivered(log: seq<Op>, covered: nat, k: nat)
    requires k < covered <= |log|
    ensures Apply(Replay(log[..covered]), log[k]) == Replay(log[..covered])
  {
    ReplayTable(log[..covered]);
    assert log[..covered][k] == log[k];
  }

  // ---------------------------------------------------------------------------------
  // Messages from Raft

  /** What is encoded into a snapshot. */
  datatype Snapshot = Snapshot(st: KvState, index: nat)

  /** A message on the apply channel: a command (nil for the placeholder entry) or a snapshot to install. */
  datatype Msg = Command(index: nat, op: Option<Op>) | UseSnapshot(index: nat, data: Option<Snapshot>)

  /** A server: its state machine, the index of its last snapshot, and the snapshot held by the persister. */
  datatype Server = Server(st: KvState, snapshotIndex: nat, saved: Option<Snapshot>)

  function TakeSnapshot(s: Server, index: nat): Server {
    s.(snapshotIndex := index, saved := Some(Snapshot(s.st, index)))
  }

  function Restore(s: Server, data: Option<Snapshot>): Server {
    if data.None? then s else s.(st := data.value.st, snapshotIndex := data.value.index)
  }

  /** One iteration of the apply loop; `snapshotNow` is what `needSnapshot` answers. */
  function Deliver(s: Server, msg: Msg, snapshotNow: bool): Server {
    match msg
    case UseSnapshot(index, data) => TakeSnapshot(Restore(s, data), index)
    case Command(index, op) =>
      if op.Some? && index > s.snapshotIndex then
        var s' := s.(st := Apply(s.st, op.value));
        if snapshotNow then TakeSnapshot(s', index) else s'
      else s
  }

  /** The server's state is the replay of the first `covered` committed commands. */
  ghost predicate Covers(log: seq<Op>, s: Server, covered: nat) {
    && s.snapshotIndex <= covered <= |log|
    && s.st == Replay(log[..covered])
    && (s.saved.Some? ==> ValidSnapshot(log, s.saved.value))
  }

  /** A snapshot labelled `index` covers at least that much of the log. */
  ghost predicate ValidSnapshot(log: seq<Op>, snap: Snapshot) {
    exists b: nat :: SnapshotAt(log, snap, b)
  }

  ghost predicate SnapshotAt(log: seq<Op>, snap: Snapshot, b: nat) {
    snap.index <= b <= |log| && snap.st == Replay(log[..b])
  }

  /** The snapshot covers the first `b` commands, and the message is not labelled beyond that. */
  ghost predicate InstallsAt(log: seq<Op>, index: nat, data: Option<Snapshot>, b: nat) {
    data.Some? && SnapshotAt(log, data.value, b) && index <= b
  }

  /** Commands are committed ones, at most the next one; snapshots cover what they are labelled with. */
  ghost predicate ValidMsg(log: seq<Op>, covered: nat, msg: Msg) {
    match msg
    case Command(index, op) => op.Some? ==> 0 < index <= covered + 1 && index <= |log| && op.value == log[index - 1]
    case UseSnapshot(index, data) => exists b: nat :: InstallsAt(log, index, data, b)
  }

  /** How far the log is covered after a message. */
  ghost function Covered(log: seq<Op>, covered: nat, msg: Msg): nat
    requires ValidMsg(log, covered, msg)
  {
    match msg
    case Command(index, op) => if op.Some? && index == covered + 1 then index else covered
    case UseSnapshot(index, data) => var b: nat :| InstallsAt(log, index, data, b); b
  }

  lemma DeliverCovers(log: seq<Op>, s: Server, covered: nat, msg: Msg, snapshotNow: bool)
    requires Covers(log, s, covered) && ValidMsg(log, covered, msg)
    ensures Covers(log, Deliver(s, msg, snapshotNow), Covered(log, covered, msg))
  {
    var covered', s' := Covered(log, covered, msg), Deliver(s, msg, snapshotNow);
    match msg
    case UseSnapshot(index, data) =>
      assert SnapshotAt(log, s'.saved.value, covered');
    case Command(index, op) =>
      if op.Some? {
        if index == covered + 1 {
          ReplayStep(log, covered);
        } else {
          Redelivered(log, covered, index - 1);
        }
        if snapshotNow && index > s.snapshotIndex {
          assert SnapshotAt(log, s'.saved.value, covered');
        }
      }
  }

  /** Once a snapshot is installed, its label decides which commands are still applied. */
  lemma InstalledLabel(s: Server, index: nat, data: Option<Snapshot>, i: nat, op: Op, now: bool)
    ensures var s' := Deliver(s, UseSnapshot(index, data), now);
            && s'.st == (if data.Some? then data.value.st else s.st) && s'.saved == Some(Snapshot(s'.st, index))
            && Deliver(s', Command(i, Some(op)), false).st == if i <= index then s'.st else Apply(s'.st, op)
  {
  }

  /** A stream of messages, and for each the answer of `needSnapshot`. */
  function DeliverAll(s: Server, msgs: seq<(Msg, bool)>): Server {
    if msgs == [] then s else
      var n := |msgs| - 1;
      Deliver(DeliverAll(s, msgs[..n]), msgs[n].0, msgs[n].1)
  }

  /** Every message of the stream is valid where it arrives, and in the end `result` commands are covered. */
  ghost predicate ValidStream(log: seq<Op>, covered: nat, msgs: seq<(Msg, bool)>, result: nat) {
    if msgs == [] then result == covered else
      var n := |msgs| - 1;
      exists c: nat :: && ValidStream(log, covered, msgs[..n], c) && ValidMsg(log, c, msgs[n].0)
                       && result == Covered(log, c, msgs[n].0)
  }

  /**
    After every valid stream, with redelivered commands, snapshots taken at any time and snapshots
    installed from elsewhere, the state is the replay of the covered prefix of the committed log.
   */
  lemma {:induction false} StreamReplays(log: seq<Op>, s: Server, covered: nat, msgs: seq<(Msg, bool)>, result: nat)
    requires Covers(log, s, covered) && ValidStream(log, covered, msgs, result)
    ensures Covers(log, DeliverAll(s, msgs), result)
    ensures DeliverAll(s, msgs).st.db == PerformAll(EffectiveOps(log[..result]))
  {
    if msgs != [] {
      var n := |msgs| - 1;
      var c: nat :| && ValidStream(log, covered, msgs[..n], c) && ValidMsg(log, c, msgs[n].0)
                    && result == Covered(log, c, msgs[n].0);
      StreamReplays(log, s, covered, msgs[..n], c);
      DeliverCovers(log, DeliverAll(s, msgs[..n]), c, msgs[n].0, msgs[n].1);
    }
    ReplayIsEffective(log[..result]);
  }

  // ---------------------------------------------------------------------------------
  // The server object

  class KVServer {
    var db: Store
    var duplicate: map<int, LatestReply>
    var snapshotIndex: nat
    var saved: Option<Snapshot>
    /** The log indices some request handler is waiting for. */
    var notifyChs: set<nat>

    ghost function View(): Server
      reads this
    {
      Server(KvState(db, duplicate), snapshotIndex, saved)
    }

    /** A restarted server resumes from the snapshot the persister holds, if any. */
    constructor (persisted: Option<Snapshot>)
      ensures View() == Restore(Server(Empty, 0, persisted), persisted) && notifyChs == {}
    {
      db, duplicate, snapshotIndex, saved, notifyChs := map[], map[], 0, persisted, {};
      new;
      ReadSnapshot(persisted);
    }

    method ReadSnapshot(data: Option<Snapshot>)
      modifies this
      ensures View() == Restore(old(View()), data) && notifyChs == old(notifyChs)
    {
      if data.None? {
        return;
      }
      db := data.value.st.db;
      snapshotIndex := data.value.index;
      duplicate := data.value.st.duplicate;
    }

    method GenerateSnapshot(index: nat) returns (data: Snapshot)
      modifies this
      ensures View() == TakeSnapshot(old(View()), index) && notifyChs == old(notifyChs)
      ensures saved == Some(data)
    {
      snapshotIndex := index;
      data := Snapshot(KvState(db, duplicate), snapshotIndex);
      saved := Some(data);
    }

    /** One iteration of `applyDaemon`. */
    method OnMessage(msg: Msg, snapshotNow: bool) returns (notified: bool)
      modifies this
      ensures View() == Deliver(old(View()), msg, snapshotNow)
      ensures notified <==>
                msg.Command? && msg.op.Some? && msg.index > old(snapshotIndex) && msg.index in old(notifyChs)
      ensures notifyChs == if notified then old(notifyChs) - {msg.index} else old(notifyChs)
    {
      notified := false;
      match msg
      case UseSnapshot(index, data) =>
        ReadSnapshot(data);
        var _ := GenerateSnapshot(index);
      case Command(index, command) =>
        if command.Some? && index > snapshotIndex {
          var cmd := command.value;
          if cmd.client !in duplicate || duplicate[cmd.client].seqNo < cmd.seqNo {
            match cmd.kind
            case GetOp =>
              duplicate := duplicate[cmd.client := LatestReply(cmd.seqNo, Lookup(db, cmd.key))];
            case PutOp =>
              db := db[cmd.key := cmd.value];
              duplicate := duplicate[cmd.client := LatestReply(cmd.seqNo, "")];
            case AppendOp =>
              db := db[cmd.key := Lookup(db, cmd.key) + cmd.value];
              duplicate := duplicate[cmd.client := LatestReply(cmd.seqNo, "")];
          }
          if snapshotNow {
            var _ := GenerateSnapshot(index);
          }
          if index in notifyChs {
            notified := true;
            notifyChs := notifyChs - {index};
          }
        }
    }
  }
}
