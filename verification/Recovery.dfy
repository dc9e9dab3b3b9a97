/**
  Crash recovery of one server: the key/value layer and the Raft layer save their snapshots in two
  separate writes, and a crash may fall between them.  Runs contain no installed snapshots.
 */
module Recovery {
  import opened Common
  import opened KvServer

  /**
    `server.saved` is the snapshot the persister holds.  Raft's own snapshot index is persisted by
    the second write only; `unfinished` is the index of a snapshot saved by the first write alone.
   */
  datatype Node = Node(server: Server, commitIndex: nat, lastApplied: nat, raftIndex: nat, savedRaftIndex: nat,
                       unfinished: Option<nat>)

  datatype State = State(log: seq<Op>, node: Node)

  ghost predicate Init(s: State) {
    s.log == [] && s.node == Node(Server(Empty, 0, None), 0, 0, 0, 0, None)
  }

  /** The cluster commits another command. */
  ghost predicate Grow(s: State, s': State, op: Op) {
    s' == s.(log := s.log + [op])
  }

  /** The server's Raft learns that more is committed. */
  ghost predicate Advance(s: State, s': State, commitIndex: nat) {
    s.node.commitIndex <= commitIndex <= |s.log| && s' == s.(node := s.node.(commitIndex := commitIndex))
  }

  /** Raft delivers its next command; the apply loop may take a snapshot and save it (first write). */
  ghost predicate Next(s: State, s': State, snapshotNow: bool) {
    var n := s.node;
    && n.unfinished.None? && n.lastApplied < n.commitIndex <= |s.log|
    && var msg := Command(n.lastApplied + 1, Some(s.log[n.lastApplied]));
       s' == s.(node := n.(server := Deliver(n.server, msg, snapshotNow), lastApplied := n.lastApplied + 1,
                           unfinished := if snapshotNow && n.lastApplied + 1 > n.server.snapshotIndex
                                         then Some(n.lastApplied + 1) else None))
  }

  /** `NewSnapShot`: Raft compacts its log and saves state and snapshot in one write. */
  ghost predicate Compact(s: State, s': State) {
    var n := s.node;
    && n.unfinished.Some?
    && var index := n.unfinished.value;
       s' == s.(node := if n.commitIndex < index || index <= n.raftIndex then n.(unfinished := None)
                        else n.(raftIndex := index, savedRaftIndex := index, unfinished := None))
  }

  /** The server stops at any point and starts again from what the persister holds. */
  ghost predicate CrashAndRestart(s: State, s': State) {
    var n := s.node;
    s' == s.(node := Node(Restore(Server(Empty, 0, n.server.saved), n.server.saved),
                          n.savedRaftIndex, n.savedRaftIndex, n.savedRaftIndex, n.savedRaftIndex, None))
  }

  datatype Step =
    | GrowStep(op: Op)
    | AdvanceStep(commitIndex: nat)
    | NextStep(snapshotNow: bool)
    | CompactStep
    | CrashStep

  ghost predicate Takes(s: State, s': State, step: Step) {
    match step
    case GrowStep(op) => Grow(s, s', op)
    case AdvanceStep(c) => Advance(s, s', c)
    case NextStep(b) => Next(s, s', b)
    case CompactStep => Compact(s, s')
    case CrashStep => CrashAndRestart(s, s')
  }

  ghost predicate Run(run: seq<State>, steps: seq<Step>) {
    && |run| == |steps| + 1 && Init(run[0])
    && forall k :: 0 <= k < |steps| ==> Takes(run[k], run[k + 1], steps[k])
  }

  function SavedIndex(server: Server): nat {
    if server.saved.Some? then server.saved.value.index else 0
  }

  ghost predicate Inv(s: State) {
    var n := s.node;
    && n.savedRaftIndex == n.raftIndex <= n.lastApplied <= n.commitIndex <= |s.log|
    && n.raftIndex <= SavedIndex(n.server) == n.server.snapshotIndex <= |s.log|
    && n.server.st == Replay(s.log[..Max(n.lastApplied, n.server.snapshotIndex)])
    && (n.server.saved.Some? ==> n.server.saved.value.st == Replay(s.log[..n.server.saved.value.index]))
    && (n.unfinished.Some? ==> n.unfinished.value == n.lastApplied == SavedIndex(n.server))
  }

  lemma NextInv(s: State, s': State, snapshotNow: bool)
    requires Inv(s) && Next(s, s', snapshotNow)
    ensures Inv(s')
  {
    ReplayStep(s.log, s.node.lastApplied);
  }

  lemma StepInv(s: State, s': State, step: Step)
    requires Inv(s) && Takes(s, s', step)
    ensures Inv(s')
  {
    match step
    case GrowStep(op) =>
      assert forall k :: 0 <= k <= |s.log| ==> (s.log + [op])[..k] == s.log[..k];
    case AdvanceStep(c) =>
    case NextStep(b) => NextInv(s, s', b);
    case CompactStep =>
    case CrashStep =>
      assert s.log[..0] == [];
  }

  lemma {:induction false} RunInv(run: seq<State>, steps: seq<Step>, k: nat)
    requires Run(run, steps) && k < |run|
    ensures Inv(run[k])
  {
    if k > 0 {
      RunInv(run, steps, k - 1);
      assert Takes(run[k - 1], run[k - 1 + 1], steps[k - 1]);
      StepInv(run[k - 1], run[k], steps[k - 1]);
    }
  }

  /**
    Wherever a crash falls, the saved key/value snapshot is never behind Raft's, and the state is the
    replay of what has been delivered or was in the snapshot; once redelivery has caught up with the
    log, it is the replay of the whole log.
   */
  lemma RecoveryRebuilds(run: seq<State>, steps: seq<Step>, k: nat)
    requires Run(run, steps) && k < |run|
    ensures var n := run[k].node;
            && n.savedRaftIndex <= SavedIndex(n.server) && Max(n.lastApplied, SavedIndex(n.server)) <= |run[k].log|
            && n.server.st == Replay(run[k].log[..Max(n.lastApplied, SavedIndex(n.server))])
            && (n.lastApplied == |run[k].log| ==> n.server.st == Replay(run[k].log))
  {
    RunInv(run, steps, k);
    assert run[k].log[..|run[k].log|] == run[k].log;
  }
}
