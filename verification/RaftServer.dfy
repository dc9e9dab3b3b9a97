/** The Raft peer as an object whose handlers update its fields; each is proved against its function in `RaftPeer`. */
module RaftServer {
  import opened Common
  import opened PeerLaws
  import opened RaftPeer
  import opened Commit

  class Raft {
    const me: nat
    const n: nat
    var role: Role
    var currentTerm: nat
    var votedFor: int
    var logs: seq<LogEntry>
    var commitIndex: nat
    var nextIndex: seq<nat>
    var matchIndex: seq<nat>
    var snapshotIndex: nat
    var snapshotTerm: nat

    ghost function View(): Peer
      reads this
    {
      Peer(me, n, role, currentTerm, votedFor, logs, commitIndex, nextIndex, matchIndex, snapshotIndex, snapshotTerm)
    }

    ghost predicate Valid()
      reads this
    {
      Wf(View())
    }

    /** `Make` without persisted state. */
    constructor (n: nat, me: nat)
      requires me < n
      ensures Valid()
      ensures View() == Peer(me, n, Follower, 0, -1, [Placeholder], 0, seq(n, _ => 0), seq(n, _ => 0), 0, 0)
    {
      this.n, this.me := n, me;
      role, currentTerm, votedFor, logs, commitIndex := Follower, 0, -1, [Placeholder], 0;
      nextIndex, matchIndex, snapshotIndex, snapshotTerm := seq(n, _ => 0), seq(n, _ => 0), 0, 0;
    }

    method LastLogIndexAndTerm() returns (index: nat, term: nat)
      requires Valid()
      ensures index == LastIndex(View()) && term == LastTerm(View())
    {
      index := snapshotIndex + |logs| - 1;
      term := logs[index - snapshotIndex].term;
    }

    method FillRequestVoteArgs() returns (args: VoteArgs)
      requires Valid()
      modifies this
      ensures Valid() && (View(), args) == BecomeCandidate(old(View()))
    {
      votedFor := me;
      currentTerm := currentTerm + 1;
      role := Candidate;
      var lastIndex, lastTerm := LastLogIndexAndTerm();
      args := VoteArgs(currentTerm, me, lastIndex, lastTerm);
    }

    method RequestVote(args: VoteArgs) returns (reply: VoteReply)
      requires Valid()
      modifies this
      ensures Valid() && (View(), reply) == OnRequestVote(old(View()), args)
    {
      reply := VoteReply(0, false);
      var lastLogIdx, lastLogTerm := LastLogIndexAndTerm();
      if args.term < currentTerm {
        reply := VoteReply(currentTerm, false);
      } else {
        if args.term > currentTerm {
          currentTerm := args.term;
          role := Follower;
          votedFor := -1;
        }
        if votedFor == -1 {
          if (args.lastTerm == lastLogTerm && args.lastIndex >= lastLogIdx) || args.lastTerm > lastLogTerm {
            role := Follower;
            votedFor := args.candidate;
            reply := VoteReply(0, true);
          }
        }
      }
    }

    /** The scan of a rejection: back over the entries that have the term found at `prevIndex`. */
    method FirstOfRun(preLogIdx: nat, preLogTerm: nat) returns (first: nat)
      requires Valid() && snapshotIndex <= preLogIdx < snapshotIndex + |logs|
      requires logs[preLogIdx - snapshotIndex].term == preLogTerm
      ensures first == snapshotIndex + Max(1, RunStart(logs, preLogIdx - snapshotIndex))
    {
      first := 1 + snapshotIndex;
      var i: int := preLogIdx - 1;
      ghost var k := preLogIdx - snapshotIndex;
      while i >= snapshotIndex
        invariant snapshotIndex - 1 <= i < preLogIdx && first == 1 + snapshotIndex
        invariant forall j :: i - snapshotIndex < j <= k ==> logs[j].term == preLogTerm
        decreases i
      {
        if logs[i - snapshotIndex].term != preLogTerm {
          first := i + 1;
          RunStartUnique(logs, k, i - snapshotIndex + 1);
          return;
        }
        i := i - 1;
      }
      RunStartUnique(logs, k, 0);
    }

    method AppendEntries(args: AppendArgs) returns (reply: AppendReply)
      requires Valid()
      modifies this
      ensures Valid() && (View(), reply) == OnAppendEntries(old(View()), args)
    {
      hide OnEntries;
      reply := AppendReply(0, false, 0, 0);
      if args.term < currentTerm {
        reply := AppendReply(currentTerm, false, 0, 0);
        return;
      }
      if currentTerm < args.term {
        currentTerm := args.term;
      }
      if role == Leader {
        role := Follower;
        votedFor := -1;
      }
      if votedFor != args.leader {
        votedFor := args.leader;
      }
      assert View() == AcceptLeader(old(View()), args);
      reply := ReplaceEntries(args);
    }

    /** The rest of `AppendEntries`: compare, truncate and append, or reject with a hint. */
    method ReplaceEntries(args: AppendArgs) returns (reply: AppendReply)
      requires Valid()
      modifies this
      ensures Valid() && (View(), reply) == OnEntries(old(View()), args)
    {
      hide Hint;
      if args.prevIndex < snapshotIndex {
        reply := AppendReply(currentTerm, false, snapshotTerm, snapshotIndex);
        return;
      }
      var preLogIdx: nat, preLogTerm: nat := 0, 0;
      if args.prevIndex < |logs| + snapshotIndex {
        preLogIdx := args.prevIndex;
        preLogTerm := logs[preLogIdx - snapshotIndex].term;
      }
      if preLogIdx == args.prevIndex && preLogTerm == args.prevTerm {
        logs := logs[..preLogIdx - snapshotIndex + 1];
        logs := logs + args.entries;
        var last := snapshotIndex + |logs| - 1;
        if args.leaderCommit > commitIndex {
          commitIndex := Min(args.leaderCommit, last);
        }
        reply := AppendReply(0, true, logs[last - snapshotIndex].term, last);
      } else {
        reply := Reject(args, preLogIdx, preLogTerm);
      }
    }

    /** A rejection, with the extra information for the leader. */
    method Reject(args: AppendArgs, preLogIdx: nat, preLogTerm: nat) returns (reply: AppendReply)
      requires Valid() && snapshotIndex <= args.prevIndex
      requires if args.prevIndex < |logs| + snapshotIndex
               then preLogIdx == args.prevIndex && preLogTerm == logs[preLogIdx - snapshotIndex].term
               else preLogTerm == 0
      ensures reply == AppendReply(0, false, Hint(View(), args).0, Hint(View(), args).1)
    {
      hide RunStart;
      var first := 1 + snapshotIndex;
      var conflictTerm := preLogTerm;
      if conflictTerm == 0 {
        first := |logs| + snapshotIndex;
        conflictTerm := logs[first - snapshotIndex - 1].term;
      } else {
        first := FirstOfRun(preLogIdx, preLogTerm);
      }
      reply := AppendReply(0, false, conflictTerm, first);
    }

    method Start(command: Command) returns (reply: StartReply)
      requires Valid()
      modifies this
      ensures Valid() && (View(), reply) == OnStart(old(View()), command)
    {
      reply := StartReply(-1, 0, false);
      if role == Leader {
        logs := logs + [LogEntry(currentTerm, command)];
        var index := |logs| - 1 + snapshotIndex;
        nextIndex := nextIndex[me := index + 1];
        matchIndex := matchIndex[me := index];
        reply := StartReply(index, currentTerm, true);
      }
    }

    /** `failed` stands for the panic of the slice expression or of the index behind it. */
    method NewSnapShot(index: nat) returns (failed: bool)
      requires Valid()
      modifies this
      ensures Valid() && View() == OnSnapshot(old(View()), index)
      ensures failed <==> SnapshotFails(old(View()), index)
    {
      failed := false;
      if commitIndex < index || index <= snapshotIndex {
        return;
      }
      if index - snapshotIndex >= |logs| {
        return true;
      }
      logs := logs[index - snapshotIndex..];
      snapshotIndex := index;
      snapshotTerm := logs[0].term;
    }

    method ConsistencyCheck(f: nat) returns (out: Outgoing)
      requires Valid() && f < n
      ensures out == OnConsistencyCheck(View(), f)
    {
      if role != Leader {
        return Silent;
      }
      var pre := nextIndex[f] as int - 1;
      if pre < snapshotIndex {
        return WholeSnapshot;
      }
      var previndex, prevlog := pre, pre - snapshotIndex;
      if prevlog > |logs| - 1 {
        previndex := |logs| + snapshotIndex - 1;
        prevlog := |logs| - 1;
      }
      var entries: seq<LogEntry> := [];
      if nextIndex[f] < |logs| + snapshotIndex {
        entries := logs[nextIndex[f] - snapshotIndex..];
      }
      out := Request(AppendArgs(currentTerm, me, previndex, logs[prevlog].term, entries, commitIndex));
    }

    /** A success may also move the commit index; nothing else does. */
    method ConsistencyCheckReplyHandler(f: nat, reply: AppendReply)
      returns (outcome: ReplyOutcome, failed: bool, ghost target: nat)
      requires Valid() && f < n
      modifies this
      ensures Valid() && outcome == OnAppendReply(old(View()), f, reply).1
      ensures var p := OnAppendReply(old(View()), f, reply).0;
              if outcome.Advanced? then
                |p.logs| > 0 && IsCommitTarget(p.matchIndex, target) && View() == AdvanceCommit(p, target)
                && (failed <==> CommitFails(p, target))
              else
                View() == p && !failed
    {
      hide OnAppendReply;
      target, failed := 0, false;
      outcome := RecordReply(f, reply);
      if outcome.Advanced? {
        failed, target := UpdateCommitIndex();
      }
    }

    /** What the reply handler does before `updateCommitIndex`. */
    method RecordReply(f: nat, reply: AppendReply) returns (outcome: ReplyOutcome)
      requires Valid() && f < n
      modifies this
      ensures Valid() && (View(), outcome) == OnAppendReply(old(View()), f, reply)
    {
      hide BackUp;
      if role != Leader {
        return Ignored;
      }
      if reply.success {
        if reply.firstIndex > |logs| + snapshotIndex - 1 {
          return Panic;
        }
        matchIndex := matchIndex[f := reply.firstIndex];
        nextIndex := nextIndex[f := reply.firstIndex + 1];
        return Advanced;
      }
      if reply.currentTerm > currentTerm {
        role := Follower;
        votedFor := -1;
        return SteppedDown;
      }
      var tmpNextIndex := nextIndex[f];
      var next := BackTo(reply);
      nextIndex := nextIndex[f := next];
      if snapshotIndex != 0 && nextIndex[f] <= snapshotIndex {
        assert nextIndex == old(nextIndex)[f := next];
        return SendSnapshot;
      }
      nextIndex := nextIndex[f := Min(Max(nextIndex[f], 1 + snapshotIndex), |logs| + snapshotIndex)];
      if tmpNextIndex == nextIndex[f] {
        nextIndex := nextIndex[f := Max(nextIndex[f] - 1, snapshotIndex)];
      }
      assert nextIndex == old(nextIndex)[f := nextIndex[f]];
      outcome := BackedUp;
    }

    /** Where the hint of a rejection leads. */
    method BackTo(reply: AppendReply) returns (next: nat)
      requires Valid()
      ensures next == BackUp(View(), reply)
    {
      hide LastOfTerm;
      next := reply.firstIndex;
      if reply.conflictTerm != 0 {
        var k := FindLastOfTerm(reply.conflictTerm);
        if k > 0 {
          next := Min(k + snapshotIndex, reply.firstIndex);
        }
      }
    }

    /** The leader's scan for its last entry of the conflicting term. */
    method FindLastOfTerm(term: nat) returns (k: nat)
      requires Valid()
      ensures k == LastOfTerm(logs, term)
    {
      k := |logs| - 1;
      while k > 0
        invariant k < |logs|
        invariant forall i :: k < i < |logs| ==> logs[i].term != term
      {
        if logs[k].term == term {
          return;
        }
        k := k - 1;
      }
    }

    /**
      `updateCommitIndex`: commit up to the highest index a majority supports, if it lies ahead and
      its entry is of the leader's own term.  `failed` stands for the panic of the index expression.
     */
    method UpdateCommitIndex() returns (failed: bool, ghost target: nat)
      requires Valid()
      modifies this
      ensures Valid() && IsCommitTarget(matchIndex, target)
      ensures View() == AdvanceCommit(old(View()), target) && (failed <==> CommitFails(old(View()), target))
      ensures commitIndex != old(commitIndex) <==> OwnTermAhead(old(View()), target)
      ensures commitIndex != old(commitIndex) ==> commitIndex == target
    {
      var t := Middle(matchIndex);
      CommitRuleExactly(View(), t);
      failed, target := false, t;
      if commitIndex < t && snapshotIndex < t {
        if t - snapshotIndex >= |logs| {
          return true, target;
        }
        if logs[t - snapshotIndex].term == currentTerm {
          commitIndex := t;
        }
      }
    }

    method ResetOnElection()
      requires Valid()
      modifies this
      ensures Valid() && View() == RaftPeer.ResetOnElection(old(View()))
    {
      var length := |logs| + snapshotIndex;
      for i := 0 to n
        invariant Valid() && View() == old(View()).(nextIndex := nextIndex, matchIndex := matchIndex)
        invariant forall j :: 0 <= j < i ==>
                    nextIndex[j] == length && matchIndex[j] == if j == me then length - 1 else 0
      {
        matchIndex := matchIndex[i := 0];
        nextIndex := nextIndex[i := length];
        if i == me {
          matchIndex := matchIndex[i := length - 1];
        }
      }
    }
  }

  /** A supported index is at most the highest match index. */
  /** While every match index lies within the log, the commit rule does not fail. */
  lemma CommitWithinLog(p: Peer, target: nat)
    requires Wf(p) && IsCommitTarget(p.matchIndex, target)
    requires forall i :: 0 <= i < p.n ==> p.matchIndex[i] <= LastIndex(p)
    ensures !CommitFails(p, target)
  {
    var i :| i in Supporters(p.matchIndex, target);
  }

  lemma RunStartUnique(logs: seq<LogEntry>, k: nat, j: nat)
    requires j <= k < |logs| && (forall i :: j <= i <= k ==> logs[i].term == logs[k].term)
    requires j > 0 ==> logs[j - 1].term != logs[k].term
    ensures RunStart(logs, k) == j
  {
  }
}
