/** What single handlers of a peer promise, in terms of logs, indices and terms. */
module PeerLaws {
  import opened Commit
  import opened Common
  import opened Histories
  import opened RaftPeer

  // ---------------------------------------------------------------------------------
  // Commit indices

  /** The entry at index `t` lies ahead of what is committed or compacted, and is of the peer's own term. */
  ghost predicate OwnTermAhead(p: Peer, t: nat) {
    && t > p.commitIndex && p.snapshotIndex < t < p.snapshotIndex + |p.logs|
    && p.logs[t - p.snapshotIndex].term == p.currentTerm
  }

  /**
    With `t` the highest index that n - n/2 peers support: the commit rule moves the commit index
    exactly if the entry there lies ahead and is of the leader's own term, and then to `t`.
   */
  lemma CommitRuleExactly(p: Peer, t: nat)
    requires Wf(p) && IsCommitTarget(p.matchIndex, t)
    ensures var p' := AdvanceCommit(p, t);
            && p' == p.(commitIndex := p'.commitIndex)
            && (p'.commitIndex != p.commitIndex <==> OwnTermAhead(p, t))
            && (p'.commitIndex != p.commitIndex ==> p'.commitIndex == t)
  {
  }

  /** What a follower should make of the leader's commit index once its log ends at `last`. */
  function Followed(commitIndex: nat, leaderCommit: nat, last: nat): nat {
    Max(commitIndex, Min(leaderCommit, last))
  }

  /**
    A request that matches makes the log end at its last entry.  The commit index then follows the
    leader's, up to that entry, and never goes back, exactly unless the request ends before the commit
    index and carries a higher one; in that case it falls to the end of the log.
   */
  lemma FollowsExactly(p: Peer, a: AppendArgs)
    requires |p.logs| > 0 && a.term >= p.currentTerm && Matches(p, a)
    ensures var p', last := OnAppendEntries(p, a).0, a.prevIndex + |a.entries|;
            && p'.snapshotIndex + |p'.logs| == last + 1
            && (p'.commitIndex == Followed(p.commitIndex, a.leaderCommit, last) <==>
                last >= p.commitIndex || a.leaderCommit <= p.commitIndex)
            && (last < p.commitIndex < a.leaderCommit ==> p'.commitIndex == last)
  {
  }

  /** A request that is stale or does not match leaves the commit index and the log alone. */
  lemma RejectedLeavesCommit(p: Peer, a: AppendArgs)
    requires |p.logs| > 0 && (a.term < p.currentTerm || !Matches(p, a))
    ensures var (p', reply) := OnAppendEntries(p, a);
            !reply.success && p'.commitIndex == p.commitIndex && p'.logs == p.logs
  {
    hide Hint;
  }

  /** The commit index does fall: a late request without entries cuts the log below it. */
  lemma CommitFalls() returns (p: Peer, a: AppendArgs)
    ensures Wf(p) && p.commitIndex < p.snapshotIndex + |p.logs| && OnAppendEntries(p, a).0.commitIndex < p.commitIndex
  {
    var e := LogEntry(1, Command(1));
    p := Peer(0, 2, Follower, 1, 1, [Placeholder, e, e], 1, [0, 0], [0, 0], 0, 0);
    a := AppendArgs(1, 1, 0, 0, [], 2);
  }

  // ---------------------------------------------------------------------------------
  // New entries and new leaders

  /** A leader puts the command at the end of its log, answers with where it stands, and counts itself. */
  lemma StartPlaces(p: Peer, command: Command)
    requires Wf(p) && p.role.Leader?
    ensures var (p', r) := OnStart(p, command);
            && r.isLeader && r.term == p.currentTerm
            && p.snapshotIndex < r.index < p.snapshotIndex + |p'.logs|
            && p'.logs[r.index - p.snapshotIndex] == LogEntry(r.term, command)
            && p'.logs[..r.index - p.snapshotIndex] == p.logs && |p'.logs| == |p.logs| + 1
            && Wf(p') && p'.matchIndex[p.me] == r.index && p'.nextIndex[p.me] == r.index + 1
            && (forall i :: 0 <= i < p.n && i != p.me ==>
                  p'.matchIndex[i] == p.matchIndex[i] && p'.nextIndex[i] == p.nextIndex[i])
            && p' == p.(logs := p'.logs, nextIndex := p'.nextIndex, matchIndex := p'.matchIndex)
  {
  }

  lemma OthersDoNotStart(p: Peer, command: Command)
    requires Wf(p) && !p.role.Leader?
    ensures OnStart(p, command) == (p, StartReply(-1, 0, false))
  {
  }

  lemma {:induction false} SelfSupport(m: seq<nat>, me: nat, v: nat)
    requires me < |m| && v > 0 && forall i :: 0 <= i < |m| && i != me ==> m[i] == 0
    ensures |Supporters(m, v)| == if m[me] >= v then 1 else 0
  {
    assert Supporters(m, v) == if m[me] >= v then {me} else {};
  }

  /**
    Among three or more peers a new leader has nobody's support yet, so the commit rule cannot move its
    commit index before another peer has answered; among two its own support is enough.
   */
  lemma NewLeaderCommits(p: Peer, t: nat)
    requires Wf(p) && p.n >= 2 && IsCommitTarget(ResetOnElection(p).matchIndex, t)
    ensures p.n >= 3 ==> t == 0 && AdvanceCommit(ResetOnElection(p), t) == ResetOnElection(p)
    ensures p.n == 2 ==> t == LastIndex(p)
  {
    var m := ResetOnElection(p).matchIndex;
    if t > 0 { SelfSupport(m, p.me, t); }
    if p.n == 2 && LastIndex(p) > 0 { SelfSupport(m, p.me, LastIndex(p)); }
  }

  /** And it first asks every other peer about its own last entry. */
  lemma NewLeaderAsksForLast(p: Peer, f: nat)
    requires Wf(p) && f < p.n && p.role.Leader?
    ensures var out := OnConsistencyCheck(ResetOnElection(p), f);
            && out.Request? && out.args.entries == []
            && out.args.prevIndex == p.snapshotIndex + |p.logs| - 1
            && out.args.prevTerm == p.logs[|p.logs| - 1].term
  {
  }

  // ---------------------------------------------------------------------------------
  // Match indices

  ghost predicate MatchesInLog(p: Peer) {
    Wf(p) && forall i :: 0 <= i < p.n ==> p.matchIndex[i] <= LastIndex(p)
  }

  /** A leader gives up exactly on a success for an index that it has no entry at. */
  lemma PanicsExactly(p: Peer, f: nat, reply: AppendReply)
    requires Wf(p) && f < p.n
    ensures OnAppendReply(p, f, reply).1.Panic? <==>
            p.role.Leader? && reply.success && reply.firstIndex >= p.snapshotIndex + |p.logs|
  {
  }

  /** So match indices stay within the log, whatever the replies. */
  lemma MatchesStayInLog(p: Peer, f: nat, reply: AppendReply)
    requires MatchesInLog(p) && f < p.n && !OnAppendReply(p, f, reply).1.Panic?
    ensures MatchesInLog(OnAppendReply(p, f, reply).0)
  {
    hide BackUp;
  }
}
