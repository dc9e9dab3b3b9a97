/**
  One Raft peer (`raft/raft.go`): its state as a value and, for every handler, the function from the
  state before to the state after and the reply.  Timers, channels and goroutines are not part of it.
 */
module RaftPeer {
  import opened Common

  /** What a log entry carries; the placeholder at index 0 carries nothing. */
  datatype Command = NoCommand | Command(id: int)

  datatype LogEntry = LogEntry(term: nat, command: Command)

  const Placeholder: LogEntry := LogEntry(0, NoCommand)

  datatype Role = Follower | Candidate | Leader

  /**
    `logs[0]` stands for the entry at `snapshotIndex`; without compaction that is the placeholder at
    index 0.  `votedFor` is -1 when there is no vote.
   */
  datatype Peer = Peer(me: nat, n: nat, role: Role, currentTerm: nat, votedFor: int, logs: seq<LogEntry>,
                       commitIndex: nat, nextIndex: seq<nat>, matchIndex: seq<nat>, snapshotIndex: nat,
                       snapshotTerm: nat)

  predicate Wf(p: Peer) {
    && p.me < p.n == |p.nextIndex| == |p.matchIndex| && |p.logs| > 0 && p.votedFor >= -1
  }

  function LastIndex(p: Peer): nat
    requires |p.logs| > 0
  {
    p.snapshotIndex + |p.logs| - 1
  }

  function LastTerm(p: Peer): nat
    requires |p.logs| > 0
  {
    p.logs[|p.logs| - 1].term
  }

  // ---------------------------------------------------------------------------------
  // Voting

  datatype VoteArgs = VoteArgs(term: nat, candidate: nat, lastIndex: nat, lastTerm: nat)
  datatype VoteReply = VoteReply(currentTerm: nat, granted: bool)

  /** `fillRequestVoteArgs`: become a candidate in the next term and vote for oneself. */
  function BecomeCandidate(p: Peer): (Peer, VoteArgs)
    requires |p.logs| > 0
  {
    var p' := p.(votedFor := p.me, currentTerm := p.currentTerm + 1, role := Candidate);
    (p', VoteArgs(p'.currentTerm, p.me, LastIndex(p), LastTerm(p)))
  }

  predicate UpToDate(p: Peer, a: VoteArgs)
    requires |p.logs| > 0
  {
    (a.lastTerm == LastTerm(p) && a.lastIndex >= LastIndex(p)) || a.lastTerm > LastTerm(p)
  }

  /** `RequestVote`. */
  function OnRequestVote(p: Peer, a: VoteArgs): (Peer, VoteReply)
    requires |p.logs| > 0
  {
    if a.term < p.currentTerm then
      (p, VoteReply(p.currentTerm, false))
    else
      var p1 := if a.term > p.currentTerm then p.(currentTerm := a.term, role := Follower, votedFor := -1) else p;
      if p1.votedFor == -1 && UpToDate(p, a) then
        (p1.(role := Follower, votedFor := a.candidate), VoteReply(0, true))
      else
        (p1, VoteReply(0, false))
  }

  // ---------------------------------------------------------------------------------
  // Log replication

  datatype AppendArgs = AppendArgs(term: nat, leader: nat, prevIndex: nat, prevTerm: nat, entries: seq<LogEntry>,
                                   leaderCommit: nat)
  datatype AppendReply = AppendReply(currentTerm: nat, success: bool, conflictTerm: nat, firstIndex: nat)

  /** What `AppendEntries` does to term, role and vote before it looks at the log. */
  function AcceptLeader(p: Peer, a: AppendArgs): Peer {
    p.(currentTerm := Max(p.currentTerm, a.term), votedFor := a.leader,
       role := if p.role.Leader? then Follower else p.role)
  }

  /** The peer has an entry at `prevIndex`, and it has term `prevTerm`. */
  predicate Matches(p: Peer, a: AppendArgs) {
    && p.snapshotIndex <= a.prevIndex < p.snapshotIndex + |p.logs|
    && p.logs[a.prevIndex - p.snapshotIndex].term == a.prevTerm
  }

  /** Where the stretch of equal terms that ends at `k` begins. */
  function RunStart(logs: seq<LogEntry>, k: nat): (j: nat)
    requires k < |logs|
    ensures j <= k && (forall i :: j <= i <= k ==> logs[i].term == logs[k].term)
    ensures j > 0 ==> logs[j - 1].term != logs[k].term
  {
    if k > 0 && logs[k - 1].term == logs[k].term then RunStart(logs, k - 1) else k
  }

  /** The hint in a rejection: a term of the peer's log and the first index to try next. */
  function Hint(p: Peer, a: AppendArgs): (nat, nat)
    requires |p.logs| > 0 && p.snapshotIndex <= a.prevIndex
  {
    var k := a.prevIndex - p.snapshotIndex;
    if k >= |p.logs| || p.logs[k].term == 0 then
      (LastTerm(p), p.snapshotIndex + |p.logs|)
    else
      (p.logs[k].term, p.snapshotIndex + Max(1, RunStart(p.logs, k)))
  }

  /** What `AppendEntries` does to the log, once the sender is accepted as leader. */
  function OnEntries(p: Peer, a: AppendArgs): (Peer, AppendReply)
    requires |p.logs| > 0
  {
    if a.prevIndex < p.snapshotIndex then
      (p, AppendReply(p.currentTerm, false, p.snapshotTerm, p.snapshotIndex))
    else if Matches(p, a) then
      var logs := p.logs[..a.prevIndex - p.snapshotIndex + 1] + a.entries;
      var last := p.snapshotIndex + |logs| - 1;
      (p.(logs := logs,
          commitIndex := if a.leaderCommit > p.commitIndex then Min(a.leaderCommit, last) else p.commitIndex),
       AppendReply(0, true, logs[|logs| - 1].term, last))
    else
      var (conflictTerm, first) := Hint(p, a);
      (p, AppendReply(0, false, conflictTerm, first))
  }

  /** `AppendEntries`. */
  function OnAppendEntries(p: Peer, a: AppendArgs): (Peer, AppendReply)
    requires |p.logs| > 0
  {
    if a.term < p.currentTerm then (p, AppendReply(p.currentTerm, false, 0, 0))
    else OnEntries(AcceptLeader(p, a), a)
  }

  datatype StartReply = StartReply(index: int, term: nat, isLeader: bool)

  /** `Start`: a leader appends a command to its log. */
  function OnStart(p: Peer, command: Command): (Peer, StartReply)
    requires Wf(p)
  {
    if !p.role.Leader? then (p, StartReply(-1, 0, false)) else
      var index := LastIndex(p) + 1;
      (p.(logs := p.logs + [LogEntry(p.currentTerm, command)],
          nextIndex := p.nextIndex[p.me := index + 1], matchIndex := p.matchIndex[p.me := index]),
       StartReply(index, p.currentTerm, true))
  }

  /** `NewSnapShot` would cut the log behind its end, and fails. */
  predicate SnapshotFails(p: Peer, index: nat)
    requires |p.logs| > 0
  {
    p.snapshotIndex < index <= p.commitIndex && index > LastIndex(p)
  }

  /** `NewSnapShot`: drop the entries before `index`; the entry at `index` becomes the new first one. */
  function OnSnapshot(p: Peer, index: nat): Peer
    requires |p.logs| > 0
  {
    if p.commitIndex < index || index <= p.snapshotIndex || SnapshotFails(p, index) then p
    else
      var logs := p.logs[index - p.snapshotIndex..];
      p.(logs := logs, snapshotIndex := index, snapshotTerm := logs[0].term)
  }

  /** The request that `consistencyCheck` builds for follower `f`, when the log reaches back far enough. */
  function MakeAppend(p: Peer, f: nat): AppendArgs
    requires Wf(p) && f < p.n && p.nextIndex[f] > p.snapshotIndex
  {
    var pre := Min(p.nextIndex[f] - 1, LastIndex(p));
    AppendArgs(p.currentTerm, p.me, pre, p.logs[pre - p.snapshotIndex].term,
               if p.nextIndex[f] <= LastIndex(p) then p.logs[p.nextIndex[f] - p.snapshotIndex..] else [], p.commitIndex)
  }

  datatype Outgoing = Silent | WholeSnapshot | Request(args: AppendArgs)

  /** `consistencyCheck` in full: only a leader sends, and a follower that is too far behind gets the snapshot. */
  function OnConsistencyCheck(p: Peer, f: nat): Outgoing
    requires Wf(p) && f < p.n
  {
    if !p.role.Leader? then Silent
    else if p.nextIndex[f] <= p.snapshotIndex then WholeSnapshot
    else Request(MakeAppend(p, f))
  }

  // ---------------------------------------------------------------------------------
  // What a leader makes of the answers

  /** The highest index behind the first entry at which a log has this term; 0 if there is none. */
  function LastOfTerm(logs: seq<LogEntry>, term: nat): (k: nat)
    ensures k < |logs| || k == 0
    ensures k > 0 ==> logs[k].term == term
    ensures forall i :: k < i < |logs| ==> logs[i].term != term
  {
    if |logs| <= 1 then 0
    else if logs[|logs| - 1].term == term then |logs| - 1
    else
      var k := LastOfTerm(logs[..|logs| - 1], term);
      assert forall i :: 0 <= i < |logs| - 1 ==> logs[..|logs| - 1][i] == logs[i];
      k
  }

  /** Where a rejection moves `nextIndex`, before it is brought into range. */
  function BackUp(p: Peer, reply: AppendReply): nat {
    var k := LastOfTerm(p.logs, reply.conflictTerm);
    if reply.conflictTerm != 0 && k > 0 then Min(k + p.snapshotIndex, reply.firstIndex) else reply.firstIndex
  }

  /** `turnToFollow`. */
  function TurnToFollow(p: Peer): Peer {
    p.(role := Follower, votedFor := -1)
  }

  /** A rejection tells a leader of a higher term. */
  predicate LearnsOfHigherTerm(p: Peer, reply: AppendReply) {
    p.role.Leader? && !reply.success && reply.currentTerm > p.currentTerm
  }

  datatype ReplyOutcome = Ignored | SteppedDown | Advanced | SendSnapshot | BackedUp | Panic

  /** `consistencyCheckReplyHandler` up to its call of `updateCommitIndex`. */
  function OnAppendReply(p: Peer, f: nat, reply: AppendReply): (Peer, ReplyOutcome)
    requires Wf(p) && f < p.n
  {
    if !p.role.Leader? then (p, Ignored)
    else if reply.success then
      if reply.firstIndex > LastIndex(p) then (p, Panic)
      else
        (p.(matchIndex := p.matchIndex[f := reply.firstIndex], nextIndex := p.nextIndex[f := reply.firstIndex + 1]),
         Advanced)
    else if LearnsOfHigherTerm(p, reply) then
      (TurnToFollow(p), SteppedDown)
    else
      var next := BackUp(p, reply);
      if p.snapshotIndex != 0 && next <= p.snapshotIndex then
        (p.(nextIndex := p.nextIndex[f := next]), SendSnapshot)
      else
        var next' := Min(Max(next, 1 + p.snapshotIndex), LastIndex(p) + 1);
        var next'' := if next' == p.nextIndex[f] then Max(next' - 1, p.snapshotIndex) else next';
        (p.(nextIndex := p.nextIndex[f := next'']), BackedUp)
  }

  /** `updateCommitIndex` would look behind the end of the log, and fails. */
  predicate CommitFails(p: Peer, target: nat)
    requires |p.logs| > 0
  {
    p.commitIndex < target && p.snapshotIndex < target && target > LastIndex(p)
  }

  /** `updateCommitIndex`, once the middle of the sorted `matchIndex` is known. */
  function AdvanceCommit(p: Peer, target: nat): Peer
    requires |p.logs| > 0
  {
    if && p.commitIndex < target && p.snapshotIndex < target <= LastIndex(p)
       && p.logs[target - p.snapshotIndex].term == p.currentTerm
    then p.(commitIndex := target) else p
  }

  /** `resetOnElection`. */
  function ResetOnElection(p: Peer): Peer
    requires Wf(p)
  {
    p.(nextIndex := seq(p.n, _ => LastIndex(p) + 1),
       matchIndex := seq(p.n, i => if i == p.me then LastIndex(p) else 0))
  }
}
