/**
  Log Matching over whole runs of a cluster that does not compact its logs.  Append requests are
  delayed, dropped, repeated and reordered at will, replies are arbitrary, leaders commit by the commit
  rule, and peers may crash and restart.  The one restriction is that no peer becomes leader of a term
  that was led before.
 */
module LogMatching {
  import opened Commit
  import opened Common
  import opened RaftPeer

  type Log = seq<LogEntry>

  /** `led` remembers, for every term that had a leader, the log of that leader when it last appended. */
  datatype Cluster = Cluster(peers: seq<Peer>, sent: set<AppendArgs>, led: map<nat, Log>)

  ghost predicate Init(s: Cluster) {
    && (forall i :: 0 <= i < |s.peers| ==>
          && Wf(s.peers[i]) && !s.peers[i].role.Leader?
          && s.peers[i].logs == [Placeholder] && s.peers[i].snapshotIndex == 0 && s.peers[i].commitIndex == 0)
    && s.sent == {} && s.led == map[]
  }

  datatype Step =
    | Timeout(p: nat)
    | Vote(p: nat, ask: VoteArgs)
    | Elect(p: nat)
    | Submit(p: nat, command: Command)
    | Send(p: nat, f: nat)
    | Receive(p: nat, args: AppendArgs)
    | Reply(p: nat, f: nat, reply: AppendReply, target: nat)
    | StepDown(p: nat, term: nat)
    | Restart(p: nat, term: nat, votedFor: int)

  /** The reply handler with its call of the commit rule; `target` is the index the rule finds. */
  ghost function Replied(p: Peer, f: nat, reply: AppendReply, target: nat): Option<Peer>
    requires Wf(p) && f < p.n
  {
    var (p', outcome) := OnAppendReply(p, f, reply);
    if outcome.Panic? then None
    else if !outcome.Advanced? then Some(p')
    else if IsCommitTarget(p'.matchIndex, target) && !CommitFails(p', target) then Some(AdvanceCommit(p', target))
    else None
  }

  /** What a step does to the peer that takes it; `None` where the step is not possible. */
  ghost function Moved(s: Cluster, step: Step): Option<Peer>
    requires step.p < |s.peers| && Wf(s.peers[step.p])
  {
    var p := s.peers[step.p];
    match step
    case Timeout(_) => Some(BecomeCandidate(p).0)
    case Vote(_, ask) => Some(OnRequestVote(p, ask).0)
    case Elect(_) =>
      if p.role.Candidate? && p.currentTerm !in s.led then Some(ResetOnElection(p.(role := Leader))) else None
    case Submit(_, command) => Some(OnStart(p, command).0)
    case Send(_, f) => if f < p.n && f != step.p && OnConsistencyCheck(p, f).Request? then Some(p) else None
    case Receive(_, args) => if args in s.sent then Some(OnAppendEntries(p, args).0) else None
    case Reply(_, f, reply, target) => if f < p.n then Replied(p, f, reply, target) else None
    case StepDown(_, term) =>
      if p.role.Candidate? then Some(TurnToFollow(p.(currentTerm := term))) else None
    case Restart(_, term, votedFor) =>
      if votedFor >= -1 then
        Some(p.(role := Follower, currentTerm := term, votedFor := votedFor, commitIndex := 0,
                nextIndex := seq(p.n, _ => 0), matchIndex := seq(p.n, _ => 0)))
      else None
  }

  ghost predicate Takes(s: Cluster, s': Cluster, step: Step) {
    && step.p < |s.peers| && Wf(s.peers[step.p])
    && var moved := Moved(s, step);
       && moved.Some?
       && var p := moved.value;
          s' == Cluster(s.peers[step.p := p],
                        if step.Send? then s.sent + {OnConsistencyCheck(p, step.f).args} else s.sent,
                        if p.role.Leader? && (step.Elect? || step.Submit?)
                        then s.led[p.currentTerm := p.logs] else s.led)
  }

  ghost predicate Run(run: seq<Cluster>, steps: seq<Step>) {
    && |run| == |steps| + 1 && Init(run[0])
    && forall k :: 0 <= k < |steps| ==> Takes(run[k], run[k + 1], steps[k])
  }

  // ---------------------------------------------------------------------------------
  // Invariant

  /** Up to `i`, the log is that of the leader whose term the entry at `i` has. */
  ghost predicate Backed(led: map<nat, Log>, log: Log, i: nat)
    requires i < |log|
  {
    var t := log[i].term;
    t in led && i < |led[t]| && log[..i + 1] == led[t][..i + 1]
  }

  ghost predicate Good(led: map<nat, Log>, log: Log) {
    |log| > 0 && log[0] == Placeholder && forall i :: 1 <= i < |log| ==> Backed(led, log, i)
  }

  ghost predicate PeerOk(led: map<nat, Log>, p: Peer) {
    && Wf(p) && p.snapshotIndex == 0 && Good(led, p.logs)
    && (p.role.Leader? ==> p.currentTerm in led && led[p.currentTerm] == p.logs)
  }

  /** A request carries a piece of the log of the leader of its term, and the term right before it. */
  ghost predicate Slice(led: map<nat, Log>, m: AppendArgs) {
    && m.term in led
    && var log := led[m.term];
       && m.prevIndex + |m.entries| < |log| && log[m.prevIndex].term == m.prevTerm
       && m.entries == log[m.prevIndex + 1..m.prevIndex + 1 + |m.entries|]
  }

  ghost predicate OneLeader(peers: seq<Peer>) {
    forall i, j :: (0 <= i < |peers| && 0 <= j < |peers| && peers[i].role.Leader? && peers[j].role.Leader?
                    && peers[i].currentTerm == peers[j].currentTerm) ==> i == j
  }

  ghost predicate Inv(s: Cluster) {
    && (forall i :: 0 <= i < |s.peers| ==> PeerOk(s.led, s.peers[i]))
    && (forall t :: t in s.led ==> Good(s.led, s.led[t]))
    && (forall m :: m in s.sent ==> Slice(s.led, m))
    && OneLeader(s.peers)
  }

  /** Leaders are added, and their logs grow at the end. */
  ghost predicate Grows(led: map<nat, Log>, led': map<nat, Log>) {
    forall t :: t in led ==> t in led' && led[t] <= led'[t]
  }

  lemma GrowsGood(led: map<nat, Log>, led': map<nat, Log>, log: Log)
    requires Grows(led, led') && Good(led, log)
    ensures Good(led', log)
  {
    forall i | 1 <= i < |log| ensures Backed(led', log, i) {
      assert Backed(led, log, i);
    }
  }

  lemma GrowsSlice(led: map<nat, Log>, led': map<nat, Log>, m: AppendArgs)
    requires Grows(led, led') && Slice(led, m)
    ensures Slice(led', m)
  {
  }

  lemma PrefixGood(led: map<nat, Log>, log: Log, n: nat)
    requires Good(led, log) && 0 < n <= |log|
    ensures Good(led, log[..n])
  {
    forall i | 1 <= i < n ensures Backed(led, log[..n], i) {
      assert Backed(led, log, i);
      assert log[..n][..i + 1] == log[..i + 1];
    }
  }

  lemma AppendGood(led: map<nat, Log>, log: Log, e: LogEntry)
    requires Good(led, log) && e.term in led && led[e.term] == log
    ensures Good(led[e.term := log + [e]], log + [e])
  {
    var led' := led[e.term := log + [e]];
    GrowsGood(led, led', log);
    forall i | 1 <= i < |log + [e]| ensures Backed(led', log + [e], i) {
      if i < |log| {
        assert Backed(led', log, i);
        assert (log + [e])[..i + 1] == log[..i + 1];
      }
    }
  }

  /** Where the term agrees with the leader's, so does everything before. */
  lemma AgreeBefore(led: map<nat, Log>, a: Log, b: Log, i: nat)
    requires Good(led, a) && Good(led, b) && i < |a| && i < |b| && a[i].term == b[i].term
    ensures a[..i + 1] == b[..i + 1]
  {
    if i > 0 {
      assert Backed(led, a, i) && Backed(led, b, i);
    }
  }

  /** A request that matches turns the log into a prefix of the sender's. */
  lemma ReceiveGood(led: map<nat, Log>, log: Log, m: AppendArgs)
    requires Good(led, log) && Slice(led, m) && Good(led, led[m.term])
    requires m.prevIndex < |log| && log[m.prevIndex].term == m.prevTerm
    ensures log[..m.prevIndex + 1] + m.entries == led[m.term][..m.prevIndex + 1 + |m.entries|]
    ensures Good(led, log[..m.prevIndex + 1] + m.entries)
  {
    var n := m.prevIndex + 1;
    AgreeBefore(led, log, led[m.term], m.prevIndex);
    assert led[m.term][..n] + led[m.term][n..n + |m.entries|] == led[m.term][..n + |m.entries|];
    PrefixGood(led, led[m.term], n + |m.entries|);
  }

  // ---------------------------------------------------------------------------------
  // Preservation

  /** The steps that neither append at the leader nor make one. */
  lemma MovedOk(s: Cluster, step: Step)
    requires Inv(s) && step.p < |s.peers| && Moved(s, step).Some? && !step.Elect? && !step.Submit? && !step.Receive?
    ensures PeerOk(s.led, Moved(s, step).value)
    ensures Moved(s, step).value.role.Leader? ==>
              s.peers[step.p].role.Leader? && Moved(s, step).value.currentTerm == s.peers[step.p].currentTerm
  {
    hide Good;
    assert PeerOk(s.led, s.peers[step.p]);
  }

  lemma ReceiveOk(s: Cluster, p: nat, m: AppendArgs)
    requires Inv(s) && p < |s.peers| && m in s.sent
    ensures PeerOk(s.led, OnAppendEntries(s.peers[p], m).0)
    ensures OnAppendEntries(s.peers[p], m).0.role.Leader? ==> OnAppendEntries(s.peers[p], m).0 == s.peers[p]
  {
    hide Good, Hint;
    var peer := s.peers[p];
    assert PeerOk(s.led, peer) && Slice(s.led, m);
    if m.term >= peer.currentTerm && Matches(AcceptLeader(peer, m), m) {
      ReceiveGood(s.led, peer.logs, m);
    }
  }

  lemma SameLedInv(s: Cluster, s': Cluster, step: Step)
    requires Inv(s) && Takes(s, s', step) && !step.Elect? && !step.Submit?
    ensures Inv(s')
  {
    hide Good, Moved, PeerOk, Slice, OnConsistencyCheck;
    MovedPeerOk(s, step);
    var p := Moved(s, step).value;
    if step.Send? {
      MovedSends(s, step);
      SendOk(s, step);
    }
    assert s'.led == s.led;
    forall i | 0 <= i < |s'.peers| ensures PeerOk(s'.led, s'.peers[i]) {
      assert i != step.p ==> PeerOk(s.led, s.peers[i]);
    }
  }

  lemma MovedSends(s: Cluster, step: Step)
    requires step.p < |s.peers| && Wf(s.peers[step.p]) && Moved(s, step).Some? && step.Send?
    ensures Moved(s, step).value == s.peers[step.p] && step.f < s.peers[step.p].n
    ensures OnConsistencyCheck(s.peers[step.p], step.f).Request?
  {
  }

  lemma MovedPeerOk(s: Cluster, step: Step)
    requires Inv(s) && step.p < |s.peers| && Moved(s, step).Some? && !step.Elect? && !step.Submit?
    ensures PeerOk(s.led, Moved(s, step).value)
    ensures var p, was := Moved(s, step).value, s.peers[step.p];
            p.role.Leader? ==> was.role.Leader? && p.currentTerm == was.currentTerm
  {
    hide PeerOk, Good;
    if step.Receive? { ReceiveOk(s, step.p, step.args); } else { MovedOk(s, step); }
  }

  lemma SendOk(s: Cluster, step: Step)
    requires Inv(s) && step.Send? && step.p < |s.peers| && Moved(s, step).Some?
    ensures Moved(s, step).value == s.peers[step.p]
    ensures Slice(s.led, OnConsistencyCheck(s.peers[step.p], step.f).args)
  {
    hide Good;
    assert PeerOk(s.led, s.peers[step.p]);
  }

  lemma LedInv(s: Cluster, s': Cluster, step: Step)
    requires Inv(s) && Takes(s, s', step) && (step.Elect? || step.Submit?)
    ensures Inv(s') && Grows(s.led, s'.led)
  {
    var was, p := s.peers[step.p], Moved(s, step).value;
    assert PeerOk(s.led, was);
    if p.role.Leader? {
      assert Grows(s.led, s'.led);
      assert Good(s'.led, p.logs) by {
        if step.Submit? { AppendGood(s.led, was.logs, LogEntry(was.currentTerm, step.command)); }
        else { GrowsGood(s.led, s'.led, was.logs); }
      }
      assert && Wf(p) && p.snapshotIndex == 0 && p.currentTerm == was.currentTerm
             && (was.role.Leader? || p.currentTerm !in s.led);
      hide Good, Moved, Slice;
      LeaderMoves(s, s', step.p);
    }
  }

  /** The log of one leader, new or not, is recorded. */
  lemma LeaderMoves(s: Cluster, s': Cluster, k: nat)
    requires Inv(s) && k < |s.peers| == |s'.peers| && s'.sent == s.sent && Grows(s.led, s'.led)
    requires var p := s'.peers[k];
             && s'.peers == s.peers[k := p] && s'.led == s.led[p.currentTerm := p.logs] && Good(s'.led, p.logs)
             && Wf(p) && p.snapshotIndex == 0 && p.role.Leader? && p.currentTerm == s.peers[k].currentTerm
             && (s.peers[k].role.Leader? || p.currentTerm !in s.led)
    ensures Inv(s')
  {
    hide Good, Slice, Wf;
    forall i | 0 <= i < |s'.peers| ensures PeerOk(s'.led, s'.peers[i]) {
      assert PeerOk(s.led, s.peers[i]);
      if i != k {
        GrowsGood(s.led, s'.led, s.peers[i].logs);
        assert s.peers[i].role.Leader? ==> s.peers[i].currentTerm != s'.peers[k].currentTerm;
      }
    }
    forall t | t in s'.led ensures Good(s'.led, s'.led[t]) {
      if t != s'.peers[k].currentTerm { GrowsGood(s.led, s'.led, s.led[t]); }
    }
    forall m | m in s'.sent ensures Slice(s'.led, m) { GrowsSlice(s.led, s'.led, m); }
    assert OneLeader(s'.peers) by {
      forall i | 0 <= i < |s.peers| && s.peers[i].role.Leader? ensures s.peers[i].currentTerm in s.led {
        assert PeerOk(s.led, s.peers[i]);
      }
    }
  }

  lemma StepInv(s: Cluster, s': Cluster, step: Step)
    requires Inv(s) && Takes(s, s', step)
    ensures Inv(s') && Grows(s.led, s'.led)
  {
    hide Inv;
    if step.Elect? || step.Submit? { LedInv(s, s', step); } else { SameLedInv(s, s', step); }
  }

  lemma {:induction false} RunInv(run: seq<Cluster>, steps: seq<Step>, k: nat)
    requires Run(run, steps) && k < |run|
    ensures Inv(run[k])
  {
    if k == 0 {
      assert Init(run[0]);
    } else {
      hide Takes, Inv;
      RunInv(run, steps, k - 1);
      assert Takes(run[k - 1], run[k - 1 + 1], steps[k - 1]);
      StepInv(run[k - 1], run[k], steps[k - 1]);
    }
  }

  // ---------------------------------------------------------------------------------
  // Theorems

  /** Log Matching: logs that agree on the term at an index agree on everything up to it. */
  lemma LogsMatch(run: seq<Cluster>, steps: seq<Step>, k: nat, p: nat, q: nat, i: nat)
    requires Run(run, steps) && k < |run| && p < |run[k].peers| && q < |run[k].peers|
    requires i < |run[k].peers[p].logs| && i < |run[k].peers[q].logs|
    requires run[k].peers[p].logs[i].term == run[k].peers[q].logs[i].term
    ensures run[k].peers[p].logs[..i + 1] == run[k].peers[q].logs[..i + 1]
  {
    hide Run, Good;
    RunInv(run, steps, k);
    assert PeerOk(run[k].led, run[k].peers[p]) && PeerOk(run[k].led, run[k].peers[q]);
    AgreeBefore(run[k].led, run[k].peers[p].logs, run[k].peers[q].logs, i);
  }

  lemma {:induction false} LedGrows(run: seq<Cluster>, steps: seq<Step>, j: nat, k: nat)
    requires Run(run, steps) && j <= k < |run|
    ensures Grows(run[j].led, run[k].led)
    decreases k
  {
    hide Takes, Inv;
    if j < k {
      LedGrows(run, steps, j, k - 1);
      RunInv(run, steps, k - 1);
      assert Takes(run[k - 1], run[k - 1 + 1], steps[k - 1]);
      StepInv(run[k - 1], run[k], steps[k - 1]);
    }
  }

  /** A leader only ever appends to its log: nothing it had in its term is overwritten or deleted. */
  lemma LeaderAppendOnly(run: seq<Cluster>, steps: seq<Step>, j: nat, k: nat, p: nat, q: nat)
    requires Run(run, steps) && j <= k < |run| && p < |run[j].peers| && q < |run[k].peers|
    requires run[j].peers[p].role.Leader? && run[k].peers[q].role.Leader?
    requires run[j].peers[p].currentTerm == run[k].peers[q].currentTerm
    ensures run[j].peers[p].logs <= run[k].peers[q].logs
  {
    hide Run, Good;
    RunInv(run, steps, j);
    RunInv(run, steps, k);
    LedGrows(run, steps, j, k);
    assert PeerOk(run[j].led, run[j].peers[p]) && PeerOk(run[k].led, run[k].peers[q]);
  }
}
