/**
  The election restriction, in terms of the logs: whom a peer votes for, and what that says about the
  winner of an election.  Nothing here needs step downs to be careful or terms to grow, except that a
  candidate stands in a term only once.
 */
module VotingLogs {
  import opened Commit
  import opened Histories
  import opened RaftPeer
  import opened Voting

  /** The term and the index of the last entry of a log. */
  datatype Mark = Mark(term: nat, index: nat)

  function MarkOf(p: Peer): Mark
    requires |p.logs| > 0
  {
    Mark(p.logs[|p.logs| - 1].term, p.snapshotIndex + |p.logs| - 1)
  }

  /** Logs are compared by their last terms first, then by their lengths. */
  predicate AtLeast(a: Mark, b: Mark) {
    a.term > b.term || (a.term == b.term && a.index >= b.index)
  }

  lemma AtLeastIsOrder(a: Mark, b: Mark, c: Mark)
    ensures AtLeast(a, b) || AtLeast(b, a)
    ensures AtLeast(a, b) && AtLeast(b, a) ==> a == b
    ensures AtLeast(a, b) && AtLeast(b, c) ==> AtLeast(a, c)
  {
  }

  // ---------------------------------------------------------------------------------
  // One request

  /** The peer has not voted in the term of the request, as far as it knows, and is not past it. */
  ghost predicate VoteIsFree(p: Peer, a: VoteArgs) {
    a.term > p.currentTerm || (a.term == p.currentTerm && p.votedFor == -1)
  }

  /** A vote is granted exactly if it is free and the candidate's log is at least as up to date. */
  lemma GrantedExactly(p: Peer, a: VoteArgs)
    requires |p.logs| > 0
    ensures OnRequestVote(p, a).1.granted <==>
            VoteIsFree(p, a) && AtLeast(Mark(a.lastTerm, a.lastIndex), MarkOf(p))
  {
  }

  /** What it leaves behind: the log and everything else stay, and a vote given is not free any more. */
  lemma VoteLeaves(p: Peer, a: VoteArgs)
    requires |p.logs| > 0
    ensures var (p', reply) := OnRequestVote(p, a);
            && p' == p.(currentTerm := p'.currentTerm, role := p'.role, votedFor := p'.votedFor)
            && p'.currentTerm == (if a.term > p.currentTerm then a.term else p.currentTerm)
            && (reply.granted ==> p'.votedFor == a.candidate && p'.role.Follower? && !VoteIsFree(p', a))
            && (!reply.granted && a.term > p.currentTerm ==> p'.votedFor == -1 && p'.role.Follower?)
            && (!reply.granted && a.term <= p.currentTerm ==> p' == p)
            && (reply.currentTerm > a.term <==> a.term < p.currentTerm)
            && (a.term < p.currentTerm ==> reply.currentTerm == p.currentTerm)
  {
  }

  /** A peer that has accepted a leader grants no vote in that leader's term. */
  lemma LeaderBlocksVotes(p: Peer, m: AppendArgs, a: VoteArgs)
    requires |p.logs| > 0 && m.term >= p.currentTerm && a.term <= m.term
    ensures var p' := OnAppendEntries(p, m).0; |p'.logs| > 0 && !OnRequestVote(p', a).1.granted
  {
    hide Hint;
  }

  // ---------------------------------------------------------------------------------
  // Whole runs

  /** At step `i` the candidate of the request stood, and the request describes its log. */
  ghost predicate StoodAt(run: seq<State>, steps: seq<Step>, i: nat, a: VoteArgs)
    requires |run| == |steps| + 1
  {
    && i < |steps| && steps[i] == TimeoutStep(a.candidate) && a.candidate < |run[i].peers|
    && |run[i].peers[a.candidate].logs| > 0 && run[i].peers[a.candidate].me == a.candidate
    && a.term == run[i].peers[a.candidate].currentTerm + 1
    && Mark(a.lastTerm, a.lastIndex) == MarkOf(run[i].peers[a.candidate])
  }

  lemma Names(run: seq<State>, steps: seq<Step>, k: nat)
    requires Run(run, steps) && k < |run|
    ensures forall i :: 0 <= i < |run[k].peers| ==> run[k].peers[i].me == i && |run[k].peers[i].logs| > 0
  {
    hide Takes;
    if k > 0 {
      Names(run, steps, k - 1);
      assert Takes(run[k - 1], run[k - 1 + 1], steps[k - 1]);
      NamesStep(run[k - 1], run[k], steps[k - 1]);
    }
  }

  lemma NamesStep(s: State, s': State, step: Step)
    requires Takes(s, s', step)
    requires forall i :: 0 <= i < |s.peers| ==> s.peers[i].me == i && |s.peers[i].logs| > 0
    ensures |s'.peers| == |s.peers|
    ensures forall i :: 0 <= i < |s'.peers| ==> s'.peers[i].me == i && |s'.peers[i].logs| > 0
  {
    hide Hint;
  }

  lemma {:induction false} RequestsDescribeLogs(run: seq<State>, steps: seq<Step>, k: nat, a: VoteArgs) returns (i: nat)
    requires Run(run, steps) && k < |run| && a in run[k].requests
    ensures i < k && StoodAt(run, steps, i, a)
  {
    hide Takes;
    assert k > 0;
    assert Takes(run[k - 1], run[k - 1 + 1], steps[k - 1]);
    Names(run, steps, k - 1);
    if a in run[k - 1].requests {
      i := RequestsDescribeLogs(run, steps, k - 1, a);
    } else {
      i := k - 1;
      NewRequest(run[k - 1], run[k], steps[k - 1], a);
    }
  }

  lemma NewRequest(s: State, s': State, step: Step, a: VoteArgs)
    requires Takes(s, s', step) && a in s'.requests && a !in s.requests
    requires forall i :: 0 <= i < |s.peers| ==> s.peers[i].me == i && |s.peers[i].logs| > 0
    ensures step == TimeoutStep(a.candidate) && a.candidate < |s.peers|
    ensures a.term == s.peers[a.candidate].currentTerm + 1
    ensures Mark(a.lastTerm, a.lastIndex) == MarkOf(s.peers[a.candidate])
  {
  }

  /** At step `j` peer `q` granted its vote to the request, and its log was not ahead of the request's. */
  ghost predicate VotedAt(run: seq<State>, steps: seq<Step>, j: nat, q: nat, a: VoteArgs)
    requires |run| == |steps| + 1
  {
    && j < |steps| && steps[j] == VoteStep(q, a) && a in run[j].requests
    && q < |run[j].peers| && |run[j].peers[q].logs| > 0
    && VoteIsFree(run[j].peers[q], a) && AtLeast(Mark(a.lastTerm, a.lastIndex), MarkOf(run[j].peers[q]))
  }

  lemma {:induction false} AnswersAreVotes(run: seq<State>, steps: seq<Step>, k: nat, a: Answer) returns (j: nat)
    requires Run(run, steps) && k < |run| && a in run[k].answers && a.reply.granted
    ensures j < k && VotedAt(run, steps, j, a.voter, a.args)
  {
    hide Takes;
    assert k > 0;
    assert Takes(run[k - 1], run[k - 1 + 1], steps[k - 1]);
    if a in run[k - 1].answers {
      j := AnswersAreVotes(run, steps, k - 1, a);
    } else {
      j := k - 1;
      NewAnswer(run[k - 1], run[k], steps[k - 1], a);
    }
  }

  lemma NewAnswer(s: State, s': State, step: Step, a: Answer)
    requires Takes(s, s', step) && a in s'.answers && a !in s.answers && a.reply.granted
    ensures step == VoteStep(a.voter, a.args) && a.args in s.requests && a.voter < |s.peers|
    ensures |s.peers[a.voter].logs| > 0 && VoteIsFree(s.peers[a.voter], a.args)
    ensures AtLeast(Mark(a.args.lastTerm, a.args.lastIndex), MarkOf(s.peers[a.voter]))
  {
    if step.VoteStep? { GrantedExactly(s.peers[step.q], step.args); }
  }

  /** Where a free vote is refused in a run, the candidate's log was behind. */
  lemma RefusedOnlyIfBehind(run: seq<State>, steps: seq<Step>, k: nat) returns (i: nat)
    requires Run(run, steps) && k < |steps| && steps[k].VoteStep?
    requires steps[k].q < |run[k].peers| && |run[k].peers[steps[k].q].logs| > 0
    requires VoteIsFree(run[k].peers[steps[k].q], steps[k].args)
    requires !OnRequestVote(run[k].peers[steps[k].q], steps[k].args).1.granted
    ensures i < k && StoodAt(run, steps, i, steps[k].args)
    ensures !AtLeast(MarkOf(run[i].peers[steps[k].args.candidate]), MarkOf(run[k].peers[steps[k].q]))
  {
    assert Takes(run[k], run[k + 1], steps[k]);
    i := RequestsDescribeLogs(run, steps, k, steps[k].args);
    GrantedExactly(run[k].peers[steps[k].q], steps[k].args);
  }

  /** A vote counted for the candidate of a term. */
  ghost predicate CountedFor(s: State, c: nat, term: nat, q: nat) {
    (c, term) in s.canvasses && q in s.canvasses[(c, term)].counted
  }

  ghost predicate GrantedBy(s: State, c: nat, term: nat, q: nat) {
    exists a :: a in s.answers && a.reply.granted && a.voter == q && a.args.candidate == c && a.args.term == term
  }

  lemma {:induction false} CountedAreGranted(run: seq<State>, steps: seq<Step>, k: nat, c: nat, term: nat, q: nat)
    requires Run(run, steps) && k < |run| && CountedFor(run[k], c, term, q)
    ensures GrantedBy(run[k], c, term, q)
  {
    hide Takes;
    assert k > 0;
    assert Takes(run[k - 1], run[k - 1 + 1], steps[k - 1]);
    if CountedFor(run[k - 1], c, term, q) {
      CountedAreGranted(run, steps, k - 1, c, term, q);
      AnswersStay(run[k - 1], run[k], steps[k - 1]);
    } else {
      NewCount(run[k - 1], run[k], steps[k - 1], c, term, q);
    }
  }

  lemma AnswersStay(s: State, s': State, step: Step)
    requires Takes(s, s', step)
    ensures s.answers <= s'.answers
  {
    hide Hint;
  }

  lemma NewCount(s: State, s': State, step: Step, c: nat, term: nat, q: nat)
    requires Takes(s, s', step) && CountedFor(s', c, term, q) && !CountedFor(s, c, term, q)
    ensures GrantedBy(s', c, term, q)
  {
    hide Hint;
    if step.CountStep? { assert step.a in s'.answers; }
  }

  /** When `q` voted, its log was not ahead of the candidate's, as that was when it stood in this term. */
  ghost predicate Outran(run: seq<State>, steps: seq<Step>, k: nat, c: nat, term: nat, q: nat, i: nat, j: nat)
    requires |run| == |steps| + 1
  {
    && i < j < k <= |steps| && steps[i] == TimeoutStep(c) && steps[j].VoteStep? && steps[j].q == q
    && steps[j].args.candidate == c && steps[j].args.term == term
    && c < |run[i].peers| && |run[i].peers[c].logs| > 0 && term == run[i].peers[c].currentTerm + 1
    && q < |run[j].peers| && |run[j].peers[q].logs| > 0 && OnRequestVote(run[j].peers[q], steps[j].args).1.granted
    && AtLeast(MarkOf(run[i].peers[c]), MarkOf(run[j].peers[q]))
  }

  lemma CountedWereBehind(run: seq<State>, steps: seq<Step>, k: nat, c: nat, term: nat, q: nat) returns (i: nat, j: nat)
    requires Run(run, steps) && k < |run| && CountedFor(run[k], c, term, q)
    ensures Outran(run, steps, k, c, term, q, i, j)
  {
    hide Takes;
    CountedAreGranted(run, steps, k, c, term, q);
    var a :| a in run[k].answers && a.reply.granted && a.voter == q && a.args.candidate == c && a.args.term == term;
    j := AnswersAreVotes(run, steps, k, a);
    i := RequestsDescribeLogs(run, steps, j, a.args);
    GrantedExactly(run[j].peers[q], a.args);
  }

  /**
    The winner of an election has outrun a majority: apart from itself, each of these peers had a log
    that was not ahead of the winner's when it voted.
   */
  lemma WinnerIsUpToDate(run: seq<State>, steps: seq<Step>, k: nat, c: nat, term: nat) returns (voters: set<nat>)
    requires Run(run, steps) && k < |run| && (c, term) in run[k].canvasses && run[k].canvasses[(c, term)].won
    ensures c in voters && voters <= Below(|run[k].peers|) && |voters| >= |run[k].peers| / 2 + 1
    ensures forall q :: q in voters && q != c ==> exists i, j :: Outran(run, steps, k, c, term, q, i, j)
  {
    hide Run, Outran;
    var canvass := run[k].canvasses[(c, term)];
    voters := canvass.counted + {c};
    RunLength(run, steps);
    WonExactly(run, steps, k, c, term);
    forall q | q in voters && q != c ensures exists i, j :: Outran(run, steps, k, c, term, q, i, j) {
      var i, j := CountedWereBehind(run, steps, k, c, term, q);
    }
  }

  /** While terms do not fall, a candidate stands once in a term, so one log is meant throughout. */
  lemma StandsOnce(run: seq<State>, steps: seq<Step>, i: nat, j: nat, c: nat)
    requires Run(run, steps) && i < |steps| && j < |steps| && c < |run[i].peers| && c < |run[j].peers|
    requires steps[i] == TimeoutStep(c) && steps[j] == TimeoutStep(c)
    requires run[i].peers[c].currentTerm == run[j].peers[c].currentTerm
    requires forall m :: 0 <= m < |steps| ==> !LowersTerm(run[m], steps[m])
    ensures i == j
  {
    if i < j {
      StandsLater(run, steps, i, j, c);
    } else if j < i {
      StandsLater(run, steps, j, i, c);
    }
  }

  lemma StandsLater(run: seq<State>, steps: seq<Step>, i: nat, j: nat, c: nat)
    requires Run(run, steps) && i < j < |steps| && c < |run[i].peers| && c < |run[j].peers|
    requires steps[i] == TimeoutStep(c) && forall m :: 0 <= m < |steps| ==> !LowersTerm(run[m], steps[m])
    ensures run[i].peers[c].currentTerm < run[j].peers[c].currentTerm
  {
    assert Takes(run[i], run[i + 1], steps[i]);
    hide Takes, LowersTerm;
    TermsGrow(run, steps, i + 1, j, c);
  }
}
