/**
  Elections as a state machine over `n` peers: election timeouts, vote requests that arrive late,
  repeatedly or never, append requests of any content, the counting of replies, and both places where
  a reply makes a peer step down.
 */
module Voting {
  import opened RaftPeer
  import opened Histories
  import opened Commit

  datatype Grant = Grant(voter: nat, term: nat, candidate: nat)

  /** One call of `canvassVotes`: the peers whose reply has been handled, those counted, and the counter `votes`. */
  datatype Canvass = Canvass(heard: set<nat>, counted: set<nat>, votes: nat, won: bool)

  datatype Answer = Answer(voter: nat, args: VoteArgs, reply: VoteReply)

  /**
    `replies` are the answers to append requests.  `votes` remembers every vote ever given, by a grant
    or by becoming a candidate; `led` remembers which peer was made leader while it was in which term.
   */
  datatype State = State(peers: seq<Peer>, requests: set<VoteArgs>, answers: set<Answer>, replies: set<AppendReply>,
                         canvasses: map<(nat, nat), Canvass>, votes: set<Grant>, led: set<(nat, nat)>)

  ghost predicate Init(s: State) {
    && (forall i :: 0 <= i < |s.peers| ==> s.peers[i].me == i && |s.peers[i].logs| > 0 && s.peers[i].votedFor == -1)
    && s.requests == {} && s.answers == {} && s.replies == {} && s.canvasses == map[] && s.votes == {} && s.led == {}
  }

  /** The election timer of peer `p` fires. */
  ghost predicate TimesOut(s: State, s': State, p: nat) {
    && p < |s.peers| && |s.peers[p].logs| > 0
    && var (peer, args) := BecomeCandidate(s.peers[p]);
       s' == s.(peers := s.peers[p := peer], requests := s.requests + {args},
                canvasses := s.canvasses[(p, args.term) := Canvass({}, {}, 1, false)],
                votes := s.votes + {Grant(p, args.term, p)})
  }

  /** Peer `q` handles a vote request. */
  ghost predicate HandlesVote(s: State, s': State, q: nat, args: VoteArgs) {
    && q < |s.peers| && |s.peers[q].logs| > 0 && args in s.requests && args.candidate != q
    && var (peer, reply) := OnRequestVote(s.peers[q], args);
       s' == s.(peers := s.peers[q := peer], answers := s.answers + {Answer(q, args, reply)},
                votes := if reply.granted then s.votes + {Grant(q, args.term, args.candidate)} else s.votes)
  }

  /** Peer `q` handles an append request, whatever it contains. */
  ghost predicate HandlesAppend(s: State, s': State, q: nat, args: AppendArgs) {
    && q < |s.peers| && |s.peers[q].logs| > 0
    && var (peer, reply) := OnAppendEntries(s.peers[q], args);
       s' == s.(peers := s.peers[q := peer], replies := s.replies + {reply})
  }

  /** A leader learns of a higher term from the answer to an append request; its own term stays. */
  ghost predicate StepsDown(s: State, s': State, p: nat, reply: AppendReply) {
    && p < |s.peers| && reply in s.replies && LearnsOfHigherTerm(s.peers[p], reply)
    && s' == s.(peers := s.peers[p := TurnToFollow(s.peers[p])])
  }

  /** The reply handler of a canvass. */
  ghost predicate Counts(s: State, s': State, a: Answer) {
    && a in s.answers && a.args.candidate < |s.peers| && (a.args.candidate, a.args.term) in s.canvasses
    && var p, key := s.peers[a.args.candidate], (a.args.candidate, a.args.term);
       var c := s.canvasses[key];
       && a.voter !in c.heard
       && var c1 := c.(heard := c.heard + {a.voter});
          if !p.role.Candidate? then
            s' == s.(canvasses := s.canvasses[key := c1])
          else if a.reply.currentTerm > a.args.term then
            s' == s.(peers := s.peers[a.args.candidate := TurnToFollow(p.(currentTerm := a.reply.currentTerm))],
                     canvasses := s.canvasses[key := c1])
          else if !a.reply.granted then
            s' == s.(canvasses := s.canvasses[key := c1])
          else if c.votes == |s.peers| / 2 then
            s' == s.(peers := s.peers[a.args.candidate := p.(role := Leader)],
                     canvasses := s.canvasses[key := c1.(counted := c.counted + {a.voter}, won := true)],
                     led := s.led + {(a.args.candidate, p.currentTerm)})
          else
            s' == s.(canvasses := s.canvasses[key := c1.(counted := c.counted + {a.voter}, votes := c.votes + 1)])
  }

  datatype Step =
    | TimeoutStep(p: nat)
    | VoteStep(q: nat, args: VoteArgs)
    | AppendStep(q: nat, append: AppendArgs)
    | StepDownStep(p: nat, reply: AppendReply)
    | CountStep(a: Answer)

  ghost predicate Takes(s: State, s': State, step: Step) {
    match step
    case TimeoutStep(p) => TimesOut(s, s', p)
    case VoteStep(q, args) => HandlesVote(s, s', q, args)
    case AppendStep(q, args) => HandlesAppend(s, s', q, args)
    case StepDownStep(p, reply) => StepsDown(s, s', p, reply)
    case CountStep(a) => Counts(s, s', a)
  }

  ghost predicate Run(run: seq<State>, steps: seq<Step>) {
    && |run| == |steps| + 1 && Init(run[0])
    && forall k :: 0 <= k < |steps| ==> Takes(run[k], run[k + 1], steps[k])
  }

  // ---------------------------------------------------------------------------------
  // When stepping down is harmless

  /** The answer makes its candidate step down. */
  ghost predicate StepsDownOn(s: State, a: Answer) {
    && a.args.candidate < |s.peers| && s.peers[a.args.candidate].role.Candidate? && a.reply.currentTerm > a.args.term
  }

  ghost predicate NoVoteFrom(votes: set<Grant>, p: nat, term: nat) {
    forall v :: v in votes && v.voter == p ==> v.term < term
  }

  /**
    Stepping down clears the vote.  This says that the peer has not voted yet in the term it steps
    down to, nor in a later one; the handlers do not look.
   */
  ghost predicate Careful(s: State, step: Step) {
    match step
    case StepDownStep(p, _) => p < |s.peers| ==> NoVoteFrom(s.votes, p, s.peers[p].currentTerm)
    case CountStep(a) => StepsDownOn(s, a) ==> NoVoteFrom(s.votes, a.args.candidate, a.reply.currentTerm)
    case _ => true
  }

  ghost predicate CarefulBefore(run: seq<State>, steps: seq<Step>, k: nat)
    requires k <= |steps| && k <= |run|
  {
    forall i :: 0 <= i < k ==> Careful(run[i], steps[i])
  }

  // ---------------------------------------------------------------------------------
  // Invariant

  /** Votes are not ahead of the voter's term, and a vote in the current term blocks another one. */
  ghost predicate VoteOk(peers: seq<Peer>, v: Grant) {
    && v.voter < |peers| && v.term <= peers[v.voter].currentTerm
    && (v.term == peers[v.voter].currentTerm ==> peers[v.voter].votedFor != -1)
  }

  ghost predicate VotesHold(s: State) {
    forall v :: v in s.votes ==> VoteOk(s.peers, v)
  }

  ghost predicate OneVotePerTerm(votes: set<Grant>) {
    forall v, w :: v in votes && w in votes && v.voter == w.voter && v.term == w.term ==> v.candidate == w.candidate
  }

  ghost predicate CanvassOk(votes: set<Grant>, canvasses: map<(nat, nat), Canvass>, n: nat, key: (nat, nat))
    requires key in canvasses
  {
    var c := canvasses[key];
    && key.0 < n && Grant(key.0, key.1, key.0) in votes
    && c.counted <= c.heard && key.0 !in c.heard && c.counted <= Below(n)
    && (forall q :: q in c.counted ==> Grant(q, key.1, key.0) in votes)
    && c.votes <= |c.counted| + 1
    && (c.won ==> |c.counted| >= n / 2)
  }

  ghost predicate Inv(s: State) {
    && (forall i :: 0 <= i < |s.peers| ==> s.peers[i].me == i && |s.peers[i].logs| > 0)
    && VotesHold(s)
    && OneVotePerTerm(s.votes)
    && (forall a :: a in s.answers ==>
          && a.voter < |s.peers| && a.voter != a.args.candidate
          && (a.reply.granted ==> Grant(a.voter, a.args.term, a.args.candidate) in s.votes))
    && (forall key :: key in s.canvasses ==> CanvassOk(s.votes, s.canvasses, |s.peers|, key))
  }

  lemma TimeoutInv(s: State, s': State, p: nat)
    requires Inv(s) && TimesOut(s, s', p)
    ensures Inv(s')
  {
    var args := BecomeCandidate(s.peers[p]).1;
    forall v | v in s'.votes ensures VoteOk(s'.peers, v) {
      if v in s.votes { assert VoteOk(s.peers, v); }
    }
    forall v | v in s.votes ensures !(v.voter == p && v.term == args.term) { assert VoteOk(s.peers, v); }
    forall key | key in s'.canvasses ensures CanvassOk(s'.votes, s'.canvasses, |s'.peers|, key) {
      if key in s.canvasses && key != (p, args.term) { assert CanvassOk(s.votes, s.canvasses, |s.peers|, key); }
    }
  }

  lemma VoteInv(s: State, s': State, q: nat, args: VoteArgs)
    requires Inv(s) && HandlesVote(s, s', q, args)
    ensures Inv(s')
  {
    var (peer, reply) := OnRequestVote(s.peers[q], args);
    forall v | v in s'.votes ensures VoteOk(s'.peers, v) {
      if v in s.votes { assert VoteOk(s.peers, v); }
    }
    if reply.granted {
      forall v | v in s.votes ensures !(v.voter == q && v.term == args.term) { assert VoteOk(s.peers, v); }
    }
    forall key | key in s'.canvasses ensures CanvassOk(s'.votes, s'.canvasses, |s'.peers|, key) {
      assert CanvassOk(s.votes, s.canvasses, |s.peers|, key);
    }
  }

  lemma AppendInv(s: State, s': State, q: nat, args: AppendArgs)
    requires Inv(s) && HandlesAppend(s, s', q, args)
    ensures Inv(s')
  {
    hide Hint;
    forall v | v in s'.votes ensures VoteOk(s'.peers, v) {
      assert VoteOk(s.peers, v);
    }
    forall key | key in s'.canvasses ensures CanvassOk(s'.votes, s'.canvasses, |s'.peers|, key) {
      assert CanvassOk(s.votes, s.canvasses, |s.peers|, key);
    }
  }

  lemma StepDownInv(s: State, s': State, p: nat, reply: AppendReply)
    requires Inv(s) && StepsDown(s, s', p, reply) && Careful(s, StepDownStep(p, reply))
    ensures Inv(s')
  {
    forall v | v in s'.votes ensures VoteOk(s'.peers, v) {
      assert VoteOk(s.peers, v);
    }
    forall key | key in s'.canvasses ensures CanvassOk(s'.votes, s'.canvasses, |s'.peers|, key) {
      assert CanvassOk(s.votes, s.canvasses, |s.peers|, key);
    }
  }

  lemma CountVotes(s: State, s': State, a: Answer)
    requires VotesHold(s) && Counts(s, s', a) && Careful(s, CountStep(a))
    ensures VotesHold(s') && s'.votes == s.votes
  {
    forall v | v in s'.votes ensures VoteOk(s'.peers, v) {
      assert VoteOk(s.peers, v);
    }
  }

  lemma CountCanvass(s: State, s': State, a: Answer, key: (nat, nat))
    requires Inv(s) && Counts(s, s', a) && key in s'.canvasses
    ensures |s'.peers| == |s.peers| && CanvassOk(s.votes, s'.canvasses, |s.peers|, key)
  {
    hide VotesHold, OneVotePerTerm;
    assert key in s.canvasses && CanvassOk(s.votes, s.canvasses, |s.peers|, key);
  }

  lemma CountPeers(s: State, s': State, a: Answer)
    requires Counts(s, s', a) && forall i :: 0 <= i < |s.peers| ==> s.peers[i].me == i && |s.peers[i].logs| > 0
    ensures |s'.peers| == |s.peers| && s'.answers == s.answers
    ensures forall i :: 0 <= i < |s'.peers| ==> s'.peers[i].me == i && |s'.peers[i].logs| > 0
  {
  }

  lemma CountInv(s: State, s': State, a: Answer)
    requires Inv(s) && Counts(s, s', a) && Careful(s, CountStep(a))
    ensures Inv(s')
  {
    hide VotesHold, Careful, Counts, CanvassOk, OneVotePerTerm;
    CountVotes(s, s', a);
    CountPeers(s, s', a);
    forall key | key in s'.canvasses ensures CanvassOk(s'.votes, s'.canvasses, |s'.peers|, key) {
      CountCanvass(s, s', a, key);
    }
  }

  lemma StepInv(s: State, s': State, step: Step)
    requires Inv(s) && Takes(s, s', step) && Careful(s, step)
    ensures Inv(s')
  {
    hide Inv, Careful, TimesOut, HandlesVote, HandlesAppend, StepsDown, Counts;
    match step
    case TimeoutStep(p) => TimeoutInv(s, s', p);
    case VoteStep(q, args) => VoteInv(s, s', q, args);
    case AppendStep(q, args) => AppendInv(s, s', q, args);
    case StepDownStep(p, reply) => StepDownInv(s, s', p, reply);
    case CountStep(a) => CountInv(s, s', a);
  }

  lemma InitInv(s: State)
    requires Init(s)
    ensures Inv(s) && LedOk(s) && NotWonYet(s)
  {
  }

  lemma {:induction false} RunInv(run: seq<State>, steps: seq<Step>, k: nat)
    requires Run(run, steps) && k < |run| && CarefulBefore(run, steps, k)
    ensures Inv(run[k])
  {
    hide Inv, Takes, Careful, Init;
    if k == 0 {
      InitInv(run[0]);
    } else {
      RunInv(run, steps, k - 1);
      assert Takes(run[k - 1], run[k - 1 + 1], steps[k - 1]);
      StepInv(run[k - 1], run[k], steps[k - 1]);
    }
  }

  // ---------------------------------------------------------------------------------
  // Terms

  /** The answer to a canvass takes its candidate back to an earlier term. */
  ghost predicate LowersTerm(s: State, step: Step) {
    && step.CountStep? && StepsDownOn(s, step.a)
    && step.a.reply.currentTerm < s.peers[step.a.args.candidate].currentTerm
  }

  ghost predicate TermsKept(s: State, s': State) {
    && |s'.peers| == |s.peers|
    && forall i :: 0 <= i < |s.peers| ==> s.peers[i].currentTerm <= s'.peers[i].currentTerm
  }

  lemma TermsKeptStep(s: State, s': State, step: Step)
    requires Takes(s, s', step)
    ensures TermsKept(s, s') <==> !LowersTerm(s, step)
    ensures |s'.peers| == |s.peers|
  {
    hide Hint;
    if LowersTerm(s, step) {
      var c := step.a.args.candidate;
      assert s'.peers[c].currentTerm < s.peers[c].currentTerm;
    }
  }

  /** No step of a run lowers a term, unless an answer to a canvass does it. */
  lemma TermsGrowExactly(run: seq<State>, steps: seq<Step>)
    requires Run(run, steps)
    ensures (forall k :: 0 <= k < |steps| ==> TermsKept(run[k], run[k + 1])) <==>
            (forall k :: 0 <= k < |steps| ==> !LowersTerm(run[k], steps[k]))
  {
    hide Takes, TermsKept, LowersTerm;
    if forall k :: 0 <= k < |steps| ==> TermsKept(run[k], run[k + 1]) {
      forall k | 0 <= k < |steps| ensures !LowersTerm(run[k], steps[k]) {
        assert Takes(run[k], run[k + 1], steps[k]) && TermsKept(run[k], run[k + 1]);
        TermsKeptStep(run[k], run[k + 1], steps[k]);
      }
    }
    if forall k :: 0 <= k < |steps| ==> !LowersTerm(run[k], steps[k]) {
      forall k | 0 <= k < |steps| ensures TermsKept(run[k], run[k + 1]) {
        assert Takes(run[k], run[k + 1], steps[k]) && !LowersTerm(run[k], steps[k]);
        TermsKeptStep(run[k], run[k + 1], steps[k]);
      }
    }
  }

  /** The term of a peer never decreases. */
  lemma {:induction false} TermsGrow(run: seq<State>, steps: seq<Step>, j: nat, k: nat, i: nat)
    requires Run(run, steps) && j <= k < |run| && i < |run[j].peers|
    requires forall m :: j <= m < k ==> !LowersTerm(run[m], steps[m])
    ensures |run[k].peers| == |run[j].peers| && run[j].peers[i].currentTerm <= run[k].peers[i].currentTerm
    decreases k
  {
    hide Takes, LowersTerm;
    if j < k {
      TermsGrow(run, steps, j, k - 1, i);
      assert Takes(run[k - 1], run[k - 1 + 1], steps[k - 1]);
      TermsKeptStep(run[k - 1], run[k], steps[k - 1]);
    }
  }

  // ---------------------------------------------------------------------------------
  // Votes

  /** A step down that is not careful leaves a vote that no longer blocks another one. */
  lemma CarefulIfHeld(s: State, s': State, step: Step)
    requires Takes(s, s', step) && VotesHold(s')
    ensures Careful(s, step)
  {
    hide Hint;
    forall v | v in s.votes ensures v in s'.votes && VoteOk(s'.peers, v) { }
  }

  /** Votes are kept, in every state of a run, exactly when every step down is careful. */
  lemma VotesHoldExactly(run: seq<State>, steps: seq<Step>)
    requires Run(run, steps)
    ensures (forall k :: 0 <= k < |run| ==> VotesHold(run[k])) <==> CarefulBefore(run, steps, |steps|)
  {
    hide Takes, Careful, VotesHold;
    if CarefulBefore(run, steps, |steps|) {
      forall k | 0 <= k < |run| ensures VotesHold(run[k]) {
        RunInv(run, steps, k);
      }
    }
    if forall k :: 0 <= k < |run| ==> VotesHold(run[k]) {
      forall i | 0 <= i < |steps| ensures Careful(run[i], steps[i]) {
        assert Takes(run[i], run[i + 1], steps[i]);
        CarefulIfHeld(run[i], run[i + 1], steps[i]);
      }
    }
  }

  /** No peer ever votes for two candidates in one term. */
  lemma VotesOnce(run: seq<State>, steps: seq<Step>, k: nat, v: Grant, w: Grant)
    requires Run(run, steps) && k < |run| && CarefulBefore(run, steps, k)
    requires v in run[k].votes && w in run[k].votes && v.voter == w.voter && v.term == w.term
    ensures v.candidate == w.candidate
  {
    hide Run, CarefulBefore;
    RunInv(run, steps, k);
  }

  /** No two candidates win the same term. */
  lemma OneWinnerPerTerm(run: seq<State>, steps: seq<Step>, k: nat, c: nat, d: nat, term: nat)
    requires Run(run, steps) && k < |run| && CarefulBefore(run, steps, k)
    requires (c, term) in run[k].canvasses && run[k].canvasses[(c, term)].won
    requires (d, term) in run[k].canvasses && run[k].canvasses[(d, term)].won
    ensures c == d
  {
    hide Run, CarefulBefore;
    RunInv(run, steps, k);
    var s := run[k];
    var n := |s.peers|;
    assert CanvassOk(s.votes, s.canvasses, n, (c, term)) && CanvassOk(s.votes, s.canvasses, n, (d, term));
    var a, b := s.canvasses[(c, term)].counted + {c}, s.canvasses[(d, term)].counted + {d};
    var q := Overlap(n, a, b);
    assert Grant(q, term, c) in s.votes && Grant(q, term, d) in s.votes;
  }

  // ---------------------------------------------------------------------------------
  // Canvasses

  /** Replies are counted right, and the election is won with the vote that makes a majority. */
  ghost predicate Tallied(s: State, key: (nat, nat)) {
    key in s.canvasses ==>
      var c, n := s.canvasses[key], |s.peers|;
      && key.0 < n && c.counted <= c.heard && key.0 !in c.heard && c.counted <= Below(n)
      && (c.won <==> n >= 2 && |c.counted| >= n / 2)
      && (!c.won ==> c.votes == |c.counted| + 1)
  }

  ghost predicate AnswersOk(s: State) {
    forall a :: a in s.answers ==> a.voter < |s.peers| && a.voter != a.args.candidate
  }

  lemma TalliedCount(s: State, s': State, a: Answer, key: (nat, nat))
    requires Counts(s, s', a) && a.voter < |s.peers| && a.voter != a.args.candidate && Tallied(s, key)
    ensures Tallied(s', key)
  {
    if key == (a.args.candidate, a.args.term) {
      var c := s.canvasses[key];
      assert |c.counted + {a.voter}| == |c.counted| + 1;
    }
  }

  lemma CountedAnswer(s: State, s': State, a: Answer)
    requires Counts(s, s', a)
    ensures a in s.answers
  {
  }

  lemma TalliedStep(s: State, s': State, step: Step, key: (nat, nat))
    requires Takes(s, s', step) && AnswersOk(s) && Tallied(s, key)
    ensures Tallied(s', key)
  {
    hide OnAppendEntries, OnRequestVote, Counts;
    if step.CountStep? {
      CountedAnswer(s, s', step.a);
      TalliedCount(s, s', step.a, key);
    }
  }

  lemma AnswersOkStep(s: State, s': State, step: Step)
    requires Takes(s, s', step) && AnswersOk(s)
    ensures AnswersOk(s')
  {
    hide Hint;
  }

  lemma {:induction false} RunTallied(run: seq<State>, steps: seq<Step>, k: nat, key: (nat, nat))
    requires Run(run, steps) && k < |run|
    ensures AnswersOk(run[k]) && Tallied(run[k], key)
  {
    hide Takes, Tallied;
    if k == 0 {
      assert Tallied(run[0], key) by { FirstTallied(run[0], key); }
    } else {
      RunTallied(run, steps, k - 1, key);
      assert Takes(run[k - 1], run[k - 1 + 1], steps[k - 1]);
      TalliedStep(run[k - 1], run[k], steps[k - 1], key);
      AnswersOkStep(run[k - 1], run[k], steps[k - 1]);
    }
  }

  lemma FirstTallied(s: State, key: (nat, nat))
    requires Init(s)
    ensures Tallied(s, key)
  {
  }

  /** In a cluster of at least two, a canvass is won exactly when half the peers, and itself, have voted for it. */
  lemma WonExactly(run: seq<State>, steps: seq<Step>, k: nat, c: nat, term: nat)
    requires Run(run, steps) && k < |run| && (c, term) in run[k].canvasses
    ensures var canvass, n := run[k].canvasses[(c, term)], |run[k].peers|;
            && (canvass.won <==> n >= 2 && |canvass.counted + {c}| >= n / 2 + 1)
            && canvass.counted + {c} <= Below(n) && c !in canvass.counted
  {
    hide Run;
    RunTallied(run, steps, k, (c, term));
  }

  // ---------------------------------------------------------------------------------
  // Leaders

  /** The answer makes its candidate the leader. */
  ghost predicate MakesLeader(s: State, a: Answer) {
    && a.args.candidate < |s.peers| && s.peers[a.args.candidate].role.Candidate?
    && a.reply.currentTerm <= a.args.term && a.reply.granted
    && (a.args.candidate, a.args.term) in s.canvasses
    && s.canvasses[(a.args.candidate, a.args.term)].votes == |s.peers| / 2
  }

  /**
    The handler does not compare the peer's present term with the term of the canvass.  This says
    that, where a reply makes a leader, the two are the same.
   */
  ghost predicate CountsInTerm(s: State, step: Step) {
    step.CountStep? && MakesLeader(s, step.a) ==>
      s.peers[step.a.args.candidate].currentTerm == step.a.args.term
  }

  /** Every leader has won the term it leads. */
  ghost predicate LedOk(s: State) {
    forall x :: x in s.led ==> x in s.canvasses && s.canvasses[x].won
  }

  /** A candidate has not won its present term yet. */
  ghost predicate NotWonYet(s: State) {
    forall p :: 0 <= p < |s.peers| && s.peers[p].role.Candidate? ==> NotWon(s.canvasses, (p, s.peers[p].currentTerm))
  }

  ghost predicate NotWon(canvasses: map<(nat, nat), Canvass>, key: (nat, nat)) {
    key in canvasses ==> !canvasses[key].won
  }

  lemma CanvassNotAhead(s: State, p: nat, term: nat)
    requires Inv(s) && p < |s.peers| && s.peers[p].currentTerm < term
    ensures (p, term) !in s.canvasses
  {
    forall key | key in s.canvasses && key.0 == p ensures key.1 <= s.peers[p].currentTerm {
      assert CanvassOk(s.votes, s.canvasses, |s.peers|, key);
      assert VoteOk(s.peers, Grant(p, key.1, p));
    }
  }

  lemma LedTimeout(s: State, s': State, p: nat)
    requires Inv(s) && LedOk(s) && NotWonYet(s) && TimesOut(s, s', p)
    ensures LedOk(s') && NotWonYet(s')
  {
    CanvassNotAhead(s, p, s.peers[p].currentTerm + 1);
    hide Inv;
    forall q | 0 <= q < |s'.peers| && s'.peers[q].role.Candidate?
      ensures NotWon(s'.canvasses, (q, s'.peers[q].currentTerm))
    {
      assert q != p ==> NotWon(s.canvasses, (q, s.peers[q].currentTerm));
    }
  }

  lemma LedVote(s: State, s': State, q: nat, args: VoteArgs)
    requires LedOk(s) && NotWonYet(s) && HandlesVote(s, s', q, args)
    ensures LedOk(s') && NotWonYet(s')
  {
    forall p | 0 <= p < |s'.peers| && s'.peers[p].role.Candidate?
      ensures NotWon(s'.canvasses, (p, s'.peers[p].currentTerm))
    {
      assert NotWon(s.canvasses, (p, s.peers[p].currentTerm));
    }
  }

  lemma LedAppend(s: State, s': State, q: nat, args: AppendArgs)
    requires Inv(s) && LedOk(s) && NotWonYet(s) && HandlesAppend(s, s', q, args)
    ensures LedOk(s') && NotWonYet(s')
  {
    hide Hint;
    if s.peers[q].currentTerm < args.term { CanvassNotAhead(s, q, args.term); }
    hide Inv;
    forall p | 0 <= p < |s'.peers| && s'.peers[p].role.Candidate?
      ensures NotWon(s'.canvasses, (p, s'.peers[p].currentTerm))
    {
      assert NotWon(s.canvasses, (p, s.peers[p].currentTerm));
    }
  }

  lemma LedStepDown(s: State, s': State, p: nat, reply: AppendReply)
    requires LedOk(s) && NotWonYet(s) && StepsDown(s, s', p, reply)
    ensures LedOk(s') && NotWonYet(s')
  {
    forall q | 0 <= q < |s'.peers| && s'.peers[q].role.Candidate?
      ensures NotWon(s'.canvasses, (q, s'.peers[q].currentTerm))
    {
      assert NotWon(s.canvasses, (q, s.peers[q].currentTerm));
    }
  }

  lemma NotWonCount(s: State, s': State, a: Answer)
    requires NotWonYet(s) && Counts(s, s', a)
    ensures NotWonYet(s')
  {
    forall q | 0 <= q < |s'.peers| && s'.peers[q].role.Candidate?
      ensures NotWon(s'.canvasses, (q, s'.peers[q].currentTerm))
    {
      assert NotWon(s.canvasses, (q, s.peers[q].currentTerm));
    }
  }

  /** Leaders stay within what they have won exactly if the answer is counted in its term. */
  lemma LedCount(s: State, s': State, a: Answer)
    requires LedOk(s) && NotWonYet(s) && Counts(s, s', a)
    ensures LedOk(s') <==> CountsInTerm(s, CountStep(a))
  {
    var c := a.args.candidate;
    assert s.peers[c].role.Candidate? ==> NotWon(s.canvasses, (c, s.peers[c].currentTerm));
    forall x | x in s.led ensures x in s'.canvasses && s'.canvasses[x].won { }
    if MakesLeader(s, a) {
      assert (c, s.peers[c].currentTerm) in s'.led;
    }
  }

  lemma LedStep(s: State, s': State, step: Step)
    requires Inv(s) && LedOk(s) && NotWonYet(s) && Takes(s, s', step)
    ensures NotWonYet(s') && (LedOk(s') <==> CountsInTerm(s, step))
  {
    hide Inv, LedOk, NotWonYet, TimesOut, HandlesVote, HandlesAppend, StepsDown, Counts, MakesLeader;
    match step
    case TimeoutStep(p) => LedTimeout(s, s', p);
    case VoteStep(q, args) => LedVote(s, s', q, args);
    case AppendStep(q, args) => LedAppend(s, s', q, args);
    case StepDownStep(p, reply) => LedStepDown(s, s', p, reply);
    case CountStep(a) =>
      LedCount(s, s', a);
      NotWonCount(s, s', a);
  }

  ghost predicate CountedBefore(run: seq<State>, steps: seq<Step>, k: nat)
    requires k <= |steps| && k <= |run|
  {
    forall i :: 0 <= i < k ==> CountsInTerm(run[i], steps[i])
  }

  lemma {:induction false} RunLed(run: seq<State>, steps: seq<Step>, k: nat)
    requires Run(run, steps) && k < |run| && CarefulBefore(run, steps, k) && CountedBefore(run, steps, k)
    ensures LedOk(run[k]) && NotWonYet(run[k])
  {
    hide Takes, Inv, CountsInTerm, Careful, LedOk, NotWonYet, Init;
    if k == 0 {
      InitInv(run[0]);
    } else {
      RunLed(run, steps, k - 1);
      RunInv(run, steps, k - 1);
      assert Takes(run[k - 1], run[k - 1 + 1], steps[k - 1]);
      LedStep(run[k - 1], run[k], steps[k - 1]);
    }
  }

  /** If replies are counted in the term of their canvass and stepping down is careful, every term has one leader. */
  lemma OneLeaderPerTerm(run: seq<State>, steps: seq<Step>, k: nat, c: nat, d: nat, term: nat)
    requires Run(run, steps) && k < |run| && CarefulBefore(run, steps, k) && CountedBefore(run, steps, k)
    requires (c, term) in run[k].led && (d, term) in run[k].led
    ensures c == d
  {
    hide Run, CarefulBefore, CountedBefore;
    RunLed(run, steps, k);
    OneWinnerPerTerm(run, steps, k, c, d, term);
  }

  ghost predicate ElectionsHold(s: State) {
    VotesHold(s) && LedOk(s)
  }

  lemma {:induction false} CountedIfHeld(run: seq<State>, steps: seq<Step>, k: nat)
    requires Run(run, steps) && k <= |steps| && CarefulBefore(run, steps, |steps|)
    requires forall i :: 0 <= i < |run| ==> ElectionsHold(run[i])
    ensures CountedBefore(run, steps, k)
  {
    hide Takes, Careful, Inv, LedOk, NotWonYet, CountsInTerm, VotesHold;
    if k > 0 {
      CountedIfHeld(run, steps, k - 1);
      RunLed(run, steps, k - 1);
      RunInv(run, steps, k - 1);
      assert Takes(run[k - 1], run[k - 1 + 1], steps[k - 1]);
      assert ElectionsHold(run[k]);
      LedStep(run[k - 1], run[k], steps[k - 1]);
    }
  }

  /**
    In every state votes are kept and every leader has won the term it leads, exactly when every step
    down is careful and every reply that makes a leader is counted in its term.
   */
  lemma ElectionsHoldExactly(run: seq<State>, steps: seq<Step>)
    requires Run(run, steps)
    ensures (forall k :: 0 <= k < |run| ==> ElectionsHold(run[k])) <==>
            CarefulBefore(run, steps, |steps|) && CountedBefore(run, steps, |steps|)
  {
    hide Run, CarefulBefore, CountedBefore, VotesHold, LedOk;
    VotesHoldExactly(run, steps);
    RunLength(run, steps);
    if forall k :: 0 <= k < |run| ==> ElectionsHold(run[k]) {
      assert forall k :: 0 <= k < |run| ==> ElectionsHold(run[k]) && VotesHold(run[k]);
      CountedIfHeld(run, steps, |steps|);
    }
    if CarefulBefore(run, steps, |steps|) && CountedBefore(run, steps, |steps|) {
      forall k | 0 <= k < |run| ensures ElectionsHold(run[k]) {
        FewerSteps(run, steps, k);
        RunLed(run, steps, k);
      }
    }
  }

  lemma RunLength(run: seq<State>, steps: seq<Step>)
    requires Run(run, steps)
    ensures |run| == |steps| + 1
  {
  }

  lemma FewerSteps(run: seq<State>, steps: seq<Step>, k: nat)
    requires k <= |steps| <= |run| && CarefulBefore(run, steps, |steps|) && CountedBefore(run, steps, |steps|)
    ensures CarefulBefore(run, steps, k) && CountedBefore(run, steps, k)
  {
  }
}
