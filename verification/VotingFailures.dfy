/**
  Three runs of the election handlers, on three peers with empty logs, in which what one expects of an
  election fails, and the condition of `Voting` that each of them violates.
 */
module VotingFailures {
  import opened RaftPeer
  import opened Voting

  function Three(me: nat, role: Role, term: nat, votedFor: int): Peer {
    Peer(me, 3, role, term, votedFor, [Placeholder], 0, [0, 0, 0], [0, 0, 0], 0, 0)
  }

  function Ask(term: nat, candidate: nat): VoteArgs {
    VoteArgs(term, candidate, 0, 0)
  }

  function Yes(voter: nat, term: nat, candidate: nat): Answer {
    Answer(voter, Ask(term, candidate), VoteReply(0, true))
  }

  ghost function Start(): State {
    State([Three(0, Follower, 0, -1), Three(1, Follower, 0, -1), Three(2, Follower, 0, -1)], {}, {}, {}, map[], {}, {})
  }

  /** Peer `p` becomes a candidate. */
  ghost function Stand(s: State, p: nat): State {
    if p < |s.peers| && |s.peers[p].logs| > 0 then
      var (peer, args) := BecomeCandidate(s.peers[p]);
      s.(peers := s.peers[p := peer], requests := s.requests + {args},
         canvasses := s.canvasses[(p, args.term) := Canvass({}, {}, 1, false)],
         votes := s.votes + {Grant(p, args.term, p)})
    else s
  }

  /** Peer `q` votes for `candidate`. */
  ghost function Support(s: State, q: nat, term: nat, candidate: nat): State {
    if q < |s.peers| then
      s.(peers := s.peers[q := s.peers[q].(currentTerm := term, role := Follower, votedFor := candidate)],
         answers := s.answers + {Yes(q, term, candidate)}, votes := s.votes + {Grant(q, term, candidate)})
    else s
  }

  /** An answer makes its candidate the leader. */
  ghost function Elect(s: State, a: Answer): State {
    var c, key := a.args.candidate, (a.args.candidate, a.args.term);
    if c < |s.peers| && key in s.canvasses then
      var v := s.canvasses[key];
      s.(peers := s.peers[c := s.peers[c].(role := Leader)], led := s.led + {(c, s.peers[c].currentTerm)},
         canvasses := s.canvasses[key := v.(heard := v.heard + {a.voter}, counted := v.counted + {a.voter},
                                            won := true)])
    else s
  }

  ghost predicate TwoLeaders(s: State) {
    exists c, d, term :: c != d && (c, term) in s.led && (d, term) in s.led
  }

  // ---------------------------------------------------------------------------------
  // A late vote

  /**
    Peer 0 stands in term 1 and gets the vote of peer 1, but times out into term 2 before the answer
    arrives; the answer then makes it leader, now of term 2.  Peer 1 wins term 2 with the vote of
    peer 2.  Nobody steps down.
   */
  lemma LateVoteTwoLeaders() returns (run: seq<State>, steps: seq<Step>)
    ensures Run(run, steps) && TwoLeaders(run[|steps|])
    ensures CarefulBefore(run, steps, |steps|) && !CountedBefore(run, steps, |steps|)
  {
    hide Takes, CountsInTerm, A1, A2, A3, A4, A5, A6, A7;
    LateWin();
    Challenge();
    ChallengeSupported();
    RightfulWin();
    run := [Start(), A1(), A2(), A3(), A4(), A5(), A6(), A7()];
    steps := [TimeoutStep(0), VoteStep(1, Ask(1, 0)), TimeoutStep(0), CountStep(Yes(1, 1, 0)),
              TimeoutStep(1), VoteStep(2, Ask(2, 1)), CountStep(Yes(2, 2, 1))];
    assert !CountsInTerm(run[3], steps[3]);
  }

  ghost function A1(): State { Stand(Start(), 0) }
  ghost function A2(): State { Support(A1(), 1, 1, 0) }
  ghost function A3(): State { Stand(A2(), 0) }
  ghost function A4(): State { Elect(A3(), Yes(1, 1, 0)) }
  ghost function A5(): State { Stand(A4(), 1) }
  ghost function A6(): State { Support(A5(), 2, 2, 1) }
  ghost function A7(): State { Elect(A6(), Yes(2, 2, 1)) }

  lemma LateWin()
    ensures Takes(Start(), A1(), TimeoutStep(0)) && Takes(A1(), A2(), VoteStep(1, Ask(1, 0)))
    ensures Takes(A2(), A3(), TimeoutStep(0)) && Takes(A3(), A4(), CountStep(Yes(1, 1, 0)))
    ensures !CountsInTerm(A3(), CountStep(Yes(1, 1, 0)))
  {
  }

  lemma Challenge()
    ensures Takes(A4(), A5(), TimeoutStep(1))
  {
  }

  lemma ChallengeSupported()
    ensures Takes(A5(), A6(), VoteStep(2, Ask(2, 1)))
  {
  }

  lemma RightfulWin()
    ensures Takes(A6(), A7(), CountStep(Yes(2, 2, 1)))
    ensures TwoLeaders(A7())
  {
    assert (0, 2) in A7().led && (1, 2) in A7().led;
  }

  // ---------------------------------------------------------------------------------
  // A leader that votes again

  /** A heartbeat of peer 0 in term 1, and the answer of a peer in term 2. */
  function Beat(): AppendArgs { AppendArgs(1, 0, 0, 0, [], 0) }
  function Refusal(): AppendReply { AppendReply(2, false, 0, 0) }

  /**
    Peer 0 leads term 1, elected by peer 1.  Peer 1 times out into term 2 and refuses a heartbeat, so
    peer 0 steps down, still in term 1 but without a vote.  Peer 2, which has heard nothing, stands in
    term 1 and gets the vote of peer 0.  Every reply is counted in its own term.
   */
  lemma StepDownTwoLeaders() returns (run: seq<State>, steps: seq<Step>)
    ensures Run(run, steps) && TwoLeaders(run[|steps|])
    ensures !CarefulBefore(run, steps, |steps|) && CountedBefore(run, steps, |steps|)
    ensures exists v, w :: v in run[|steps|].votes && w in run[|steps|].votes
                        && v.voter == w.voter && v.term == w.term && v.candidate != w.candidate
  {
    hide Takes, CountsInTerm, Careful, B1, B2, B3, B4, B5, B6, B7, B8, B9;
    FirstTerm();
    Refused();
    ForgottenVote();
    SecondVote();
    SecondLeader();
    run := [Start(), B1(), B2(), B3(), B4(), B5(), B6(), B7(), B8(), B9()];
    steps := [TimeoutStep(0), VoteStep(1, Ask(1, 0)), CountStep(Yes(1, 1, 0)), TimeoutStep(1), AppendStep(1, Beat()),
              StepDownStep(0, Refusal()), TimeoutStep(2), VoteStep(0, Ask(1, 2)), CountStep(Yes(0, 1, 2))];
    assert !Careful(run[5], steps[5]);
    forall i | 0 <= i < |steps| ensures CountsInTerm(run[i], steps[i]) {
      if steps[i].CountStep? { assert i == 2 || i == 8; } else { NotACount(run[i], steps[i]); }
    }
  }

  lemma NotACount(s: State, step: Step)
    requires !step.CountStep?
    ensures CountsInTerm(s, step)
  {
  }

  ghost function B1(): State { Stand(Start(), 0) }
  ghost function B2(): State { Support(B1(), 1, 1, 0) }
  ghost function B3(): State { Elect(B2(), Yes(1, 1, 0)) }
  ghost function B4(): State { Stand(B3(), 1) }
  ghost function B5(): State { B4().(replies := B4().replies + {Refusal()}) }
  ghost function B6(): State {
    B5().(peers := [Three(0, Follower, 1, -1), Three(1, Candidate, 2, 1), Three(2, Follower, 0, -1)])
  }
  ghost function B7(): State { Stand(B6(), 2) }
  ghost function B8(): State { Support(B7(), 0, 1, 2) }
  ghost function B9(): State { Elect(B8(), Yes(0, 1, 2)) }

  lemma FirstTerm()
    ensures Takes(Start(), B1(), TimeoutStep(0)) && Takes(B1(), B2(), VoteStep(1, Ask(1, 0)))
    ensures Takes(B2(), B3(), CountStep(Yes(1, 1, 0))) && CountsInTerm(B2(), CountStep(Yes(1, 1, 0)))
  {
  }

  lemma Refused()
    ensures Takes(B3(), B4(), TimeoutStep(1)) && Takes(B4(), B5(), AppendStep(1, Beat()))
  {
    hide Hint;
  }

  lemma ForgottenVote()
    ensures Takes(B5(), B6(), StepDownStep(0, Refusal())) && !Careful(B5(), StepDownStep(0, Refusal()))
  {
    assert Grant(0, 1, 0) in B5().votes;
  }

  lemma SecondVote()
    ensures Takes(B6(), B7(), TimeoutStep(2)) && Takes(B7(), B8(), VoteStep(0, Ask(1, 2)))
  {
  }

  lemma SecondLeader()
    ensures Takes(B8(), B9(), CountStep(Yes(0, 1, 2))) && CountsInTerm(B8(), CountStep(Yes(0, 1, 2)))
    ensures TwoLeaders(B9())
    ensures Grant(0, 1, 0) in B9().votes && Grant(0, 1, 2) in B9().votes
  {
    assert (0, 1) in B9().led && (2, 1) in B9().led;
  }

  // ---------------------------------------------------------------------------------
  // A term that falls

  /** The answer of peer 1, in term 2, to the candidate of term 1. */
  function No(): Answer { Answer(1, Ask(1, 0), VoteReply(2, false)) }

  /**
    Peer 1 is in term 2 when it refuses its vote to peer 0, the candidate of term 1.  Before the answer
    arrives peer 0 has timed out twice more and is in term 3; the answer takes it back to term 2.
   */
  lemma TermFalls() returns (run: seq<State>, steps: seq<Step>, k: nat)
    ensures Run(run, steps) && k < |steps| && !TermsKept(run[k], run[k + 1]) && LowersTerm(run[k], steps[k])
  {
    hide Takes, C1, C2, C3, C4, C5, C6, C7;
    Ahead();
    TurnedDown();
    Back();
    run := [Start(), C1(), C2(), C3(), C4(), C5(), C6(), C7()];
    steps := [TimeoutStep(1), TimeoutStep(1), TimeoutStep(0), VoteStep(1, Ask(1, 0)),
              TimeoutStep(0), TimeoutStep(0), CountStep(No())];
    k := 6;
  }

  ghost function C1(): State { Stand(Start(), 1) }
  ghost function C2(): State { Stand(C1(), 1) }
  ghost function C3(): State { Stand(C2(), 0) }
  ghost function C4(): State { C3().(answers := C3().answers + {No()}) }
  ghost function C5(): State { Stand(C4(), 0) }
  ghost function C6(): State { Stand(C5(), 0) }
  ghost function C7(): State {
    C6().(peers := [Three(0, Follower, 2, -1), Three(1, Candidate, 2, 1), Three(2, Follower, 0, -1)],
          canvasses := C6().canvasses[(0, 1) := Canvass({} + {1}, {}, 1, false)])
  }

  lemma Ahead()
    ensures Takes(Start(), C1(), TimeoutStep(1)) && Takes(C1(), C2(), TimeoutStep(1))
    ensures Takes(C2(), C3(), TimeoutStep(0))
  {
  }

  lemma TurnedDown()
    ensures Takes(C3(), C4(), VoteStep(1, Ask(1, 0)))
    ensures Takes(C4(), C5(), TimeoutStep(0)) && Takes(C5(), C6(), TimeoutStep(0))
  {
  }

  lemma Back()
    ensures Takes(C6(), C7(), CountStep(No())) && LowersTerm(C6(), CountStep(No())) && !TermsKept(C6(), C7())
  {
    assert C6().peers[0].currentTerm == 3 && C7().peers[0].currentTerm == 2;
  }
}
