/**
  The conflict back-up towards a follower that has compacted its log.  Here it need not end: once the
  leader asks behind the follower's snapshot it is answered with the snapshot's index for ever.  The
  theorems say exactly when that happens.
 */
module CompactedBackUp {
  import opened Common
  import opened RaftPeer
  import opened BackUp

  /**
    A leader with its whole log and a follower whose snapshot is part of that log, as a snapshot of
    committed entries is.
   */
  ghost predicate Pair(l: Peer, q: Peer, f: nat) {
    && Wf(l) && Wf(q) && f < l.n && l.role.Leader? && l.snapshotIndex == 0 && q.currentTerm <= l.currentTerm
    && Terms(l.logs) && q.snapshotIndex < |l.logs|
    && q.logs[0].term == q.snapshotTerm == l.logs[q.snapshotIndex].term
    && (forall i :: 1 <= i < |q.logs| ==> q.logs[i].term > 0)
  }

  /** The next request is accepted. */
  ghost predicate Accepts(l: Peer, q: Peer, f: nat)
    requires Pair(l, q, f)
  {
    && l.nextIndex[f] >= 1 && q.snapshotIndex <= Probe(l, f) < q.snapshotIndex + |q.logs|
    && q.logs[Probe(l, f) - q.snapshotIndex].term == l.logs[Probe(l, f)].term
  }

  /** One exchange; with a nextIndex of 0 there is none, as the leader turns to its snapshot. */
  ghost function Round(l: Peer, q: Peer, f: nat): (Peer, Peer)
    requires Pair(l, q, f)
  {
    if l.nextIndex[f] >= 1 then (Exchange(l, q, f).0, Exchange(l, q, f).1) else (l, q)
  }

  /** The term in the follower's rejection, when the request reaches its log. */
  ghost function ConflictTerm(l: Peer, q: Peer, f: nat): nat
    requires Pair(l, q, f) && l.nextIndex[f] > q.snapshotIndex
  {
    var k := Probe(l, f) - q.snapshotIndex;
    if k < |q.logs| then q.logs[k].term else LastTerm(q)
  }

  /** The leader's last entry of that term, if it has one, lies behind the follower's snapshot. */
  ghost predicate StaysAhead(l: Peer, q: Peer, f: nat)
    requires Pair(l, q, f) && l.nextIndex[f] > q.snapshotIndex
  {
    var k := LastOfTerm(l.logs, ConflictTerm(l, q, f));
    k == 0 || k > q.snapshotIndex
  }

  // ---------------------------------------------------------------------------------
  // One exchange

  lemma AcceptsAtSnapshot(l: Peer, q: Peer, f: nat)
    requires Pair(l, q, f) && l.nextIndex[f] > q.snapshotIndex && !Accepts(l, q, f)
    ensures Probe(l, f) > q.snapshotIndex
  {
  }

  lemma HintAhead(q: Peer, a: AppendArgs)
    requires |q.logs| > 0 && a.prevIndex > q.snapshotIndex && !Matches(q, a)
    requires forall i :: 1 <= i < |q.logs| ==> q.logs[i].term > 0
    ensures var k := a.prevIndex - q.snapshotIndex;
            && Hint(q, a).0 == (if k < |q.logs| then q.logs[k].term else LastTerm(q))
            && q.snapshotIndex < Hint(q, a).1 <= a.prevIndex
  {
  }

  /** A request that reaches the follower's log is rejected: nextIndex falls, and we know how far. */
  lemma RejectAhead(l: Peer, q: Peer, f: nat)
    requires Pair(l, q, f) && l.nextIndex[f] > q.snapshotIndex && !Accepts(l, q, f)
    ensures var (l', q') := Round(l, q, f);
            && l' == l.(nextIndex := l.nextIndex[f := l'.nextIndex[f]])
            && q'.logs == q.logs && q'.snapshotIndex == q.snapshotIndex && q'.snapshotTerm == q.snapshotTerm
            && Pair(l', q', f) && l'.nextIndex[f] < l.nextIndex[f]
            && (l'.nextIndex[f] > q.snapshotIndex <==> StaysAhead(l, q, f))
  {
    AcceptsAtSnapshot(l, q, f);
    var a := MakeAppend(l, f);
    var q1 := AcceptLeader(q, a);
    assert !Matches(q1, a);
    HintAhead(q1, a);
    hide Hint;
    var (q', reply) := OnAppendEntries(q, a);
    assert q' == q1 && !reply.success && reply.currentTerm == 0 && reply.conflictTerm == ConflictTerm(l, q, f);
    assert LastOfTerm(l.logs, 0) == 0;
    hide OnAppendEntries, MakeAppend, LastOfTerm;
    var next := RaftPeer.BackUp(l, reply);
    assert 1 <= next <= reply.firstIndex <= a.prevIndex;
    assert next > q.snapshotIndex <==> StaysAhead(l, q, f);
  }

  /** A request that asks behind the snapshot is rejected: nextIndex goes to the snapshot, or just before it. */
  lemma RejectBehind(l: Peer, q: Peer, f: nat)
    requires Pair(l, q, f) && 1 <= l.nextIndex[f] <= q.snapshotIndex
    ensures !Accepts(l, q, f)
    ensures var (l', q') := Round(l, q, f);
            && l' == l.(nextIndex := l.nextIndex[f := l'.nextIndex[f]])
            && q'.logs == q.logs && q'.snapshotIndex == q.snapshotIndex && q'.snapshotTerm == q.snapshotTerm
            && Pair(l', q', f)
            && l'.nextIndex[f] == if l.nextIndex[f] == q.snapshotIndex then q.snapshotIndex - 1 else q.snapshotIndex
  {
    hide Hint;
    var a := MakeAppend(l, f);
    var (q', reply) := OnAppendEntries(q, a);
    assert reply == AppendReply(l.currentTerm, false, q.snapshotTerm, q.snapshotIndex);
    assert LastOfTerm(l.logs, q.snapshotTerm) >= q.snapshotIndex;
    assert RaftPeer.BackUp(l, reply) == q.snapshotIndex;
  }

  // ---------------------------------------------------------------------------------
  // Many exchanges

  lemma RoundKeeps(l: Peer, q: Peer, f: nat)
    requires Pair(l, q, f) && !Accepts(l, q, f)
    ensures Pair(Round(l, q, f).0, Round(l, q, f).1, f)
    ensures Round(l, q, f).1.snapshotIndex == q.snapshotIndex
    ensures l.nextIndex[f] <= q.snapshotIndex ==> Round(l, q, f).0.nextIndex[f] <= q.snapshotIndex
  {
    if l.nextIndex[f] > q.snapshotIndex {
      RejectAhead(l, q, f);
    } else if l.nextIndex[f] >= 1 {
      RejectBehind(l, q, f);
    }
  }

  /** The two after `n` exchanges, or after those that lead up to the first acceptance. */
  ghost function After(l: Peer, q: Peer, f: nat, n: nat): (r: (Peer, Peer))
    requires Pair(l, q, f)
    ensures Pair(r.0, r.1, f) && r.1.snapshotIndex == q.snapshotIndex
    decreases n
  {
    if n == 0 || Accepts(l, q, f) then (l, q)
    else
      RoundKeeps(l, q, f);
      var (l', q') := Round(l, q, f);
      After(l', q', f, n - 1)
  }

  ghost predicate MeetsAt(l: Peer, q: Peer, f: nat, n: nat)
    requires Pair(l, q, f)
  {
    Accepts(After(l, q, f, n).0, After(l, q, f, n).1, f)
  }

  /** Some request is accepted in the end. */
  ghost predicate Meets(l: Peer, q: Peer, f: nat)
    requires Pair(l, q, f)
  {
    exists n: nat :: MeetsAt(l, q, f, n)
  }

  /** On the way down, every rejection is one after which the leader stays ahead of the snapshot. */
  ghost predicate StaysAheadThroughout(l: Peer, q: Peer, f: nat)
    requires Pair(l, q, f)
    decreases l.nextIndex[f]
  {
    && l.nextIndex[f] > q.snapshotIndex
    && (Accepts(l, q, f)
        || (StaysAhead(l, q, f)
            && (RejectAhead(l, q, f);
                var (l', q') := Round(l, q, f);
                StaysAheadThroughout(l', q', f))))
  }

  /** Behind the snapshot no request is ever accepted again. */
  lemma {:induction false} Trapped(l: Peer, q: Peer, f: nat, n: nat)
    requires Pair(l, q, f) && l.nextIndex[f] <= q.snapshotIndex
    ensures !MeetsAt(l, q, f, n) && After(l, q, f, n).0.nextIndex[f] <= q.snapshotIndex
    decreases n
  {
    hide Round;
    assert !Accepts(l, q, f);
    if n > 0 {
      RoundKeeps(l, q, f);
      Trapped(Round(l, q, f).0, Round(l, q, f).1, f, n - 1);
    }
  }

  lemma {:induction false} AheadMeets(l: Peer, q: Peer, f: nat) returns (n: nat)
    requires Pair(l, q, f) && StaysAheadThroughout(l, q, f)
    ensures MeetsAt(l, q, f, n)
    decreases l.nextIndex[f]
  {
    hide Round, StaysAhead;
    n := 0;
    if !Accepts(l, q, f) {
      RejectAhead(l, q, f);
      n := AheadMeets(Round(l, q, f).0, Round(l, q, f).1, f);
      n := n + 1;
    }
  }

  lemma {:induction false} MeetsStaysAhead(l: Peer, q: Peer, f: nat, n: nat)
    requires Pair(l, q, f) && MeetsAt(l, q, f, n)
    ensures StaysAheadThroughout(l, q, f)
    decreases n
  {
    hide Round, StaysAhead;
    if l.nextIndex[f] <= q.snapshotIndex { Trapped(l, q, f, n); }
    if !Accepts(l, q, f) {
      RejectAhead(l, q, f);
      MeetsStaysAhead(Round(l, q, f).0, Round(l, q, f).1, f, n - 1);
    }
  }

  /** The logs meet exactly if no rejection on the way takes the leader to the snapshot or behind it. */
  lemma MeetsExactly(l: Peer, q: Peer, f: nat)
    requires Pair(l, q, f)
    ensures Meets(l, q, f) <==> StaysAheadThroughout(l, q, f)
  {
    hide MeetsAt, StaysAheadThroughout;
    if StaysAheadThroughout(l, q, f) {
      var n := AheadMeets(l, q, f);
    }
    if Meets(l, q, f) {
      var n: nat :| MeetsAt(l, q, f, n);
      MeetsStaysAhead(l, q, f, n);
    }
  }

  /** Once at the snapshot, nextIndex goes back and forth between its index and the one before, for ever. */
  lemma {:induction false} Alternates(l: Peer, q: Peer, f: nat, n: nat)
    requires Pair(l, q, f) && q.snapshotIndex >= 2 && q.snapshotIndex - 1 <= l.nextIndex[f] <= q.snapshotIndex
    ensures !MeetsAt(l, q, f, n)
    ensures After(l, q, f, n).0.nextIndex[f] ==
              if n % 2 == 0 then l.nextIndex[f] else 2 * q.snapshotIndex - 1 - l.nextIndex[f]
    decreases n
  {
    hide Round;
    RejectBehind(l, q, f);
    if n > 0 {
      Alternates(Round(l, q, f).0, Round(l, q, f).1, f, n - 1);
    }
  }

  /** It does happen: a follower that has compacted up to its end, and a leader two terms on. */
  lemma StuckFollower() returns (l: Peer, q: Peer, f: nat)
    ensures Pair(l, q, f) && l == ResetOnElection(l) && !Meets(l, q, f)
  {
    var one, two := LogEntry(1, Command(1)), LogEntry(2, Command(2));
    l := Peer(0, 2, Leader, 3, 0, [Placeholder, one, one, two], 0, [4, 4], [3, 0], 0, 0);
    q := Peer(1, 2, Follower, 3, 0, [one], 2, [0, 0], [0, 0], 2, 1);
    f := 1;
    LastOne(l.logs);
    assert ConflictTerm(l, q, f) == 1 && !StaysAhead(l, q, f);
    MeetsExactly(l, q, f);
  }

  lemma LastOne(logs: seq<LogEntry>)
    requires |logs| == 4 && logs[1].term == logs[2].term == 1 && logs[3].term == 2
    ensures LastOfTerm(logs, 1) == 2
  {
  }
}
