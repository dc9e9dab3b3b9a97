/**
  Commit indices over whole runs of the cluster of `LogMatching`: whatever a peer takes as committed, a
  leader has counted before, at an entry of its own term.
 */
module CommitRuns {
  import opened Commit
  import opened Common
  import opened RaftPeer
  import opened LogMatching

  /**
    In this step a leader moves its commit index: forward, to an entry of its own term that n - n/2
    peers support.
   */
  ghost predicate CountsAt(s: Cluster, s': Cluster, step: Step) {
    && step.Reply? && step.p < |s.peers| && step.p < |s'.peers|
    && var p, p' := s.peers[step.p], s'.peers[step.p];
       && p.role.Leader? && p'.role.Leader? && p'.currentTerm == p.currentTerm && p'.logs == p.logs
       && p.commitIndex < p'.commitIndex < |p'.logs| && p'.logs[p'.commitIndex].term == p'.currentTerm
       && |Supporters(p'.matchIndex, p'.commitIndex)| >= p.n - p.n / 2
  }

  lemma ReplyCounts(s: Cluster, s': Cluster, step: Step)
    requires Inv(s) && Takes(s, s', step) && step.Reply?
    requires s'.peers[step.p].commitIndex != s.peers[step.p].commitIndex
    ensures CountsAt(s, s', step)
  {
    hide Good, BackUp;
    assert PeerOk(s.led, s.peers[step.p]);
  }

  /** A leader that handles a reply commits by counting only entries of its own term, and only forward. */
  lemma LeadersCountOwnTerm(run: seq<Cluster>, steps: seq<Step>, k: nat)
    requires Run(run, steps) && k < |steps| && steps[k].Reply? && steps[k].p < |run[k + 1].peers| == |run[k].peers|
    requires run[k + 1].peers[steps[k].p].commitIndex != run[k].peers[steps[k].p].commitIndex
    ensures CountsAt(run[k], run[k + 1], steps[k])
  {
    hide Takes, Inv, CountsAt;
    RunInv(run, steps, k);
    assert Takes(run[k], run[k + 1], steps[k]);
    ReplyCounts(run[k], run[k + 1], steps[k]);
  }

  /** Before state `k`, some leader has counted up to at least `c`; nothing is needed for index 0. */
  ghost predicate Counted(run: seq<Cluster>, steps: seq<Step>, k: nat, c: nat)
    requires |run| == |steps| + 1 && k <= |steps|
  {
    c == 0 || exists j :: 0 <= j < k && CountedAt(run, steps, j, c)
  }

  ghost predicate CountedAt(run: seq<Cluster>, steps: seq<Step>, j: nat, c: nat)
    requires |run| == |steps| + 1 && j < |steps|
  {
    CountsAt(run[j], run[j + 1], steps[j]) && run[j + 1].peers[steps[j].p].commitIndex >= c
  }

  lemma CountedLater(run: seq<Cluster>, steps: seq<Step>, k: nat, c: nat, d: nat)
    requires |run| == |steps| + 1 && k < |steps| && Counted(run, steps, k, c) && d <= c
    ensures Counted(run, steps, k + 1, d)
  {
    if d > 0 {
      var j :| 0 <= j < k && CountedAt(run, steps, j, c);
      assert CountedAt(run, steps, j, d);
    }
  }

  /** What a step can do to a commit index when it does not count: keep it, lower it, or follow a request. */
  lemma OtherSteps(s: Cluster, s': Cluster, step: Step, i: nat)
    requires Inv(s) && Takes(s, s', step) && i < |s.peers|
    ensures |s'.peers| == |s.peers|
    ensures || s'.peers[i].commitIndex <= s.peers[i].commitIndex
            || (step.Receive? && i == step.p && step.args in s.sent
                && s'.peers[i].commitIndex <= step.args.leaderCommit)
            || (i == step.p && CountsAt(s, s', step))
  {
    hide Good, Hint, BackUp;
    if step.Reply? && step.p == i && s'.peers[i].commitIndex != s.peers[i].commitIndex {
      ReplyCounts(s, s', step);
    }
  }

  /** A request carries the commit index that its sender had. */
  lemma NewRequest(s: Cluster, s': Cluster, step: Step, m: AppendArgs)
    requires Takes(s, s', step) && m in s'.sent && m !in s.sent
    ensures step.Send? && m.leaderCommit == s.peers[step.p].commitIndex && m.term == s.peers[step.p].currentTerm
    ensures s.peers[step.p].role.Leader? && m.leader == s.peers[step.p].me
  {
  }

  lemma {:induction false} CommitsAreCounted(run: seq<Cluster>, steps: seq<Step>, k: nat, i: nat)
    requires Run(run, steps) && k < |run| && i < |run[k].peers|
    ensures Counted(run, steps, k, run[k].peers[i].commitIndex)
    decreases k, 1
  {
    hide Takes, Inv, Counted, CountedAt, CountsAt;
    if k == 0 {
      NothingCounted(run, steps);
    } else {
      var s, s', step := run[k - 1], run[k], steps[k - 1];
      RunInv(run, steps, k - 1);
      assert Takes(run[k - 1], run[k - 1 + 1], steps[k - 1]);
      SameSize(s, s', step);
      OtherSteps(s, s', step, i);
      CommitsAreCounted(run, steps, k - 1, i);
      if s'.peers[i].commitIndex <= s.peers[i].commitIndex {
        CountedLater(run, steps, k - 1, s.peers[i].commitIndex, s'.peers[i].commitIndex);
      } else if step.Receive? && step.args in s.sent && s'.peers[i].commitIndex <= step.args.leaderCommit {
        RequestsAreCounted(run, steps, k - 1, step.args);
        CountedLater(run, steps, k - 1, step.args.leaderCommit, s'.peers[i].commitIndex);
      } else {
        CountedNow(run, steps, k - 1, s'.peers[i].commitIndex);
      }
    }
  }

  lemma {:induction false} RequestsAreCounted(run: seq<Cluster>, steps: seq<Step>, k: nat, m: AppendArgs)
    requires Run(run, steps) && k < |run| && m in run[k].sent
    ensures Counted(run, steps, k, m.leaderCommit)
    decreases k, 0
  {
    hide Takes, Inv, Counted, CountedAt, CountsAt;
    assert k > 0;
    var s, s', step := run[k - 1], run[k], steps[k - 1];
    assert Takes(run[k - 1], run[k - 1 + 1], steps[k - 1]);
    if m in s.sent {
      RequestsAreCounted(run, steps, k - 1, m);
      CountedLater(run, steps, k - 1, m.leaderCommit, m.leaderCommit);
    } else {
      NewRequest(s, s', step, m);
      SameSize(s, s', step);
      CommitsAreCounted(run, steps, k - 1, step.p);
      CountedLater(run, steps, k - 1, m.leaderCommit, m.leaderCommit);
    }
  }

  lemma NothingCounted(run: seq<Cluster>, steps: seq<Step>)
    requires Run(run, steps)
    ensures forall i :: 0 <= i < |run[0].peers| ==> Counted(run, steps, 0, run[0].peers[i].commitIndex)
  {
  }

  lemma CountedNow(run: seq<Cluster>, steps: seq<Step>, j: nat, c: nat)
    requires |run| == |steps| + 1 && j < |steps| && CountsAt(run[j], run[j + 1], steps[j])
    requires c == run[j + 1].peers[steps[j].p].commitIndex
    ensures Counted(run, steps, j + 1, c)
  {
    assert CountedAt(run, steps, j, c);
  }

  lemma SameSize(s: Cluster, s': Cluster, step: Step)
    requires Takes(s, s', step)
    ensures |s'.peers| == |s.peers| && step.p < |s.peers|
  {
  }
}
