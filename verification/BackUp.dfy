/**
  The conflict back-up of log replication: a stable leader and one follower, neither compacted, exchange
  append requests one at a time.  The leader finds the point where the logs part after at most one
  rejection for every term in the follower's log, and one more, and then makes the logs equal.
 */
module BackUp {
  import opened Common
  import opened RaftPeer

  /** The placeholder has term 0, everything behind it a later one. */
  ghost predicate Terms(log: seq<LogEntry>) {
    |log| > 0 && log[0].term == 0 && forall i :: 1 <= i < |log| ==> log[i].term > 0
  }

  /** The leader `l` has kept its whole log and sends append requests to peer `f`. */
  ghost predicate Ready(l: Peer, q: Peer, f: nat) {
    && Wf(l) && Wf(q) && f < l.n && l.role.Leader? && l.snapshotIndex == 0 && l.nextIndex[f] >= 1
  }

  ghost predicate Stable(l: Peer, q: Peer, f: nat) {
    && Ready(l, q, f) && q.currentTerm <= l.currentTerm && q.snapshotIndex == 0 && Terms(l.logs) && Terms(q.logs)
  }

  /** One request of `l` to `q`, which it knows as peer `f`, and what `l` makes of the answer. */
  ghost function Exchange(l: Peer, q: Peer, f: nat): (Peer, Peer, ReplyOutcome)
    requires Ready(l, q, f)
  {
    var (q', reply) := OnAppendEntries(q, MakeAppend(l, f));
    var (l', outcome) := OnAppendReply(l, f, reply);
    (l', q', outcome)
  }

  /** The index that the next request asks the follower about. */
  ghost function Probe(l: Peer, f: nat): nat
    requires Wf(l) && f < l.n && l.nextIndex[f] >= 1
  {
    Min(l.nextIndex[f] - 1, |l.logs| - 1)
  }

  ghost predicate Accepted(l: Peer, q: Peer, f: nat)
    requires Stable(l, q, f)
  {
    Probe(l, f) < |q.logs| && q.logs[Probe(l, f)].term == l.logs[Probe(l, f)].term
  }

  // ---------------------------------------------------------------------------------
  // One exchange

  lemma HintIsBehind(q: Peer, a: AppendArgs)
    requires Terms(q.logs) && q.snapshotIndex == 0 && a.prevIndex > 0 && !Matches(q, a)
    ensures var h := Hint(q, a);
            && 1 <= h.1 <= a.prevIndex
            && h.1 == if a.prevIndex < |q.logs| then RunStart(q.logs, a.prevIndex) else |q.logs|
  {
  }

  /** A rejection changes only `nextIndex`, which falls and stays positive. */
  lemma RejectLowers(l: Peer, q: Peer, f: nat)
    requires Stable(l, q, f) && !Accepted(l, q, f)
    ensures var (l', q', outcome) := Exchange(l, q, f);
            && outcome.BackedUp? && Stable(l', q', f) && q'.logs == q.logs
            && l' == l.(nextIndex := l.nextIndex[f := l'.nextIndex[f]])
            && 1 <= l'.nextIndex[f] < l.nextIndex[f]
            && var probe := Probe(l, f);
               probe > 0 && l'.nextIndex[f] <= if probe < |q.logs| then RunStart(q.logs, probe) else |q.logs|
  {
    var a := MakeAppend(l, f);
    var q1 := AcceptLeader(q, a);
    assert a.prevIndex == Probe(l, f) && a.prevTerm == l.logs[a.prevIndex].term && !Matches(q1, a);
    HintIsBehind(q1, a);
    hide Hint;
    var (q', reply) := OnAppendEntries(q, a);
    assert q' == q1 && !reply.success && reply.currentTerm == 0;
    assert 1 <= reply.firstIndex <= a.prevIndex;
    assert 1 <= BackUp(l, reply) <= reply.firstIndex;
  }

  /** An acceptance gives the follower the leader's entries from the probe on, and the leader knows it. */
  lemma AcceptMatches(l: Peer, q: Peer, f: nat)
    requires Stable(l, q, f) && Accepted(l, q, f)
    ensures var (l', q', outcome) := Exchange(l, q, f);
            && outcome.Advanced? && l'.logs == l.logs && f < |l'.matchIndex| && f < |l'.nextIndex|
            && q'.logs == q.logs[..Probe(l, f) + 1] + l.logs[Probe(l, f) + 1..]
            && l'.matchIndex[f] == |l.logs| - 1 && l'.nextIndex[f] == |l.logs|
  {
    hide Hint;
    var a := MakeAppend(l, f);
    assert a.entries == l.logs[Probe(l, f) + 1..];
    assert Matches(AcceptLeader(q, a), a);
  }

  /** With it the follower learns what the leader has committed. */
  lemma AcceptCommits(l: Peer, q: Peer, f: nat)
    requires Stable(l, q, f) && Accepted(l, q, f) && q.commitIndex <= l.commitIndex < |l.logs|
    ensures Exchange(l, q, f).1.commitIndex == l.commitIndex
  {
    hide Hint, BackUp;
    AcceptMatches(l, q, f);
  }

  /** Whatever the rejection says, the leader does not ask the same again, and stays within its log. */
  lemma RejectionMoves(p: Peer, f: nat, reply: AppendReply)
    requires Wf(p) && f < p.n && OnAppendReply(p, f, reply).1.BackedUp?
    ensures var p' := OnAppendReply(p, f, reply).0;
            && p' == p.(nextIndex := p'.nextIndex) && |p'.nextIndex| == p.n
            && p'.nextIndex[f] != p.nextIndex[f] && p.snapshotIndex <= p'.nextIndex[f] <= LastIndex(p) + 1
  {
    hide BackUp;
  }

  /** A follower whose log ends before the leader's snapshot is sent that snapshot after one rejection. */
  lemma FarBehindGetsSnapshot(l: Peer, q: Peer, f: nat)
    requires Wf(l) && Wf(q) && f < l.n && l.role.Leader? && q.currentTerm <= l.currentTerm
    requires q.snapshotIndex == 0 && |q.logs| <= l.snapshotIndex < l.nextIndex[f]
    ensures var (q', reply) := OnAppendEntries(q, MakeAppend(l, f));
            var (l', outcome) := OnAppendReply(l, f, reply);
            && q'.logs == q.logs && outcome.SendSnapshot?
            && l' == l.(nextIndex := l'.nextIndex) && Wf(l') && OnConsistencyCheck(l', f).WholeSnapshot?
  {
    var a := MakeAppend(l, f);
    assert a.prevIndex >= l.snapshotIndex;
    var (q', reply) := OnAppendEntries(q, a);
    assert reply.firstIndex == |q.logs| && reply.currentTerm == 0;
    assert RaftPeer.BackUp(l, reply) <= |q.logs|;
  }

  // ---------------------------------------------------------------------------------
  // Until the logs meet

  /** The state after all rejections and the first acceptance, and how many rejections there were. */
  ghost function Converge(l: Peer, q: Peer, f: nat): (r: (Peer, Peer, nat))
    requires Stable(l, q, f)
    ensures r.2 < l.nextIndex[f]
    decreases l.nextIndex[f]
  {
    var (l', q', _) := Exchange(l, q, f);
    if Accepted(l, q, f) then (l', q', 0)
    else
      RejectLowers(l, q, f);
      var (l'', q'', rejects) := Converge(l', q', f);
      (l'', q'', rejects + 1)
  }

  /** How often the term changes up to index `k`. */
  ghost function Changes(log: seq<LogEntry>, k: nat): nat
    requires k < |log|
  {
    if k == 0 then 0 else Changes(log, k - 1) + if log[k].term != log[k - 1].term then 1 else 0
  }

  lemma {:induction false} ChangesGrow(log: seq<LogEntry>, j: nat, k: nat)
    requires j <= k < |log|
    ensures Changes(log, j) <= Changes(log, k)
    ensures (forall i :: j <= i <= k ==> log[i].term == log[k].term) ==> Changes(log, j) == Changes(log, k)
    decreases k
  {
    if j < k { ChangesGrow(log, j, k - 1); }
  }

  /** Going back before the run of terms that ends at `k` leaves one change behind. */
  lemma ChangesSkip(log: seq<LogEntry>, j: nat, k: nat)
    requires Terms(log) && 0 < k < |log| && j < RunStart(log, k)
    ensures Changes(log, j) < Changes(log, k)
  {
    var r := RunStart(log, k);
    ChangesGrow(log, j, r - 1);
    ChangesGrow(log, r, k);
  }

  /** What the follower's log allows in rejections from here on. */
  ghost function Budget(l: Peer, q: Peer, f: nat): nat
    requires Stable(l, q, f)
  {
    if Probe(l, f) < |q.logs| then Changes(q.logs, Probe(l, f)) else 1 + Changes(q.logs, |q.logs| - 1)
  }

  lemma RejectCosts(l: Peer, q: Peer, f: nat)
    requires Stable(l, q, f) && !Accepted(l, q, f)
    ensures var (l', q', _) := Exchange(l, q, f); Stable(l', q', f) && Budget(l', q', f) < Budget(l, q, f)
  {
    hide Exchange, Terms, RunStart;
    RejectLowers(l, q, f);
    var (l', q', _) := Exchange(l, q, f);
    var probe, probe' := Probe(l, f), Probe(l', f);
    if probe < |q.logs| {
      ChangesSkip(q.logs, probe', probe);
    } else {
      ChangesGrow(q.logs, probe', |q.logs| - 1);
    }
  }

  /** There are never more rejections than terms in the follower's log, plus one. */
  lemma {:induction false} BackUpIsFast(l: Peer, q: Peer, f: nat)
    requires Stable(l, q, f)
    ensures Converge(l, q, f).2 <= Budget(l, q, f) <= 1 + Changes(q.logs, |q.logs| - 1)
    decreases l.nextIndex[f]
  {
    hide Exchange;
    if Probe(l, f) < |q.logs| { ChangesGrow(q.logs, Probe(l, f), |q.logs| - 1); }
    if !Accepted(l, q, f) {
      RejectLowers(l, q, f);
      RejectCosts(l, q, f);
      var (l', q', _) := Exchange(l, q, f);
      BackUpIsFast(l', q', f);
    }
  }

  ghost predicate LogsMatch(a: seq<LogEntry>, b: seq<LogEntry>) {
    forall i :: 0 <= i < |a| && i < |b| && a[i].term == b[i].term ==> a[..i + 1] == b[..i + 1]
  }

  lemma AcceptEqual(l: Peer, q: Peer, f: nat)
    requires Stable(l, q, f) && Accepted(l, q, f) && LogsMatch(l.logs, q.logs)
    ensures Exchange(l, q, f).1.logs == l.logs
  {
    AcceptMatches(l, q, f);
    hide Exchange;
    var k := Probe(l, f) + 1;
    assert l.logs[..k] == q.logs[..k];
    assert l.logs[..k] + l.logs[k..] == l.logs;
  }

  /** Logs that match in the sense of Log Matching are equal in the end, and the leader has it on record. */
  lemma {:induction false} BackUpConverges(l: Peer, q: Peer, f: nat)
    requires Stable(l, q, f) && LogsMatch(l.logs, q.logs)
    ensures var (l', q', _) := Converge(l, q, f);
            && q'.logs == l'.logs == l.logs && f < |l'.matchIndex| == |l'.nextIndex|
            && l'.matchIndex[f] == |l.logs| - 1 && l'.nextIndex[f] == |l.logs|
    decreases l.nextIndex[f]
  {
    hide Exchange, LogsMatch, Accepted, Terms;
    if Accepted(l, q, f) {
      AcceptMatches(l, q, f);
      AcceptEqual(l, q, f);
      ExchangeKeeps(l, q, f);
    } else {
      RejectLowers(l, q, f);
      var (l', q', _) := Exchange(l, q, f);
      BackUpConverges(l', q', f);
    }
  }

  lemma ExchangeKeeps(l: Peer, q: Peer, f: nat)
    requires Ready(l, q, f)
    ensures |Exchange(l, q, f).0.matchIndex| == |Exchange(l, q, f).0.nextIndex| == l.n
  {
    hide OnAppendEntries, MakeAppend, BackUp;
  }
}
