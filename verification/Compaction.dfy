/**
  Log compaction is invisible: a peer that drops the front of its log at committed points answers like
  one that keeps everything, as long as no request reaches behind its snapshot.  The one difference is
  how far back a rejection points.
 */
module Compaction {
  import opened Common
  import opened RaftPeer

  datatype Event =
    | Timeout
    | Elected
    | Submit(command: Command)
    | Vote(ask: VoteArgs)
    | Append(args: AppendArgs)
    | Send(f: nat)
    | Advance(target: nat)
    | Compact(index: nat)

  datatype Output =
    | Nothing
    | Candidacy(ask: VoteArgs)
    | Started(started: StartReply)
    | Voted(vote: VoteReply)
    | Appended(reply: AppendReply)
    | Sent(args: AppendArgs)

  /** What a peer does and answers; one that never compacts ignores the call of `NewSnapShot`. */
  ghost function Handle(p: Peer, e: Event, compacts: bool): (Peer, Output)
    requires Wf(p)
  {
    match e
    case Timeout => var r := BecomeCandidate(p); (r.0, Candidacy(r.1))
    case Elected => (ResetOnElection(p.(role := Leader)), Nothing)
    case Submit(command) => var r := OnStart(p, command); (r.0, Started(r.1))
    case Vote(ask) => var r := OnRequestVote(p, ask); (r.0, Voted(r.1))
    case Append(args) => var r := OnAppendEntries(p, args); (r.0, Appended(r.1))
    case Send(f) => (p, if f < p.n && p.nextIndex[f] > p.snapshotIndex then Sent(MakeAppend(p, f)) else Nothing)
    case Advance(target) => (AdvanceCommit(p, target), Nothing)
    case Compact(index) => (if compacts then OnSnapshot(p, index) else p, Nothing)
  }

  /** No request reaches behind the snapshot. */
  ghost predicate Allowed(p: Peer, e: Event)
    requires Wf(p)
  {
    match e
    case Append(args) => args.term < p.currentTerm || args.prevIndex >= p.snapshotIndex
    case Send(f) => f < p.n && p.nextIndex[f] > p.snapshotIndex
    case _ => true
  }

  lemma HandleWf(p: Peer, e: Event, compacts: bool)
    requires Wf(p)
    ensures Wf(Handle(p, e, compacts).0)
  {
    hide Hint;
  }

  /** The peer after the first `k` events. */
  ghost function After(p: Peer, events: seq<Event>, k: nat, compacts: bool): (r: Peer)
    requires Wf(p) && k <= |events|
    ensures Wf(r)
  {
    if k == 0 then p
    else
      var before := After(p, events, k - 1, compacts);
      HandleWf(before, events[k - 1], compacts);
      Handle(before, events[k - 1], compacts).0
  }

  /** `c` is `full` without the entries before its snapshot. */
  ghost predicate Compacted(c: Peer, full: Peer) {
    && full.snapshotIndex == 0 && c.snapshotIndex < |full.logs| && c.snapshotIndex <= c.commitIndex
    && c.logs == full.logs[c.snapshotIndex..]
    && c == full.(logs := c.logs, snapshotIndex := c.snapshotIndex, snapshotTerm := c.snapshotTerm)
  }

  /** Equal, except that a rejection does not point behind the snapshot. */
  ghost predicate SameOutput(c: Output, full: Output, snapshotIndex: nat) {
    if full.Appended? && !full.reply.success && full.reply.firstIndex > 0 then
      c == Appended(full.reply.(firstIndex := Max(full.reply.firstIndex, snapshotIndex + 1)))
    else
      c == full
  }

  // ---------------------------------------------------------------------------------
  // One event

  /** The stretch of equal terms, cut off at the snapshot. */
  lemma {:induction false} RunStartCut(logs: seq<LogEntry>, cut: nat, k: nat)
    requires cut <= k < |logs|
    ensures cut + RunStart(logs[cut..], k - cut) == Max(RunStart(logs, k), cut)
    decreases k
  {
    if k > cut && logs[k - 1].term == logs[k].term { RunStartCut(logs, cut, k - 1); }
  }

  lemma HintCut(c: Peer, full: Peer, a: AppendArgs)
    requires Compacted(c, full) && a.prevIndex >= c.snapshotIndex
    ensures Hint(c, a) == (Hint(full, a).0, Max(Hint(full, a).1, c.snapshotIndex + 1)) && Hint(full, a).1 > 0
  {
    if a.prevIndex < |full.logs| { RunStartCut(full.logs, c.snapshotIndex, a.prevIndex); }
  }

  lemma ReplaceCut(logs: seq<LogEntry>, cut: nat, prev: nat, entries: seq<LogEntry>)
    requires cut <= prev < |logs|
    ensures logs[cut..][..prev - cut + 1] + entries == (logs[..prev + 1] + entries)[cut..]
  {
  }

  lemma AppendCut(c: Peer, full: Peer, a: AppendArgs)
    requires Compacted(c, full) && (a.term < c.currentTerm || a.prevIndex >= c.snapshotIndex)
    ensures Compacted(OnAppendEntries(c, a).0, OnAppendEntries(full, a).0)
    ensures SameOutput(Appended(OnAppendEntries(c, a).1), Appended(OnAppendEntries(full, a).1), c.snapshotIndex)
  {
    if a.term >= c.currentTerm {
      var c1, full1 := AcceptLeader(c, a), AcceptLeader(full, a);
      HintCut(c1, full1, a);
      hide Hint;
      if Matches(full1, a) { ReplaceCut(full.logs, c.snapshotIndex, a.prevIndex, a.entries); }
    }
  }

  lemma SendCut(c: Peer, full: Peer, f: nat)
    requires Wf(c) && Wf(full) && Compacted(c, full) && f < c.n && c.nextIndex[f] > c.snapshotIndex
    ensures MakeAppend(c, f) == MakeAppend(full, f)
  {
    var next := c.nextIndex[f];
    assert next < |full.logs| ==> c.logs[next - c.snapshotIndex..] == full.logs[next..];
  }

  lemma CompactCut(c: Peer, full: Peer, index: nat)
    requires Wf(c) && Wf(full) && Compacted(c, full)
    ensures Compacted(OnSnapshot(c, index), full)
  {
    assert c.snapshotIndex < index <= LastIndex(c) ==> c.logs[index - c.snapshotIndex..] == full.logs[index..];
  }

  lemma SubmitCut(c: Peer, full: Peer, command: Command)
    requires Wf(c) && Wf(full) && Compacted(c, full)
    ensures Compacted(OnStart(c, command).0, OnStart(full, command).0)
    ensures OnStart(c, command).1 == OnStart(full, command).1
  {
    var entry := LogEntry(c.currentTerm, command);
    assert (full.logs + [entry])[c.snapshotIndex..] == c.logs + [entry];
  }

  lemma ElectedCut(c: Peer, full: Peer)
    requires Wf(c) && Wf(full) && Compacted(c, full)
    ensures Compacted(ResetOnElection(c.(role := Leader)), ResetOnElection(full.(role := Leader)))
  {
  }

  lemma VoteCut(c: Peer, full: Peer, ask: VoteArgs)
    requires Wf(c) && Wf(full) && Compacted(c, full)
    ensures Compacted(BecomeCandidate(c).0, BecomeCandidate(full).0) && BecomeCandidate(c).1 == BecomeCandidate(full).1
    ensures Compacted(OnRequestVote(c, ask).0, OnRequestVote(full, ask).0)
    ensures OnRequestVote(c, ask).1 == OnRequestVote(full, ask).1
  {
  }

  lemma AdvanceCut(c: Peer, full: Peer, target: nat)
    requires Wf(c) && Wf(full) && Compacted(c, full)
    ensures Compacted(AdvanceCommit(c, target), AdvanceCommit(full, target))
  {
  }

  lemma HandleCut(c: Peer, full: Peer, e: Event)
    requires Wf(c) && Wf(full) && Compacted(c, full) && Allowed(c, e)
    ensures Compacted(Handle(c, e, true).0, Handle(full, e, false).0)
    ensures SameOutput(Handle(c, e, true).1, Handle(full, e, false).1, c.snapshotIndex)
  {
    hide OnAppendEntries, MakeAppend, OnSnapshot, OnStart, ResetOnElection;
    hide BecomeCandidate, OnRequestVote, AdvanceCommit;
    match e
    case Timeout => VoteCut(c, full, VoteArgs(0, 0, 0, 0));
    case Elected => ElectedCut(c, full);
    case Submit(command) => SubmitCut(c, full, command);
    case Vote(ask) => VoteCut(c, full, ask);
    case Append(args) => AppendCut(c, full, args);
    case Send(f) => SendCut(c, full, f);
    case Advance(target) => AdvanceCut(c, full, target);
    case Compact(index) => CompactCut(c, full, index);
  }

  // ---------------------------------------------------------------------------------
  // Whole runs

  /**
    After every event the two peers differ only in the dropped entries, and the event is answered
    alike, whatever was compacted when.
   */
  lemma {:induction false} CompactionSimulates(p: Peer, events: seq<Event>, k: nat)
    requires Wf(p) && p.snapshotIndex == 0 && k < |events|
    requires forall i :: 0 <= i <= k ==> Allowed(After(p, events, i, true), events[i])
    ensures Compacted(After(p, events, k, true), After(p, events, k, false))
    ensures Compacted(After(p, events, k + 1, true), After(p, events, k + 1, false))
    ensures SameOutput(Handle(After(p, events, k, true), events[k], true).1,
                       Handle(After(p, events, k, false), events[k], false).1,
                       After(p, events, k, true).snapshotIndex)
  {
    hide Handle, Allowed, Compacted, SameOutput;
    if k == 0 {
      assert Compacted(p, p) by { Uncompacted(p); }
    } else {
      CompactionSimulates(p, events, k - 1);
    }
    HandleCut(After(p, events, k, true), After(p, events, k, false), events[k]);
  }

  /** The snapshot's term is that of the first entry kept. */
  ghost predicate Labelled(c: Peer) {
    c.snapshotIndex > 0 ==> |c.logs| > 0 && c.snapshotTerm == c.logs[0].term
  }

  lemma LabelledStep(c: Peer, e: Event)
    requires Wf(c) && Labelled(c)
    ensures Labelled(Handle(c, e, true).0)
  {
    hide Hint;
  }

  lemma {:induction false} RunLabelled(p: Peer, events: seq<Event>, k: nat)
    requires Wf(p) && p.snapshotIndex == 0 && k <= |events|
    ensures Labelled(After(p, events, k, true))
  {
    hide Handle;
    if k > 0 {
      RunLabelled(p, events, k - 1);
      LabelledStep(After(p, events, k - 1, true), events[k - 1]);
    }
  }

  /** The term recorded for the snapshot is the one that the entry at its index has in the full log. */
  lemma SnapshotTermIsRight(p: Peer, events: seq<Event>, k: nat)
    requires Wf(p) && p.snapshotIndex == 0 && k < |events|
    requires forall i :: 0 <= i <= k ==> Allowed(After(p, events, i, true), events[i])
    ensures var c, full := After(p, events, k, true), After(p, events, k, false);
            c.snapshotIndex > 0 ==> c.snapshotIndex < |full.logs| && c.snapshotTerm == full.logs[c.snapshotIndex].term
  {
    hide Handle, Allowed, After;
    CompactionSimulates(p, events, k);
    RunLabelled(p, events, k);
  }

  lemma Uncompacted(p: Peer)
    requires Wf(p) && p.snapshotIndex == 0
    ensures Compacted(p, p)
  {
  }
}
