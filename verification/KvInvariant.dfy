/** What every reachable state of the key/value service satisfies. */
module KvInvariant {
  import opened Common
  import opened KvModel
  import opened KvServer
  import opened KvSystem

  // ---------------------------------------------------------------------------------
  // Clerks and records

  ghost predicate RecordOk(clerks: map<int, Clerk>, records: seq<Record>, len: nat, clock: nat, r: nat)
    requires r < |records|
  {
    var x := records[r];
    && x.op.client in clerks && x.op.seqNo <= clerks[x.op.client].seqNo
    && (x.done.None? <==> clerks[x.op.client].pending == Some(r))
    && (x.op.seqNo == clerks[x.op.client].seqNo ==> x.done.None?)
    && (x.op.kind.GetOp? ==> x.op.value == "")
    && x.callLen <= len && x.callTime < clock
    && (x.done.Some? ==> x.callTime < x.done.value.retTime < clock && x.callLen <= x.done.value.retLen <= len)
  }

  ghost predicate ClerkOk(clerks: map<int, Clerk>, records: seq<Record>, c: int)
    requires c in clerks
  {
    clerks[c].pending.Some? ==>
      var r := clerks[c].pending.value;
      r < |records| && records[r].op.client == c && records[r].op.seqNo == clerks[c].seqNo && records[r].done.None?
  }

  /** Two records: different operations at different times, and log lengths that agree with time. */
  ghost predicate PairOk(x: Record, y: Record) {
    && (x.op.client == y.op.client ==> x.op.seqNo != y.op.seqNo)
    && (x.op.client == y.op.client && x.op.seqNo < y.op.seqNo ==> x.done.Some? && x.done.value.retLen <= y.callLen)
    && x.callTime != y.callTime
    && (x.done.Some? ==> x.done.value.retTime != y.callTime)
    && (x.done.Some? && y.done.Some? ==> x.done.value.retTime != y.done.value.retTime)
    && (x.done.Some? && x.done.value.retTime < y.callTime ==> x.done.value.retLen <= y.callLen)
  }

  ghost predicate RecordsInv(clerks: map<int, Clerk>, records: seq<Record>, len: nat, clock: nat) {
    && (forall r :: 0 <= r < |records| ==> RecordOk(clerks, records, len, clock, r))
    && (forall c :: c in clerks ==> ClerkOk(clerks, records, c))
    && (forall r, q :: 0 <= r < |records| && 0 <= q < |records| && r != q ==> PairOk(records[r], records[q]))
  }

  // ---------------------------------------------------------------------------------
  // Messages and log entries stem from records

  ghost predicate Recorded(records: seq<Record>, op: Op) {
    exists r :: 0 <= r < |records| && records[r].op == op
  }

  ghost predicate KnownInv(log: seq<Entry>, started: map<(nat, nat), Op>, requests: set<Op>, records: seq<Record>) {
    && (forall op :: op in requests ==> Recorded(records, op))
    && (forall k :: k in started ==> Recorded(records, started[k]))
    && (forall i :: 0 <= i < |log| ==> EntryPlaced(log, started, i))
  }

  ghost predicate EntryPlaced(log: seq<Entry>, started: map<(nat, nat), Op>, i: nat)
    requires i < |log|
  {
    (i + 1, log[i].term) in started && started[(i + 1, log[i].term)] == log[i].op
  }

  /** An operation reaches the log only after it was called. */
  ghost predicate PlacedInv(log: seq<Entry>, records: seq<Record>) {
    forall i, r :: 0 <= i < |log| && 0 <= r < |records| && log[i].op == records[r].op ==> records[r].callLen <= i
  }

  // ---------------------------------------------------------------------------------
  // Why an output is right

  ghost predicate Occurs(log: seq<Entry>, op: Op, a: nat)
    requires a <= |log|
  {
    exists i :: 0 <= i < a && log[i].op == op
  }

  /** `op` takes effect at log length `a`: an update at its first occurrence, a get anywhere behind it. */
  ghost predicate JustifiedAt(log: seq<Entry>, op: Op, value: string, a: nat) {
    && 0 < a <= |log|
    && if op.kind.GetOp? then Occurs(log, op, a) && value == Lookup(StateAt(log, a).db, op.key)
       else log[a - 1].op == op && !Occurs(log, op, a - 1)
  }

  ghost predicate Justified(log: seq<Entry>, op: Op, value: string, bound: nat) {
    exists a: nat :: a <= bound && JustifiedAt(log, op, value, a)
  }

  ghost predicate DoneInv(log: seq<Entry>, records: seq<Record>) {
    forall r :: 0 <= r < |records| && records[r].done.Some? ==>
      Justified(log, records[r].op, records[r].done.value.output, records[r].done.value.retLen)
  }

  ghost predicate ReplyOk(log: seq<Entry>, records: seq<Record>, reply: Reply, r: nat)
  {
    && r < |records| && records[r].op.client == reply.client && records[r].op.seqNo == reply.seqNo
    && (records[r].done.Some? || Justified(log, records[r].op, reply.value, |log|))
  }

  ghost predicate ReplyInv(log: seq<Entry>, records: seq<Record>, replies: set<Reply>) {
    forall reply :: reply in replies ==> exists r: nat :: ReplyOk(log, records, reply, r)
  }

  // ---------------------------------------------------------------------------------
  // Replicas and handlers

  ghost predicate ReplicaInv(log: seq<Entry>, replicas: seq<Replica>, snaps: set<Snapshot>) {
    && (forall i :: 0 <= i < |replicas| ==>
          replicas[i].applied <= |log| && replicas[i].st == StateAt(log, replicas[i].applied))
    && (forall snap :: snap in snaps ==> snap.index <= |log| && snap.st == StateAt(log, snap.index))
  }

  ghost predicate HandlerOk(log: seq<Entry>, started: map<(nat, nat), Op>, leaders: map<nat, nat>, r: Replica,
                            h: Handler) {
    && h.term in leaders && (h.index, h.term) in started && started[(h.index, h.term)] == h.op
    && (h.phase != Waiting ==> 0 < h.index <= r.applied <= |log|)
    && (h.phase == Notified && r.leader && r.term == h.term ==> log[h.index - 1].term == h.term)
    && (h.phase == Confirmed ==> log[h.index - 1].op == h.op)
  }

  ghost predicate HandlerInv(log: seq<Entry>, started: map<(nat, nat), Op>, leaders: map<nat, nat>,
                             replicas: seq<Replica>) {
    && (forall i :: 0 <= i < |replicas| && replicas[i].leader ==> replicas[i].term in leaders)
    && (forall i, h :: 0 <= i < |replicas| && h in replicas[i].handlers ==>
          HandlerOk(log, started, leaders, replicas[i], h))
  }

  ghost predicate Inv(s: System) {
    && RecordsInv(s.clerks, s.records, |s.log|, s.clock)
    && KnownInv(s.log, s.started, s.requests, s.records)
    && PlacedInv(s.log, s.records)
    && DoneInv(s.log, s.records)
    && ReplyInv(s.log, s.records, s.replies)
    && ReplicaInv(s.log, s.replicas, s.snaps)
    && HandlerInv(s.log, s.started, s.leaders, s.replicas)
  }

  // ---------------------------------------------------------------------------------
  // The log grows

  lemma StateAtGrows(log: seq<Entry>, e: Entry, a: nat)
    requires a <= |log|
    ensures StateAt(log + [e], a) == StateAt(log, a)
  {
    assert Ops(log + [e])[..a] == Ops(log)[..a];
  }

  lemma JustifiedGrows(log: seq<Entry>, e: Entry, op: Op, value: string, bound: nat)
    requires Justified(log, op, value, bound)
    ensures Justified(log + [e], op, value, bound)
  {
    var a: nat :| a <= bound && JustifiedAt(log, op, value, a);
    StateAtGrows(log, e, a);
    if op.kind.GetOp? {
      var i :| 0 <= i < a && log[i].op == op;
      assert (log + [e])[i].op == op;
    }
    assert JustifiedAt(log + [e], op, value, a);
  }

  lemma JustifiedMonotone(log: seq<Entry>, op: Op, value: string, bound: nat, bound': nat)
    requires Justified(log, op, value, bound) && bound <= bound'
    ensures Justified(log, op, value, bound')
  {
    var a: nat :| a <= bound && JustifiedAt(log, op, value, a);
  }

  // ---------------------------------------------------------------------------------
  // Clerk steps

  lemma InitInv(s: System)
    requires Init(s)
    ensures Inv(s)
  {
  }

  lemma NewClerkInv(s: System, s': System, c: int)
    requires Inv(s) && NewClerk(s, s', c)
    ensures Inv(s')
  {
    hide KnownInv, PlacedInv, DoneInv, ReplyInv, ReplicaInv, HandlerInv;
    forall r | 0 <= r < |s.records| ensures RecordOk(s'.clerks, s'.records, |s'.log|, s'.clock, r) {
      assert RecordOk(s.clerks, s.records, |s.log|, s.clock, r);
    }
    forall d | d in s'.clerks ensures ClerkOk(s'.clerks, s'.records, d) {
      if d != c { assert ClerkOk(s.clerks, s.records, d); }
    }
  }

  lemma CallRecords(s: System, s': System, c: int, key: string, value: string, kind: Kind)
    requires RecordsInv(s.clerks, s.records, |s.log|, s.clock) && Call(s, s', c, key, value, kind)
    ensures RecordsInv(s'.clerks, s'.records, |s'.log|, s'.clock)
  {
    var n := |s.records|;
    forall r | 0 <= r <= n ensures RecordOk(s'.clerks, s'.records, |s'.log|, s'.clock, r) {
      if r < n { assert RecordOk(s.clerks, s.records, |s.log|, s.clock, r); assert s'.records[r] == s.records[r]; }
    }
    forall d | d in s'.clerks ensures ClerkOk(s'.clerks, s'.records, d) {
      assert ClerkOk(s.clerks, s.records, d);
    }
    forall r, q | 0 <= r <= n && 0 <= q <= n && r != q ensures PairOk(s'.records[r], s'.records[q]) {
      if r < n && q < n {
        assert PairOk(s.records[r], s.records[q]);
      } else {
        assert RecordOk(s.clerks, s.records, |s.log|, s.clock, if r < n then r else q);
      }
    }
  }

  lemma RecordedGrows(records: seq<Record>, x: Record, op: Op)
    requires Recorded(records, op)
    ensures Recorded(records + [x], op)
  {
    var r :| 0 <= r < |records| && records[r].op == op;
    assert (records + [x])[r].op == op;
  }

  lemma ReplyOkGrows(log: seq<Entry>, records: seq<Record>, x: Record, replies: set<Reply>)
    requires ReplyInv(log, records, replies)
    ensures ReplyInv(log, records + [x], replies)
  {
    forall reply | reply in replies ensures exists r: nat :: ReplyOk(log, records + [x], reply, r) {
      var r: nat :| ReplyOk(log, records, reply, r);
      assert (records + [x])[r] == records[r];
      assert ReplyOk(log, records + [x], reply, r);
    }
  }

  /** A freshly numbered operation is nowhere in the log yet. */
  lemma CallIsNew(s: System, s': System, c: int, key: string, value: string, kind: Kind, i: nat)
    requires RecordsInv(s.clerks, s.records, |s.log|, s.clock) && KnownInv(s.log, s.started, s.requests, s.records)
    requires Call(s, s', c, key, value, kind) && i < |s.log|
    ensures s.log[i].op != s'.records[|s.records|].op
  {
    assert EntryPlaced(s.log, s.started, i);
    assert Recorded(s.records, s.log[i].op);
    var r :| 0 <= r < |s.records| && s.records[r].op == s.log[i].op;
    assert RecordOk(s.clerks, s.records, |s.log|, s.clock, r);
  }

  lemma CallInv(s: System, s': System, c: int, key: string, value: string, kind: Kind)
    requires Inv(s) && Call(s, s', c, key, value, kind)
    ensures Inv(s')
  {
    hide ReplicaInv, HandlerInv, RecordsInv, ReplyInv, Justified, RecordOk, PairOk, ClerkOk, Recorded;
    var n := |s.records|;
    CallRecords(s, s', c, key, value, kind);
    forall op | Recorded(s.records, op) ensures Recorded(s'.records, op) {
      RecordedGrows(s.records, s'.records[n], op);
    }
    ReplyOkGrows(s.log, s.records, s'.records[n], s.replies);
    forall i, r | 0 <= i < |s.log| && 0 <= r <= n && s.log[i].op == s'.records[r].op
      ensures s'.records[r].callLen <= i
    {
      if r == n { CallIsNew(s, s', c, key, value, kind, i); } else { assert s'.records[r] == s.records[r]; }
    }
    assert forall r :: 0 <= r < n ==> s'.records[r] == s.records[r];
  }

  lemma SendInv(s: System, s': System, c: int)
    requires Inv(s) && Send(s, s', c)
    ensures Inv(s')
  {
    hide RecordsInv, PlacedInv, DoneInv, ReplyInv, ReplicaInv, HandlerInv;
    var op := s.records[s.clerks[c].pending.value].op;
    assert Recorded(s.records, op);
  }

  /** The clerk accepts: its record becomes done, with the log as long as it is now. */
  lemma AcceptRecords(s: System, s': System, c: int, reply: Reply)
    requires RecordsInv(s.clerks, s.records, |s.log|, s.clock) && Accept(s, s', c, reply)
    ensures RecordsInv(s'.clerks, s'.records, |s'.log|, s'.clock)
  {
    var n, p := |s.records|, s.clerks[c].pending.value;
    assert ClerkOk(s.clerks, s.records, c);
    forall r | 0 <= r < n ensures RecordOk(s'.clerks, s'.records, |s'.log|, s'.clock, r) {
      assert RecordOk(s.clerks, s.records, |s.log|, s.clock, r);
    }
    forall d | d in s'.clerks ensures ClerkOk(s'.clerks, s'.records, d) {
      assert ClerkOk(s.clerks, s.records, d);
    }
    forall r, q | 0 <= r < n && 0 <= q < n && r != q ensures PairOk(s'.records[r], s'.records[q]) {
      assert PairOk(s.records[r], s.records[q]) && PairOk(s.records[q], s.records[r]);
      assert RecordOk(s.clerks, s.records, |s.log|, s.clock, r) && RecordOk(s.clerks, s.records, |s.log|, s.clock, q);
    }
  }

  lemma AcceptJustified(s: System, c: int, reply: Reply)
    requires RecordsInv(s.clerks, s.records, |s.log|, s.clock) && ReplyInv(s.log, s.records, s.replies)
    requires c in s.clerks && reply in s.replies && reply.client == c && reply.seqNo == s.clerks[c].seqNo
    requires s.clerks[c].pending.Some?
    ensures s.clerks[c].pending.value < |s.records|
    ensures Justified(s.log, s.records[s.clerks[c].pending.value].op, reply.value, |s.log|)
  {
    hide Justified;
    var p := s.clerks[c].pending.value;
    assert ClerkOk(s.clerks, s.records, c);
    var r: nat :| ReplyOk(s.log, s.records, reply, r);
    assert r != p ==> PairOk(s.records[r], s.records[p]);
  }

  lemma RecordedKept(records: seq<Record>, r: nat, d: Option<Done>, op: Op)
    requires r < |records| && Recorded(records, op)
    ensures Recorded(records[r := records[r].(done := d)], op)
  {
    var q :| 0 <= q < |records| && records[q].op == op;
    assert records[r := records[r].(done := d)][q].op == op;
  }

  lemma AcceptReplies(log: seq<Entry>, records: seq<Record>, replies: set<Reply>, p: nat, d: Done)
    requires ReplyInv(log, records, replies) && p < |records|
    ensures ReplyInv(log, records[p := records[p].(done := Some(d))], replies)
  {
    hide Justified;
    var records' := records[p := records[p].(done := Some(d))];
    forall reply | reply in replies ensures exists r: nat :: ReplyOk(log, records', reply, r) {
      var r: nat :| ReplyOk(log, records, reply, r);
      assert ReplyOk(log, records', reply, r);
    }
  }

  lemma AcceptInv(s: System, s': System, c: int, reply: Reply)
    requires Inv(s) && Accept(s, s', c, reply)
    ensures Inv(s')
  {
    hide ReplicaInv, HandlerInv, RecordsInv, ReplyInv, Justified, Recorded;
    var p := s.clerks[c].pending.value;
    AcceptRecords(s, s', c, reply);
    AcceptJustified(s, c, reply);
    AcceptReplies(s.log, s.records, s.replies, p, Done(reply.value, s.clock, |s.log|));
    forall op | Recorded(s.records, op) ensures Recorded(s'.records, op) {
      RecordedKept(s.records, p, s'.records[p].done, op);
    }
    forall i, r | 0 <= i < |s.log| && 0 <= r < |s'.records| && s.log[i].op == s'.records[r].op
      ensures s'.records[r].callLen <= i
    {
      assert s.log[i].op == s.records[r].op;
    }
    forall r | 0 <= r < |s'.records| && s'.records[r].done.Some?
      ensures Justified(s'.log, s'.records[r].op, s'.records[r].done.value.output, s'.records[r].done.value.retLen)
    {
      if r != p { assert s'.records[r] == s.records[r]; }
    }
  }

  // ---------------------------------------------------------------------------------
  // Replies

  lemma StateAtStep(log: seq<Entry>, a: nat)
    requires a < |log|
    ensures StateAt(log, a + 1) == Apply(StateAt(log, a), log[a].op)
  {
    ReplayStep(Ops(log), a);
  }

  /** The entry a replica's table remembers for a client justifies the remembered value. */
  lemma TableJustifies(log: seq<Entry>, applied: nat, c: int) returns (k: nat)
    requires applied <= |log| && c in StateAt(log, applied).duplicate
    ensures k < applied && log[k].op.client == c
    ensures log[k].op.seqNo == StateAt(log, applied).duplicate[c].seqNo
    ensures JustifiedAt(log, log[k].op, StateAt(log, applied).duplicate[c].value, k + 1)
  {
    var ops, r := Ops(log)[..applied], StateAt(log, applied).duplicate[c];
    ReplayTable(ops);
    assert KvServer.Recorded(ops, StateAt(log, applied).duplicate, c);
    k :| IsReplyAt(ops, r, c, k);
    assert ops[..k] == Ops(log)[..k];
    StateAtStep(log, k);
    FirstIfEffective(log, applied, k);
    assert log[k].op == ops[k];
  }

  lemma FirstIfEffective(log: seq<Entry>, applied: nat, k: nat)
    requires k < applied <= |log| && Effective(Ops(log)[..applied], k)
    ensures !Occurs(log, log[k].op, k) && Occurs(log, log[k].op, k + 1)
  {
    forall i | 0 <= i < k ensures log[i].op != log[k].op {
      assert Ops(log)[..applied][i] == log[i].op && Ops(log)[..applied][k] == log[k].op;
    }
  }

  lemma AnswerDuplicateInv(s: System, s': System, i: nat, op: Op)
    requires Inv(s) && AnswerDuplicate(s, s', i, op)
    ensures Inv(s')
  {
    hide PlacedInv, DoneInv, HandlerInv, Justified, JustifiedAt, StateAt, RecordOk, ClerkOk;
    var reply := Reply(op.client, op.seqNo, s.replicas[i].st.duplicate[op.client].value);
    var r := DuplicateReplyOk(s, i, op);
    forall x | x in s'.replies ensures exists q: nat :: ReplyOk(s'.log, s'.records, x, q) {
      if x == reply { assert ReplyOk(s'.log, s'.records, x, r); }
    }
  }

  lemma DuplicateReplyOk(s: System, i: nat, op: Op) returns (r: nat)
    requires Inv(s) && i < |s.replicas| && op in s.requests && !IsNew(s.replicas[i].st, op)
    ensures ReplyOk(s.log, s.records, Reply(op.client, op.seqNo, s.replicas[i].st.duplicate[op.client].value), r)
  {
    hide PlacedInv, DoneInv, HandlerInv, JustifiedAt, StateAt, RecordOk, ClerkOk, ReplyInv;
    assert Recorded(s.records, op);
    r :| r < |s.records| && s.records[r].op == op;
    var k := TableJustifies(s.log, s.replicas[i].applied, op.client);
    assert EntryPlaced(s.log, s.started, k);
    assert Recorded(s.records, s.log[k].op);
    var q :| 0 <= q < |s.records| && s.records[q].op == s.log[k].op;
    if q == r {
      assert JustifiedAt(s.log, op, s.replicas[i].st.duplicate[op.client].value, k + 1);
    } else {
      assert PairOk(s.records[r], s.records[q]) && PairOk(s.records[q], s.records[r]);
    }
  }

  lemma {:induction false} FirstOccurrence(log: seq<Entry>, op: Op, a: nat) returns (f: nat)
    requires a <= |log| && Occurs(log, op, a)
    ensures f < a && log[f].op == op && !Occurs(log, op, f)
    decreases a
  {
    var i :| 0 <= i < a && log[i].op == op;
    if Occurs(log, op, i) {
      f := FirstOccurrence(log, op, i);
    } else {
      f := i;
    }
  }

  /** Whoever finds the request in the log behind which it reads gives a justified answer. */
  lemma AnswerJustified(log: seq<Entry>, op: Op, applied: nat)
    requires applied <= |log| && Occurs(log, op, applied)
    ensures Justified(log, op, if op.kind.GetOp? then Lookup(StateAt(log, applied).db, op.key) else "", |log|)
  {
    hide StateAt;
    var value := if op.kind.GetOp? then Lookup(StateAt(log, applied).db, op.key) else "";
    if op.kind.GetOp? {
      assert JustifiedAt(log, op, value, applied);
    } else {
      var f := FirstOccurrence(log, op, applied);
      assert JustifiedAt(log, op, value, f + 1);
    }
  }

  lemma HandlersOf(s: System, s': System, i: nat, h: Handler)
    requires HandlerInv(s.log, s.started, s.leaders, s.replicas) && i < |s.replicas|
    requires s'.replicas == s.replicas[i := s.replicas[i].(handlers := s.replicas[i].handlers - {h})]
    requires s'.log == s.log && s'.started == s.started && s'.leaders == s.leaders
    ensures HandlerInv(s'.log, s'.started, s'.leaders, s'.replicas)
  {
    forall j, g | 0 <= j < |s'.replicas| && g in s'.replicas[j].handlers
      ensures HandlerOk(s'.log, s'.started, s'.leaders, s'.replicas[j], g)
    {
      assert HandlerOk(s.log, s.started, s.leaders, s.replicas[j], g);
    }
  }

  lemma AnswerInv(s: System, s': System, i: nat, h: Handler)
    requires Inv(s) && Answer(s, s', i, h)
    ensures Inv(s')
  {
    hide PlacedInv, DoneInv, Justified, StateAt, RecordsInv, HandlerInv, KnownInv;
    var op := h.op;
    var r := AnswerReplyOk(s, i, h);
    var reply := Reply(op.client, op.seqNo, if op.kind.GetOp? then Lookup(s.replicas[i].st.db, op.key) else "");
    HandlersOf(s, s', i, h);
    forall x | x in s'.replies ensures exists q: nat :: ReplyOk(s'.log, s'.records, x, q) {
      if x == reply { assert ReplyOk(s'.log, s'.records, x, r); }
    }
  }

  lemma AnswerReplyOk(s: System, i: nat, h: Handler) returns (r: nat)
    requires Inv(s) && i < |s.replicas| && h in s.replicas[i].handlers && h.phase.Confirmed?
    ensures ReplyOk(s.log, s.records, ReplyOf(s.replicas[i], h), r)
  {
    hide PlacedInv, DoneInv, Justified, StateAt, RecordsInv, ReplyInv;
    assert HandlerOk(s.log, s.started, s.leaders, s.replicas[i], h);
    assert Recorded(s.records, h.op);
    r :| r < |s.records| && s.records[r].op == h.op;
    assert Occurs(s.log, h.op, s.replicas[i].applied);
    AnswerJustified(s.log, h.op, s.replicas[i].applied);
  }

  lemma DropInv(s: System, s': System, i: nat, h: Handler)
    requires Inv(s) && Drop(s, s', i, h)
    ensures Inv(s')
  {
    hide RecordsInv, KnownInv, PlacedInv, DoneInv, ReplyInv, HandlerInv, StateAt;
    HandlersOf(s, s', i, h);
  }

  // ---------------------------------------------------------------------------------
  // Raft steps

  lemma StartInv(s: System, s': System, i: nat, op: Op, index: nat)
    requires Inv(s) && Start(s, s', i, op, index)
    ensures Inv(s')
  {
    hide RecordsInv, PlacedInv, DoneInv, ReplyInv, StateAt, Recorded;
    forall j | 0 <= j < |s.log| ensures EntryPlaced(s'.log, s'.started, j) {
      assert EntryPlaced(s.log, s.started, j);
    }
    forall j, g | 0 <= j < |s'.replicas| && g in s'.replicas[j].handlers
      ensures HandlerOk(s'.log, s'.started, s'.leaders, s'.replicas[j], g)
    {
      if j != i || g in s.replicas[i].handlers {
        assert HandlerOk(s.log, s.started, s.leaders, s.replicas[j], g);
      }
    }
  }

  lemma CommitInv(s: System, s': System, term: nat)
    requires Inv(s) && Commit(s, s', term)
    ensures Inv(s')
  {
    hide StateAt, Recorded, Justified;
    var e := s'.log[|s.log|];
    assert s'.log == s.log + [e];
    forall r | 0 <= r < |s.records| ensures RecordOk(s'.clerks, s'.records, |s'.log|, s'.clock, r) {
      assert RecordOk(s.clerks, s.records, |s.log|, s.clock, r);
    }
    CommitKnown(s, s', term);
    CommitDone(s, e);
    CommitReplies(s, e);
    CommitReplicas(s, e);
    CommitHandlers(s, e);
  }

  lemma CommitKnown(s: System, s': System, term: nat)
    requires Inv(s) && Commit(s, s', term)
    ensures KnownInv(s'.log, s'.started, s'.requests, s'.records) && PlacedInv(s'.log, s'.records)
  {
    hide StateAt, Recorded, Justified, ReplyInv, DoneInv, ReplicaInv, HandlerInv;
    forall j | 0 <= j < |s'.log| ensures EntryPlaced(s'.log, s'.started, j) {
      if j < |s.log| { assert EntryPlaced(s.log, s.started, j); }
    }
    forall j, r | 0 <= j < |s'.log| && 0 <= r < |s.records| && s'.log[j].op == s.records[r].op
      ensures s.records[r].callLen <= j
    {
      assert RecordOk(s.clerks, s.records, |s.log|, s.clock, r);
      if j < |s.log| { assert s'.log[j] == s.log[j]; }
    }
  }

  lemma CommitDone(s: System, e: Entry)
    requires DoneInv(s.log, s.records)
    ensures DoneInv(s.log + [e], s.records)
  {
    hide Justified;
    forall r | 0 <= r < |s.records| && s.records[r].done.Some?
      ensures Justified(s.log + [e], s.records[r].op, s.records[r].done.value.output, s.records[r].done.value.retLen)
    {
      JustifiedGrows(s.log, e, s.records[r].op, s.records[r].done.value.output, s.records[r].done.value.retLen);
    }
  }

  lemma CommitReplies(s: System, e: Entry)
    requires ReplyInv(s.log, s.records, s.replies)
    ensures ReplyInv(s.log + [e], s.records, s.replies)
  {
    hide Justified;
    forall reply | reply in s.replies ensures exists r: nat :: ReplyOk(s.log + [e], s.records, reply, r) {
      var r: nat :| ReplyOk(s.log, s.records, reply, r);
      if s.records[r].done.None? {
        JustifiedGrows(s.log, e, s.records[r].op, reply.value, |s.log|);
        JustifiedMonotone(s.log + [e], s.records[r].op, reply.value, |s.log|, |s.log| + 1);
      }
      assert ReplyOk(s.log + [e], s.records, reply, r);
    }
  }

  lemma CommitReplicas(s: System, e: Entry)
    requires ReplicaInv(s.log, s.replicas, s.snaps)
    ensures ReplicaInv(s.log + [e], s.replicas, s.snaps)
  {
    hide StateAt;
    forall i | 0 <= i < |s.replicas| ensures s.replicas[i].st == StateAt(s.log + [e], s.replicas[i].applied) {
      StateAtGrows(s.log, e, s.replicas[i].applied);
    }
    forall snap | snap in s.snaps ensures snap.st == StateAt(s.log + [e], snap.index) {
      StateAtGrows(s.log, e, snap.index);
    }
  }

  lemma CommitHandlers(s: System, e: Entry)
    requires HandlerInv(s.log, s.started, s.leaders, s.replicas)
    ensures HandlerInv(s.log + [e], s.started, s.leaders, s.replicas)
  {
    forall j, g | 0 <= j < |s.replicas| && g in s.replicas[j].handlers
      ensures HandlerOk(s.log + [e], s.started, s.leaders, s.replicas[j], g)
    {
      assert HandlerOk(s.log, s.started, s.leaders, s.replicas[j], g);
    }
  }

  lemma ApplyHandlers(s: System, s': System, i: nat)
    requires HandlerInv(s.log, s.started, s.leaders, s.replicas) && ApplyNext(s, s', i)
    ensures HandlerInv(s'.log, s'.started, s'.leaders, s'.replicas)
  {
    var r, r' := s.replicas[i], s'.replicas[i];
    forall j, g | 0 <= j < |s'.replicas| && g in s'.replicas[j].handlers
      ensures HandlerOk(s'.log, s'.started, s'.leaders, s'.replicas[j], g)
    {
      if j != i {
        assert HandlerOk(s.log, s.started, s.leaders, s.replicas[j], g);
      } else {
        var h :| && h in r.handlers
                 && g == if h.phase.Waiting? && h.index == r.applied + 1 then h.(phase := Notified) else h;
        assert HandlerOk(s.log, s.started, s.leaders, r, h);
      }
    }
  }

  lemma ApplyInv(s: System, s': System, i: nat)
    requires Inv(s) && ApplyNext(s, s', i)
    ensures Inv(s')
  {
    hide RecordsInv, KnownInv, PlacedInv, DoneInv, ReplyInv, HandlerInv, StateAt;
    ApplyHandlers(s, s', i);
    StateAtStep(s.log, s.replicas[i].applied);
  }

  /** The leadership check is what makes the entry at the handler's index the handler's own. */
  lemma ConfirmInv(s: System, s': System, i: nat, h: Handler)
    requires Inv(s) && Confirm(s, s', i, h)
    ensures Inv(s')
  {
    hide RecordsInv, PlacedInv, DoneInv, ReplyInv, StateAt, Recorded;
    assert HandlerOk(s.log, s.started, s.leaders, s.replicas[i], h);
    assert EntryPlaced(s.log, s.started, h.index - 1);
    forall j, g | 0 <= j < |s'.replicas| && g in s'.replicas[j].handlers
      ensures HandlerOk(s'.log, s'.started, s'.leaders, s'.replicas[j], g)
    {
      if j != i || g in s.replicas[i].handlers {
        assert HandlerOk(s.log, s.started, s.leaders, s.replicas[j], g);
      }
    }
  }

  lemma LeadInv(s: System, s': System, i: nat, term: nat)
    requires Inv(s) && Lead(s, s', i, term)
    ensures Inv(s')
  {
    hide RecordsInv, KnownInv, PlacedInv, DoneInv, ReplyInv, StateAt;
    forall j, g | 0 <= j < |s'.replicas| && g in s'.replicas[j].handlers
      ensures HandlerOk(s'.log, s'.started, s'.leaders, s'.replicas[j], g)
    {
      assert HandlerOk(s.log, s.started, s.leaders, s.replicas[j], g);
    }
  }

  lemma FollowInv(s: System, s': System, i: nat, term: nat)
    requires Inv(s) && Follow(s, s', i, term)
    ensures Inv(s')
  {
    hide RecordsInv, KnownInv, PlacedInv, DoneInv, ReplyInv, StateAt;
    forall j, g | 0 <= j < |s'.replicas| && g in s'.replicas[j].handlers
      ensures HandlerOk(s'.log, s'.started, s'.leaders, s'.replicas[j], g)
    {
      assert HandlerOk(s.log, s.started, s.leaders, s.replicas[j], g);
    }
  }

  lemma SnapInv(s: System, s': System, i: nat)
    requires Inv(s) && Snap(s, s', i)
    ensures Inv(s')
  {
    hide RecordsInv, KnownInv, PlacedInv, DoneInv, ReplyInv, HandlerInv, StateAt;
  }

  lemma InstallInv(s: System, s': System, i: nat, snap: Snapshot)
    requires Inv(s) && Install(s, s', i, snap)
    ensures Inv(s')
  {
    hide RecordsInv, KnownInv, PlacedInv, DoneInv, ReplyInv, StateAt;
    forall j, g | 0 <= j < |s'.replicas| && g in s'.replicas[j].handlers
      ensures HandlerOk(s'.log, s'.started, s'.leaders, s'.replicas[j], g)
    {
      assert HandlerOk(s.log, s.started, s.leaders, s.replicas[j], g);
    }
  }

  lemma RestartInv(s: System, s': System, i: nat, snap: Option<Snapshot>)
    requires Inv(s) && Restart(s, s', i, snap)
    ensures Inv(s')
  {
    hide RecordsInv, KnownInv, PlacedInv, DoneInv, ReplyInv;
    assert StateAt(s.log, 0) == Empty;
    forall j, g | 0 <= j < |s'.replicas| && g in s'.replicas[j].handlers
      ensures HandlerOk(s'.log, s'.started, s'.leaders, s'.replicas[j], g)
    {
      assert HandlerOk(s.log, s.started, s.leaders, s.replicas[j], g);
    }
  }

  lemma StepInv(s: System, s': System, step: Step)
    requires Inv(s) && Takes(s, s', step)
    ensures Inv(s')
  {
    hide Inv;
    match step
    case NewClerkStep(c) => NewClerkInv(s, s', c);
    case CallStep(c, key, value, kind) => CallInv(s, s', c, key, value, kind);
    case SendStep(c) => SendInv(s, s', c);
    case AnswerDuplicateStep(i, op) => AnswerDuplicateInv(s, s', i, op);
    case StartStep(i, op, index) => StartInv(s, s', i, op, index);
    case CommitStep(term) => CommitInv(s, s', term);
    case ApplyStep(i) => ApplyInv(s, s', i);
    case ConfirmStep(i, h) => ConfirmInv(s, s', i, h);
    case AnswerStep(i, h) => AnswerInv(s, s', i, h);
    case DropStep(i, h) => DropInv(s, s', i, h);
    case AcceptStep(c, reply) => AcceptInv(s, s', c, reply);
    case LeadStep(i, term) => LeadInv(s, s', i, term);
    case FollowStep(i, term) => FollowInv(s, s', i, term);
    case SnapStep(i) => SnapInv(s, s', i);
    case InstallStep(i, snap) => InstallInv(s, s', i, snap);
    case RestartStep(i, from) => RestartInv(s, s', i, from);
  }

  /** The invariant holds in every state of every run. */
  lemma {:induction false} RunInv(run: seq<System>, steps: seq<Step>, k: nat)
    requires Run(run, steps) && k < |run|
    ensures Inv(run[k])
  {
    hide Inv, Takes, Init;
    if k == 0 {
      InitInv(run[0]);
    } else {
      RunInv(run, steps, k - 1);
      assert Takes(run[k - 1], run[k - 1 + 1], steps[k - 1]);
      StepInv(run[k - 1], run[k], steps[k - 1]);
    }
  }
}
