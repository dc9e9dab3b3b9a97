/**
  The clerk's loop as part of the service.  A server's answer that does not deny leadership is the wire
  form of a reply that the service has recorded.  So a call that returns is an `Accept` step of the
  service, with the value that the client gets, and a call that does not return is none.
 */
module ClerkService {
  import opened Common
  import opened Linearizability
  import opened KvModel
  import opened KvServer
  import opened KvSystem
  import opened KvLinearizable
  import C = Clerk

  // ---------------------------------------------------------------------------------
  // Answers on the wire

  /** What the handlers put into the reply, once they know that they lead. */
  function GetAnswer(db: Store, key: string): C.Outcome {
    if key in db then C.Answered(false, "OK", db[key]) else C.Answered(false, "ErrNoKey", "")
  }

  function DuplicateAnswer(latest: LatestReply): C.Outcome {
    C.Answered(false, "OK", latest.value)
  }

  function UpdateAnswer(): C.Outcome {
    C.Answered(false, "OK", "")
  }

  /** The answer is a recorded reply: for a get with its value, or none for a missing key. */
  ghost predicate IsWireOf(kind: Kind, reply: Reply, o: C.Outcome) {
    && o.Answered? && !o.wrongLeader
    && if kind.GetOp? then
         (o.err == "OK" && o.value == reply.value) || (o.err == "ErrNoKey" && reply.value == "")
       else
         o.err == "OK"
  }

  /** The handlers answer with what the service records. */
  lemma HandlersAnswer(r: Replica, h: Handler, latest: LatestReply, op: Op)
    ensures h.op.kind.GetOp? ==> IsWireOf(GetOp, ReplyOf(r, h), GetAnswer(r.st.db, h.op.key))
    ensures !h.op.kind.GetOp? ==> IsWireOf(h.op.kind, ReplyOf(r, h), UpdateAnswer())
    ensures IsWireOf(op.kind, Reply(op.client, op.seqNo, latest.value),
                     if op.kind.GetOp? then DuplicateAnswer(latest) else UpdateAnswer())
  {
  }

  /** If the outcome is a leader's answer, the service has recorded it for this client and number. */
  ghost predicate FromService(s: System, c: int, seqNo: nat, kind: Kind, o: C.Outcome) {
    o.Answered? && !o.wrongLeader ==> exists reply :: IsRecorded(s, c, seqNo, kind, o, reply)
  }

  ghost predicate IsRecorded(s: System, c: int, seqNo: nat, kind: Kind, o: C.Outcome, reply: Reply) {
    reply in s.replies && reply.client == c && reply.seqNo == seqNo && IsWireOf(kind, reply, o)
  }

  /** The service knows the clerk, and it is in the middle of this call. */
  ghost predicate InCall(s: System, c: int, op: Op, r: nat) {
    && c in s.clerks && s.clerks[c] == Clerk(op.seqNo, Some(r)) && r < |s.records| && s.records[r].op == op
    && op.client == c
  }

  /** A leader's answer never fails, unless the client does not recognise the update as confirmed. */
  lemma WireIsAccepted(kind: Kind, reply: Reply, o: C.Outcome)
    requires IsWireOf(kind, reply, o)
    ensures !C.Fails(kind, o) && (kind.GetOp? ==> C.ResultOf(kind, o) == reply.value)
  {
  }

  // ---------------------------------------------------------------------------------
  // One outcome

  /** The state after the clerk has accepted the reply. */
  ghost function Accepted(s: System, c: int, r: nat, reply: Reply): System
    requires c in s.clerks && r < |s.records|
  {
    s.(records := s.records[r := s.records[r].(done := Some(Done(reply.value, s.clock, |s.log|)))],
       clerks := s.clerks[c := Clerk(s.clerks[c].seqNo + 1, None)],
       clock := s.clock + 1)
  }

  /** An outcome ends the call exactly if it is a leader's answer; the service can then take the accept step. */
  lemma OutcomeIsStep(s: System, op: Op, r: nat, o: C.Outcome)
    requires InCall(s, op.client, op, r) && FromService(s, op.client, op.seqNo, op.kind, o)
    ensures C.Fails(op.kind, o) <==> o.TimedOut? || o.Lost? || o.wrongLeader
    ensures !C.Fails(op.kind, o) ==>
              exists reply :: && IsRecorded(s, op.client, op.seqNo, op.kind, o, reply)
                              && Accept(s, Accepted(s, op.client, r, reply), op.client, reply)
  {
    if o.Answered? && !o.wrongLeader {
      var reply :| IsRecorded(s, op.client, op.seqNo, op.kind, o, reply);
      WireIsAccepted(op.kind, reply, o);
      assert Accept(s, Accepted(s, op.client, r, reply), op.client, reply);
    }
  }

  /** Only the clerk itself ends its call. */
  lemma CallGoesOn(s: System, s': System, step: Step, op: Op, r: nat)
    requires Takes(s, s', step) && InCall(s, op.client, op, r) && !(step.AcceptStep? && step.c == op.client)
    ensures InCall(s', op.client, op, r)
  {
  }

  lemma {:induction false} StillInCall(run: seq<System>, steps: seq<Step>, j: nat, k: nat, op: Op, r: nat)
    requires Run(run, steps) && j <= k < |run| && InCall(run[j], op.client, op, r)
    requires forall m :: j <= m < k ==> !(steps[m].AcceptStep? && steps[m].c == op.client)
    ensures InCall(run[k], op.client, op, r)
    decreases k
  {
    hide Takes, InCall;
    if j < k {
      StillInCall(run, steps, j, k - 1, op, r);
      assert Takes(run[k - 1], run[k - 1 + 1], steps[k - 1]);
      CallGoesOn(run[k - 1], run[k], steps[k - 1], op, r);
    }
  }

  // ---------------------------------------------------------------------------------
  // A whole call

  /** The outcomes of the attempts reach the clerk in these states of the run. */
  ghost predicate HeardIn(run: seq<System>, steps: seq<Step>, op: Op, attempts: seq<C.Outcome>,
                          start: nat, heard: seq<nat>) {
    && |heard| == |attempts| && start < |run| == |steps| + 1
    && (forall k :: 0 <= k < |heard| ==> start <= heard[k] < |run|)
    && (forall k :: 0 <= k < |heard| ==> FromService(run[heard[k]], op.client, op.seqNo, op.kind, attempts[k]))
    && (forall m :: start <= m < |steps| ==> !(steps[m].AcceptStep? && steps[m].c == op.client))
  }

  /** The run up to the state in which the answer is heard, and the step in which the clerk accepts it. */
  ghost predicate EndsCall(run: seq<System>, steps: seq<Step>, h: nat, op: Op, r: nat, result: string,
                           run': seq<System>, steps': seq<Step>) {
    && h < |run| == |steps| + 1 && |run'| == h + 2 && |steps'| == h + 1
    && run'[..h + 1] == run[..h + 1] && steps'[..h] == steps[..h]
    && Run(run', steps') && steps'[h].AcceptStep? && steps'[h].c == op.client
    && var s := run'[h + 1];
       && op.client in s.clerks && s.clerks[op.client] == Clerk(op.seqNo + 1, None)
       && r < |s.records| && s.records[r].op == op && s.records[r].done.Some?
       && (op.kind.GetOp? ==> s.records[r].done.value.output == result)
  }

  lemma AcceptEndsCall(run: seq<System>, steps: seq<Step>, h: nat, op: Op, r: nat, o: C.Outcome)
    returns (run': seq<System>, steps': seq<Step>)
    requires Run(run, steps) && h < |run| && InCall(run[h], op.client, op, r)
    requires FromService(run[h], op.client, op.seqNo, op.kind, o) && !C.Fails(op.kind, o)
    ensures EndsCall(run, steps, h, op, r, C.ResultOf(op.kind, o), run', steps')
  {
    hide Takes, FromService, InCall, Init;
    OutcomeIsStep(run[h], op, r, o);
    InCallIs(run[h], op, r);
    var reply :| && IsRecorded(run[h], op.client, op.seqNo, op.kind, o, reply)
                 && Accept(run[h], Accepted(run[h], op.client, r, reply), op.client, reply);
    WireIsAccepted(op.kind, reply, o);
    var s := Accepted(run[h], op.client, r, reply);
    run', steps' := run[..h + 1] + [s], steps[..h] + [AcceptStep(op.client, reply)];
    forall k | 0 <= k < |steps'| ensures Takes(run'[k], run'[k + 1], steps'[k]) {
      if k < h {
        assert Takes(run[k], run[k + 1], steps[k]);
      } else {
        AcceptIsStep(run[h], s, op.client, reply);
      }
    }
  }

  lemma InCallIs(s: System, op: Op, r: nat)
    requires InCall(s, op.client, op, r)
    ensures op.client in s.clerks && s.clerks[op.client].seqNo == op.seqNo && r < |s.records| && s.records[r].op == op
  {
  }

  lemma AcceptIsStep(s: System, s': System, c: int, reply: Reply)
    requires Accept(s, s', c, reply)
    ensures Takes(s, s', AcceptStep(c, reply))
  {
  }

  /**
    A clerk that the service knows performs a call.  If it returns, the run up to its last attempt goes
    on with the accept step that records the result, and the clerk's number is the service's; if it does
    not, the service still has the call open under the old number.
   */
  method PerformInService(ck: C.Clerk, kind: Kind, key: string, value: string, attempts: seq<C.Outcome>,
                          ghost run: seq<System>, ghost steps: seq<Step>,
                          ghost start: nat, ghost heard: seq<nat>, ghost r: nat)
    returns (result: Option<string>, sent: seq<C.Request>, ghost run': seq<System>, ghost steps': seq<Step>)
    requires 0 < ck.cnt && ck.leader <= ck.cnt && Run(run, steps) && start < |run|
    requires var op := Op(key, if kind.GetOp? then "" else value, kind, ck.id, ck.seqNo);
             InCall(run[start], ck.id, op, r) && HeardIn(run, steps, op, attempts, start, heard)
    modifies ck
    ensures forall k :: 0 <= k < |sent| ==> sent[k].op == run[start].records[r].op
    ensures |heard| == |attempts| && |sent| <= |attempts|
    ensures result.Some? ==>
              && sent != [] && ck.seqNo == old(ck.seqNo) + 1
              && EndsCall(run, steps, heard[|sent| - 1], run[start].records[r].op, r, result.value, run', steps')
    ensures result.None? ==> ck.seqNo == old(ck.seqNo) && InCall(run[|run| - 1], ck.id, run[start].records[r].op, r)
  {
    hide InCall, Run, FromService, EndsCall;
    ghost var op := Op(key, if kind.GetOp? then "" else value, kind, ck.id, ck.seqNo);
    InCallIs(run[start], op, r);
    run', steps' := run, steps;
    result, sent := ck.Perform(kind, key, value, attempts);
    if result.Some? {
      ghost var last := |sent| - 1;
      StillInCall(run, steps, start, heard[last], op, r);
      run', steps' := AcceptEndsCall(run, steps, heard[last], op, r, attempts[last]);
    } else {
      StillInCall(run, steps, start, |run| - 1, op, r);
    }
  }

  /** And so the value a get returns is one that its key had between the call and the return. */
  lemma ReturnedIsCurrent(run: seq<System>, steps: seq<Step>, h: nat, op: Op, r: nat, result: string,
                          run': seq<System>, steps': seq<Step>) returns (a: nat)
    requires EndsCall(run, steps, h, op, r, result, run', steps') && op.kind.GetOp?
    ensures var s := run'[h + 1];
            && r < |s.records| && s.records[r].callLen < a <= |s.log| && result == Lookup(StateAt(s.log, a).db, op.key)
            && Linearizable(WholeStore(), HistoryOf(s))
  {
    hide Run, StateAt;
    a := GetIsCurrent(run', steps', h + 1, r);
    ServiceLinearizable(run', steps', h + 1);
  }
}
