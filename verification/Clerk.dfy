/** The clerk's retry loops of `kvraft/client.go`. */
module Clerk {
  import opened Common
  import opened KvServer

  /** What comes of one attempt: the 200 ms pass, the network loses it, or a server answers. */
  datatype Outcome = TimedOut | Lost | Answered(wrongLeader: bool, err: string, value: string)

  datatype Request = Request(server: nat, op: Op)

  /** `Clerk.Get` returns on any answer of a server that does not deny leadership. */
  predicate AcceptsGet(o: Outcome) {
    o.Answered? && !o.wrongLeader
  }

  /** `Clerk.PutAppend` in addition wants the error to be "OK". */
  predicate AcceptsPutAppend(o: Outcome) {
    o.Answered? && !o.wrongLeader && o.err == "OK"
  }

  predicate Accepts(kind: Kind, o: Outcome) {
    if kind.GetOp? then AcceptsGet(o) else AcceptsPutAppend(o)
  }

  /** The server after `server`, round robin. */
  function NextServer(server: nat, cnt: nat): nat {
    if server + 1 == cnt then 0 else server + 1
  }

  /** The server that attempt `k` goes to, the first one going to `first`. */
  function ServerOf(first: nat, cnt: nat, k: nat): nat {
    if k == 0 then first else NextServer(ServerOf(first, cnt, k - 1), cnt)
  }

  lemma ServerOfStep(first: nat, cnt: nat, k: nat)
    ensures ServerOf(first, cnt, 0) == first
    ensures ServerOf(first, cnt, k + 1) == NextServer(ServerOf(first, cnt, k), cnt)
  {
  }

  /** The attempt comes to nothing: no answer, no leader, or an update that the server did not confirm. */
  predicate Fails(kind: Kind, o: Outcome) {
    match o
    case TimedOut => true
    case Lost => true
    case Answered(wrongLeader, err, _) => wrongLeader || (!kind.GetOp? && err != "OK")
  }

  lemma AcceptsUnlessFails(kind: Kind, o: Outcome)
    ensures Accepts(kind, o) <==> !Fails(kind, o)
  {
  }

  /** What the client gets to see of a leader's answer. */
  function ResultOf(kind: Kind, o: Outcome): string
    requires o.Answered?
  {
    if kind.GetOp? && o.err == "OK" then o.value else ""
  }

  lemma {:induction false} ServerOfAttempt(first: nat, cnt: nat, k: nat)
    requires first < cnt && k < cnt
    ensures ServerOf(first, cnt, k) == if first + k < cnt then first + k else first + k - cnt
  {
    if k > 0 { ServerOfAttempt(first, cnt, k - 1); }
  }

  /** Any `cnt` attempts in a row try every server. */
  lemma RotationReachesAll(first: nat, cnt: nat, target: nat) returns (k: nat)
    requires first < cnt && target < cnt
    ensures k < cnt && ServerOf(first, cnt, k) == target
  {
    k := if target >= first then target - first else target - first + cnt;
    ServerOfAttempt(first, cnt, k);
  }

  /** A remembered leader that ran past the last server means the first one. */
  function Wrapped(leader: nat, cnt: nat): nat {
    if leader == cnt then 0 else leader
  }

  method Wrap(leader: nat, cnt: nat) returns (r: nat)
    requires leader <= cnt && 0 < cnt
    ensures r == Wrapped(leader, cnt)
  {
    r := leader % cnt;
  }

  class Clerk {
    const cnt: nat     // number of servers
    const id: int
    var leader: nat    // remembered leader
    var seqNo: nat

    constructor (cnt: nat, id: int)
      ensures this.cnt == cnt && this.id == id && leader == cnt && seqNo == 1
    {
      this.cnt, this.id, this.leader, this.seqNo := cnt, id, cnt, 1;
    }

    /**
      The loop shared by Get and PutAppend, up to the number of attempts given.  Every attempt carries
      the same client id and sequence number.  The loop goes on exactly as long as attempts fail; the
      number moves on with the first one that does not, and its answer is returned.
     */
    method Perform(kind: Kind, key: string, value: string, attempts: seq<Outcome>)
      returns (result: Option<string>, sent: seq<Request>)
      requires 0 < cnt && leader <= cnt
      modifies this
      ensures leader <= cnt && |sent| <= |attempts|
      ensures var op := KvServer.Op(key, if kind.GetOp? then "" else value, kind, id, old(seqNo));
              forall k :: 0 <= k < |sent| ==> sent[k] == Request(ServerOf(Wrapped(old(leader), cnt), cnt, k), op)
      ensures forall k :: 0 <= k < |sent| - 1 ==> Fails(kind, attempts[k])
      ensures result.None? <==> forall k :: 0 <= k < |attempts| ==> Fails(kind, attempts[k])
      ensures result.Some? ==>
                && seqNo == old(seqNo) + 1 && sent != []
                && leader == sent[|sent| - 1].server
                && var o := attempts[|sent| - 1];
                   && o.Answered? && !o.wrongLeader && (kind.GetOp? || o.err == "OK")
                   && result.value == ResultOf(kind, o)
      ensures result.None? ==> seqNo == old(seqNo) && |sent| == |attempts|
    {
      hide Accepts, ServerOf;
      result, sent := None, [];
      ghost var first := Wrapped(leader, cnt);
      ServerOfStep(first, cnt, 0);
      var text := if kind.GetOp? then "" else value;
      for k := 0 to |attempts|
        invariant seqNo == old(seqNo) && |sent| == k && leader <= cnt && first < cnt
        invariant Wrapped(leader, cnt) == ServerOf(first, cnt, k)
        invariant forall j :: 0 <= j < k ==>
                    sent[j] == Request(ServerOf(first, cnt, j), KvServer.Op(key, text, kind, id, seqNo))
        invariant forall j :: 0 <= j < k ==> Fails(kind, attempts[j])
      {
        ServerOfStep(first, cnt, k);
        AcceptsUnlessFails(kind, attempts[k]);
        leader := Wrap(leader, cnt);
        sent := sent + [Request(leader, KvServer.Op(key, text, kind, id, seqNo))];
        var o := attempts[k];
        if Accepts(kind, o) {
          seqNo := seqNo + 1;
          result := Some(if kind.GetOp? && o.err == "OK" then o.value else "");
          return;
        }
        leader := leader + 1;
      }
    }
  }
}
