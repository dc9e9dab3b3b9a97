/**
  The whole key/value service as a state machine: clerks that retry over a lossy, delaying and
  reordering network, and replicas that apply growing prefixes of one committed log.  Raft is
  abstracted to what it promises: a log that only grows, entries placed by the leader of their term,
  at most one leader per term, and a leader that never loses an entry it placed while it leads.
 */
module KvSystem {
  import opened Common
  import opened KvModel
  import opened KvServer

  datatype Entry = Entry(op: Op, term: nat)

  /** A request handler between `Start` and its reply. */
  datatype Phase = Waiting | Notified | Confirmed
  datatype Handler = Handler(op: Op, index: nat, term: nat, phase: Phase)

  datatype Replica = Replica(st: KvState, applied: nat, term: nat, leader: bool, handlers: set<Handler>)

  /** A clerk's sequence number and, while an operation is under way, its record. */
  datatype Clerk = Clerk(seqNo: nat, pending: Option<nat>)

  /** The client-side record of one operation; `callLen` and `retLen` remember how long the log was. */
  datatype Done = Done(output: string, retTime: nat, retLen: nat)
  datatype Record = Record(op: Op, callTime: nat, callLen: nat, done: Option<Done>)

  /** A reply that a clerk may accept; replies that name another leader are not recorded. */
  datatype Reply = Reply(client: int, seqNo: nat, value: string)

  datatype System = System(
    log: seq<Entry>,
    started: map<(nat, nat), Op>,  // by log index and term
    leaders: map<nat, nat>,        // by term
    replicas: seq<Replica>,
    snaps: set<Snapshot>,
    clerks: map<int, Clerk>,
    records: seq<Record>,
    requests: set<Op>,
    replies: set<Reply>,
    clock: nat)

  function Ops(log: seq<Entry>): (ops: seq<Op>)
    ensures |ops| == |log| && forall i :: 0 <= i < |log| ==> ops[i] == log[i].op
  {
    seq(|log|, i requires 0 <= i < |log| => log[i].op)
  }

  /** The state after the first `a` committed commands. */
  function StateAt(log: seq<Entry>, a: nat): KvState
    requires a <= |log|
  {
    Replay(Ops(log)[..a])
  }

  // ---------------------------------------------------------------------------------
  // Steps

  ghost predicate Init(s: System) {
    && s.log == [] && s.started == map[] && s.leaders == map[] && s.snaps == {} && s.clerks == map[]
    && s.records == [] && s.requests == {} && s.replies == {}
    && forall i :: 0 <= i < |s.replicas| ==>
         && s.replicas[i].st == Empty && s.replicas[i].applied == 0
         && !s.replicas[i].leader && s.replicas[i].handlers == {}
  }

  /** `MakeClerk`: client ids are unique. */
  ghost predicate NewClerk(s: System, s': System, c: int) {
    c !in s.clerks && s' == s.(clerks := s.clerks[c := Clerk(1, None)])
  }

  /** A client calls Get, Put or Append. */
  ghost predicate Call(s: System, s': System, c: int, key: string, value: string, kind: Kind) {
    && c in s.clerks && s.clerks[c].pending.None?
    && var op := Op(key, if kind.GetOp? then "" else value, kind, c, s.clerks[c].seqNo);
       s' == s.(records := s.records + [Record(op, s.clock, |s.log|, None)],
                clerks := s.clerks[c := s.clerks[c].(pending := Some(|s.records|))],
                clock := s.clock + 1)
  }

  /** The clerk sends (or resends) its request; requests are never forgotten, so they can arrive late and often. */
  ghost predicate Send(s: System, s': System, c: int) {
    && c in s.clerks && s.clerks[c].pending.Some? && s.clerks[c].pending.value < |s.records|
    && s' == s.(requests := s.requests + {s.records[s.clerks[c].pending.value].op})
  }

  /** A replica that has already applied the request answers from its duplicate table. */
  ghost predicate AnswerDuplicate(s: System, s': System, i: nat, op: Op) {
    && i < |s.replicas| && op in s.requests && !IsNew(s.replicas[i].st, op)
    && s' == s.(replies := s.replies + {Reply(op.client, op.seqNo, s.replicas[i].st.duplicate[op.client].value)})
  }

  /** A leader places a new request at a free index behind what it has applied, and waits. */
  ghost predicate Start(s: System, s': System, i: nat, op: Op, index: nat) {
    && i < |s.replicas| && op in s.requests && IsNew(s.replicas[i].st, op)
    && var r := s.replicas[i];
       && r.leader && index > r.applied && (index, r.term) !in s.started
       && s' == s.(started := s.started[(index, r.term) := op],
                   replicas := s.replicas[i := r.(handlers := r.handlers + {Handler(op, index, r.term, Waiting)})])
  }

  /** Raft commits the entry that some leader placed at the next index. */
  ghost predicate Commit(s: System, s': System, term: nat) {
    && (|s.log| + 1, term) in s.started
    && s' == s.(log := s.log + [Entry(s.started[(|s.log| + 1, term)], term)])
  }

  function Notify(handlers: set<Handler>, index: nat): set<Handler> {
    set h | h in handlers :: if h.phase.Waiting? && h.index == index then h.(phase := Notified) else h
  }

  /** A replica applies its next committed entry; a leader finds there what it placed itself. */
  ghost predicate ApplyNext(s: System, s': System, i: nat) {
    && i < |s.replicas| && s.replicas[i].applied < |s.log|
    && var r := s.replicas[i];
       && (r.leader && (r.applied + 1, r.term) in s.started ==> s.log[r.applied].term == r.term)
       && s' == s.(replicas := s.replicas[i := r.(st := Apply(r.st, s.log[r.applied].op), applied := r.applied + 1,
                                                  handlers := Notify(r.handlers, r.applied + 1))])
  }

  /** A notified handler sees that its server is still the leader of the term it started in. */
  ghost predicate Confirm(s: System, s': System, i: nat, h: Handler) {
    && i < |s.replicas| && h in s.replicas[i].handlers && h.phase.Notified?
    && var r := s.replicas[i];
       && r.leader && r.term == h.term
       && s' == s.(replicas := s.replicas[i := r.(handlers := r.handlers - {h} + {h.(phase := Confirmed)})])
  }

  function ReplyOf(r: Replica, h: Handler): Reply {
    Reply(h.op.client, h.op.seqNo, if h.op.kind.GetOp? then Lookup(r.st.db, h.op.key) else "")
  }

  /** The handler then reads the store as it is by now, and replies. */
  ghost predicate Answer(s: System, s': System, i: nat, h: Handler) {
    && i < |s.replicas| && h in s.replicas[i].handlers && h.phase.Confirmed?
    && var r := s.replicas[i];
       s' == s.(replies := s.replies + {ReplyOf(r, h)},
                replicas := s.replicas[i := r.(handlers := r.handlers - {h})])
  }

  /** A handler gives up: leadership lost, wrong leader, or the server goes away. */
  ghost predicate Drop(s: System, s': System, i: nat, h: Handler) {
    && i < |s.replicas| && h in s.replicas[i].handlers
    && s' == s.(replicas := s.replicas[i := s.replicas[i].(handlers := s.replicas[i].handlers - {h})])
  }

  /** The clerk accepts a reply to its current request, and only then moves on. */
  ghost predicate Accept(s: System, s': System, c: int, reply: Reply) {
    && c in s.clerks && reply in s.replies && reply.client == c && reply.seqNo == s.clerks[c].seqNo
    && s.clerks[c].pending.Some? && s.clerks[c].pending.value < |s.records|
    && var r := s.clerks[c].pending.value;
       s' == s.(records := s.records[r := s.records[r].(done := Some(Done(reply.value, s.clock, |s.log|)))],
                clerks := s.clerks[c := Clerk(s.clerks[c].seqNo + 1, None)],
                clock := s.clock + 1)
  }

  /** A replica is elected in a term nobody has led before. */
  ghost predicate Lead(s: System, s': System, i: nat, term: nat) {
    && i < |s.replicas| && term >= s.replicas[i].term && term !in s.leaders
    && s' == s.(leaders := s.leaders[term := i],
                replicas := s.replicas[i := s.replicas[i].(term := term, leader := true)])
  }

  ghost predicate Follow(s: System, s': System, i: nat, term: nat) {
    && i < |s.replicas| && term >= s.replicas[i].term
    && s' == s.(replicas := s.replicas[i := s.replicas[i].(term := term, leader := false)])
  }

  ghost predicate Snap(s: System, s': System, i: nat) {
    && i < |s.replicas|
    && s' == s.(snaps := s.snaps + {Snapshot(s.replicas[i].st, s.replicas[i].applied)})
  }

  /** A lagging replica receives a snapshot from elsewhere. */
  ghost predicate Install(s: System, s': System, i: nat, snap: Snapshot) {
    && i < |s.replicas| && snap in s.snaps && snap.index >= s.replicas[i].applied
    && s' == s.(replicas := s.replicas[i := s.replicas[i].(st := snap.st, applied := snap.index)])
  }

  /** A replica crashes and restarts from a snapshot, or from nothing; its handlers are gone. */
  ghost predicate Restart(s: System, s': System, i: nat, snap: Option<Snapshot>) {
    && i < |s.replicas| && (snap.Some? ==> snap.value in s.snaps)
    && var r := s.replicas[i];
       s' == s.(replicas := s.replicas[i := Replica(if snap.Some? then snap.value.st else Empty,
                                                   if snap.Some? then snap.value.index else 0, r.term, false, {})])
  }

  datatype Step =
    | NewClerkStep(c: int)
    | CallStep(c: int, key: string, value: string, kind: Kind)
    | SendStep(c: int)
    | AnswerDuplicateStep(i: nat, op: Op)
    | StartStep(i: nat, op: Op, index: nat)
    | CommitStep(term: nat)
    | ApplyStep(i: nat)
    | ConfirmStep(i: nat, h: Handler)
    | AnswerStep(i: nat, h: Handler)
    | DropStep(i: nat, h: Handler)
    | AcceptStep(c: int, reply: Reply)
    | LeadStep(i: nat, term: nat)
    | FollowStep(i: nat, term: nat)
    | SnapStep(i: nat)
    | InstallStep(i: nat, snap: Snapshot)
    | RestartStep(i: nat, from: Option<Snapshot>)

  ghost predicate Takes(s: System, s': System, step: Step) {
    match step
    case NewClerkStep(c) => NewClerk(s, s', c)
    case CallStep(c, key, value, kind) => Call(s, s', c, key, value, kind)
    case SendStep(c) => Send(s, s', c)
    case AnswerDuplicateStep(i, op) => AnswerDuplicate(s, s', i, op)
    case StartStep(i, op, index) => Start(s, s', i, op, index)
    case CommitStep(term) => Commit(s, s', term)
    case ApplyStep(i) => ApplyNext(s, s', i)
    case ConfirmStep(i, h) => Confirm(s, s', i, h)
    case AnswerStep(i, h) => Answer(s, s', i, h)
    case DropStep(i, h) => Drop(s, s', i, h)
    case AcceptStep(c, reply) => Accept(s, s', c, reply)
    case LeadStep(i, term) => Lead(s, s', i, term)
    case FollowStep(i, term) => Follow(s, s', i, term)
    case SnapStep(i) => Snap(s, s', i)
    case InstallStep(i, snap) => Install(s, s', i, snap)
    case RestartStep(i, from) => Restart(s, s', i, from)
  }

  ghost predicate Run(run: seq<System>, steps: seq<Step>) {
    && |run| == |steps| + 1 && Init(run[0])
    && (forall k :: 0 <= k < |steps| ==> Takes(run[k], run[k + 1], steps[k]))
  }
}
