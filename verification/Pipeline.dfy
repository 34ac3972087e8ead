/** The delivery pipeline as one step relation: API servers, outbox publishers, the message broker and
    workers interleave freely; each transaction, network event and crash is one step. */
module Pipeline {
  import opened Domain
  import opened Persistence

  // ----- state -----

  /** A recovery transaction reads the task, counts its events and only then writes, without a row lock. */
  datatype RecoveryPc = SawPending | SawEvents | SawNone
  datatype Recovery = Recovery(task: TaskId, pc: RecoveryPc)

  /** `submitted` counts successful submissions, `stale` recovery writes over a task that had moved on;
      no step reads these counters, nor those of the other components. */
  datatype Servers = Servers(
    submits: map<nat, TaskId>,
    recoveries: map<nat, Recovery>,
    submitted: multiset<TaskId>,
    stale: multiset<TaskId>)

  datatype PublisherPc = Begun | Locked | Marked | Waiting(copy: nat) | Refused | Confirmed(copy: nat)
    | Wrote(copy: nat)
  /** `local` is the event row as the publisher's own, uncommitted transaction sees it. */
  datatype Publisher = Publisher(event: EventId, pc: PublisherPc, local: EventRow, sent: bool)

  /** `locks` maps an event to the publisher that holds its row lock; `acked` are the copies whose
      broker ack reached a publisher. */
  datatype Outbox = Outbox(
    publishers: map<nat, Publisher>,
    locks: map<EventId, nat>,
    sends: multiset<EventId>,
    commits: multiset<EventId>,
    rollbacks: multiset<EventId>,
    acked: set<nat>)

  datatype Place = OnWire | Dropped | InQueue | Unacked(delivery: nat) | Acked | Discarded
  /** One message handed to the broker connection; `task` is its payload. */
  datatype Copy = Copy(event: EventId, task: TaskId, place: Place)

  datatype DeliveryPc = Received | Handling | Started | Transcoding | ToAck | ToNack
  /** `live`: the broker still waits for this delivery's ack. */
  datatype Delivery = Delivery(copy: nat, event: EventId, task: TaskId, pc: DeliveryPc, live: bool)

  /** `attempts` counts committed starts of a task; `runs` and `markErrors` count handler runs and failed
      duplicate checks of a message since its mark was last cleaned up. */
  datatype Net = Net(
    copies: map<nat, Copy>,
    deliveries: map<nat, Delivery>,
    attempts: multiset<TaskId>,
    runs: map<EventId, nat>,
    markErrors: map<EventId, nat>)

  datatype State = State(db: Db, maxRetries: int, servers: Servers, outbox: Outbox, net: Net)

  function Init(maxRetries: int): State {
    State(Db(map[], [], map[], {}), maxRetries,
          Servers(map[], map[], multiset{}, multiset{}),
          Outbox(map[], map[], multiset{}, multiset{}, multiset{}, {}),
          Net(map[], map[], multiset{}, map[], map[]))
  }

  predicate Accepted(place: Place) {
    !place.OnWire? && !place.Dropped?
  }

  /** Between the row lock and the end of the transaction. */
  predicate HoldsLock(pc: PublisherPc) {
    !pc.Begun?
  }

  predicate Working(pc: DeliveryPc) {
    pc.Started? || pc.Transcoding?
  }

  function Count(m: map<EventId, nat>, e: EventId): nat {
    if e in m then m[e] else 0
  }

  function Bump(m: map<EventId, nat>, e: EventId): map<EventId, nat> {
    m[e := Count(m, e) + 1]
  }

  // ----- API servers -----

  /** A submission goes on when the read finds no task, and also when the read fails. */
  datatype ApiStep =
    | SubmitCheck(u: nat, t: TaskId, read: bool)
    | SubmitCommit(u: nat, e: EventId, at: int)
    | SubmitAbort(u: nat)
    | Cancel(t: TaskId)
    | RecoverRead(r: nat, t: TaskId)
    | RecoverCount(r: nat)
    | RecoverWrite(r: nat, e: EventId, at: int)
    | RecoverAbort(r: nat)

  predicate ApiEnabled(s: State, a: ApiStep) {
    match a
    case SubmitCheck(u, t, read) => u !in s.servers.submits && (read ==> t !in s.db.tasks)
    case SubmitCommit(u, e, at) => u in s.servers.submits
    case SubmitAbort(u) => u in s.servers.submits
    case Cancel(t) => true
    case RecoverRead(r, t) => r !in s.servers.recoveries && t in s.db.tasks && s.db.tasks[t].Pending?
    case RecoverCount(r) => r in s.servers.recoveries && s.servers.recoveries[r].pc.SawPending?
    case RecoverWrite(r, e, at) =>
      r in s.servers.recoveries && !s.servers.recoveries[r].pc.SawPending? &&
      (s.servers.recoveries[r].pc.SawNone? ==> e !in s.db.events)
    case RecoverAbort(r) => r in s.servers.recoveries
  }

  /** A recovery write is stale when the task has moved on since the recovery transaction read it. */
  predicate StaleWrite(s: State, a: ApiStep) {
    a.RecoverWrite? && a.r in s.servers.recoveries &&
    var t := s.servers.recoveries[a.r].task; t in s.db.tasks && !Startable(s.db.tasks[t])
  }

  function ApiDb(s: State, a: ApiStep): Db
    requires ApiEnabled(s, a)
  {
    match a
    case SubmitCommit(u, e, at) => CreateTaskWithEvent(s.db, s.servers.submits[u], e, s.maxRetries, at).0
    case Cancel(t) => UpdateStatus(s.db, t, Cancelled).0
    case RecoverWrite(r, e, at) =>
      var rec := s.servers.recoveries[r];
      if rec.pc.SawNone?
      then SaveTask(s.db, rec.task, Queued).(events := s.db.events[e := NewEvent(rec.task, s.maxRetries, at)])
      else SaveTask(s.db, rec.task, Queued)
    case _ => s.db
  }

  function ApiServers(s: State, a: ApiStep): Servers
    requires ApiEnabled(s, a)
  {
    var v := s.servers;
    match a
    case SubmitCheck(u, t, read) => v.(submits := v.submits[u := t])
    case SubmitCommit(u, e, at) =>
      var created := CreateTaskWithEvent(s.db, v.submits[u], e, s.maxRetries, at).1;
      v.(submits := v.submits - {u},
         submitted := if created then v.submitted + multiset{v.submits[u]} else v.submitted)
    case SubmitAbort(u) => v.(submits := v.submits - {u})
    case Cancel(t) => v
    case RecoverRead(r, t) => v.(recoveries := v.recoveries[r := Recovery(t, SawPending)])
    case RecoverCount(r) =>
      var t := v.recoveries[r].task;
      v.(recoveries := v.recoveries[r := Recovery(t, if HasEvent(s.db, t) then SawEvents else SawNone)])
    case RecoverWrite(r, e, at) =>
      v.(recoveries := v.recoveries - {r},
         stale := if StaleWrite(s, a) then v.stale + multiset{v.recoveries[r].task} else v.stale)
    case RecoverAbort(r) => v.(recoveries := v.recoveries - {r})
  }

  // ----- publishers -----

  datatype PubStep =
    | PubBegin(p: nat, e: EventId)
    | PubLock(p: nat)
    | PubCheck(p: nat)
    | PubSend(p: nat, c: nat)
    | PubSendError(p: nat)
    | PubConfirm(p: nat)
    | PubUnconfirmed(p: nat)
    | PubWrite(p: nat)
    | PubCommit(p: nat)
    | PubRollback(p: nat)

  predicate PubEnabled(s: State, a: PubStep) {
    var pubs := s.outbox.publishers;
    if a.PubBegin? then a.p !in pubs
    else
      a.p in pubs &&
      var pub := pubs[a.p];
      match a
      case PubBegin(p, e) => true
      case PubLock(p) => pub.pc.Begun? && (pub.event in s.db.events ==> pub.event !in s.outbox.locks)
      case PubCheck(p) => pub.pc.Locked?
      case PubSend(p, c) => pub.pc.Marked? && c !in s.net.copies
      case PubSendError(p) => pub.pc.Marked?
      case PubConfirm(p) => pub.pc.Waiting? && pub.pc.copy in s.net.copies && Accepted(s.net.copies[pub.pc.copy].place)
      case PubUnconfirmed(p) => pub.pc.Waiting?
      case PubWrite(p) => pub.pc.Confirmed?
      case PubCommit(p) => pub.pc.Wrote?
      case PubRollback(p) => true
  }

  /** The writes made inside the transaction when publishing failed. */
  function FailureWrites(row: EventRow): EventRow {
    row.(retries := row.retries + 1,
         status := if row.retries + 1 >= row.maxRetries then EventFailed else EventPending)
  }

  function SetPub(o: Outbox, p: nat, pub: Publisher): Outbox {
    o.(publishers := o.publishers[p := pub])
  }

  /** The transaction ends and releases its row lock. */
  function EndPub(o: Outbox, p: nat): Outbox
    requires p in o.publishers
  {
    o.(publishers := o.publishers - {p},
       locks := if HoldsLock(o.publishers[p].pc) then o.locks - {o.publishers[p].event} else o.locks)
  }

  function PubDb(s: State, a: PubStep): Db
    requires PubEnabled(s, a)
  {
    match a
    case PubCommit(p) =>
      s.db.(events := s.db.events[s.outbox.publishers[p].event := s.outbox.publishers[p].local])
    case _ => s.db
  }

  function PubOutbox(s: State, a: PubStep): Outbox
    requires PubEnabled(s, a)
  {
    var o := s.outbox;
    if a.PubBegin? then
      SetPub(o, a.p, Publisher(a.e, Begun, EventRow(0, EventPending, 0, 0, 0), false))
    else
      var pub := o.publishers[a.p];
      match a
      case PubBegin(p, e) => o
      case PubLock(p) =>
        if pub.event in s.db.events then
          SetPub(o, p, pub.(pc := Locked, local := s.db.events[pub.event])).(locks := o.locks[pub.event := p])
        else
          EndPub(o, p)
      case PubCheck(p) =>
        if pub.local.status.EventPending? then
          SetPub(o, p, pub.(pc := Marked, local := pub.local.(status := EventProcessing)))
        else
          EndPub(o, p)
      case PubSend(p, c) => SetPub(o, p, pub.(pc := Waiting(c), sent := true)).(sends := o.sends + multiset{pub.event})
      case PubSendError(p) => SetPub(o, p, pub.(pc := Refused, local := FailureWrites(pub.local)))
      case PubConfirm(p) => SetPub(o, p, pub.(pc := Confirmed(pub.pc.copy))).(acked := o.acked + {pub.pc.copy})
      case PubUnconfirmed(p) => SetPub(o, p, pub.(pc := Refused, local := FailureWrites(pub.local)))
      case PubWrite(p) => SetPub(o, p, pub.(pc := Wrote(pub.pc.copy), local := pub.local.(status := EventPublished)))
      case PubCommit(p) => EndPub(o, p).(commits := o.commits + multiset{pub.event})
      case PubRollback(p) =>
        EndPub(o, p).(rollbacks := if pub.sent then o.rollbacks + multiset{pub.event} else o.rollbacks)
  }

  function PubNet(s: State, a: PubStep): Net
    requires PubEnabled(s, a)
  {
    match a
    case PubSend(p, c) =>
      s.net.(copies := s.net.copies[c := Copy(s.outbox.publishers[p].event, s.outbox.publishers[p].local.task, OnWire)])
    case _ => s.net
  }

  // ----- broker and connections -----

  datatype MsgStep =
    | BrokerAccept(c: nat)
    | BrokerRefuse(c: nat)
    | Deliver(d: nat, c: nat)
    | LoseConnection(d: nat)
    | CleanupMarks(expired: set<EventId>)

  predicate MsgEnabled(s: State, a: MsgStep) {
    match a
    case BrokerAccept(c) => c in s.net.copies && s.net.copies[c].place.OnWire?
    case BrokerRefuse(c) => c in s.net.copies && s.net.copies[c].place.OnWire?
    case Deliver(d, c) => d !in s.net.deliveries && c in s.net.copies && s.net.copies[c].place.InQueue?
    case LoseConnection(d) => d in s.net.deliveries && s.net.deliveries[d].live
    case CleanupMarks(expired) => true
  }

  function Move(n: Net, c: nat, place: Place): Net {
    if c in n.copies then n.(copies := n.copies[c := n.copies[c].(place := place)]) else n
  }

  function MsgDb(s: State, a: MsgStep): Db {
    if a.CleanupMarks? then Cleanup(s.db, a.expired) else s.db
  }

  function MsgNet(s: State, a: MsgStep): Net
    requires MsgEnabled(s, a)
  {
    var n := s.net;
    match a
    case BrokerAccept(c) => Move(n, c, InQueue)
    case BrokerRefuse(c) => Move(n, c, Dropped)
    case Deliver(d, c) =>
      Move(n, c, Unacked(d)).(
        deliveries := n.deliveries[d := Delivery(c, n.copies[c].event, n.copies[c].task, Received, true)])
    case LoseConnection(d) =>
      Move(n, n.deliveries[d].copy, InQueue).(deliveries := n.deliveries[d := n.deliveries[d].(live := false)])
    case CleanupMarks(expired) => n.(runs := n.runs - expired, markErrors := n.markErrors - expired)
  }

  // ----- workers -----

  /** What a database write answers: done, rolled back, or committed with the reply lost. */
  datatype WriteResult = Done | RolledBack | Unreported
  datatype MarkAnswer = Fresh | Duplicate | Errored(inserted: bool)

  datatype WorkStep =
    | Mark(d: nat, answer: MarkAnswer)
    | Transition(d: nat, w: WriteResult)
    | TransitionRefused(d: nat)
    | SaveInfo(d: nat, w: WriteResult)
    | SaveFailure(d: nat, w: WriteResult)
    | SaveSuccess(d: nat, w: WriteResult)
    | Settle(d: nat)
    | Crash(d: nat)

  predicate WorkEnabled(s: State, a: WorkStep) {
    a.d in s.net.deliveries &&
    var m := s.net.deliveries[a.d];
    match a
    case Mark(d, answer) =>
      m.pc.Received? && (answer.Fresh? ==> TryMark(s.db, m.event).1) &&
        (answer.Duplicate? ==> !TryMark(s.db, m.event).1)
    case Transition(d, w) => m.pc.Handling? && TryTransition(s.db, m.task).1
    case TransitionRefused(d) => m.pc.Handling? && !TryTransition(s.db, m.task).1
    case SaveInfo(d, w) => m.pc.Started?
    case SaveFailure(d, w) => Working(m.pc)
    case SaveSuccess(d, w) => m.pc.Transcoding?
    case Settle(d) => m.pc.ToAck? || m.pc.ToNack?
    case Crash(d) => true
  }

  function SaveUnless(db: Db, t: TaskId, st: TaskStatus, w: WriteResult): Db {
    if w.RolledBack? then db else SaveTask(db, t, st)
  }

  function WorkDb(s: State, a: WorkStep): Db
    requires WorkEnabled(s, a)
  {
    var m := s.net.deliveries[a.d];
    match a
    case Mark(d, answer) => if answer.Fresh? || answer == Errored(true) then TryMark(s.db, m.event).0 else s.db
    case Transition(d, w) => if w.RolledBack? then s.db else TryTransition(s.db, m.task).0
    case SaveInfo(d, w) => SaveUnless(s.db, m.task, Processing, w)
    case SaveFailure(d, w) => SaveUnless(s.db, m.task, Failed, w)
    case SaveSuccess(d, w) => SaveUnless(s.db, m.task, Success, w)
    case _ => s.db
  }

  /** Where the step leaves the delivery. */
  function NextPc(a: WorkStep): DeliveryPc {
    match a
    case Mark(d, answer) => if answer.Duplicate? then ToAck else Handling
    case Transition(d, w) => if w.Done? then Started else ToAck
    case TransitionRefused(d) => ToAck
    case SaveInfo(d, w) => Transcoding
    case SaveFailure(d, w) => ToNack
    case SaveSuccess(d, w) => if w.Done? then ToAck else ToNack
    case Settle(d) => ToAck
    case Crash(d) => ToAck
  }

  function WorkNet(s: State, a: WorkStep): Net
    requires WorkEnabled(s, a)
  {
    var n := s.net;
    var m := n.deliveries[a.d];
    match a
    case Settle(d) =>
      (if m.live then Move(n, m.copy, if m.pc.ToAck? then Acked else Discarded)
        else n).(deliveries := n.deliveries - {d})
    case Crash(d) =>
      (if m.live then Move(n, m.copy, InQueue) else n).(deliveries := n.deliveries - {d})
    case _ =>
      n.(deliveries := n.deliveries[a.d := m.(pc := NextPc(a))],
         attempts := if a.Transition? && !a.w.RolledBack? then n.attempts + multiset{m.task} else n.attempts,
         runs := if a.Mark? && !a.answer.Duplicate? then Bump(n.runs, m.event) else n.runs,
         markErrors := if a.Mark? && a.answer.Errored? then Bump(n.markErrors, m.event) else n.markErrors)
  }

  // ----- runs -----

  datatype Step = Api(api: ApiStep) | Pub(pub: PubStep) | Msg(msg: MsgStep) | Work(work: WorkStep)

  predicate Enabled(s: State, a: Step) {
    match a
    case Api(a) => ApiEnabled(s, a)
    case Pub(a) => PubEnabled(s, a)
    case Msg(a) => MsgEnabled(s, a)
    case Work(a) => WorkEnabled(s, a)
  }

  function Apply(s: State, a: Step): State
    requires Enabled(s, a)
  {
    match a
    case Api(a) => s.(db := ApiDb(s, a), servers := ApiServers(s, a))
    case Pub(a) => s.(db := PubDb(s, a), outbox := PubOutbox(s, a), net := PubNet(s, a))
    case Msg(a) => s.(db := MsgDb(s, a), net := MsgNet(s, a))
    case Work(a) => s.(db := WorkDb(s, a), net := WorkNet(s, a))
  }

  /** The steps can be taken one after the other from `s`. */
  predicate Run(s: State, steps: seq<Step>)
    decreases |steps|
  {
    steps == [] || (Enabled(s, steps[0]) && Run(Apply(s, steps[0]), steps[1..]))
  }

  function After(s: State, steps: seq<Step>): State
    requires Run(s, steps)
    decreases |steps|
  {
    if steps == [] then s else After(Apply(s, steps[0]), steps[1..])
  }
}
