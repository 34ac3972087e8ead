/** What every step of the pipeline keeps, and so every reachable state has. */
module Safety {
  import opened Domain
  import opened Persistence
  import opened Pipeline

  // ----- row locks and event rows -----

  /** The row lock of an event is held by exactly the publisher that is inside its transaction. */
  ghost predicate LockOwners(db: Db, o: Outbox) {
    && (forall e :: e in o.locks ==>
          o.locks[e] in o.publishers && o.publishers[o.locks[e]].event == e && HoldsLock(o.publishers[o.locks[e]].pc))
    && (forall p :: p in o.publishers && HoldsLock(o.publishers[p].pc) ==>
          o.publishers[p].event in o.locks && o.locks[o.publishers[p].event] == p && o.publishers[p].event in db.events)
  }

  /** What a publisher's transaction sees, against the committed row it has locked. */
  ghost predicate LocalRow(committed: EventRow, pub: Publisher) {
    match pub.pc
    case Begun => !pub.sent
    case Locked => !pub.sent && pub.local == committed
    case Marked => !pub.sent && committed.status.EventPending? && pub.local == committed.(status := EventProcessing)
    case Waiting(_) => pub.sent && committed.status.EventPending? && pub.local == committed.(status := EventProcessing)
    case Refused => committed.status.EventPending?
    case Confirmed(_) => pub.sent && committed.status.EventPending? &&
      pub.local == committed.(status := EventProcessing)
    case Wrote(_) => pub.sent && committed.status.EventPending? && pub.local == committed.(status := EventPublished)
  }

  ghost predicate LocalRows(db: Db, o: Outbox) {
    forall p :: p in o.publishers ==>
      if HoldsLock(o.publishers[p].pc)
      then o.publishers[p].event in db.events && LocalRow(db.events[o.publishers[p].event], o.publishers[p])
      else !o.publishers[p].sent
  }

  /** A committed outbox row is pending or published; its retry count never leaves zero. */
  ghost predicate CommittedRows(s: State) {
    forall e :: e in s.db.events ==>
      (s.db.events[e].status.EventPending? || s.db.events[e].status.EventPublished?) &&
      s.db.events[e].retries == 0 && s.db.events[e].maxRetries == StoredMaxRetries(s.maxRetries)
  }

  ghost predicate RowsInv(s: State) {
    LockOwners(s.db, s.outbox) && LocalRows(s.db, s.outbox) && CommittedRows(s)
  }

  lemma LockOwnersEnd(db: Db, o: Outbox, p: nat)
    requires LockOwners(db, o) && p in o.publishers
    ensures LockOwners(db, EndPub(o, p))
  {
  }

  lemma LockOwnersSet(db: Db, o: Outbox, p: nat, pub: Publisher)
    requires LockOwners(db, o)
    requires if p in o.publishers
             then pub.event == o.publishers[p].event && HoldsLock(pub.pc) == HoldsLock(o.publishers[p].pc)
             else pub.pc.Begun?
    ensures LockOwners(db, SetPub(o, p, pub))
  {
  }

  lemma LockOwnersPub(s: State, a: PubStep)
    requires LockOwners(s.db, s.outbox) && PubEnabled(s, a)
    ensures LockOwners(PubDb(s, a), PubOutbox(s, a))
  {
    var db, o := s.db, s.outbox;
    match a
    case PubBegin(p, e) => LockOwnersSet(db, o, p, PubOutbox(s, a).publishers[p]);
    case PubLock(p) =>
      if o.publishers[p].event !in db.events {
        LockOwnersEnd(db, o, p);
      }
    case PubCommit(p) => LockOwnersEnd(db, o, p);
    case PubRollback(p) => LockOwnersEnd(db, o, p);
    case PubCheck(p) =>
      LockOwnersEnd(db, o, p);
      LockOwnersSet(db, o, p, o.publishers[p].(pc := Marked,
        local := o.publishers[p].local.(status := EventProcessing)));
    case _ => LockOwnersSet(db, o, a.p, PubOutbox(s, a).publishers[a.p]);
  }

  lemma LocalRowsPub(s: State, a: PubStep)
    requires RowsInv(s) && PubEnabled(s, a)
    ensures LocalRows(PubDb(s, a), PubOutbox(s, a))
  {
  }

  lemma RowsStep(s: State, a: Step)
    requires RowsInv(s) && Enabled(s, a)
    ensures RowsInv(Apply(s, a))
  {
    match a
    case Api(b) => assert forall e :: e in s.db.events ==>
      e in ApiDb(s, b).events && ApiDb(s, b).events[e] == s.db.events[e];
    case Pub(b) => LockOwnersPub(s, b); LocalRowsPub(s, b);
    case Msg(b) =>
    case Work(b) => assert WorkDb(s, b).events == s.db.events;
  }

  // ----- tasks and their events -----

  /** Every task has exactly one event, and recovery never finds a task without one. */
  ghost predicate TablesInv(s: State) {
    && (forall e :: e in s.db.events ==> s.db.events[e].task in s.db.tasks)
    && (forall e, f :: e in s.db.events && f in s.db.events && s.db.events[e].task == s.db.events[f].task ==> e == f)
    && (forall t :: t in s.db.tasks ==> HasEvent(s.db, t))
    && (forall r :: r in s.servers.recoveries ==>
      s.servers.recoveries[r].task in s.db.tasks && !s.servers.recoveries[r].pc.SawNone?)
    && (forall t :: s.servers.submitted[t] == if t in s.db.tasks then 1 else 0)
  }

  /** Event rows are never deleted and never change their task. */
  ghost predicate EventsKept(db: Db, db': Db) {
    forall e :: e in db.events ==> e in db'.events && db'.events[e].task == db.events[e].task
  }

  lemma HasEventKept(db: Db, db': Db)
    requires EventsKept(db, db')
    ensures forall t :: HasEvent(db, t) ==> HasEvent(db', t)
  {
    forall t | HasEvent(db, t)
      ensures HasEvent(db', t)
    {
      var e :| e in db.events && db.events[e].task == t;
      assert db'.events[e].task == t;
    }
  }

  lemma EventsKeptWork(s: State, a: WorkStep)
    requires WorkEnabled(s, a)
    ensures WorkDb(s, a).events == s.db.events
  {
  }

  lemma EventsKeptStep(s: State, a: Step)
    requires LocalRows(s.db, s.outbox) && Enabled(s, a)
    ensures EventsKept(s.db, Apply(s, a).db)
  {
    if a.Work? {
      assert WorkDb(s, a.work).events == s.db.events;
    }
  }

  lemma TablesSubmit(s: State, a: ApiStep)
    requires TablesInv(s) && ApiEnabled(s, a) && a.SubmitCommit?
    ensures TablesInv(Apply(s, Api(a)))
  {
    var db' := ApiDb(s, a);
    HasEventKept(s.db, db');
    if a.e in db'.events && a.e !in s.db.events {
      assert db'.events[a.e].task == s.servers.submits[a.u];
    }
  }

  /** Cancellation and recovery add neither tasks nor events. */
  lemma TablesOther(s: State, a: ApiStep)
    requires TablesInv(s) && ApiEnabled(s, a) && !a.SubmitCommit?
    ensures ApiDb(s, a).events == s.db.events && ApiDb(s, a).tasks.Keys == s.db.tasks.Keys
    ensures ApiServers(s, a).submitted == s.servers.submitted
  {
  }

  lemma TablesApi(s: State, a: ApiStep)
    requires TablesInv(s) && ApiEnabled(s, a)
    ensures TablesInv(Apply(s, Api(a)))
  {
    if a.SubmitCommit? {
      TablesSubmit(s, a);
    } else {
      TablesOther(s, a);
      HasEventKept(s.db, ApiDb(s, a));
    }
  }

  lemma DeliveredTaskExists(s: State, d: nat)
    requires TablesInv(s) && NetInv(s) && d in s.net.deliveries
    ensures s.net.deliveries[d].task in s.db.tasks
  {
    assert s.net.deliveries[d].copy in s.net.copies;
  }

  lemma WorkKeepsTables(s: State, a: WorkStep)
    requires WorkEnabled(s, a) && s.net.deliveries[a.d].task in s.db.tasks
    ensures WorkDb(s, a).events == s.db.events && WorkDb(s, a).tasks.Keys == s.db.tasks.Keys
  {
  }

  lemma TablesStep(s: State, a: Step)
    requires TablesInv(s) && RowsInv(s) && NetInv(s) && Enabled(s, a)
    ensures TablesInv(Apply(s, a))
  {
    EventsKeptStep(s, a);
    HasEventKept(s.db, Apply(s, a).db);
    match a
    case Api(b) => TablesApi(s, b);
    case Pub(b) => assert PubDb(s, b).events.Keys == s.db.events.Keys;
    case Msg(b) =>
    case Work(b) => DeliveredTaskExists(s, b.d); WorkKeepsTables(s, b);
  }

  // ----- messages -----

  ghost predicate AckedCopyOf(s: State, e: EventId) {
    exists c :: c in s.outbox.acked && c in s.net.copies && s.net.copies[c].event == e
  }

  ghost predicate AcceptedCopyOf(n: Net, e: EventId) {
    exists c :: c in n.copies && n.copies[c].event == e && Accepted(n.copies[c].place)
  }

  /** Copies carry the task of their event. */
  ghost predicate CopiesInv(db: Db, n: Net) {
    forall c :: c in n.copies ==>
      n.copies[c].event in db.events && n.copies[c].task == db.events[n.copies[c].event].task
  }

  /** Live deliveries and unacknowledged copies are in one-to-one correspondence. */
  ghost predicate DeliveriesInv(n: Net) {
    && (forall d :: d in n.deliveries ==>
          var m := n.deliveries[d];
          m.copy in n.copies && m.event == n.copies[m.copy].event && m.task == n.copies[m.copy].task &&
          Accepted(n.copies[m.copy].place) && (m.live ==> n.copies[m.copy].place == Unacked(d)))
    && (forall c :: c in n.copies && n.copies[c].place.Unacked? ==>
          var d := n.copies[c].place.delivery;
          d in n.deliveries && n.deliveries[d].live && n.deliveries[d].copy == c)
  }

  /** A publisher waits for a copy of its own event, and goes on only when that very copy was acked. */
  ghost predicate WaitsInv(o: Outbox, n: Net) {
    && (forall p :: p in o.publishers ==>
          var pc := o.publishers[p].pc;
          (pc.Waiting? || pc.Confirmed? || pc.Wrote? ==>
            pc.copy in n.copies && n.copies[pc.copy].event == o.publishers[p].event) &&
          (pc.Confirmed? || pc.Wrote? ==> pc.copy in o.acked))
    && (forall c :: c in o.acked ==> c in n.copies && Accepted(n.copies[c].place))
  }

  ghost predicate NetInv(s: State) {
    && CopiesInv(s.db, s.net) && DeliveriesInv(s.net) && WaitsInv(s.outbox, s.net)
    && (forall e :: e in s.db.events && s.db.events[e].status.EventPublished? ==> AckedCopyOf(s, e))
    && (forall e :: e in s.db.processed ==> AcceptedCopyOf(s.net, e))
  }

  /** Copies are never lost sight of: they keep event and payload, and an accepted copy stays accepted. */
  ghost predicate CopiesKept(n: Net, n': Net) {
    forall c :: c in n.copies ==>
      c in n'.copies && n'.copies[c].event == n.copies[c].event && n'.copies[c].task == n.copies[c].task &&
      (Accepted(n.copies[c].place) ==> Accepted(n'.copies[c].place))
  }

  lemma DeliveriesMsg(s: State, a: MsgStep)
    requires DeliveriesInv(s.net) && MsgEnabled(s, a)
    ensures DeliveriesInv(MsgNet(s, a)) && CopiesKept(s.net, MsgNet(s, a)) &&
            MsgNet(s, a).copies.Keys == s.net.copies.Keys
  {
  }

  lemma DeliveriesWork(s: State, a: WorkStep)
    requires DeliveriesInv(s.net) && WorkEnabled(s, a)
    ensures DeliveriesInv(WorkNet(s, a)) && CopiesKept(s.net, WorkNet(s, a)) &&
            WorkNet(s, a).copies.Keys == s.net.copies.Keys
  {
  }

  lemma WaitsPub(s: State, a: PubStep)
    requires WaitsInv(s.outbox, s.net) && PubEnabled(s, a)
    ensures WaitsInv(PubOutbox(s, a), PubNet(s, a))
  {
  }

  lemma AcksKept(s: State, s': State)
    requires NetInv(s) && CopiesKept(s.net, s'.net) && s.outbox.acked <= s'.outbox.acked
    ensures forall e :: AckedCopyOf(s, e) ==> AckedCopyOf(s', e)
    ensures forall e :: AcceptedCopyOf(s.net, e) ==> AcceptedCopyOf(s'.net, e)
  {
    forall e | AckedCopyOf(s, e)
      ensures AckedCopyOf(s', e)
    {
      var c :| c in s.outbox.acked && c in s.net.copies && s.net.copies[c].event == e;
      assert c in s'.net.copies;
    }
    forall e | AcceptedCopyOf(s.net, e)
      ensures AcceptedCopyOf(s'.net, e)
    {
      var c :| c in s.net.copies && s.net.copies[c].event == e && Accepted(s.net.copies[c].place);
      assert c in s'.net.copies;
    }
  }

  lemma NetPub(s: State, a: PubStep)
    requires NetInv(s) && RowsInv(s) && PubEnabled(s, a)
    ensures NetInv(Apply(s, Pub(a)))
  {
    var s' := Apply(s, Pub(a));
    WaitsPub(s, a);
    AcksKept(s, s');
    if a.PubCommit? {
      assert s.outbox.publishers[a.p].pc.copy in s.outbox.acked;
    }
  }

  lemma NetWork(s: State, a: WorkStep)
    requires NetInv(s) && WorkEnabled(s, a)
    ensures NetInv(Apply(s, Work(a)))
  {
    var s' := Apply(s, Work(a));
    DeliveriesWork(s, a);
    AcksKept(s, s');
    assert s'.db.events == s.db.events;
    var m := s.net.deliveries[a.d];
    assert s'.db.processed <= s.db.processed + {m.event};
    assert m.copy in s.net.copies;
  }

  lemma NetStep(s: State, a: Step)
    requires NetInv(s) && RowsInv(s) && Enabled(s, a)
    ensures NetInv(Apply(s, a))
  {
    match a
    case Api(b) => AcksKept(s, Apply(s, a));
    case Pub(b) => NetPub(s, b);
    case Msg(b) => DeliveriesMsg(s, b); AcksKept(s, Apply(s, a));
    case Work(b) => NetWork(s, b);
  }

  // ----- counting -----

  function CopiesOf(n: Net, e: EventId): set<nat> {
    set c | c in n.copies && n.copies[c].event == e
  }

  /** 1 while a publisher that has handed the event to the broker is still inside its transaction. */
  function InFlight(o: Outbox, e: EventId): nat {
    if e in o.locks && o.locks[e] in o.publishers && o.publishers[o.locks[e]].sent then 1 else 0
  }

  /** Every send ends in the one commit, in a rollback, or is still in flight. */
  ghost predicate SendsInv(s: State) {
    forall e ::
      && |CopiesOf(s.net, e)| == s.outbox.sends[e]
      && s.outbox.sends[e] == s.outbox.commits[e] + s.outbox.rollbacks[e] + InFlight(s.outbox, e)
      && s.outbox.commits[e] == if e in s.db.events && s.db.events[e].status.EventPublished? then 1 else 0
  }

  lemma CopiesOfPub(s: State, a: PubStep, e: EventId)
    requires PubEnabled(s, a) && |CopiesOf(s.net, e)| == s.outbox.sends[e]
    ensures |CopiesOf(PubNet(s, a), e)| == PubOutbox(s, a).sends[e]
  {
    if a.PubSend? && e == s.outbox.publishers[a.p].event {
      assert CopiesOf(PubNet(s, a), e) == CopiesOf(s.net, e) + {a.c};
    } else {
      assert CopiesOf(PubNet(s, a), e) == CopiesOf(s.net, e);
    }
  }

  lemma SendsPub(s: State, a: PubStep, e: EventId)
    requires LockOwners(s.db, s.outbox) && LocalRows(s.db, s.outbox) && PubEnabled(s, a)
    requires s.outbox.sends[e] == s.outbox.commits[e] + s.outbox.rollbacks[e] + InFlight(s.outbox, e)
    ensures PubOutbox(s, a).sends[e] ==
            PubOutbox(s, a).commits[e] + PubOutbox(s, a).rollbacks[e] + InFlight(PubOutbox(s, a), e)
  {
  }

  lemma CommitsPub(s: State, a: PubStep)
    requires SendsInv(s) && LocalRows(s.db, s.outbox) && PubEnabled(s, a)
    ensures forall e :: PubOutbox(s, a).commits[e] ==
                        if e in PubDb(s, a).events && PubDb(s, a).events[e].status.EventPublished? then 1 else 0
  {
  }

  lemma SendsKept(s: State, s': State)
    requires SendsInv(s) && s'.outbox == s.outbox && s'.db.events == s.db.events
    requires CopiesKept(s.net, s'.net) && s'.net.copies.Keys == s.net.copies.Keys
    ensures SendsInv(s')
  {
    assert forall e :: CopiesOf(s'.net, e) == CopiesOf(s.net, e);
  }

  lemma SendsInvPub(s: State, a: PubStep)
    requires SendsInv(s) && RowsInv(s) && PubEnabled(s, a)
    ensures SendsInv(Apply(s, Pub(a)))
  {
    CommitsPub(s, a);
    var s' := Apply(s, Pub(a));
    forall e
      ensures |CopiesOf(s'.net, e)| == s'.outbox.sends[e]
      ensures s'.outbox.sends[e] == s'.outbox.commits[e] + s'.outbox.rollbacks[e] + InFlight(s'.outbox, e)
    {
      CopiesOfPub(s, a, e);
      SendsPub(s, a, e);
    }
  }

  lemma SendsStep(s: State, a: Step)
    requires SendsInv(s) && RowsInv(s) && DeliveriesInv(s.net) && Enabled(s, a)
    ensures SendsInv(Apply(s, a))
  {
    match a
    case Api(b) =>
    case Pub(b) => SendsInvPub(s, b);
    case Msg(b) => DeliveriesMsg(s, b); SendsKept(s, Apply(s, a));
    case Work(b) => DeliveriesWork(s, b); EventsKeptWork(s, b); SendsKept(s, Apply(s, a));
  }

  /** A task is started at most once more than recovery has wrongly put it back. */
  ghost predicate AttemptsInv(s: State) {
    forall t ::
      && Starts(s.db.log, t) == s.net.attempts[t]
      && s.net.attempts[t] <= 1 + s.servers.stale[t]
      && ((t in s.db.tasks ==> Startable(s.db.tasks[t])) ==> s.net.attempts[t] <= s.servers.stale[t])
  }

  lemma StartsGrows(log: seq<LogEntry>, entry: LogEntry)
    ensures forall t ::
              Starts(log + [entry], t) == Starts(log, t) + (if entry.task == t && entry.to.Processing? then 1 else 0)
  {
    forall t {
      StartsAppend(log, entry, t);
    }
  }

  lemma AttemptsStep(s: State, a: Step)
    requires AttemptsInv(s) && TablesInv(s) && NetInv(s) && Enabled(s, a)
    ensures AttemptsInv(Apply(s, a))
  {
    match a
    case Api(b) => AttemptsApi(s, b);
    case Pub(b) => AttemptsKept(s, Apply(s, a));
    case Msg(b) => AttemptsKept(s, Apply(s, a));
    case Work(b) => DeliveredTaskExists(s, b.d); AttemptsWork(s, b);
  }

  lemma AttemptsKept(s: State, s': State)
    requires AttemptsInv(s) && s'.db.tasks == s.db.tasks && s'.db.log == s.db.log
    requires s'.net.attempts == s.net.attempts && s'.servers == s.servers
    ensures AttemptsInv(s')
  {
  }

  lemma AttemptsCancel(s: State, t: TaskId)
    requires AttemptsInv(s)
    ensures AttemptsInv(Apply(s, Api(Cancel(t))))
  {
    if t in s.db.tasks {
      StartsGrows(s.db.log, LogEntry(t, s.db.tasks[t], Cancelled));
    }
  }

  lemma AttemptsRecover(s: State, a: ApiStep)
    requires AttemptsInv(s) && TablesInv(s) && ApiEnabled(s, a) && a.RecoverWrite?
    ensures AttemptsInv(Apply(s, Api(a)))
  {
  }

  lemma AttemptsApi(s: State, a: ApiStep)
    requires AttemptsInv(s) && TablesInv(s) && ApiEnabled(s, a)
    ensures AttemptsInv(Apply(s, Api(a)))
  {
    if a.Cancel? {
      AttemptsCancel(s, a.t);
    } else if a.RecoverWrite? {
      AttemptsRecover(s, a);
    }
  }

  lemma AttemptsWork(s: State, a: WorkStep)
    requires AttemptsInv(s) && WorkEnabled(s, a) && s.net.deliveries[a.d].task in s.db.tasks
    ensures AttemptsInv(Apply(s, Work(a)))
  {
    var s', t := Apply(s, Work(a)), s.net.deliveries[a.d].task;
    if a.Transition? && !a.w.RolledBack? {
      StartsGrows(s.db.log, LogEntry(t, s.db.tasks[t], Processing));
    } else {
      WorkStartsNothing(s, a);
    }
  }

  lemma WorkStartsNothing(s: State, a: WorkStep)
    requires WorkEnabled(s, a) && s.net.deliveries[a.d].task in s.db.tasks
    requires a.Transition? ==> a.w.RolledBack?
    ensures WorkDb(s, a).log == s.db.log && WorkNet(s, a).attempts == s.net.attempts
    ensures WorkDb(s, a).tasks.Keys == s.db.tasks.Keys
    ensures forall t :: t in s.db.tasks && Startable(WorkDb(s, a).tasks[t]) ==> WorkDb(s, a).tasks[t] == s.db.tasks[t]
  {
  }

  /** Handler runs of a message since its mark was cleaned up. */
  ghost predicate RunsInv(s: State) {
    forall e :: Count(s.net.runs, e) <= Count(s.net.markErrors, e) + (if e in s.db.processed then 1 else 0)
  }

  lemma RunsStep(s: State, a: Step)
    requires RunsInv(s) && Enabled(s, a)
    ensures RunsInv(Apply(s, a))
  {
    match a
    case Api(b) =>
    case Pub(b) =>
    case Msg(b) =>
    case Work(b) =>
  }

  // ----- all together -----

  ghost predicate Inv(s: State) {
    RowsInv(s) && TablesInv(s) && NetInv(s) && SendsInv(s) && AttemptsInv(s) && RunsInv(s)
  }

  lemma InitInv(maxRetries: int)
    ensures Inv(Init(maxRetries))
  {
  }

  lemma KeepsInv(s: State, a: Step)
    requires Inv(s) && Enabled(s, a)
    ensures Inv(Apply(s, a))
  {
    RowsStep(s, a);
    TablesStep(s, a);
    NetStep(s, a);
    SendsStep(s, a);
    AttemptsStep(s, a);
    RunsStep(s, a);
  }

  lemma {:induction false} RunInv(s: State, steps: seq<Step>)
    requires Inv(s) && Run(s, steps)
    ensures Inv(After(s, steps))
    decreases |steps|
  {
    if steps != [] {
      KeepsInv(s, steps[0]);
      RunInv(Apply(s, steps[0]), steps[1..]);
    }
  }
}
