/** No submitted task is lost: until it is terminal, something still carries it forward. */
module NoTaskLost {
  import opened Domain
  import opened Persistence
  import opened Pipeline
  import opened Safety
  import Guarantees

  // ----- who carries a task -----

  ghost predicate WorksOn(n: Net, d: nat, t: TaskId) {
    d in n.deliveries && n.deliveries[d].task == t && Working(n.deliveries[d].pc)
  }

  ghost predicate Handles(n: Net, d: nat, t: TaskId) {
    d in n.deliveries && n.deliveries[d].task == t && n.deliveries[d].pc.Handling?
  }

  /** The message waits in the queue, or at a worker that has not checked for duplicates yet, unmarked. */
  ghost predicate Unseen(db: Db, n: Net, c: nat, t: TaskId) {
    && c in n.copies && n.copies[c].task == t && n.copies[c].event !in db.processed
    && (n.copies[c].place.InQueue? ||
        (n.copies[c].place.Unacked? && n.copies[c].place.delivery in n.deliveries &&
         n.deliveries[n.copies[c].place.delivery].pc.Received?))
  }

  /** The task is over, or a worker or an unseen message will take it further. */
  ghost predicate InHand(db: Db, n: Net, t: TaskId) {
    t in db.tasks &&
    (Terminal(db.tasks[t])
     || (exists d :: WorksOn(n, d, t))
     || (Startable(db.tasks[t]) && ((exists d :: Handles(n, d, t)) || exists c :: Unseen(db, n, c, t))))
  }

  /** The task's event is still to be published, and the background scan will pick it up. */
  ghost predicate Waiting(s: State, t: TaskId) {
    t in s.db.tasks && Startable(s.db.tasks[t]) &&
    exists e :: e in s.db.events && s.db.events[e].task == t && s.db.events[e].status.EventPending?
  }

  ghost predicate AcceptedInHand(db: Db, n: Net) {
    forall c :: c in n.copies && Accepted(n.copies[c].place) ==> InHand(db, n, n.copies[c].task)
  }

  ghost predicate CarriedInv(s: State) {
    && AcceptedInHand(s.db, s.net)
    && (forall t :: t in s.db.tasks ==> InHand(s.db, s.net, t) || Waiting(s, t))
  }

  // ----- the faults that lose a task -----

  predicate Unfinished(s: State, t: TaskId) {
    t in s.db.tasks && !Terminal(s.db.tasks[t])
  }

  /** A worker that holds an unfinished task crashes when its message cannot take its place, or its start or
      its final write fails; or recovery overwrites a finished task. */
  predicate Lossy(s: State, a: Step) {
    match a
    case Work(w) =>
      w.d in s.net.deliveries &&
      var m := s.net.deliveries[w.d];
      Unfinished(s, m.task) &&
      (match w
       case Crash(d) =>
         (Working(m.pc) || m.pc.Handling?) &&
         !(m.live && m.event !in s.db.processed && (m.pc.Handling? || Startable(s.db.tasks[m.task])))
       case Transition(d, r) => !r.Done?
       case SaveFailure(d, r) => r.RolledBack?
       case SaveSuccess(d, r) => r.RolledBack?
       case _ => false)
    case Api(RecoverWrite(r, e, at)) =>
      r in s.servers.recoveries && s.servers.recoveries[r].task in s.db.tasks &&
      Terminal(s.db.tasks[s.servers.recoveries[r].task])
    case _ => false
  }

  /** No step of the run is one of those faults. */
  predicate LossFree(s: State, steps: seq<Step>)
    requires Run(s, steps)
    decreases |steps|
  {
    steps == [] || (!Lossy(s, steps[0]) && LossFree(Apply(s, steps[0]), steps[1..]))
  }

  // ----- every step keeps a task in hand -----

  lemma ApiKeeps(s: State, a: ApiStep, t: TaskId)
    requires ApiEnabled(s, a) && !Lossy(s, Api(a)) && InHand(s.db, s.net, t)
    ensures InHand(ApiDb(s, a), s.net, t)
  {
    var db := ApiDb(s, a);
    assert t in db.tasks && db.processed == s.db.processed;
    if c :| Unseen(s.db, s.net, c, t) {
      assert Unseen(db, s.net, c, t);
    }
  }

  lemma PubKeeps(s: State, a: PubStep, t: TaskId)
    requires PubEnabled(s, a) && InHand(s.db, s.net, t)
    ensures InHand(PubDb(s, a), PubNet(s, a), t)
  {
    var db, n := PubDb(s, a), PubNet(s, a);
    assert n.deliveries == s.net.deliveries && db.tasks == s.db.tasks && db.processed == s.db.processed;
    if d :| WorksOn(s.net, d, t) {
      assert WorksOn(n, d, t);
    }
    if d :| Handles(s.net, d, t) {
      assert Handles(n, d, t);
    }
    if c :| Unseen(s.db, s.net, c, t) {
      assert Unseen(db, n, c, t);
    }
  }

  lemma MsgKeeps(s: State, a: MsgStep, t: TaskId)
    requires MsgEnabled(s, a) && DeliveriesInv(s.net) && InHand(s.db, s.net, t)
    ensures InHand(MsgDb(s, a), MsgNet(s, a), t)
  {
    var db, n := MsgDb(s, a), MsgNet(s, a);
    if d :| WorksOn(s.net, d, t) {
      assert WorksOn(n, d, t);
    }
    if d :| Handles(s.net, d, t) {
      assert Handles(n, d, t);
    }
    if c :| Unseen(s.db, s.net, c, t) {
      assert Unseen(db, n, c, t);
    }
  }

  lemma MarkKeeps(s: State, a: WorkStep, t: TaskId)
    requires WorkEnabled(s, a) && a.Mark? && NetInv(s) && InHand(s.db, s.net, t)
    ensures InHand(WorkDb(s, a), WorkNet(s, a), t)
  {
    var db, n, m := WorkDb(s, a), WorkNet(s, a), s.net.deliveries[a.d];
    if d :| WorksOn(s.net, d, t) {
      assert WorksOn(n, d, t);
    }
    if d :| Handles(s.net, d, t) {
      assert Handles(n, d, t);
    }
    if c :| Unseen(s.db, s.net, c, t) {
      if t == m.task && !a.answer.Duplicate? {
        assert Handles(n, a.d, t);
      } else {
        assert m.copy in s.net.copies;
        assert Unseen(db, n, c, t);
      }
    }
  }

  lemma TransitionKeeps(s: State, a: WorkStep, t: TaskId)
    requires WorkEnabled(s, a) && (a.Transition? || a.TransitionRefused?) && !Lossy(s, Work(a)) &&
             InHand(s.db, s.net, t)
    ensures InHand(WorkDb(s, a), WorkNet(s, a), t)
  {
    var db, n, m := WorkDb(s, a), WorkNet(s, a), s.net.deliveries[a.d];
    if a.Transition? && t == m.task {
      assert WorksOn(n, a.d, t);
    } else {
      if d :| WorksOn(s.net, d, t) {
        assert WorksOn(n, d, t);
      }
      if Startable(s.db.tasks[t]) {
        if d :| Handles(s.net, d, t) {
          assert d != a.d;
          assert Handles(n, d, t);
        }
        if c :| Unseen(s.db, s.net, c, t) {
          assert Unseen(db, n, c, t);
        }
      }
    }
  }

  lemma SaveKeeps(s: State, a: WorkStep, t: TaskId)
    requires WorkEnabled(s, a) && (a.SaveInfo? || a.SaveFailure? || a.SaveSuccess?) && !Lossy(s, Work(a))
    requires InHand(s.db, s.net, t)
    ensures InHand(WorkDb(s, a), WorkNet(s, a), t)
  {
    var db, n, m := WorkDb(s, a), WorkNet(s, a), s.net.deliveries[a.d];
    if t == m.task {
      if a.SaveInfo? {
        assert WorksOn(n, a.d, t);
      }
    } else {
      if d :| WorksOn(s.net, d, t) {
        assert WorksOn(n, d, t);
      }
      if d :| Handles(s.net, d, t) {
        assert Handles(n, d, t);
      }
      if c :| Unseen(s.db, s.net, c, t) {
        assert Unseen(db, n, c, t);
      }
    }
  }

  lemma EndKeeps(s: State, a: WorkStep, t: TaskId)
    requires WorkEnabled(s, a) && (a.Settle? || a.Crash?) && DeliveriesInv(s.net) && !Lossy(s, Work(a))
    requires InHand(s.db, s.net, t)
    ensures InHand(WorkDb(s, a), WorkNet(s, a), t)
  {
    var db, n, m := WorkDb(s, a), WorkNet(s, a), s.net.deliveries[a.d];
    if !Terminal(s.db.tasks[t]) {
      if t == m.task && a.Crash? && (Working(m.pc) || (m.pc.Handling? && Startable(s.db.tasks[t]))) {
        assert Unseen(db, n, m.copy, t);
      } else if d :| WorksOn(s.net, d, t) {
        assert WorksOn(n, d, t);
      } else if d :| Handles(s.net, d, t) {
        assert Handles(n, d, t);
      } else {
        var c :| Unseen(s.db, s.net, c, t);
        assert Unseen(db, n, c, t);
      }
    }
  }

  lemma InHandStep(s: State, a: Step, t: TaskId)
    requires Inv(s) && Enabled(s, a) && !Lossy(s, a) && InHand(s.db, s.net, t)
    ensures InHand(Apply(s, a).db, Apply(s, a).net, t)
  {
    match a
    case Api(b) => ApiKeeps(s, b, t);
    case Pub(b) => PubKeeps(s, b, t);
    case Msg(b) => MsgKeeps(s, b, t);
    case Work(b) =>
      if b.Mark? {
        MarkKeeps(s, b, t);
      } else if b.Transition? || b.TransitionRefused? {
        TransitionKeeps(s, b, t);
      } else if b.Settle? || b.Crash? {
        EndKeeps(s, b, t);
      } else {
        SaveKeeps(s, b, t);
      }
  }

  lemma ProcessedInHand(s: State, e: EventId)
    requires NetInv(s) && AcceptedInHand(s.db, s.net) && e in s.db.processed
    ensures e in s.db.events && InHand(s.db, s.net, s.db.events[e].task)
  {
    var c :| c in s.net.copies && s.net.copies[c].event == e && Accepted(s.net.copies[c].place);
    assert s.net.copies[c].task == s.db.events[e].task;
  }

  lemma NewlyAcceptedInHand(s: State, c: nat)
    requires NetInv(s) && CarriedInv(s) && MsgEnabled(s, BrokerAccept(c)) && s.net.copies[c].task in s.db.tasks
    ensures InHand(s.db, MsgNet(s, BrokerAccept(c)), s.net.copies[c].task)
  {
    var t, e, n := s.net.copies[c].task, s.net.copies[c].event, MsgNet(s, BrokerAccept(c));
    if e in s.db.processed {
      ProcessedInHand(s, e);
    }
    if InHand(s.db, s.net, t) {
      MsgKeeps(s, BrokerAccept(c), t);
    } else {
      assert Unseen(s.db, n, c, t);
    }
  }

  /** Only the broker's accepting a copy makes a copy accepted. */
  lemma AcceptedBefore(s: State, a: Step, c: nat)
    requires DeliveriesInv(s.net) && Enabled(s, a)
    requires c in Apply(s, a).net.copies && Accepted(Apply(s, a).net.copies[c].place)
    ensures c in s.net.copies && Apply(s, a).net.copies[c].task == s.net.copies[c].task
    ensures Accepted(s.net.copies[c].place) || a == Msg(BrokerAccept(c))
  {
    match a
    case Api(b) =>
    case Pub(b) =>
    case Msg(b) => DeliveriesMsg(s, b);
    case Work(b) => DeliveriesWork(s, b);
  }

  lemma CopyTaskExists(s: State, c: nat)
    requires CopiesInv(s.db, s.net) && TablesInv(s) && c in s.net.copies
    ensures s.net.copies[c].task in s.db.tasks
  {
  }

  lemma AcceptedStep(s: State, a: Step)
    requires Inv(s) && CarriedInv(s) && Enabled(s, a) && !Lossy(s, a)
    ensures AcceptedInHand(Apply(s, a).db, Apply(s, a).net)
  {
    var s' := Apply(s, a);
    forall c | c in s'.net.copies && Accepted(s'.net.copies[c].place)
      ensures InHand(s'.db, s'.net, s'.net.copies[c].task)
    {
      AcceptedBefore(s, a, c);
      if Accepted(s.net.copies[c].place) {
        InHandStep(s, a, s.net.copies[c].task);
      } else {
        CopyTaskExists(s, c);
        NewlyAcceptedInHand(s, c);
      }
    }
  }

  lemma PublishedInHand(s: State, e: EventId)
    requires NetInv(s) && AcceptedInHand(s.db, s.net) && e in s.db.events && s.db.events[e].status.EventPublished?
    ensures InHand(s.db, s.net, s.db.events[e].task)
  {
    var c :| c in s.outbox.acked && c in s.net.copies && s.net.copies[c].event == e;
    assert s.net.copies[c].task == s.db.events[e].task;
  }

  lemma WaitingPub(s: State, a: PubStep, t: TaskId)
    requires RowsInv(s) && NetInv(s) && PubEnabled(s, a) && Waiting(s, t)
    requires AcceptedInHand(PubDb(s, a), PubNet(s, a))
    ensures var s' := Apply(s, Pub(a)); InHand(s'.db, s'.net, t) || Waiting(s', t)
  {
    var s' := Apply(s, Pub(a));
    var e :| e in s.db.events && s.db.events[e].task == t && s.db.events[e].status.EventPending?;
    if a.PubCommit? && s.outbox.publishers[a.p].event == e {
      NetPub(s, a);
      PublishedInHand(s', e);
    } else {
      assert s'.db.events[e] == s.db.events[e] && s'.db.tasks == s.db.tasks;
    }
  }

  lemma WaitingApi(s: State, a: ApiStep, t: TaskId)
    requires ApiEnabled(s, a) && Waiting(s, t)
    ensures InHand(ApiDb(s, a), s.net, t) || Waiting(Apply(s, Api(a)), t)
  {
    var e :| e in s.db.events && s.db.events[e].task == t && s.db.events[e].status.EventPending?;
    assert ApiDb(s, a).events[e] == s.db.events[e];
  }

  lemma WaitingWork(s: State, a: WorkStep, t: TaskId)
    requires WorkEnabled(s, a) && Waiting(s, t) && s.net.deliveries[a.d].task != t
    ensures Waiting(Apply(s, Work(a)), t)
  {
    EventsKeptWork(s, a);
    var e :| e in s.db.events && s.db.events[e].task == t && s.db.events[e].status.EventPending?;
    assert WorkDb(s, a).events[e] == s.db.events[e];
  }

  lemma DeliveredInHand(s: State, d: nat)
    requires DeliveriesInv(s.net) && AcceptedInHand(s.db, s.net) && d in s.net.deliveries
    ensures InHand(s.db, s.net, s.net.deliveries[d].task)
  {
    assert s.net.deliveries[d].copy in s.net.copies;
  }

  lemma WaitingStep(s: State, a: Step, t: TaskId)
    requires Inv(s) && CarriedInv(s) && Enabled(s, a) && !Lossy(s, a)
    requires Waiting(s, t) && !InHand(s.db, s.net, t)
    ensures InHand(Apply(s, a).db, Apply(s, a).net, t) || Waiting(Apply(s, a), t)
  {
    match a
    case Api(b) => WaitingApi(s, b, t);
    case Pub(b) => AcceptedStep(s, a); WaitingPub(s, b, t);
    case Msg(b) =>
    case Work(b) => DeliveredInHand(s, b.d); WaitingWork(s, b, t);
  }

  lemma SubmittedWaiting(s: State, a: Step, t: TaskId)
    requires Inv(s) && Enabled(s, a) && t in Apply(s, a).db.tasks && t !in s.db.tasks
    ensures Waiting(Apply(s, a), t)
  {
    match a
    case Api(b) => SubmittedApi(s, b, t);
    case Pub(b) =>
    case Msg(b) =>
    case Work(b) => DeliveredTaskExists(s, b.d); WorkKeepsTables(s, b);
  }

  lemma SubmittedApi(s: State, a: ApiStep, t: TaskId)
    requires ApiEnabled(s, a) && t in ApiDb(s, a).tasks && t !in s.db.tasks && Inv(s)
    ensures Waiting(Apply(s, Api(a)), t)
  {
    assert a.SubmitCommit?;
    assert ApiDb(s, a).events[a.e].task == t;
  }

  lemma CarriedStep(s: State, a: Step)
    requires Inv(s) && CarriedInv(s) && Enabled(s, a) && !Lossy(s, a)
    ensures CarriedInv(Apply(s, a))
  {
    var s' := Apply(s, a);
    AcceptedStep(s, a);
    forall t | t in s'.db.tasks
      ensures InHand(s'.db, s'.net, t) || Waiting(s', t)
    {
      if t !in s.db.tasks {
        SubmittedWaiting(s, a, t);
      } else if InHand(s.db, s.net, t) {
        InHandStep(s, a, t);
      } else {
        WaitingStep(s, a, t);
      }
    }
  }

  lemma {:induction false} CarriedRun(s: State, steps: seq<Step>)
    requires Inv(s) && CarriedInv(s) && Run(s, steps) && LossFree(s, steps)
    ensures Inv(After(s, steps)) && CarriedInv(After(s, steps))
    decreases |steps|
  {
    if steps != [] {
      KeepsInv(s, steps[0]);
      CarriedStep(s, steps[0]);
      CarriedRun(Apply(s, steps[0]), steps[1..]);
    }
  }

  // ----- main results -----

  /** The background scan will find an event of `t`. */
  ghost predicate WillBePublished(s: State, t: TaskId) {
    exists e :: e in s.db.events && s.db.events[e].task == t && Eligible(s.db.events[e])
  }

  lemma CarriedInit(maxRetries: int)
    ensures Inv(Init(maxRetries)) && CarriedInv(Init(maxRetries))
  {
    InitInv(maxRetries);
  }

  lemma PendingIsEligible(s: State, t: TaskId)
    requires CommittedRows(s) && s.maxRetries >= 0 && Waiting(s, t)
    ensures WillBePublished(s, t)
  {
    var e :| e in s.db.events && s.db.events[e].task == t && s.db.events[e].status.EventPending?;
    assert Eligible(s.db.events[e]);
  }

  lemma CarriedMeans(s: State, t: TaskId)
    requires CommittedRows(s) && s.maxRetries >= 0 && CarriedInv(s) && t in s.db.tasks && !Terminal(s.db.tasks[t])
    ensures WillBePublished(s, t) || (exists c :: Unseen(s.db, s.net, c, t)) ||
            exists d :: WorksOn(s.net, d, t) || Handles(s.net, d, t)
  {
    if !InHand(s.db, s.net, t) {
      PendingIsEligible(s, t);
    }
  }

  /** In every run free of the listed faults, whatever the servers, the broker and the connections do, each
      task is over or has an eligible event, an unseen message or a worker. */
  lemma NoTaskIsLost(maxRetries: int, steps: seq<Step>, t: TaskId)
    requires maxRetries >= 0
    requires Run(Init(maxRetries), steps) && LossFree(Init(maxRetries), steps)
    ensures var s := After(Init(maxRetries), steps);
            t in s.db.tasks && !Terminal(s.db.tasks[t]) ==>
              WillBePublished(s, t) || (exists c :: Unseen(s.db, s.net, c, t)) ||
              exists d :: WorksOn(s.net, d, t) || Handles(s.net, d, t)
  {
    var s := After(Init(maxRetries), steps);
    CarriedInit(maxRetries);
    CarriedRun(Init(maxRetries), steps);
    Guarantees.ConfigKept(Init(maxRetries), steps);
    if t in s.db.tasks && !Terminal(s.db.tasks[t]) {
      CarriedMeans(s, t);
    }
  }


  /** Nothing left to publish, nothing in the broker, nothing at a worker. */
  ghost predicate Quiescent(s: State) {
    && (forall e :: e in s.db.events ==> s.db.events[e].status.EventPublished?)
    && (forall c :: c in s.net.copies ==>
      s.net.copies[c].place.Dropped? || s.net.copies[c].place.Acked? || s.net.copies[c].place.Discarded?)
    && s.net.deliveries == map[]
  }

  lemma QuiescentTasks(s: State, t: TaskId)
    requires CarriedInv(s) && Quiescent(s) && t in s.db.tasks
    ensures Terminal(s.db.tasks[t])
  {
  }

  lemma QuiescentMeansTerminal(maxRetries: int, steps: seq<Step>, t: TaskId)
    requires Run(Init(maxRetries), steps) && LossFree(Init(maxRetries), steps)
    requires Quiescent(After(Init(maxRetries), steps)) && t in After(Init(maxRetries), steps).db.tasks
    ensures Terminal(After(Init(maxRetries), steps).db.tasks[t])
  {
    CarriedInit(maxRetries);
    CarriedRun(Init(maxRetries), steps);
    QuiescentTasks(After(Init(maxRetries), steps), t);
  }

  // ----- what is lost stays lost -----

  /** The event of `t` is published and nothing in the broker or at a worker refers to `t` any more. */
  ghost predicate Spent(s: State, t: TaskId) {
    && t in s.db.tasks
    && (forall e :: e in s.db.events && s.db.events[e].task == t ==> s.db.events[e].status.EventPublished?)
    && (forall c :: c in s.net.copies && s.net.copies[c].task == t ==>
          s.net.copies[c].place.Dropped? || s.net.copies[c].place.Acked? || s.net.copies[c].place.Discarded?)
    && (forall d :: d in s.net.deliveries ==> s.net.deliveries[d].task != t)
  }

  lemma SpentStep(s: State, a: Step, t: TaskId)
    requires Inv(s) && Enabled(s, a) && Spent(s, t)
    ensures Spent(Apply(s, a), t) && Apply(s, a).net.attempts[t] == s.net.attempts[t]
    ensures Apply(s, a).db.tasks[t] == s.db.tasks[t] || Apply(s, a).db.tasks[t].Cancelled? ||
            Apply(s, a).db.tasks[t].Queued?
  {
    match a
    case Api(b) => SpentApi(s, b, t);
    case Pub(b) => SpentPub(s, b, t);
    case Msg(b) => SpentMsg(s, b, t);
    case Work(b) => SpentWork(s, b, t);
  }

  lemma SpentApi(s: State, a: ApiStep, t: TaskId)
    requires TablesInv(s) && ApiEnabled(s, a) && Spent(s, t)
    ensures Spent(Apply(s, Api(a)), t)
    ensures ApiDb(s, a).tasks[t] == s.db.tasks[t] || ApiDb(s, a).tasks[t].Cancelled? || ApiDb(s, a).tasks[t].Queued?
  {
  }

  lemma SpentPub(s: State, a: PubStep, t: TaskId)
    requires LocalRows(s.db, s.outbox) && CopiesInv(s.db, s.net) && PubEnabled(s, a) && Spent(s, t)
    ensures Spent(Apply(s, Pub(a)), t)
  {
  }

  lemma SpentMsg(s: State, a: MsgStep, t: TaskId)
    requires DeliveriesInv(s.net) && MsgEnabled(s, a) && Spent(s, t)
    ensures Spent(Apply(s, Msg(a)), t) && MsgNet(s, a).attempts == s.net.attempts
  {
  }

  lemma SpentWork(s: State, a: WorkStep, t: TaskId)
    requires DeliveriesInv(s.net) && WorkEnabled(s, a) && Spent(s, t)
    ensures Spent(Apply(s, Work(a)), t) && WorkNet(s, a).attempts[t] == s.net.attempts[t] &&
            WorkDb(s, a).tasks[t] == s.db.tasks[t]
  {
    assert s.net.deliveries[a.d].task != t;
  }

  /** Recovery does not rescue a spent task: whatever happens, it is never started again. */
  lemma {:induction false} SpentForever(s: State, steps: seq<Step>, t: TaskId)
    requires Inv(s) && Run(s, steps) && Spent(s, t)
    ensures Spent(After(s, steps), t) && After(s, steps).net.attempts[t] == s.net.attempts[t]
    ensures var st := After(s, steps).db.tasks[t]; st == s.db.tasks[t] || st.Cancelled? || st.Queued?
    decreases |steps|
  {
    if steps != [] {
      SpentStep(s, steps[0], t);
      KeepsInv(s, steps[0]);
      SpentForever(Apply(s, steps[0]), steps[1..], t);
    }
  }
}
