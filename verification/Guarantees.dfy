/** The promises of the pipeline, for every run from the empty database. */
module Guarantees {
  import opened Domain
  import opened Persistence
  import opened Pipeline
  import opened Safety

  lemma Reachable(maxRetries: int, steps: seq<Step>)
    requires Run(Init(maxRetries), steps)
    ensures Inv(After(Init(maxRetries), steps)) && After(Init(maxRetries), steps).maxRetries == maxRetries
  {
    InitInv(maxRetries);
    RunInv(Init(maxRetries), steps);
    ConfigKept(Init(maxRetries), steps);
  }

  lemma {:induction false} ConfigKept(s: State, steps: seq<Step>)
    requires Run(s, steps)
    ensures After(s, steps).maxRetries == s.maxRetries
    decreases |steps|
  {
    if steps != [] {
      ConfigKept(Apply(s, steps[0]), steps[1..]);
    }
  }

  // ----- processing attempts -----

  /** For any number of workers, duplicates, redeliveries, crashes and recovery passes, a task is started at most
      once more than recovery wrote over a task that had moved on; with none of those writes, at most once.
      The status log has one entry to processing for each start. */
  lemma AttemptsAreBounded(maxRetries: int, steps: seq<Step>, t: TaskId)
    requires Run(Init(maxRetries), steps)
    ensures var s := After(Init(maxRetries), steps);
      && s.net.attempts[t] <= 1 + s.servers.stale[t]
      && Starts(s.db.log, t) == s.net.attempts[t]
      && (t in s.db.tasks && Startable(s.db.tasks[t]) ==> s.net.attempts[t] <= s.servers.stale[t])
  {
    Reachable(maxRetries, steps);
  }

  /** The one step that makes a started or finished task startable again is a recovery write that comes after the task
      moved on; this is what the second start needs. */
  lemma ReopenedExactly(s: State, a: Step, t: TaskId)
    requires Enabled(s, a) && t in s.db.tasks && !Startable(s.db.tasks[t])
    ensures t in Apply(s, a).db.tasks
    ensures Startable(Apply(s, a).db.tasks[t])
            <==> a.Api? && StaleWrite(s, a.api) && s.servers.recoveries[a.api.r].task == t
  {
    match a
    case Api(b) =>
    case Pub(b) =>
    case Msg(b) =>
    case Work(b) => ReopenedByNoWorker(s, b, t);
  }

  lemma ReopenedByNoWorker(s: State, a: WorkStep, t: TaskId)
    requires WorkEnabled(s, a) && t in s.db.tasks && !Startable(s.db.tasks[t])
    ensures t in WorkDb(s, a).tasks && !Startable(WorkDb(s, a).tasks[t])
  {
  }

  // ----- outbox rows -----

  /** Committed rows are pending or published with no retry ever counted, and published means that the broker
      acked a copy of that very event. So the retry cap never takes effect. */
  lemma CommittedOutboxRows(maxRetries: int, steps: seq<Step>, e: EventId)
    requires Run(Init(maxRetries), steps) && e in After(Init(maxRetries), steps).db.events
    ensures var s := After(Init(maxRetries), steps); var row := s.db.events[e];
      && (row.status.EventPending? || row.status.EventPublished?) && row.retries == 0
      && (row.status.EventPublished? ==> AckedCopyOf(s, e))
      && (Eligible(row) <==> row.status.EventPending? && maxRetries >= 0)
  {
    Reachable(maxRetries, steps);
  }

  lemma RowStep(s: State, a: Step, e: EventId)
    requires RowsInv(s) && Enabled(s, a) && e in s.db.events
    ensures var db := Apply(s, a).db;
      e in db.events &&
      (db.events[e] == s.db.events[e] ||
       (s.db.events[e].status.EventPending? && db.events[e] == s.db.events[e].(status := EventPublished)))
  {
    if a.Work? {
      EventsKeptWork(s, a.work);
    }
  }

  /** A committed row changes at most once, from pending to published. */
  lemma {:induction false} RowMovesOnce(s: State, steps: seq<Step>, e: EventId)
    requires RowsInv(s) && Run(s, steps) && e in s.db.events
    ensures var db := After(s, steps).db;
      e in db.events &&
      (db.events[e] == s.db.events[e] ||
       (s.db.events[e].status.EventPending? && db.events[e] == s.db.events[e].(status := EventPublished)))
    decreases |steps|
  {
    if steps != [] {
      RowStep(s, steps[0], e);
      RowsStep(s, steps[0]);
      RowMovesOnce(Apply(s, steps[0]), steps[1..], e);
    }
  }

  // ----- publishers -----

  /** No two publishers are between row lock and end of transaction for one event, and a publisher hands a copy
      to the broker only while the committed row is still pending. */
  lemma OnePublisherPerEvent(maxRetries: int, steps: seq<Step>, p: nat, q: nat)
    requires Run(Init(maxRetries), steps)
    ensures var s := After(Init(maxRetries), steps); var pubs := s.outbox.publishers;
      && (p in pubs && q in pubs && HoldsLock(pubs[p].pc) && HoldsLock(pubs[q].pc) && pubs[p].event == pubs[q].event ==>
        p == q)
      && (forall c :: PubEnabled(s, PubSend(p, c)) ==>
            pubs[p].event in s.db.events && s.db.events[pubs[p].event].status.EventPending?)
  {
    Reachable(maxRetries, steps);
    Exclusive(After(Init(maxRetries), steps), p, q);
  }

  lemma Exclusive(s: State, p: nat, q: nat)
    requires LockOwners(s.db, s.outbox) && LocalRows(s.db, s.outbox)
    ensures var pubs := s.outbox.publishers;
      && (p in pubs && q in pubs && HoldsLock(pubs[p].pc) && HoldsLock(pubs[q].pc) && pubs[p].event == pubs[q].event ==>
        p == q)
      && (forall c :: PubEnabled(s, PubSend(p, c)) ==>
            pubs[p].event in s.db.events && s.db.events[pubs[p].event].status.EventPending?)
  {
  }

  function AcceptedCopies(n: Net, e: EventId): set<nat> {
    set c | c in n.copies && n.copies[c].event == e && Accepted(n.copies[c].place)
  }

  /** The broker accepts at most one copy of an event more than there were rolled-back sends. */
  lemma CopiesAreBounded(maxRetries: int, steps: seq<Step>, e: EventId)
    requires Run(Init(maxRetries), steps)
    ensures var s := After(Init(maxRetries), steps);
      |AcceptedCopies(s.net, e)| <= s.outbox.sends[e] <= 1 + s.outbox.rollbacks[e]
  {
    Reachable(maxRetries, steps);
    SendsBounded(After(Init(maxRetries), steps), e);
  }

  lemma SendsBounded(s: State, e: EventId)
    requires SendsInv(s) && LockOwners(s.db, s.outbox) && LocalRows(s.db, s.outbox)
    ensures |AcceptedCopies(s.net, e)| <= s.outbox.sends[e] <= 1 + s.outbox.rollbacks[e]
  {
    SubsetSize(AcceptedCopies(s.net, e), CopiesOf(s.net, e));
  }

  // ----- submissions and recovery -----

  /** A task id is submitted successfully at most once and its task has exactly one event, however submissions
      and recovery passes race. */
  lemma OneSubmissionOneEvent(maxRetries: int, steps: seq<Step>, t: TaskId)
    requires Run(Init(maxRetries), steps)
    ensures var s := After(Init(maxRetries), steps);
      && s.servers.submitted[t] == (if t in s.db.tasks then 1 else 0)
      && (t in s.db.tasks <==> exists e :: e in s.db.events && s.db.events[e].task == t)
      && (forall e, f :: e in s.db.events && f in s.db.events && s.db.events[e].task == t == s.db.events[f].task ==>
        e == f)
  {
    Reachable(maxRetries, steps);
    var s := After(Init(maxRetries), steps);
    assert t in s.db.tasks ==> HasEvent(s.db, t);
  }

  /** So recovery never inserts an event. */
  lemma RecoveryInsertsNothing(maxRetries: int, steps: seq<Step>, r: nat, e: EventId, at: int)
    requires Run(Init(maxRetries), steps) && ApiEnabled(After(Init(maxRetries), steps), RecoverWrite(r, e, at))
    ensures var s := After(Init(maxRetries), steps); ApiDb(s, RecoverWrite(r, e, at)).events == s.db.events
  {
    Reachable(maxRetries, steps);
  }

  // ----- terminal tasks -----

  ghost predicate Finished(s: State, t: TaskId) {
    t in s.db.tasks && Terminal(s.db.tasks[t]) &&
    forall d :: d in s.net.deliveries && s.net.deliveries[d].task == t ==> !Working(s.net.deliveries[d].pc)
  }

  lemma FinishedApi(s: State, a: ApiStep, t: TaskId)
    requires ApiEnabled(s, a) && Finished(s, t) && ApiServers(s, a).stale[t] == s.servers.stale[t]
    ensures Finished(Apply(s, Api(a)), t)
    ensures ApiDb(s, a).tasks[t] == s.db.tasks[t] || ApiDb(s, a).tasks[t].Cancelled?
  {
  }

  lemma FinishedWork(s: State, a: WorkStep, t: TaskId)
    requires WorkEnabled(s, a) && Finished(s, t)
    ensures Finished(Apply(s, Work(a)), t) && WorkDb(s, a).tasks[t] == s.db.tasks[t]
  {
  }

  lemma FinishedStep(s: State, a: Step, t: TaskId)
    requires Enabled(s, a) && Finished(s, t) && Apply(s, a).servers.stale[t] == s.servers.stale[t]
    ensures Finished(Apply(s, a), t)
    ensures Apply(s, a).db.tasks[t] == s.db.tasks[t] || Apply(s, a).db.tasks[t].Cancelled?
  {
    match a
    case Api(b) => FinishedApi(s, b, t);
    case Pub(b) =>
    case Msg(b) =>
    case Work(b) => FinishedWork(s, b, t);
  }

  lemma StaleGrows(s: State, a: Step, t: TaskId)
    requires Enabled(s, a)
    ensures s.servers.stale[t] <= Apply(s, a).servers.stale[t]
  {
  }

  lemma {:induction false} StaleGrowsInRun(s: State, steps: seq<Step>, t: TaskId)
    requires Run(s, steps)
    ensures s.servers.stale[t] <= After(s, steps).servers.stale[t]
    decreases |steps|
  {
    if steps != [] {
      StaleGrows(s, steps[0], t);
      StaleGrowsInRun(Apply(s, steps[0]), steps[1..], t);
    }
  }

  /** A terminal task that no worker works on can only become cancelled, as long as recovery does not overwrite it. */
  lemma {:induction false} TerminalIsFinal(s: State, steps: seq<Step>, t: TaskId)
    requires Run(s, steps) && Finished(s, t) && After(s, steps).servers.stale[t] == s.servers.stale[t]
    ensures Finished(After(s, steps), t)
    ensures var st := After(s, steps).db.tasks[t]; st == s.db.tasks[t] || st.Cancelled?
    decreases |steps|
  {
    if steps != [] {
      StaleGrows(s, steps[0], t);
      StaleGrowsInRun(Apply(s, steps[0]), steps[1..], t);
      FinishedStep(s, steps[0], t);
      TerminalIsFinal(Apply(s, steps[0]), steps[1..], t);
    }
  }

  // ----- messages -----

  predicate Over(place: Place) {
    place.Dropped? || place.Acked? || place.Discarded?
  }

  lemma OverStep(s: State, a: Step, c: nat)
    requires DeliveriesInv(s.net) && Enabled(s, a) && c in s.net.copies && Over(s.net.copies[c].place)
    ensures c in Apply(s, a).net.copies && Apply(s, a).net.copies[c] == s.net.copies[c]
  {
    match a
    case Api(b) =>
    case Pub(b) =>
    case Msg(b) =>
    case Work(b) => OverWork(s, b, c);
  }

  lemma OverWork(s: State, a: WorkStep, c: nat)
    requires DeliveriesInv(s.net) && WorkEnabled(s, a) && c in s.net.copies && Over(s.net.copies[c].place)
    ensures c in WorkNet(s, a).copies && WorkNet(s, a).copies[c] == s.net.copies[c]
  {
    assert s.net.deliveries[a.d].live ==> s.net.deliveries[a.d].copy != c;
  }

  lemma DeliveriesStep(s: State, a: Step)
    requires DeliveriesInv(s.net) && Enabled(s, a)
    ensures DeliveriesInv(Apply(s, a).net)
  {
    match a
    case Api(b) =>
    case Pub(b) =>
    case Msg(b) => DeliveriesMsg(s, b);
    case Work(b) => DeliveriesWork(s, b);
  }

  /** A copy is settled once: acked, discarded and dropped are for ever. */
  lemma {:induction false} SettledOnce(s: State, steps: seq<Step>, c: nat)
    requires DeliveriesInv(s.net) && Run(s, steps) && c in s.net.copies && Over(s.net.copies[c].place)
    ensures c in After(s, steps).net.copies && After(s, steps).net.copies[c] == s.net.copies[c]
    decreases |steps|
  {
    if steps != [] {
      OverStep(s, steps[0], c);
      DeliveriesStep(s, steps[0]);
      SettledOnce(Apply(s, steps[0]), steps[1..], c);
    }
  }

  function AllAccepted(n: Net): set<nat> {
    set c | c in n.copies && Accepted(n.copies[c].place)
  }

  function Queue(n: Net): set<nat> {
    set c | c in n.copies && n.copies[c].place.InQueue?
  }

  function Settled(n: Net): set<nat> {
    set c | c in n.copies && (n.copies[c].place.Acked? || n.copies[c].place.Discarded?)
  }

  function Outstanding(n: Net): set<nat> {
    set c | c in n.copies && n.copies[c].place.Unacked?
  }

  function LiveDeliveries(n: Net): set<nat> {
    set d | d in n.deliveries && n.deliveries[d].live
  }

  lemma {:induction false} OneToOne(a: set<nat>, b: set<nat>, f: map<nat, nat>, g: map<nat, nat>)
    requires forall x :: x in a ==> x in f && f[x] in b && f[x] in g && g[f[x]] == x
    requires forall y :: y in b ==> y in g && g[y] in a && g[y] in f && f[g[y]] == y
    ensures |a| == |b|
    decreases |a|
  {
    if a == {} {
      assert forall y :: y in b ==> g[y] in a;
    } else {
      var x :| x in a;
      OneToOne(a - {x}, b - {f[x]}, f, g);
    }
  }

  lemma OutstandingSize(n: Net)
    requires DeliveriesInv(n)
    ensures |Outstanding(n)| == |LiveDeliveries(n)|
  {
    OneToOne(Outstanding(n), LiveDeliveries(n),
             map c | c in Outstanding(n) :: n.copies[c].place.delivery,
             map d | d in LiveDeliveries(n) :: n.deliveries[d].copy);
  }

  /** Every copy the broker accepted is queued, at exactly one live delivery, or settled. */
  lemma MessagesAreConserved(maxRetries: int, steps: seq<Step>)
    requires Run(Init(maxRetries), steps)
    ensures var n := After(Init(maxRetries), steps).net;
      |AllAccepted(n)| == |Queue(n)| + |LiveDeliveries(n)| + |Settled(n)|
  {
    Reachable(maxRetries, steps);
    Conserved(After(Init(maxRetries), steps).net);
  }

  lemma Conserved(n: Net)
    requires DeliveriesInv(n)
    ensures |AllAccepted(n)| == |Queue(n)| + |LiveDeliveries(n)| + |Settled(n)|
  {
    OutstandingSize(n);
    Partition(n);
  }

  lemma Partition(n: Net)
    ensures |AllAccepted(n)| == |Queue(n)| + |Outstanding(n)| + |Settled(n)|
  {
    var rest := Outstanding(n) + Settled(n);
    assert AllAccepted(n) == Queue(n) + rest;
    DisjointSize(Queue(n), rest);
    DisjointSize(Outstanding(n), Settled(n));
  }

  lemma DisjointSize(a: set<nat>, b: set<nat>)
    requires a !! b
    ensures |a + b| == |a| + |b|
  {
  }

  /** Between clean-ups, the handler runs for a message at most once more than its duplicate check failed. */
  lemma HandlerRunsAreBounded(maxRetries: int, steps: seq<Step>, e: EventId)
    requires Run(Init(maxRetries), steps)
    ensures var n := After(Init(maxRetries), steps).net; Count(n.runs, e) <= 1 + Count(n.markErrors, e)
  {
    Reachable(maxRetries, steps);
  }
}
