/** Submitting and cancelling a task, handling a message and processing its task as code over the shared tables; and
    each of them, undisturbed, as a run of the pipeline. What the environment answers is a parameter. */
module UseCases {
  import opened Domain
  import opened Persistence
  import opened Pipeline
  import opened Sequential
  import Guarantees
  import OutboxService
  import Safety

  // ----- API server -----

  datatype Answer = Submitted | InvalidArgument | AlreadyExists | Internal

  /** How the outside answers a submission: whether the read for an existing task works, whether the database takes the
      transaction, and whether the broker acks the event at once. */
  datatype Intake = Intake(readable: bool, stored: bool, acked: bool)

  /** The answer to a submission, and the tables after it. A failed read counts as no task; the outcome of the immediate
      publish does not reach the caller. */
  function Submit(db: Db, t: TaskId, bucket: string, key: string, e: EventId, maxRetries: int, at: int, i: Intake): (Db,
                  Answer) {
    if bucket == "" || key == "" then (db, InvalidArgument)
    else if t in db.tasks && i.readable then (db, AlreadyExists)
    else
      var (created, ok) := CreateTaskWithEvent(db, t, e, maxRetries, at);
      if !i.stored || !ok then (db, Internal)
      else (created.(events := OutboxService.PublishOne(created.events, e, i.acked)), Submitted)
  }

  class VideoUseCase {
    const db: Database
    const maxRetries: int

    constructor (db: Database, maxRetries: int)
      ensures this.db == db && this.maxRetries == maxRetries
    {
      this.db, this.maxRetries := db, maxRetries;
    }

    /** A task is submitted exactly when both arguments are given, task and event ids are new and the transaction is
        stored, whether or not the read worked and the broker acked; then exactly those two rows are new. */
    method SubmitTranscodeTask(t: TaskId, bucket: string, key: string, e: EventId, at: int, i: Intake)
      returns (r: Answer)
      modifies db
      ensures (db.Snapshot(), r) == Submit(old(db.Snapshot()), t, bucket, key, e, maxRetries, at, i)
      ensures r.InvalidArgument? <==> bucket == "" || key == ""
      ensures r.AlreadyExists? <==> bucket != "" && key != "" && t in old(db.tasks) && i.readable
      ensures r.Submitted? <==> bucket != "" && key != "" && t !in old(db.tasks) && e !in old(db.events) && i.stored
      ensures !r.Submitted? ==> db.Snapshot() == old(db.Snapshot())
      ensures r.Submitted? ==> db.log == old(db.log) && db.processed == old(db.processed)
      ensures r.Submitted? ==> db.tasks == old(db.tasks)[t := Pending]
      ensures r.Submitted? ==> e in db.events && db.events[e].task == t
      ensures r.Submitted? ==> db.events == old(db.events)[e := db.events[e]]
      ensures r.Submitted? ==> db.events[e].status == if i.acked then EventPublished else EventPending
      ensures r.Submitted? ==> db.events[e].createdAt == at && db.events[e].retries == 0
      ensures r.Submitted? ==> db.events[e].maxRetries == if maxRetries == 0 then 10 else maxRetries
    {
      if bucket == "" {
        return InvalidArgument;
      }
      if key == "" {
        return InvalidArgument;
      }
      if i.readable && t in db.tasks {
        return AlreadyExists;
      }
      if !i.stored {
        return Internal;
      }
      var created := db.InsertTaskAndEvent(t, e, maxRetries, at);
      if !created {
        return Internal;
      }
      var published := PublishSingleEvent(e, i.acked);
      r := Submitted;
    }

    /** The publishing transaction, which the submission runs at once. */
    method PublishSingleEvent(e: EventId, acked: bool) returns (ok: bool)
      modifies db`events
      ensures db.events == OutboxService.PublishOne(old(db.events), e, acked)
    {
      if e !in db.events || !db.events[e].status.EventPending? {
        return true;
      }
      ok := acked;
      if acked {
        db.events := db.events[e := db.events[e].(status := EventPublished)];
      }
    }

    method CancelTask(t: TaskId) returns (ok: bool)
      modifies db
      ensures (db.Snapshot(), ok) == UpdateStatus(old(db.Snapshot()), t, Cancelled)
      ensures ok <==> t in old(db.tasks)
      ensures ok ==> db.tasks == old(db.tasks)[t := Cancelled]
      ensures ok ==> db.log == old(db.log) + [LogEntry(t, old(db.tasks)[t], Cancelled)]
      ensures !ok ==> db.tasks == old(db.tasks) && db.log == old(db.log)
      ensures db.events == old(db.events) && db.processed == old(db.processed)
    {
      ok := db.SetStatus(t, Cancelled);
    }
  }

  // ----- worker -----

  /** How the outside answers while one task is processed. */
  datatype Outside = Outside(transition: WriteResult, dirMade: bool, downloaded: bool, probed: bool, info: WriteResult,
                             transcoded: bool, uploaded: bool, success: WriteResult, failure: WriteResult)

  /** Every step between start and last save works. */
  predicate AllWorks(w: Outside) {
    w.dirMade && w.downloaded && w.probed && w.transcoded && w.uploaded
  }

  /** The task may be started, and its start is committed. */
  predicate Begins(tasks: map<TaskId, TaskStatus>, t: TaskId, w: Outside) {
    t in tasks && (tasks[t].Pending? || tasks[t].Queued?) && !w.transition.RolledBack?
  }

  /** The tables after processing a task, and whether the handler reports success. */
  function Processed(db: Db, t: TaskId, w: Outside): (Db, bool) {
    var (started, ok) := TryTransition(db, t);
    if !ok || w.transition.RolledBack? then (db, true)
    else if w.transition.Unreported? then (started, true)
    else if !(w.dirMade && w.downloaded && w.probed) then (SaveUnless(started, t, Failed, w.failure), false)
    else
      var saved := SaveUnless(started, t, Processing, w.info);
      if !(w.transcoded && w.uploaded) then (SaveUnless(saved, t, Failed, w.failure), false)
      else (SaveUnless(saved, t, Success, w.success), w.success.Done?)
  }

  class WorkerUseCase {
    const db: Database
    var activeTasks: int

    constructor (db: Database)
      ensures this.db == db && activeTasks == 0
    {
      this.db, activeTasks := db, 0;
    }

    method Update(t: TaskId, st: TaskStatus, w: WriteResult) returns (ok: bool)
      modifies db
      ensures db.Snapshot() == SaveUnless(old(db.Snapshot()), t, st, w) && ok == w.Done?
    {
      if !w.RolledBack? {
        db.Save(t, st);
      }
      ok := w.Done?;
    }

    method HandleTaskError(t: TaskId, w: WriteResult) returns (ok: bool)
      modifies db
      ensures db.Snapshot() == SaveUnless(old(db.Snapshot()), t, Failed, w) && !ok
    {
      var saved := Update(t, Failed, w);
      ok := false;
    }

    method ProcessTask(t: TaskId, w: Outside) returns (ok: bool)
      modifies this`activeTasks, db
      ensures (db.Snapshot(), ok) == Processed(old(db.Snapshot()), t, w)
      ensures activeTasks == old(activeTasks)
      ensures db.events == old(db.events) && db.processed == old(db.processed)
      ensures !Begins(old(db.tasks), t, w) ==> ok && db.tasks == old(db.tasks) && db.log == old(db.log)
      ensures Begins(old(db.tasks), t, w) ==> db.log == old(db.log) + [LogEntry(t, old(db.tasks)[t], Processing)]
      ensures Begins(old(db.tasks), t, w) ==> t in db.tasks && db.tasks == old(db.tasks)[t := db.tasks[t]]
      ensures Begins(old(db.tasks), t, w) && w.transition.Unreported? ==> ok && db.tasks[t] == Processing
      ensures Begins(old(db.tasks), t, w) && w.transition.Done? ==> (ok <==> AllWorks(w) && w.success.Done?)
      ensures Begins(old(db.tasks), t, w) && w.transition.Done? && AllWorks(w) ==>
        db.tasks[t] == if w.success.RolledBack? then Processing else Success
      ensures Begins(old(db.tasks), t, w) && w.transition.Done? && !AllWorks(w) ==>
        db.tasks[t] == if w.failure.RolledBack? then Processing else Failed
    {
      if w.transition.RolledBack? {
        return true;
      }
      var started := db.TryTransitionToProcessing(t);
      if !started || w.transition.Unreported? {
        return true;
      }
      activeTasks := activeTasks + 1;
      if !w.dirMade {
        ok := HandleTaskError(t, w.failure);
      } else if !w.downloaded {
        ok := HandleTaskError(t, w.failure);
      } else if !w.probed {
        ok := HandleTaskError(t, w.failure);
      } else {
        var saved := Update(t, Processing, w.info);
        if !w.transcoded {
          ok := HandleTaskError(t, w.failure);
        } else if !w.uploaded {
          ok := HandleTaskError(t, w.failure);
        } else {
          ok := Update(t, Success, w.success);
        }
      }
      activeTasks := activeTasks - 1;
    }
  }

  // ----- message handler -----

  datatype Settlement = AckMessage | RejectMessage
  datatype MarkFailure = NoFailure | Failure(inserted: bool)

  /** An error of the duplicate check does not stop the handler. */
  function Handled(db: Db, e: EventId, t: TaskId, mark: MarkFailure, w: Outside): (Db, Settlement) {
    var (marked, isNew) := TryMark(db, e);
    if mark.NoFailure? && !isNew then (db, AckMessage)
    else
      var (db', ok) := Processed(if mark == Failure(false) then db else marked, t, w);
      (db', if ok then AckMessage else RejectMessage)
  }

  /** A working duplicate check finds the message marked; an error of the check never stops the handler. */
  predicate Known(processed: set<EventId>, e: EventId, mark: MarkFailure) {
    mark.NoFailure? && e in processed
  }

  /** A message that cannot be decoded is rejected before anything else happens. */
  method HandleMessage(worker: WorkerUseCase, decodes: bool, e: EventId, t: TaskId, mark: MarkFailure, w: Outside)
    returns (r: Settlement)
    modifies worker`activeTasks, worker.db
    ensures worker.activeTasks == old(worker.activeTasks)
    ensures (worker.db.Snapshot(), r)
            == if decodes then Handled(old(worker.db.Snapshot()), e, t, mark, w)
              else (old(worker.db.Snapshot()), RejectMessage)
    ensures !decodes ==> r.RejectMessage? && worker.db.Snapshot() == old(worker.db.Snapshot())
    ensures decodes && Known(old(worker.db.processed), e, mark) ==>
      r.AckMessage? && worker.db.Snapshot() == old(worker.db.Snapshot())
    ensures decodes && !Known(old(worker.db.processed), e, mark) ==>
      worker.db.processed == old(worker.db.processed) + if mark == Failure(false) then {} else {e}
    ensures decodes && !Known(old(worker.db.processed), e, mark) && !Begins(old(worker.db.tasks), t, w) ==>
      r.AckMessage? && worker.db.tasks == old(worker.db.tasks)
    ensures decodes && !Known(old(worker.db.processed), e, mark) && Begins(old(worker.db.tasks), t, w) ==>
      && t in worker.db.tasks && worker.db.tasks == old(worker.db.tasks)[t := worker.db.tasks[t]]
      && worker.db.log == old(worker.db.log) + [LogEntry(t, old(worker.db.tasks)[t], Processing)]
      && (w.transition.Unreported? ==> r.AckMessage? && worker.db.tasks[t] == Processing)
      && (w.transition.Done? ==> (r.AckMessage? <==> AllWorks(w) && w.success.Done?))
      && (w.transition.Done? && AllWorks(w) ==>
            worker.db.tasks[t] == if w.success.RolledBack? then Processing else Success)
      && (w.transition.Done? && !AllWorks(w) ==>
            worker.db.tasks[t] == if w.failure.RolledBack? then Processing else Failed)
  {
    if !decodes {
      return RejectMessage;
    }
    if mark != Failure(false) {
      var processed := worker.db.TryMarkAsProcessed(e);
      if mark.NoFailure? && !processed {
        return AckMessage;
      }
    }
    var ok := worker.ProcessTask(t, w);
    r := if ok then AckMessage else RejectMessage;
  }

  /** Once a message has been handled and its task's start was not rolled back, handling the same message again, with
      or without a working duplicate check, changes no task and starts nothing. */
  lemma RedeliveryIsHarmless(db: Db, e: EventId, t: TaskId, mark: MarkFailure, w: Outside, mark': MarkFailure,
                             w': Outside)
    requires mark.Failure? || TryMark(db, e).1
    requires !w.transition.RolledBack? || !TryTransition(db, t).1
    ensures var once := Handled(db, e, t, mark, w).0; var twice := Handled(once, e, t, mark', w').0;
      twice.tasks == once.tasks && twice.log == once.log && twice.events == db.events
  {
    var base := if mark == Failure(false) then db else TryMark(db, e).0;
    NotStartedTwice(base, t, w);
    NothingStarted(Handled(db, e, t, mark, w).0, e, t, mark', w');
  }

  lemma NotStartedTwice(db: Db, t: TaskId, w: Outside)
    requires !w.transition.RolledBack? || !TryTransition(db, t).1
    ensures !TryTransition(Processed(db, t, w).0, t).1 && Processed(db, t, w).0.events == db.events
  {
  }

  lemma NothingStarted(db: Db, e: EventId, t: TaskId, mark: MarkFailure, w: Outside)
    requires !TryTransition(db, t).1
    ensures var after := Handled(db, e, t, mark, w).0;
      after.tasks == db.tasks && after.log == db.log && after.events == db.events
  {
  }

  // ----- as runs of the pipeline -----

  /** A submission with its immediate publish is a run of the pipeline: checked, stored or refused, and when stored
      published as the broker answers. */
  lemma SubmitIsRun(s: State, u: nat, p: nat, c: nat, t: TaskId, bucket: string, key: string, e: EventId, at: int,
                    i: Intake)
    returns (s': State)
    requires u !in s.servers.submits && p !in s.outbox.publishers && c !in s.net.copies
    requires Safety.LockOwners(s.db, s.outbox)
    ensures Leads(s, s') && s'.db == Submit(s.db, t, bucket, key, e, s.maxRetries, at, i).0
    ensures if Submit(s.db, t, bucket, key, e, s.maxRetries, at, i).1.Submitted?
            then s'.servers == s.servers.(submitted := s.servers.submitted + multiset{t}) &&
              s'.net.deliveries == s.net.deliveries &&
                 s'.outbox.publishers == s.outbox.publishers && s'.outbox.locks == s.outbox.locks &&
                 s'.net.copies == s.net.copies[c := Copy(e, t, if i.acked then InQueue else OnWire)]
            else s'.servers == s.servers && s'.outbox == s.outbox && s'.net == s.net
  {
    if bucket == "" || key == "" || (t in s.db.tasks && i.readable) {
      s' := s;
      Stay(s);
    } else {
      var a1 := Api(SubmitCheck(u, t, i.readable));
      var s1 := Apply(s, a1);
      var a2 := if i.stored then Api(SubmitCommit(u, e, at)) else Api(SubmitAbort(u));
      var s2 := Apply(s1, a2);
      assert s.servers.submits[u := t] - {u} == s.servers.submits;
      if i.stored && t !in s.db.tasks && e !in s.db.events {
        s' := PublishIsRun(s2, p, c, e, i.acked);
      } else {
        s' := s2;
        Stay(s');
      }
      Then(s1, a2, s');
      Then(s, a1, s');
    }
  }

  // ----- the order of submissions -----

  /** A run from the empty database to `s`, in which submission `u` is stored with the event `e`. */
  ghost predicate StoredBy(maxRetries: int, before: seq<Step>, u: nat, e: EventId, at: int, later: seq<Step>,
                           s: State) {
    Run(Init(maxRetries), before) &&
    var s0 := After(Init(maxRetries), before); var a := Api(SubmitCommit(u, e, at));
    Enabled(s0, a) && s0.servers.submits[u] !in s0.db.tasks && e !in s0.db.events &&
    Run(Apply(s0, a), later) && After(Apply(s0, a), later) == s
  }

  /** In every run the row that a submission stored keeps task, time and retry limit. */
  lemma StoredRow(maxRetries: int, before: seq<Step>, u: nat, e: EventId, at: int, later: seq<Step>, s: State)
    requires StoredBy(maxRetries, before, u, e, at, later, s)
    ensures e in s.db.events && s.db.events[e].task == After(Init(maxRetries), before).servers.submits[u]
    ensures s.db.events[e].createdAt == at && s.db.events[e].retries == 0
    ensures s.db.events[e].maxRetries == if maxRetries == 0 then 10 else maxRetries
  {
    var s0 := After(Init(maxRetries), before);
    Guarantees.Reachable(maxRetries, before);
    RunKeepsRetries(Init(maxRetries), before);
    Safety.KeepsInv(s0, Api(SubmitCommit(u, e, at)));
    Guarantees.RowMovesOnce(Apply(s0, Api(SubmitCommit(u, e, at))), later, e);
  }

  lemma {:induction false} RunKeepsRetries(s: State, steps: seq<Step>)
    requires Run(s, steps)
    ensures After(s, steps).maxRetries == s.maxRetries
    decreases |steps|
  {
    if steps != [] {
      RunKeepsRetries(Apply(s, steps[0]), steps[1..]);
    }
  }

  /** `f` is not taken without `e` before it. */
  ghost predicate NeverBehind(batch: seq<EventId>, e: EventId, f: EventId) {
    f in batch ==> exists i, j :: 0 <= i < j < |batch| && batch[i] == e && batch[j] == f
  }

  /** In every run, of two submissions whose events are still in the backlog the scan takes the earlier one first. */
  lemma SubmissionsKeepOrder(maxRetries: int, before: seq<Step>, u: nat, e: EventId, at: int, later: seq<Step>,
                             before': seq<Step>, v: nat, f: EventId, at': int, later': seq<Step>, s: State,
                             limit: int, batch: seq<EventId>)
    requires StoredBy(maxRetries, before, u, e, at, later, s) && StoredBy(maxRetries, before', v, f, at', later', s)
    requires at < at' && maxRetries >= 0 && OutboxService.IsPending(s.db.events, e)
    requires OutboxService.OldestFirst(s.db.events, limit, batch)
    ensures NeverBehind(batch, e, f)
  {
    StoredRow(maxRetries, before, u, e, at, later, s);
    StoredRow(maxRetries, before', v, f, at', later', s);
    if f in batch {
      var j :| 0 <= j < |batch| && batch[j] == f;
      assert Eligible(s.db.events[e]);
      assert e in batch;
      var i :| 0 <= i < |batch| && batch[i] == e;
      assert i < j;
    }
  }

  /** The state in which delivery `d` is at `pc` and the tables are `db`; only counters differ otherwise. */
  ghost predicate At(s0: State, s: State, d: nat, pc: DeliveryPc, db: Db) {
    && d in s0.net.deliveries
    && s.db == db && s.outbox == s0.outbox && s.servers == s0.servers && s.net.copies == s0.net.copies
    && s.net.deliveries == s0.net.deliveries[d := s0.net.deliveries[d].(pc := pc)]
  }

  function Settled(r: Settlement): DeliveryPc {
    if r.AckMessage? then ToAck else ToNack
  }

  lemma SavingIsRun(s0: State, s: State, d: nat, t: TaskId, db: Db, w: Outside) returns (s': State)
    requires At(s0, s, d, Started, db) && s0.net.deliveries[d].task == t
    ensures Leads(s, s')
    ensures if !(w.dirMade && w.downloaded && w.probed) then At(s0, s', d, ToNack, SaveUnless(db, t, Failed, w.failure))
            else
              var saved := SaveUnless(db, t, Processing, w.info);
              if !(w.transcoded && w.uploaded) then At(s0, s', d, ToNack, SaveUnless(saved, t, Failed, w.failure))
              else At(s0, s', d, if w.success.Done? then ToAck else ToNack, SaveUnless(saved, t, Success, w.success))
  {
    if !(w.dirMade && w.downloaded && w.probed) {
      var a := Work(SaveFailure(d, w.failure));
      s' := Apply(s, a);
      Stay(s');
      Then(s, a, s');
    } else {
      var a1 := Work(SaveInfo(d, w.info));
      var s1 := Apply(s, a1);
      var a2 := Work(if w.transcoded && w.uploaded then SaveSuccess(d, w.success) else SaveFailure(d, w.failure));
      s' := Apply(s1, a2);
      Stay(s');
      Then(s1, a2, s');
      Then(s, a1, s');
    }
  }

  lemma ProcessingIsRun(s0: State, s: State, d: nat, t: TaskId, db: Db, w: Outside) returns (s': State)
    requires At(s0, s, d, Handling, db) && s0.net.deliveries[d].task == t
    ensures Leads(s, s')
    ensures At(s0, s', d, if Processed(db, t, w).1 then ToAck else ToNack, Processed(db, t, w).0)
  {
    if !TryTransition(db, t).1 {
      var a := Work(TransitionRefused(d));
      s' := Apply(s, a);
      Stay(s');
      Then(s, a, s');
    } else {
      var a := Work(Transition(d, w.transition));
      var s1 := Apply(s, a);
      if w.transition.Done? {
        s' := SavingIsRun(s0, s1, d, t, TryTransition(db, t).0, w);
      } else {
        s' := s1;
        Stay(s');
      }
      Then(s, a, s');
    }
  }

  /** Where the copy of a settled delivery ends up. */
  function EndPlace(r: Settlement): Place {
    if r.AckMessage? then Acked else Discarded
  }

  lemma SettleIsRun(s0: State, s: State, d: nat, db: Db, r: Settlement) returns (s': State)
    requires At(s0, s, d, Settled(r), db) && s0.net.deliveries[d].live
    ensures Leads(s, s') && s'.db == db && s'.outbox == s0.outbox && s'.servers == s0.servers
    ensures s'.net.copies == Move(s0.net, s0.net.deliveries[d].copy, EndPlace(r)).copies
    ensures s'.net.deliveries == s0.net.deliveries - {d}
  {
    var a := Work(Settle(d));
    s' := Apply(s, a);
    assert s0.net.deliveries[d := s.net.deliveries[d]] - {d} == s0.net.deliveries - {d};
    Stay(s');
    Then(s, a, s');
  }

  /** Handling a delivered message, undisturbed, is a run of the pipeline: the tables end as the code leaves them, and
      the copy is acked or discarded as the code settles it. */
  lemma HandlingIsRun(s: State, d: nat, mark: MarkFailure, w: Outside) returns (s': State)
    requires d in s.net.deliveries && s.net.deliveries[d].pc.Received? && s.net.deliveries[d].live
    ensures var m := s.net.deliveries[d];
      var (db, r) := Handled(s.db, m.event, m.task, mark, w);
      && Leads(s, s') && s'.db == db && s'.outbox == s.outbox && s'.servers == s.servers
      && s'.net.copies == Move(s.net, m.copy, EndPlace(r)).copies
      && s'.net.deliveries == s.net.deliveries - {d}
  {
    var m := s.net.deliveries[d];
    var (db, r) := Handled(s.db, m.event, m.task, mark, w);
    var answer := match mark
      case Failure(inserted) => Errored(inserted)
      case NoFailure => if TryMark(s.db, m.event).1 then Fresh else Duplicate;
    var a := Work(Mark(d, answer));
    var s1 := Apply(s, a);
    if answer.Duplicate? {
      s' := SettleIsRun(s, s1, d, db, r);
    } else {
      var s2 := ProcessingIsRun(s, s1, d, m.task, s1.db, w);
      s' := SettleIsRun(s, s2, d, db, r);
      Follow(s1, s2, s');
    }
    Then(s, a, s');
  }
}
