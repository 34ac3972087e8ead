/** The tables shared by API servers and workers, and what one committed transaction does to them.
    The functions are the specification; class `Database` is the repository code proved against it. */
module Persistence {
  import opened Domain

  datatype Db = Db(
    tasks: map<TaskId, TaskStatus>,
    log: seq<LogEntry>,
    events: map<EventId, EventRow>,
    processed: set<EventId>)

  /** A zero `MaxRetries` is stored as the column default. */
  function StoredMaxRetries(configured: int): int {
    if configured == 0 then 10 else configured
  }

  function NewEvent(t: TaskId, configured: int, at: int): EventRow {
    EventRow(t, EventPending, 0, StoredMaxRetries(configured), at)
  }

  predicate HasEvent(db: Db, t: TaskId) {
    exists e :: e in db.events && db.events[e].task == t
  }

  /** Task row and event row are inserted together or, on a duplicate key, not at all. */
  function CreateTaskWithEvent(db: Db, t: TaskId, e: EventId, configured: int, at: int): (Db, bool) {
    if t in db.tasks || e in db.events then (db, false)
    else (db.(tasks := db.tasks[t := Pending], events := db.events[e := NewEvent(t, configured, at)]), true)
  }

  function TryTransition(db: Db, t: TaskId): (Db, bool) {
    if t in db.tasks && Startable(db.tasks[t]) then
      (db.(tasks := db.tasks[t := Processing], log := db.log + [LogEntry(t, db.tasks[t], Processing)]), true)
    else
      (db, false)
  }

  function UpdateStatus(db: Db, t: TaskId, st: TaskStatus): (Db, bool) {
    if t in db.tasks then
      (db.(tasks := db.tasks[t := st], log := db.log + [LogEntry(t, db.tasks[t], st)]), true)
    else
      (db, false)
  }

  /** Saving the full row overwrites the status with whatever the caller holds, without a log entry. */
  function SaveTask(db: Db, t: TaskId, st: TaskStatus): Db {
    db.(tasks := db.tasks[t := st])
  }

  function TryMark(db: Db, e: EventId): (Db, bool) {
    if e in db.processed then (db, false) else (db.(processed := db.processed + {e}), true)
  }

  function Cleanup(db: Db, expired: set<EventId>): Db {
    db.(processed := db.processed - expired)
  }

  /** After a clean-up a message counts as new exactly if it was cleaned up or never marked; marking it once makes it
      known again. */
  lemma CleanedUpIsNew(db: Db, expired: set<EventId>, e: EventId)
    ensures TryMark(Cleanup(db, expired), e).1 <==> e in expired || TryMark(db, e).1
    ensures !TryMark(TryMark(Cleanup(db, expired), e).0, e).1
  {
  }

  /** The number of log entries that take `t` to processing. */
  function Starts(log: seq<LogEntry>, t: TaskId): nat {
    if log == [] then 0
    else Starts(log[..|log| - 1], t) + (if log[|log| - 1].task == t && log[|log| - 1].to.Processing? then 1 else 0)
  }

  lemma StartsAppend(log: seq<LogEntry>, entry: LogEntry, t: TaskId)
    ensures Starts(log + [entry], t) == Starts(log, t) + (if entry.task == t && entry.to.Processing? then 1 else 0)
  {
    assert (log + [entry])[..|log|] == log;
  }

  class Database {
    var tasks: map<TaskId, TaskStatus>
    var log: seq<LogEntry>
    var events: map<EventId, EventRow>
    var processed: set<EventId>

    ghost function Snapshot(): Db
      reads this
    {
      Db(tasks, log, events, processed)
    }

    constructor ()
      ensures Snapshot() == Db(map[], [], map[], {})
    {
      tasks, log, events, processed := map[], [], map[], {};
    }

    method InsertTaskAndEvent(t: TaskId, e: EventId, configured: int, at: int) returns (ok: bool)
      modifies this
      ensures (Snapshot(), ok) == CreateTaskWithEvent(old(Snapshot()), t, e, configured, at)
      ensures ok <==> t !in old(tasks) && e !in old(events)
      ensures !ok ==> Snapshot() == old(Snapshot())
      ensures ok ==> tasks == old(tasks)[t := Pending] && log == old(log) && processed == old(processed)
      ensures var limit := if configured == 0 then 10 else configured;
        ok ==> events == old(events)[e := EventRow(t, EventPending, 0, limit, at)]
    {
      // The transaction works on its own copy; only a commit makes it visible.
      if t in tasks {
        return false;
      }
      var newTasks := tasks[t := Pending];
      if e in events {
        return false;
      }
      tasks, events := newTasks, events[e := NewEvent(t, configured, at)];
      ok := true;
    }

    method TryTransitionToProcessing(t: TaskId) returns (ok: bool)
      modifies this`tasks, this`log
      ensures (Snapshot(), ok) == TryTransition(old(Snapshot()), t)
      ensures ok <==> t in old(tasks) && (old(tasks)[t].Pending? || old(tasks)[t].Queued?)
      ensures !ok ==> tasks == old(tasks) && log == old(log)
      ensures ok ==> tasks == old(tasks)[t := Processing] && log == old(log) + [LogEntry(t, old(tasks)[t], Processing)]
    {
      if t !in tasks {
        return false;
      }
      var current := tasks[t];
      if current.Success? || current.Failed? || current.Cancelled? {
        return false;
      }
      if current.Processing? {
        return false;
      }
      tasks := tasks[t := Processing];
      log := log + [LogEntry(t, current, Processing)];
      ok := true;
    }

    method SetStatus(t: TaskId, st: TaskStatus) returns (ok: bool)
      modifies this`tasks, this`log
      ensures (Snapshot(), ok) == UpdateStatus(old(Snapshot()), t, st)
      ensures ok <==> t in old(tasks)
      ensures !ok ==> tasks == old(tasks) && log == old(log)
      ensures ok ==> tasks == old(tasks)[t := st] && log == old(log) + [LogEntry(t, old(tasks)[t], st)]
    {
      if t !in tasks {
        return false;
      }
      var current := tasks[t];
      tasks := tasks[t := st];
      log := log + [LogEntry(t, current, st)];
      ok := true;
    }

    method Save(t: TaskId, st: TaskStatus)
      modifies this`tasks
      ensures Snapshot() == SaveTask(old(Snapshot()), t, st) && tasks == old(tasks)[t := st]
    {
      tasks := tasks[t := st];
    }

    method TryMarkAsProcessed(e: EventId) returns (inserted: bool)
      modifies this`processed
      ensures (Snapshot(), inserted) == TryMark(old(Snapshot()), e)
      ensures (inserted <==> e !in old(processed)) && processed == old(processed) + {e}
    {
      if e in processed {
        return false;
      }
      processed := processed + {e};
      inserted := true;
    }

    method CleanupOldEntries(expired: set<EventId>)
      modifies this`processed
      ensures Snapshot() == Cleanup(old(Snapshot()), expired)
      ensures forall e :: e in processed <==> e in old(processed) && e !in expired
    {
      processed := processed - expired;
    }
  }
}
