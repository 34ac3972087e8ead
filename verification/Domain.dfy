/** The entities of the task pipeline: video tasks, their status log and outbox events.
    Identifiers are natural numbers; only equality of identifiers is ever used. */
module Domain {
  type TaskId = nat
  type EventId = nat

  datatype TaskStatus = Pending | Queued | Processing | Success | Failed | Cancelled

  predicate Terminal(st: TaskStatus) {
    st.Success? || st.Failed? || st.Cancelled?
  }

  /** The statuses from which a worker may start a task. */
  predicate Startable(st: TaskStatus) {
    st.Pending? || st.Queued?
  }

  datatype LogEntry = LogEntry(task: TaskId, from: TaskStatus, to: TaskStatus)

  /** `EventProcessing` is the extra value that publishers write inside their transaction. */
  datatype EventStatus = EventPending | EventProcessing | EventPublished | EventFailed

  datatype EventRow = EventRow(
    task: TaskId,
    status: EventStatus,
    retries: nat,
    maxRetries: int,
    createdAt: int)

  /** The rows that the background scan selects. */
  predicate Eligible(row: EventRow) {
    row.status.EventPending? && row.retries < row.maxRetries
  }

  lemma SubsetSize(a: set<nat>, b: set<nat>)
    requires a <= b
    ensures |a| <= |b|
    ensures a < b ==> |a| < |b|
  {
    assert b == a + (b - a);
  }
}
