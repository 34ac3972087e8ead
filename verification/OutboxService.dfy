/** The outbox service as one server runs it, one transaction after the other: publishing an event, a pass over
    the backlog, and recovery of pending tasks. The broker's answers are parameters. */
module OutboxService {
  import opened Domain
  import opened Persistence

  type Events = map<EventId, EventRow>

  // ----- specification -----

  predicate IsPending(events: Events, e: EventId) {
    e in events && events[e].status.EventPending?
  }

  /** One publishing transaction: committed when the broker acked, otherwise rolled back. */
  function PublishOne(events: Events, e: EventId, acked: bool): Events {
    if IsPending(events, e) && acked then events[e := events[e].(status := EventPublished)] else events
  }

  function EligibleEvents(events: Events): set<EventId> {
    set e | e in events && Eligible(events[e])
  }

  /** A negative limit means no limit. */
  function BatchLength(limit: int, n: nat): nat {
    if limit < 0 || n < limit then n else limit
  }

  /** `batch` holds the oldest eligible events, oldest first, as many as the limit allows. */
  ghost predicate OldestFirst(events: Events, limit: int, batch: seq<EventId>) {
    && (forall i :: 0 <= i < |batch| ==> batch[i] in events && Eligible(events[batch[i]]))
    && |batch| == BatchLength(limit, |EligibleEvents(events)|)
    && (forall i, j :: 0 <= i < j < |batch| ==> batch[i] != batch[j])
    && (forall i, j :: 0 <= i < j < |batch| ==> events[batch[i]].createdAt <= events[batch[j]].createdAt)
    && (forall i, e :: 0 <= i < |batch| && e in events && Eligible(events[e]) && e !in batch ==>
          events[batch[i]].createdAt <= events[e].createdAt)
  }

  /** How the broker answers an event: an ack or not, and how long the publishing transaction takes until then. An
      answer after the confirm timeout is a refusal that takes as long as the timeout. */
  datatype Answer = Answer(ack: bool, delay: nat)

  type Answers = EventId -> Answer

  /** What is left of a context after waiting for the answer; 0 when its deadline came first. */
  function Left(left: nat, a: Answer): nat {
    if a.delay < left then left - a.delay else 0
  }

  /** The time that a sequence of events takes. */
  function Spent(batch: seq<EventId>, answers: Answers): nat {
    if batch == [] then 0 else Spent(batch[..|batch| - 1], answers) + answers(batch[|batch| - 1]).delay
  }

  /** How many events of a batch are tried before the deadline of the pass. */
  function Tried(batch: seq<EventId>, answers: Answers, budget: nat): (n: nat)
    ensures n <= |batch|
  {
    if batch == [] then 0
    else if Spent(batch[..|batch| - 1], answers) < budget then |batch|
    else Tried(batch[..|batch| - 1], answers, budget)
  }

  /** The event at `i` is acked before the deadline. */
  predicate InTime(batch: seq<EventId>, i: nat, answers: Answers, budget: nat)
    requires i < |batch|
  {
    answers(batch[i]).ack && Spent(batch[..i + 1], answers) < budget
  }

  function Done(batch: seq<EventId>, answers: Answers, budget: nat): set<EventId> {
    set i | 0 <= i < |batch| && InTime(batch, i, answers, budget) :: batch[i]
  }

  /** Exactly the events in `done` become published; nothing else changes. */
  ghost predicate PassResult(events: Events, events': Events, done: set<EventId>) {
    && events'.Keys == events.Keys
    && (forall e :: e in events ==>
          events'[e] == if e in done then events[e].(status := EventPublished) else events[e])
  }

  /** One pass of the background scan over the committed events, under one deadline. */
  ghost predicate Pass(events: Events, events': Events, limit: int, budget: nat, answers: Answers) {
    exists batch :: OldestFirst(events, limit, batch) && PassResult(events, events', Done(batch, answers, budget))
  }

  // ----- the service -----

  class Service {
    var events: Events
    var tasks: map<TaskId, TaskStatus>
    /** Every event handed to the broker, in order. */
    var sent: seq<EventId>
    const batchSize: int
    const maxRetries: int

    constructor (batchSize: int, maxRetries: int)
      ensures events == map[] && tasks == map[] && sent == []
      ensures this.batchSize == batchSize && this.maxRetries == maxRetries
    {
      this.batchSize, this.maxRetries := batchSize, maxRetries;
      events, tasks, sent := map[], map[], [];
    }

    /** `left` is what is left of the caller's context; without any the transaction does not even begin. */
    method PublishSingleEvent(e: EventId, answer: Answer, left: nat) returns (ok: bool, left': nat)
      modifies this`events, this`sent
      ensures events == PublishOne(old(events), e, answer.ack && answer.delay < left)
      ensures sent == old(sent) + (if left > 0 && IsPending(old(events), e) then [e] else [])
      ensures left' == if IsPending(old(events), e) then Left(left, answer) else left
      ensures ok <==> left > 0 && (IsPending(old(events), e) ==> answer.ack && answer.delay < left)
    {
      left' := left;
      if left == 0 {
        return false, 0;
      }
      if e !in events {
        return true, left;
      }
      var row := events[e];
      if !row.status.EventPending? {
        return true, left;
      }
      var transaction := events[e := row.(status := EventProcessing)];
      sent := sent + [e];
      left' := Left(left, answer);
      if left' == 0 || !answer.ack {
        transaction := transaction[e := row.(retries := row.retries + 1)];
        if row.retries + 1 >= row.maxRetries {
          transaction := transaction[e := transaction[e].(status := EventFailed)];
        }
        // Returning the error rolls the transaction back.
        return false, left';
      }
      transaction := transaction[e := transaction[e].(status := EventPublished)];
      events := transaction;
      assert events == PublishOne(old(events), e, true);
      ok := true;
    }

    method GetPendingEvents(limit: int) returns (batch: seq<EventId>)
      ensures OldestFirst(events, limit, batch)
      ensures forall e :: e in batch ==>
        e in events && events[e].status.EventPending? && events[e].retries < events[e].maxRetries
      ensures limit < 0 || |batch| < limit ==> forall e ::
        (e in events && events[e].status.EventPending? && events[e].retries < events[e].maxRetries) ==> e in batch
    {
      batch := [];
      var rest := set e | e in events && Eligible(events[e]);
      ghost var all := rest;
      while rest != {} && (limit < 0 || |batch| < limit)
        invariant all == EligibleEvents(events) && rest <= all
        invariant forall e :: e in all ==> (e in batch <==> e !in rest)
        invariant |batch| + |rest| == |all|
        invariant limit >= 0 ==> |batch| <= limit
        invariant forall i :: 0 <= i < |batch| ==> batch[i] in all - rest
        invariant forall i, j :: 0 <= i < j < |batch| ==> batch[i] != batch[j]
        invariant forall i, j :: 0 <= i < j < |batch| ==> events[batch[i]].createdAt <= events[batch[j]].createdAt
        invariant forall i, e :: 0 <= i < |batch| && e in rest ==> events[batch[i]].createdAt <= events[e].createdAt
        decreases |rest|
      {
        var e := Oldest(rest);
        batch := batch + [e];
        rest := rest - {e};
      }
    }

    method Oldest(candidates: set<EventId>) returns (e: EventId)
      requires candidates != {} && candidates <= events.Keys
      ensures e in candidates && forall f :: f in candidates ==> events[e].createdAt <= events[f].createdAt
    {
      e :| e in candidates;
      var rest := candidates - {e};
      while rest != {}
        invariant e in candidates && rest <= candidates
        invariant forall f :: f in candidates - rest ==> events[e].createdAt <= events[f].createdAt
        decreases |rest|
      {
        var f :| f in rest;
        if events[f].createdAt < events[e].createdAt {
          e := f;
        }
        rest := rest - {f};
      }
    }

    /** A refused event does not stop the later ones, but all of them share one deadline: the events before it are
        handed over, and exactly those acked before it become published. */
    method PublishOutboxEvents(answers: Answers, budget: nat) returns (batch: seq<EventId>)
      modifies this`events, this`sent
      ensures OldestFirst(old(events), batchSize, batch)
      ensures PassResult(old(events), events, Done(batch, answers, budget))
      ensures sent == old(sent) + batch[..Tried(batch, answers, budget)]
    {
      batch := GetPendingEvents(batchSize);
      var left := budget;
      for i := 0 to |batch|
        invariant PassResult(old(events), events, Done(batch[..i], answers, budget))
        invariant sent == old(sent) + batch[..Tried(batch[..i], answers, budget)]
        invariant left == TimeLeft(batch[..i], answers, budget)
      {
        PassGoesOn(old(events), events, batchSize, batch, i, answers, budget);
        var ok: bool;
        ok, left := PublishSingleEvent(batch[i], answers(batch[i]), left);
      }
      assert batch[..|batch|] == batch;
    }

    /** Recovery without interference. */
    method RecoverPendingTasks(listed: seq<TaskId>, uuids: seq<EventId>, at: int)
      requires |uuids| == |listed|
      modifies this`events, this`tasks
      ensures Work(events, tasks) == RecoverAll(Work(old(events), old(tasks)), listed, uuids, maxRetries, at)
    {
      for i := 0 to |listed|
        invariant Work(events, tasks)
                  == RecoverAll(Work(old(events), old(tasks)), listed[..i], uuids[..i], maxRetries, at)
      {
        var t := listed[i];
        assert listed[..i + 1][..i] == listed[..i] && uuids[..i + 1][..i] == uuids[..i];
        if t in tasks && tasks[t].Pending? {
          if Announced(events, t) {
            tasks := tasks[t := Queued];
          } else if uuids[i] !in events {
            events := events[uuids[i] := NewEvent(t, maxRetries, at)];
            tasks := tasks[t := Queued];
          }
        }
      }
      assert listed[..|listed|] == listed && uuids[..|uuids|] == uuids;
    }
  }

  predicate Announced(events: Events, t: TaskId) {
    exists e :: e in events && events[e].task == t
  }

  /** What is left of the time of a pass after a sequence of events. */
  function TimeLeft(batch: seq<EventId>, answers: Answers, budget: nat): nat {
    if Spent(batch, answers) < budget then budget - Spent(batch, answers) else 0
  }

  lemma PassGoesOn(events: Events, mid: Events, limit: int, batch: seq<EventId>, i: nat, answers: Answers, budget: nat)
    requires i < |batch| && OldestFirst(events, limit, batch)
    requires PassResult(events, mid, Done(batch[..i], answers, budget))
    ensures var a, left := answers(batch[i]), TimeLeft(batch[..i], answers, budget);
      && IsPending(mid, batch[i]) && TimeLeft(batch[..i + 1], answers, budget) == Left(left, a)
      && PassResult(events, PublishOne(mid, batch[i], a.ack && a.delay < left), Done(batch[..i + 1], answers, budget))
      && batch[..Tried(batch[..i + 1], answers, budget)]
         == batch[..Tried(batch[..i], answers, budget)] + (if left > 0 then [batch[i]] else [])
  {
    assert batch[..i + 1][..i] == batch[..i];
    DoneGrows(batch, i, answers, budget);
    assert batch[i] !in batch[..i];
    OneMoreDone(events, mid, Done(batch[..i], answers, budget), batch[i], InTime(batch, i, answers, budget));
    TriedGrows(batch, i, answers, budget);
  }

  lemma OneMoreDone(events: Events, mid: Events, done: set<EventId>, e: EventId, acked: bool)
    requires PassResult(events, mid, done) && IsPending(events, e) && e !in done
    ensures IsPending(mid, e) && PassResult(events, PublishOne(mid, e, acked), done + if acked then {e} else {})
  {
  }

  lemma TriedGrows(batch: seq<EventId>, i: nat, answers: Answers, budget: nat)
    requires i < |batch|
    ensures batch[..Tried(batch[..i + 1], answers, budget)]
            == batch[..Tried(batch[..i], answers, budget)]
               + (if Spent(batch[..i], answers) < budget then [batch[i]] else [])
  {
    assert batch[..i + 1][..i] == batch[..i];
    if Spent(batch[..i], answers) < budget {
      AllTried(batch[..i], answers, budget);
      assert batch[..i] + [batch[i]] == batch[..i + 1];
    }
  }

  lemma DoneGrows(batch: seq<EventId>, i: nat, answers: Answers, budget: nat)
    requires i < |batch|
    ensures Done(batch[..i + 1], answers, budget)
            == Done(batch[..i], answers, budget) + (if InTime(batch, i, answers, budget) then {batch[i]} else {})
  {
    var next := batch[..i + 1];
    assert forall j {:trigger batch[..j + 1]} :: 0 <= j < i ==> next[..j + 1] == batch[..i][..j + 1] == batch[..j + 1];
    assert next[..i + 1] == next;
    assert forall j :: 0 <= j < i ==> (InTime(next, j, answers, budget) <==> InTime(batch[..i], j, answers, budget));
    assert InTime(next, i, answers, budget) <==> InTime(batch, i, answers, budget);
    forall e
      ensures e in Done(next, answers, budget)
              <==> e in Done(batch[..i], answers, budget) || (InTime(batch, i, answers, budget) && e == batch[i])
    {
      if e in Done(batch[..i], answers, budget) {
        var j :| 0 <= j < i && InTime(batch[..i], j, answers, budget) && e == batch[..i][j];
        assert InTime(next, j, answers, budget) && next[j] == e;
      }
      if InTime(batch, i, answers, budget) && e == batch[i] {
        assert InTime(next, i, answers, budget) && next[i] == e;
      }
      if e in Done(next, answers, budget) {
        var j :| 0 <= j < i + 1 && InTime(next, j, answers, budget) && e == next[j];
        assert j < i ==> InTime(batch[..i], j, answers, budget) && batch[..i][j] == e;
      }
    }
  }

  /** As long as there is time left, every event was tried. */
  lemma AllTried(batch: seq<EventId>, answers: Answers, budget: nat)
    requires Spent(batch, answers) < budget
    ensures Tried(batch, answers, budget) == |batch|
  {
  }

  /** Only events that were tried are done. */
  lemma {:induction false} DoneIsTried(batch: seq<EventId>, answers: Answers, budget: nat)
    ensures forall e :: e in Done(batch, answers, budget) ==> e in batch[..Tried(batch, answers, budget)]
  {
    if batch != [] {
      var n := |batch| - 1;
      assert batch[..n + 1] == batch;
      DoneGrows(batch, n, answers, budget);
      DoneIsTried(batch[..n], answers, budget);
      if Spent(batch[..n], answers) >= budget {
        assert batch[..n][..Tried(batch[..n], answers, budget)] == batch[..Tried(batch, answers, budget)];
      }
    }
  }

  // ----- recovery -----

  datatype Work = Work(events: Events, tasks: map<TaskId, TaskStatus>)

  /** The recovery transaction for one task; a duplicate event id rolls it back. */
  function RecoverOne(w: Work, t: TaskId, uuid: EventId, maxRetries: int, at: int): Work {
    if t !in w.tasks || !w.tasks[t].Pending? then w
    else if Announced(w.events, t) then w.(tasks := w.tasks[t := Queued])
    else if uuid in w.events then w
    else Work(w.events[uuid := NewEvent(t, maxRetries, at)], w.tasks[t := Queued])
  }

  function RecoverAll(w: Work, listed: seq<TaskId>, uuids: seq<EventId>, maxRetries: int, at: int): Work
    requires |uuids| == |listed|
  {
    if listed == [] then w
    else
      var n := |listed| - 1;
      RecoverOne(RecoverAll(w, listed[..n], uuids[..n], maxRetries, at), listed[n], uuids[n], maxRetries, at)
  }

  /** Fresh, distinct event ids. */
  ghost predicate FreshIds(events: Events, uuids: seq<EventId>) {
    && (forall i :: 0 <= i < |uuids| ==> uuids[i] !in events)
    && (forall i, j :: 0 <= i < j < |uuids| ==> uuids[i] != uuids[j])
  }

  /** No task has two events. */
  ghost predicate OneEventEach(events: Events) {
    forall e, f :: e in events && f in events && events[e].task == events[f].task ==> e == f
  }

  /** What recovery did to a task and its events. */
  ghost predicate RecoveredTo(w: Work, r: Work, listed: seq<TaskId>) {
    && r.tasks.Keys == w.tasks.Keys
    && (forall e :: e in w.events ==> e in r.events && r.events[e] == w.events[e])
    && (forall t :: t in w.tasks ==>
          r.tasks[t] == if w.tasks[t].Pending? && t in listed then Queued else w.tasks[t])
    && (forall e :: e in r.events && e !in w.events ==>
          r.events[e].task in listed && r.events[e].task in w.tasks && w.tasks[r.events[e].task].Pending? &&
          !Announced(w.events, r.events[e].task) && r.events[e].status.EventPending? && r.events[e].retries == 0)
    && (forall t :: t in listed && t in w.tasks && w.tasks[t].Pending? ==> Announced(r.events, t))
  }

  /** Recovery queues exactly the listed pending tasks, gives those without an event one new pending event, and
      touches nothing else; no task gets a second event. */
  lemma {:induction false} RecoveryQueuesAndAnnounces(w: Work, listed: seq<TaskId>, uuids: seq<EventId>,
                                                      maxRetries: int, at: int)
    requires |uuids| == |listed| && FreshIds(w.events, uuids)
    ensures var r := RecoverAll(w, listed, uuids, maxRetries, at);
      RecoveredTo(w, r, listed) && (OneEventEach(w.events) ==> OneEventEach(r.events))
    ensures forall e :: e in RecoverAll(w, listed, uuids, maxRetries, at).events ==> e in w.events || e in uuids
  {
    if listed != [] {
      var n := |listed| - 1;
      var before := RecoverAll(w, listed[..n], uuids[..n], maxRetries, at);
      RecoveryQueuesAndAnnounces(w, listed[..n], uuids[..n], maxRetries, at);
      assert listed == listed[..n] + [listed[n]];
      assert uuids[n] !in before.events by {
        assert uuids[n] !in uuids[..n];
      }
      RecoverStep(w, before, listed[..n], listed[n], uuids[n], maxRetries, at);
    }
  }

  /** Every event that recovery adds is a pending one of now, with the configured retry limit or the column's
      default. */
  lemma {:induction false} RecoveredRows(w: Work, listed: seq<TaskId>, uuids: seq<EventId>, maxRetries: int, at: int)
    requires |uuids| == |listed|
    ensures var r := RecoverAll(w, listed, uuids, maxRetries, at);
      forall e :: e in r.events && e !in w.events ==>
        r.events[e] == EventRow(r.events[e].task, EventPending, 0, if maxRetries == 0 then 10 else maxRetries, at)
  {
    if listed != [] {
      var n := |listed| - 1;
      RecoveredRows(w, listed[..n], uuids[..n], maxRetries, at);
    }
  }

  lemma RecoverStep(w: Work, before: Work, listed: seq<TaskId>, t: TaskId, uuid: EventId, maxRetries: int, at: int)
    requires RecoveredTo(w, before, listed) && uuid !in before.events
    ensures RecoveredTo(w, RecoverOne(before, t, uuid, maxRetries, at), listed + [t])
    ensures OneEventEach(before.events) ==> OneEventEach(RecoverOne(before, t, uuid, maxRetries, at).events)
  {
    var after := RecoverOne(before, t, uuid, maxRetries, at);
    forall u | Announced(before.events, u)
      ensures Announced(after.events, u)
    {
      var e :| e in before.events && before.events[e].task == u;
      assert after.events[e].task == u;
    }
    if t in before.tasks && before.tasks[t].Pending? && !Announced(before.events, t) {
      assert after.events[uuid].task == t;
      assert !Announced(w.events, t);
    }
  }

  /** So recovering the same tasks again changes nothing. */
  lemma RecoveryIsIdempotent(w: Work, listed: seq<TaskId>, uuids: seq<EventId>, more: seq<EventId>, maxRetries: int,
                             at: int, later: int)
    requires |uuids| == |listed| == |more| && FreshIds(w.events, uuids)
    ensures var r := RecoverAll(w, listed, uuids, maxRetries, at); RecoverAll(r, listed, more, maxRetries, later) == r
  {
    RecoveryQueuesAndAnnounces(w, listed, uuids, maxRetries, at);
    NothingPending(RecoverAll(w, listed, uuids, maxRetries, at), listed, more, maxRetries, later);
  }

  lemma {:induction false} NothingPending(w: Work, listed: seq<TaskId>, uuids: seq<EventId>, maxRetries: int, at: int)
    requires |uuids| == |listed| && forall t :: t in listed && t in w.tasks ==> !w.tasks[t].Pending?
    ensures RecoverAll(w, listed, uuids, maxRetries, at) == w
  {
    if listed != [] {
      var n := |listed| - 1;
      NothingPending(w, listed[..n], uuids[..n], maxRetries, at);
    }
  }
}
