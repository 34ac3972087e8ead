/** The outbox service run on its own is one of the interleavings of the pipeline: publishing an event, a pass over
    the backlog and a recovery pass are runs of its step relation with the same effect. */
module Sequential {
  import opened Domain
  import opened Persistence
  import opened Pipeline
  import OutboxService
  import Completion

  ghost predicate Leads(s: State, s': State) {
    exists steps :: Run(s, steps) && After(s, steps) == s'
  }

  lemma Stay(s: State)
    ensures Leads(s, s)
  {
    assert Run(s, []) && After(s, []) == s;
  }

  lemma Then(s: State, a: Step, s': State)
    requires Enabled(s, a) && Leads(Apply(s, a), s')
    ensures Leads(s, s')
  {
    var rest :| Run(Apply(s, a), rest) && After(Apply(s, a), rest) == s';
    var steps := [a] + rest;
    assert steps[0] == a && steps[1..] == rest;
    assert Run(s, steps) && After(s, steps) == s';
  }

  lemma {:induction false} RunThen(s: State, steps: seq<Step>, s': State)
    requires Run(s, steps) && Leads(After(s, steps), s')
    ensures Leads(s, s')
    decreases |steps|
  {
    if steps != [] {
      RunThen(Apply(s, steps[0]), steps[1..], s');
      Then(s, steps[0], s');
    }
  }

  lemma Follow(s: State, s1: State, s2: State)
    requires Leads(s, s1) && Leads(s1, s2)
    ensures Leads(s, s2)
  {
    var steps :| Run(s, steps) && After(s, steps) == s1;
    RunThen(s, steps, s2);
  }

  // ----- one event -----

  /** Publishers and row locks, the parts of the state that only transactions in progress use, are as before. */
  ghost predicate Rest(s: State, s': State) {
    && s'.outbox.publishers == s.outbox.publishers && s'.outbox.locks == s.outbox.locks
    && s'.servers == s.servers && s'.maxRetries == s.maxRetries
    && s'.net.deliveries == s.net.deliveries && s'.net.attempts == s.net.attempts
  }

  /** The network after a publish: a copy that was acked is in the queue, one that was not may still be on its way. */
  function Published(s: State, c: nat, e: EventId, acked: bool): map<nat, Copy> {
    if OutboxService.IsPending(s.db.events, e)
    then s.net.copies[c := Copy(e, s.db.events[e].task, if acked then InQueue else OnWire)]
    else s.net.copies
  }

  ghost predicate PublishedFrom(s: State, s': State, c: nat, e: EventId, acked: bool) {
    && s'.db == s.db.(events := OutboxService.PublishOne(s.db.events, e, acked))
    && s'.net.copies == Published(s, c, e, acked)
    && Rest(s, s')
  }

  /** Publisher `p` has locked the event, handed copy `c` to the broker and waits. */
  ghost predicate JustSent(s0: State, s: State, p: nat, c: nat, e: EventId) {
    && OutboxService.IsPending(s0.db.events, e) && e !in s0.outbox.locks && p !in s0.outbox.publishers
    && s.db == s0.db && s.servers == s0.servers && s.maxRetries == s0.maxRetries
    && s.net == s0.net.(copies := s0.net.copies[c := Copy(e, s0.db.events[e].task, OnWire)])
    && s.outbox.locks == s0.outbox.locks[e := p]
    && s.outbox.publishers == s0.outbox.publishers[p := Publisher(e, Waiting(c),
      s0.db.events[e].(status := EventProcessing), true)]
  }

  lemma Acked(s: State, p: nat, c: nat, e: EventId, s0: State) returns (s': State)
    requires JustSent(s0, s, p, c, e)
    ensures Leads(s, s') && PublishedFrom(s0, s', c, e, true)
  {
    var a1, a2, a3, a4 := Msg(BrokerAccept(c)), Pub(PubConfirm(p)), Pub(PubWrite(p)), Pub(PubCommit(p));
    var s1 := Apply(s, a1);
    var s2 := Apply(s1, a2);
    var s3 := Apply(s2, a3);
    s' := Apply(s3, a4);
    Stay(s');
    Then(s3, a4, s');
    Then(s2, a3, s');
    Then(s1, a2, s');
    Then(s, a1, s');
  }

  lemma Unacked(s: State, p: nat, c: nat, e: EventId, s0: State) returns (s': State)
    requires JustSent(s0, s, p, c, e)
    ensures Leads(s, s') && PublishedFrom(s0, s', c, e, false)
  {
    var a1, a2 := Pub(PubUnconfirmed(p)), Pub(PubRollback(p));
    var s1 := Apply(s, a1);
    s' := Apply(s1, a2);
    Stay(s');
    Then(s1, a2, s');
    Then(s, a1, s');
  }

  lemma ToSend(s: State, p: nat, c: nat, e: EventId) returns (s': State)
    requires p !in s.outbox.publishers && c !in s.net.copies && e !in s.outbox.locks &&
             OutboxService.IsPending(s.db.events, e)
    ensures Leads(s, s') && JustSent(s, s', p, c, e)
  {
    var a1, a2, a3, a4 := Pub(PubBegin(p, e)), Pub(PubLock(p)), Pub(PubCheck(p)), Pub(PubSend(p, c));
    var s1 := Apply(s, a1);
    var s2 := Apply(s1, a2);
    var s3 := Apply(s2, a3);
    s' := Apply(s3, a4);
    Stay(s');
    Then(s3, a4, s');
    Then(s2, a3, s');
    Then(s1, a2, s');
    Then(s, a1, s');
  }

  lemma Skipped(s: State, p: nat, c: nat, e: EventId, acked: bool) returns (s': State)
    requires p !in s.outbox.publishers && e !in s.outbox.locks && !OutboxService.IsPending(s.db.events, e)
    ensures Leads(s, s') && PublishedFrom(s, s', c, e, acked)
  {
    var a1, a2, a3 := Pub(PubBegin(p, e)), Pub(PubLock(p)), Pub(PubCheck(p));
    var s1 := Apply(s, a1);
    var s2 := Apply(s1, a2);
    s' := if e in s.db.events then Apply(s2, a3) else s2;
    Stay(s');
    if e in s.db.events {
      Then(s2, a3, s');
    }
    Then(s1, a2, s');
    Then(s, a1, s');
  }

  /** Publishing one event, undisturbed, is a run of the pipeline with the effect of the sequential service: the row
      becomes published exactly when it was pending and the broker acked. */
  lemma PublishIsRun(s: State, p: nat, c: nat, e: EventId, acked: bool) returns (s': State)
    requires p !in s.outbox.publishers && c !in s.net.copies && e !in s.outbox.locks
    ensures Leads(s, s') && PublishedFrom(s, s', c, e, acked)
  {
    if OutboxService.IsPending(s.db.events, e) {
      var sent := ToSend(s, p, c, e);
      if acked {
        s' := Acked(sent, p, c, e, s);
      } else {
        s' := Unacked(sent, p, c, e, s);
      }
      Follow(s, sent, s');
    } else {
      s' := Skipped(s, p, c, e, acked);
    }
  }

  // ----- a pass -----

  /** Publishing a series of events, undisturbed, is a run of the pipeline, for every set of answers that the broker may
      give. */
  lemma {:induction false} SeriesIsRun(s: State, events': OutboxService.Events, batch: seq<EventId>,
                                       acked: set<EventId>)
    returns (s': State)
    requires OutboxService.PassResult(s.db.events, events', acked) && forall e :: e in acked ==> e in batch
    requires forall i :: 0 <= i < |batch| ==>
               batch[i] !in s.outbox.locks && OutboxService.IsPending(s.db.events, batch[i])
    requires forall i, j :: 0 <= i < j < |batch| ==> batch[i] != batch[j]
    ensures Leads(s, s') && s'.db == s.db.(events := events') && Rest(s, s')
    decreases |batch|
  {
    if batch == [] {
      s' := s;
      assert events' == s.db.events;
      Stay(s);
    } else {
      var p := Completion.Unused(s.outbox.publishers.Keys);
      var c := Completion.Unused(s.net.copies.Keys);
      var s1 := PublishIsRun(s, p, c, batch[0], batch[0] in acked);
      assert batch == [batch[0]] + batch[1..];
      LaterInBatch(batch, s.db.events, s1.db.events);
      s' := SeriesIsRun(s1, events', batch[1..], acked - {batch[0]});
      Follow(s, s1, s');
    }
  }

  /** So is a whole pass: the events before its deadline are sent, and those acked in time become published. */
  lemma PassIsRun(s: State, events': OutboxService.Events, limit: int, batch: seq<EventId>,
                  answers: OutboxService.Answers, budget: nat)
    returns (s': State)
    requires OutboxService.OldestFirst(s.db.events, limit, batch) && forall i :: 0 <= i < |batch| ==>
             batch[i] !in s.outbox.locks
    requires OutboxService.PassResult(s.db.events, events', OutboxService.Done(batch, answers, budget))
    ensures Leads(s, s') && s'.db == s.db.(events := events') && Rest(s, s')
  {
    var tried := batch[..OutboxService.Tried(batch, answers, budget)];
    OutboxService.DoneIsTried(batch, answers, budget);
    s' := SeriesIsRun(s, events', tried, OutboxService.Done(batch, answers, budget));
  }

  /** Publishing the first event leaves the others pending. */
  lemma LaterInBatch(batch: seq<EventId>, events: OutboxService.Events, events': OutboxService.Events)
    requires batch != [] && forall i, j :: 0 <= i < j < |batch| ==> batch[i] != batch[j]
    requires forall i :: 0 <= i < |batch| ==> OutboxService.IsPending(events, batch[i])
    requires forall e :: e in events && e != batch[0] ==> e in events' && events'[e] == events[e]
    ensures batch[0] !in batch[1..]
    ensures forall i :: 0 <= i < |batch[1..]| ==> OutboxService.IsPending(events', batch[1..][i])
    ensures forall i, j :: 0 <= i < j < |batch[1..]| ==> batch[1..][i] != batch[1..][j]
  {
    assert forall i :: 0 <= i < |batch[1..]| ==> batch[1..][i] == batch[i + 1];
  }

  // ----- recovery -----

  /** The recovery transaction of one task, undisturbed, is a run of the pipeline; its write is not late. */
  lemma RecoverIsRun(s: State, r: nat, t: TaskId, uuid: EventId, at: int) returns (s': State)
    requires r !in s.servers.recoveries
    ensures Leads(s, s') && s'.outbox == s.outbox && s'.net == s.net && s'.servers == s.servers &&
            s'.maxRetries == s.maxRetries
    ensures var w := OutboxService.RecoverOne(OutboxService.Work(s.db.events, s.db.tasks), t, uuid, s.maxRetries, at);
      s'.db == s.db.(events := w.events, tasks := w.tasks)
  {
    if t in s.db.tasks && s.db.tasks[t].Pending? {
      var a1, a2 := Api(RecoverRead(r, t)), Api(RecoverCount(r));
      var s1 := Apply(s, a1);
      var s2 := Apply(s1, a2);
      assert HasEvent(s.db, t) <==> OutboxService.Announced(s.db.events, t);
      var a3 := if !HasEvent(s.db, t) && uuid in s.db.events then Api(RecoverAbort(r))
        else Api(RecoverWrite(r, uuid, at));
      s' := Apply(s2, a3);
      assert s.servers.recoveries[r := Recovery(t, SawPending)][r := s2.servers.recoveries[r]] - {r}
        == s.servers.recoveries;
      Stay(s');
      Then(s2, a3, s');
      Then(s1, a2, s');
      Then(s, a1, s');
    } else {
      s' := s;
      Stay(s);
    }
  }
}
