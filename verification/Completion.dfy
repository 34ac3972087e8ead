/** From every state of a loss-free run, every unfinished task can still be brought to success:
    no lock, mark or lost connection blocks it for good. */
module Completion {
  import opened Domain
  import opened Persistence
  import opened Pipeline
  import opened Safety
  import opened NoTaskLost

  ghost predicate CanSucceed(s: State, t: TaskId) {
    exists steps :: Completes(s, steps, t)
  }

  ghost predicate Completes(s: State, steps: seq<Step>, t: TaskId) {
    Run(s, steps) && LossFree(s, steps) &&
    t in After(s, steps).db.tasks && After(s, steps).db.tasks[t].Success?
  }

  /** One loss-free step towards a state from which the task can succeed. */
  lemma Via(s: State, a: Step, t: TaskId)
    requires Enabled(s, a) && !Lossy(s, a) && CanSucceed(Apply(s, a), t)
    ensures CanSucceed(s, t)
  {
    var rest :| Completes(Apply(s, a), rest, t);
    var steps := [a] + rest;
    assert steps[0] == a && steps[1..] == rest;
    assert Completes(s, steps, t);
  }

  lemma Unused(used: set<nat>) returns (x: nat)
    ensures x !in used
  {
    x := Above(used);
  }

  lemma {:induction false} Above(used: set<nat>) returns (x: nat)
    ensures forall y :: y in used ==> y < x
    decreases |used|
  {
    if used == {} {
      x := 0;
    } else {
      var y :| y in used;
      var z := Above(used - {y});
      x := if z > y then z else y + 1;
      assert forall v :: v in used ==> v == y || v in used - {y};
    }
  }

  lemma FinishTranscoding(s: State, d: nat, t: TaskId)
    requires d in s.net.deliveries && s.net.deliveries[d].task == t && s.net.deliveries[d].pc.Transcoding?
    ensures CanSucceed(s, t)
  {
    var a := Work(SaveSuccess(d, Done));
    assert Run(Apply(s, a), []) && After(Apply(s, a), []) == Apply(s, a);
    assert Completes(Apply(s, a), [], t);
    Via(s, a, t);
  }

  lemma FinishWorking(s: State, d: nat, t: TaskId)
    requires WorksOn(s.net, d, t)
    ensures CanSucceed(s, t)
  {
    if s.net.deliveries[d].pc.Started? {
      var a := Work(SaveInfo(d, Done));
      FinishTranscoding(Apply(s, a), d, t);
      Via(s, a, t);
    } else {
      FinishTranscoding(s, d, t);
    }
  }

  lemma FinishHandling(s: State, d: nat, t: TaskId)
    requires Handles(s.net, d, t) && t in s.db.tasks && Startable(s.db.tasks[t])
    ensures CanSucceed(s, t)
  {
    var a := Work(Transition(d, Done));
    assert WorksOn(WorkNet(s, a.work), d, t);
    FinishWorking(Apply(s, a), d, t);
    Via(s, a, t);
  }

  lemma FinishReceived(s: State, d: nat, t: TaskId)
    requires d in s.net.deliveries && s.net.deliveries[d].task == t && s.net.deliveries[d].pc.Received?
    requires s.net.deliveries[d].event !in s.db.processed && t in s.db.tasks && Startable(s.db.tasks[t])
    ensures CanSucceed(s, t)
  {
    var a := Work(Mark(d, Fresh));
    assert Handles(WorkNet(s, a.work), d, t);
    FinishHandling(Apply(s, a), d, t);
    Via(s, a, t);
  }

  lemma FinishUnseen(s: State, c: nat, t: TaskId)
    requires DeliveriesInv(s.net) && Unseen(s.db, s.net, c, t) && t in s.db.tasks && Startable(s.db.tasks[t])
    ensures CanSucceed(s, t)
  {
    if s.net.copies[c].place.InQueue? {
      var d := Unused(s.net.deliveries.Keys);
      var a := Msg(Deliver(d, c));
      FinishReceived(Apply(s, a), d, t);
      Via(s, a, t);
    } else {
      FinishReceived(s, s.net.copies[c].place.delivery, t);
    }
  }

  // ----- publishing the event -----

  /** The task waits for its event, no copy of which was ever marked. */
  ghost predicate Unpublished(s: State, e: EventId, t: TaskId) {
    && DeliveriesInv(s.net) && t in s.db.tasks && Startable(s.db.tasks[t])
    && e in s.db.events && s.db.events[e].task == t && s.db.events[e].status.EventPending? && e !in s.db.processed
  }

  ghost predicate PublisherAt(s: State, p: nat, e: EventId, t: TaskId) {
    p in s.outbox.publishers && s.outbox.publishers[p].event == e && s.outbox.publishers[p].local.task == t
  }

  lemma FinishMarked(s: State, p: nat, e: EventId, t: TaskId)
    requires Unpublished(s, e, t) && PublisherAt(s, p, e, t) && s.outbox.publishers[p].pc.Marked?
    ensures CanSucceed(s, t)
  {
    var c := Unused(s.net.copies.Keys);
    var a := Pub(PubSend(p, c));
    var s1 := Apply(s, a);
    var b := Msg(BrokerAccept(c));
    assert Enabled(s1, b);
    DeliveriesMsg(s1, BrokerAccept(c));
    var s2 := Apply(s1, b);
    assert Unseen(s2.db, s2.net, c, t);
    FinishUnseen(s2, c, t);
    Via(s1, b, t);
    Via(s, a, t);
  }

  lemma FinishLocked(s: State, p: nat, e: EventId, t: TaskId)
    requires Unpublished(s, e, t) && PublisherAt(s, p, e, t)
    requires s.outbox.publishers[p].pc.Locked? && s.outbox.publishers[p].local.status.EventPending?
    ensures CanSucceed(s, t)
  {
    var a := Pub(PubCheck(p));
    FinishMarked(Apply(s, a), p, e, t);
    Via(s, a, t);
  }

  lemma FinishUnlocked(s: State, e: EventId, t: TaskId)
    requires Unpublished(s, e, t) && e !in s.outbox.locks
    ensures CanSucceed(s, t)
  {
    var p := Unused(s.outbox.publishers.Keys);
    var a := Pub(PubBegin(p, e));
    var s1 := Apply(s, a);
    var b := Pub(PubLock(p));
    assert Enabled(s1, b);
    FinishLocked(Apply(s1, b), p, e, t);
    Via(s1, b, t);
    Via(s, a, t);
  }

  lemma FinishUnpublished(s: State, e: EventId, t: TaskId)
    requires Unpublished(s, e, t) && LockOwners(s.db, s.outbox)
    ensures CanSucceed(s, t)
  {
    if e in s.outbox.locks {
      var a := Pub(PubRollback(s.outbox.locks[e]));
      FinishUnlocked(Apply(s, a), e, t);
      Via(s, a, t);
    } else {
      FinishUnlocked(s, e, t);
    }
  }

  lemma FinishCarried(s: State, t: TaskId)
    requires Inv(s) && CarriedInv(s) && t in s.db.tasks && !Terminal(s.db.tasks[t])
    ensures CanSucceed(s, t)
  {
    if d :| WorksOn(s.net, d, t) {
      FinishWorking(s, d, t);
    } else if InHand(s.db, s.net, t) {
      if d :| Handles(s.net, d, t) {
        FinishHandling(s, d, t);
      } else {
        var c :| Unseen(s.db, s.net, c, t);
        FinishUnseen(s, c, t);
      }
    } else {
      var e :| e in s.db.events && s.db.events[e].task == t && s.db.events[e].status.EventPending?;
      if e in s.db.processed {
        ProcessedInHand(s, e);
        assert false;
      }
      FinishUnpublished(s, e, t);
    }
  }

  /** Every unfinished task of a loss-free run can still succeed, by loss-free steps. */
  lemma UnfinishedTasksCanSucceed(maxRetries: int, steps: seq<Step>, t: TaskId)
    requires Run(Init(maxRetries), steps) && LossFree(Init(maxRetries), steps)
    requires var s := After(Init(maxRetries), steps); t in s.db.tasks && !Terminal(s.db.tasks[t])
    ensures CanSucceed(After(Init(maxRetries), steps), t)
  {
    CarriedInit(maxRetries);
    CarriedRun(Init(maxRetries), steps);
    FinishCarried(After(Init(maxRetries), steps), t);
  }
}
