/** The faults that loss-free runs exclude really lose tasks, and recovery really needs isolation. */
module Losses {
  import opened Domain
  import opened Persistence
  import opened Pipeline
  import opened Safety
  import opened NoTaskLost
  import opened Sequential
  import Guarantees
  import Completion

  /** Worker `d` is all that carries the unfinished task `t`. */
  ghost predicate SoleCarrier(s: State, d: nat, t: TaskId) {
    && d in s.net.deliveries && s.net.deliveries[d].task == t && t in s.db.tasks && !Terminal(s.db.tasks[t])
    && (Working(s.net.deliveries[d].pc) || (s.net.deliveries[d].pc.Handling? && Startable(s.db.tasks[t])))
    && (forall e :: e in s.db.events && s.db.events[e].task == t ==> s.db.events[e].status.EventPublished?)
    && (forall b :: b in s.net.deliveries && s.net.deliveries[b].task == t ==> b == d)
    && (forall c :: c in s.net.copies && s.net.copies[c].task == t && !Guarantees.Over(s.net.copies[c].place) ==>
          c == s.net.deliveries[d].copy && s.net.deliveries[d].live)
  }

  /** A step of the sole carrier keeps its task in hand exactly when it is none of the listed faults. */
  lemma LossyExactly(s: State, a: WorkStep, t: TaskId)
    requires DeliveriesInv(s.net) && SoleCarrier(s, a.d, t) && WorkEnabled(s, a)
    ensures InHand(WorkDb(s, a), WorkNet(s, a), t) <==> !Lossy(s, Work(a))
  {
    var db, n := WorkDb(s, a), WorkNet(s, a);
    if !Lossy(s, Work(a)) {
      if a.Transition? || a.SaveInfo? {
        assert WorksOn(n, a.d, t);
      } else if a.Crash? {
        assert Unseen(db, n, s.net.deliveries[a.d].copy, t);
      }
    }
  }

  // ----- from the fault to a task nobody will ever start again -----

  ghost predicate Lost(s: State, t: TaskId) {
    Spent(s, t) && !Terminal(s.db.tasks[t])
  }

  ghost predicate LeadsToLoss(s: State, steps: seq<Step>, t: TaskId) {
    Run(s, steps) && LossFree(s, steps) && Lost(After(s, steps), t)
  }

  lemma Prepend(s: State, a: Step, t: TaskId)
    requires Enabled(s, a) && !Lossy(s, a) && exists rest :: LeadsToLoss(Apply(s, a), rest, t)
    ensures exists steps :: LeadsToLoss(s, steps, t)
  {
    var rest :| LeadsToLoss(Apply(s, a), rest, t);
    var steps := [a] + rest;
    assert steps[0] == a && steps[1..] == rest;
    assert LeadsToLoss(s, steps, t);
  }

  lemma AlreadyLost(s: State, t: TaskId)
    requires Lost(s, t)
    ensures exists steps :: LeadsToLoss(s, steps, t)
  {
    assert Run(s, []) && After(s, []) == s;
    assert LeadsToLoss(s, [], t);
  }

  /** `d` has nothing left to do but to settle its message. */
  lemma SettleLoses(s: State, d: nat, t: TaskId)
    requires DeliveriesInv(s.net) && d in s.net.deliveries && s.net.deliveries[d].task == t && t in s.db.tasks &&
             !Terminal(s.db.tasks[t])
    requires s.net.deliveries[d].pc.ToAck? || s.net.deliveries[d].pc.ToNack?
    requires forall e :: e in s.db.events && s.db.events[e].task == t ==> s.db.events[e].status.EventPublished?
    requires forall b :: b in s.net.deliveries && s.net.deliveries[b].task == t ==> b == d
    requires forall c :: c in s.net.copies && s.net.copies[c].task == t && !Guarantees.Over(s.net.copies[c].place) ==>
               c == s.net.deliveries[d].copy && s.net.deliveries[d].live
    ensures exists steps :: LeadsToLoss(s, steps, t)
  {
    var a := Work(Settle(d));
    AlreadyLost(Apply(s, a), t);
    Prepend(s, a, t);
  }

  /** The message came back to the queue, but its mark makes the next worker skip it. */
  lemma RequeuedLoses(s: State, c: nat, t: TaskId)
    requires DeliveriesInv(s.net) && c in s.net.copies && s.net.copies[c].place.InQueue? && s.net.copies[c].task == t
    requires s.net.copies[c].event in s.db.processed && t in s.db.tasks && !Terminal(s.db.tasks[t])
    requires forall e :: e in s.db.events && s.db.events[e].task == t ==> s.db.events[e].status.EventPublished?
    requires forall b :: b in s.net.deliveries ==> s.net.deliveries[b].task != t
    requires forall b :: b in s.net.copies && s.net.copies[b].task == t && b != c ==>
             Guarantees.Over(s.net.copies[b].place)
    ensures exists steps :: LeadsToLoss(s, steps, t)
  {
    var d := Completion.Unused(s.net.deliveries.Keys);
    var a := Msg(Deliver(d, c));
    var s1 := Apply(s, a);
    DeliveriesMsg(s, a.msg);
    var b := Work(Mark(d, Duplicate));
    DeliveriesWork(s1, b.work);
    SettleLoses(Apply(s1, b), d, t);
    Prepend(s1, b, t);
    Prepend(s, a, t);
  }

  /** The handler of the only message left finds the task started. */
  lemma RefusedLoses(s: State, d: nat, t: TaskId)
    requires DeliveriesInv(s.net) && d in s.net.deliveries && s.net.deliveries[d].task == t && t in s.db.tasks
    requires s.db.tasks[t].Processing? && s.net.deliveries[d].pc.Handling? && s.net.deliveries[d].live
    requires forall e :: e in s.db.events && s.db.events[e].task == t ==> s.db.events[e].status.EventPublished?
    requires forall b :: b in s.net.deliveries && s.net.deliveries[b].task == t ==> b == d
    requires forall c :: c in s.net.copies && s.net.copies[c].task == t && !Guarantees.Over(s.net.copies[c].place) ==>
               c == s.net.deliveries[d].copy
    ensures exists steps :: LeadsToLoss(s, steps, t)
  {
    var a := Work(TransitionRefused(d));
    DeliveriesWork(s, a.work);
    SettleLoses(Apply(s, a), d, t);
    Prepend(s, a, t);
  }

  /** The message came back to the queue unmarked, but the task is already started, so the next worker skips it. */
  lemma UnmarkedRequeuedLoses(s: State, c: nat, t: TaskId)
    requires DeliveriesInv(s.net) && c in s.net.copies && s.net.copies[c].place.InQueue? && s.net.copies[c].task == t
    requires s.net.copies[c].event !in s.db.processed && t in s.db.tasks && s.db.tasks[t].Processing?
    requires forall e :: e in s.db.events && s.db.events[e].task == t ==> s.db.events[e].status.EventPublished?
    requires forall b :: b in s.net.deliveries ==> s.net.deliveries[b].task != t
    requires forall b :: b in s.net.copies && s.net.copies[b].task == t && b != c ==>
             Guarantees.Over(s.net.copies[b].place)
    ensures exists steps :: LeadsToLoss(s, steps, t)
  {
    var d := Completion.Unused(s.net.deliveries.Keys);
    var a := Msg(Deliver(d, c));
    var s1 := Apply(s, a);
    DeliveriesMsg(s, a.msg);
    var b := Work(Mark(d, Fresh));
    DeliveriesWork(s1, b.work);
    RefusedLoses(Apply(s1, b), d, t);
    Prepend(s1, b, t);
    Prepend(s, a, t);
  }

  /** After any of those faults at the sole carrier, faultless steps lead to a state in which the task is
      unfinished and will never be started again. */
  lemma LossesAreReal(s: State, a: WorkStep, t: TaskId)
    requires DeliveriesInv(s.net) && SoleCarrier(s, a.d, t) && WorkEnabled(s, a) && Lossy(s, Work(a))
    ensures exists steps :: LeadsToLoss(Apply(s, Work(a)), steps, t)
  {
    var s' := Apply(s, Work(a));
    DeliveriesWork(s, a);
    EventsKeptWork(s, a);
    if !a.Crash? {
      SettleLoses(s', a.d, t);
    } else if !s.net.deliveries[a.d].live {
      AlreadyLost(s', t);
    } else if s.net.deliveries[a.d].event in s.db.processed {
      RequeuedLoses(s', s.net.deliveries[a.d].copy, t);
    } else {
      UnmarkedRequeuedLoses(s', s.net.deliveries[a.d].copy, t);
    }
  }

  /** Recovery's late write over a finished task makes it unfinished for ever. */
  lemma LateRecoveryLoses(s: State, r: nat, e: EventId, at: int, t: TaskId)
    requires TablesInv(s) && Spent(s, t) && Terminal(s.db.tasks[t])
    requires ApiEnabled(s, RecoverWrite(r, e, at)) && s.servers.recoveries[r].task == t
    ensures Lost(Apply(s, Api(RecoverWrite(r, e, at))), t)
  {
    SpentApi(s, RecoverWrite(r, e, at), t);
  }

  // ----- why recovery has to be isolated -----

  /** The message of a startable task is in the queue, unmarked, and `n` recovery transactions saw the task pending. */
  ghost predicate Overtaking(s: State, c: nat, t: TaskId, n: nat) {
    && c in s.net.copies && s.net.copies[c].place.InQueue? && s.net.copies[c].task == t
    && s.net.copies[c].event !in s.db.processed && t in s.db.tasks && Startable(s.db.tasks[t])
    && (forall r: nat :: r < n ==> r in s.servers.recoveries && s.servers.recoveries[r] == Recovery(t, SawEvents))
  }

  /** A worker whose connection breaks and whose duplicate check fails starts the task; its message is queued again. */
  lemma StartAndRequeue(s: State, c: nat, t: TaskId, n: nat) returns (s': State)
    requires Overtaking(s, c, t, n)
    ensures Leads(s, s') && s'.servers == s.servers && s'.net.attempts == s.net.attempts + multiset{t}
    ensures s'.db.tasks == s.db.tasks[t := Processing] && s'.db.processed == s.db.processed &&
            s'.net.copies == s.net.copies
  {
    var d := Completion.Unused(s.net.deliveries.Keys);
    var a1, a2, a3, a4 := Msg(Deliver(d, c)), Msg(LoseConnection(d)), Work(Mark(d, Errored(false))),
      Work(Transition(d, Done));
    var s1 := Apply(s, a1);
    var s2 := Apply(s1, a2);
    var s3 := Apply(s2, a3);
    s' := Apply(s3, a4);
    assert s2.net.copies == s.net.copies;
    Stay(s');
    Then(s3, a4, s');
    Then(s2, a3, s');
    Then(s1, a2, s');
    Then(s, a1, s');
  }

  /** Each of the recovery transactions in turn writes late and makes room for one more start. */
  lemma {:induction false} StartsAgain(s: State, c: nat, t: TaskId, n: nat) returns (s': State)
    requires Overtaking(s, c, t, n)
    ensures Leads(s, s') && s'.net.attempts[t] == s.net.attempts[t] + n + 1 &&
            s'.servers.stale[t] == s.servers.stale[t] + n
    decreases n
  {
    var s1 := StartAndRequeue(s, c, t, n);
    if n == 0 {
      s' := s1;
    } else {
      var a := Api(RecoverWrite(n - 1, 0, 0));
      var s2 := Apply(s1, a);
      s' := StartsAgain(s2, c, t, n - 1);
      Then(s1, a, s');
      Follow(s, s1, s');
    }
  }

  lemma {:induction false} SeePending(s: State, e: EventId, t: TaskId, n: nat) returns (s': State)
    requires t in s.db.tasks && s.db.tasks[t].Pending? && e in s.db.events && s.db.events[e].task == t
    requires s.servers.recoveries == map[]
    ensures Leads(s, s') && s'.db == s.db && s'.outbox == s.outbox && s'.net == s.net &&
            s'.servers.stale == s.servers.stale
    ensures forall r: nat :: r in s'.servers.recoveries <==> r < n
    ensures forall r: nat :: r < n ==> s'.servers.recoveries[r] == Recovery(t, SawEvents)
  {
    if n == 0 {
      s' := s;
      Stay(s);
    } else {
      var s1 := SeePending(s, e, t, n - 1);
      var a1, a2 := Api(RecoverRead(n - 1, t)), Api(RecoverCount(n - 1));
      var s2 := Apply(s1, a1);
      s' := Apply(s2, a2);
      assert HasEvent(s2.db, t);
      Stay(s');
      Then(s2, a2, s');
      Then(s1, a1, s');
      Follow(s, s1, s');
    }
  }

  /** The bound on attempts is reached for every number of late recovery writes: with `n` of them task 0 is started
      `n + 1` times. */
  lemma BoundIsReached(maxRetries: int, n: nat)
    ensures exists s :: Leads(Init(maxRetries), s) && s.net.attempts[0] == n + 1 && s.servers.stale[0] == n
  {
    var s := Init(maxRetries);
    var a1, a2 := Api(SubmitCheck(0, 0, true)), Api(SubmitCommit(0, 0, 0));
    var s1 := Apply(s, a1);
    var s2 := Apply(s1, a2);
    assert s2.db.events[0].task == 0;
    var s3 := SeePending(s2, 0, 0, n);
    var s4 := Sequential.PublishIsRun(s3, 0, 0, 0, true);
    var s5 := StartsAgain(s4, 0, 0, n);
    Follow(s3, s4, s5);
    Follow(s2, s3, s5);
    Then(s1, a2, s5);
    Then(s, a1, s5);
  }
}
