/** When a terminal status is overwritten, cancellation above all: exactly which steps do it, and that they happen. */
module Cancellation {
  import opened Domain
  import opened Persistence
  import opened Pipeline
  import opened Sequential
  import NoTaskLost

  // ----- exactly which steps -----

  /** The worker's step saves the full row of `t`, and the save is not rolled back. */
  predicate Saves(s: State, a: WorkStep, t: TaskId) {
    a.d in s.net.deliveries && s.net.deliveries[a.d].task == t &&
    match a
    case SaveInfo(d, w) => !w.RolledBack?
    case SaveFailure(d, w) => !w.RolledBack?
    case SaveSuccess(d, w) => !w.RolledBack?
    case _ => false
  }

  /** The status that such a save carries. */
  function SavedStatus(a: WorkStep): TaskStatus {
    if a.SaveFailure? then Failed else if a.SaveSuccess? then Success else Processing
  }

  /** A save with another status, a late recovery write, or a cancellation of a task that is not cancelled yet. */
  predicate Overwrites(s: State, a: Step, t: TaskId)
    requires t in s.db.tasks
  {
    match a
    case Work(w) => Saves(s, w, t) && SavedStatus(w) != s.db.tasks[t]
    case Api(Cancel(u)) => u == t && !s.db.tasks[t].Cancelled?
    case Api(b) => StaleWrite(s, b) && s.servers.recoveries[b.r].task == t
    case _ => false
  }

  /** A step changes the status of a terminal task if and only if it is one of those. */
  lemma TerminalChangesExactly(s: State, a: Step, t: TaskId)
    requires Enabled(s, a) && t in s.db.tasks && Terminal(s.db.tasks[t])
    ensures t in Apply(s, a).db.tasks
    ensures Apply(s, a).db.tasks[t] != s.db.tasks[t] <==> Overwrites(s, a, t)
  {
    match a
    case Work(w) => WorkerChangesExactly(s, w, t);
    case _ =>
  }

  lemma WorkerChangesExactly(s: State, a: WorkStep, t: TaskId)
    requires WorkEnabled(s, a) && t in s.db.tasks && Terminal(s.db.tasks[t])
    ensures t in WorkDb(s, a).tasks
    ensures WorkDb(s, a).tasks[t] == if Saves(s, a, t) then SavedStatus(a) else s.db.tasks[t]
  {
  }

  /** So a cancelled task stays cancelled if and only if the step is neither a committed save of it by a worker nor a
      late recovery write over it. */
  lemma CancelledStaysExactly(s: State, a: Step, t: TaskId)
    requires Enabled(s, a) && t in s.db.tasks && s.db.tasks[t].Cancelled?
    ensures t in Apply(s, a).db.tasks
    ensures Apply(s, a).db.tasks[t].Cancelled? <==>
            !(a.Work? && Saves(s, a.work, t)) &&
              !(a.Api? && StaleWrite(s, a.api) && s.servers.recoveries[a.api.r].task == t)
  {
    TerminalChangesExactly(s, a, t);
  }

  // ----- over runs -----

  /** The task has status `st` in every state of the run. */
  predicate Throughout(s: State, steps: seq<Step>, t: TaskId, st: TaskStatus)
    requires Run(s, steps)
    decreases |steps|
  {
    t in s.db.tasks && s.db.tasks[t] == st && (steps == [] || Throughout(Apply(s, steps[0]), steps[1..], t, st))
  }

  /** No step of the run overwrites the task. */
  predicate NeverOverwritten(s: State, steps: seq<Step>, t: TaskId)
    requires Run(s, steps)
    decreases |steps|
  {
    steps == [] ||
    (t in s.db.tasks && !Overwrites(s, steps[0], t) && NeverOverwritten(Apply(s, steps[0]), steps[1..], t))
  }

  /** Over any run a terminal task keeps its status throughout if and only if no step overwrites it. */
  lemma {:induction false} TerminalKeptExactly(s: State, steps: seq<Step>, t: TaskId)
    requires Run(s, steps) && t in s.db.tasks && Terminal(s.db.tasks[t])
    ensures Throughout(s, steps, t, s.db.tasks[t]) <==> NeverOverwritten(s, steps, t)
    decreases |steps|
  {
    if steps != [] {
      var s1 := Apply(s, steps[0]);
      TerminalChangesExactly(s, steps[0], t);
      if s1.db.tasks[t] == s.db.tasks[t] {
        TerminalKeptExactly(s1, steps[1..], t);
      }
    }
  }

  // ----- that it happens -----

  /** What a worker that is still working can do to a cancelled task. */
  function LastSave(d: nat, st: TaskStatus): WorkStep {
    if st.Failed? then SaveFailure(d, Done) else if st.Success? then SaveSuccess(d, Done) else SaveInfo(d, Done)
  }

  /** Whenever a worker is past the start of a cancelled task, its next saves can make the task failed or successful,
      and processing again if the worker has not saved the video's properties yet. */
  lemma WorkerOverwrites(s: State, d: nat, t: TaskId, st: TaskStatus) returns (s': State)
    requires NoTaskLost.WorksOn(s.net, d, t) && t in s.db.tasks && s.db.tasks[t].Cancelled?
    requires st.Success? || st.Failed? || (st.Processing? && s.net.deliveries[d].pc.Started?)
    ensures Leads(s, s') && t in s'.db.tasks && s'.db.tasks[t] == st
  {
    if st.Success? && s.net.deliveries[d].pc.Started? {
      var a := Work(SaveInfo(d, Done));
      var s1 := Apply(s, a);
      s' := Apply(s1, Work(SaveSuccess(d, Done)));
      Stay(s');
      Then(s1, Work(SaveSuccess(d, Done)), s');
      Then(s, a, s');
    } else {
      var a := Work(LastSave(d, st));
      s' := Apply(s, a);
      Stay(s');
      Then(s, a, s');
    }
  }

  /** A submitted task whose message a worker has taken and started. */
  lemma ToStarted(maxRetries: int) returns (s: State)
    ensures Leads(Init(maxRetries), s) && s.db.tasks == map[0 := Processing]
    ensures 0 in s.net.deliveries && s.net.deliveries[0].task == 0 && s.net.deliveries[0].pc.Started?
  {
    var s0 := Init(maxRetries);
    var a1, a2 := Api(SubmitCheck(0, 0, true)), Api(SubmitCommit(0, 0, 0));
    var s1 := Apply(s0, a1);
    var s2 := Apply(s1, a2);
    var s3 := PublishIsRun(s2, 0, 0, 0, true);
    s := DeliverAndStart(s3);
    Follow(s2, s3, s);
    Then(s1, a2, s);
    Then(s0, a1, s);
  }

  lemma DeliverAndStart(s: State) returns (s': State)
    requires s.net.deliveries == map[] && 0 in s.net.copies && s.net.copies[0] == Copy(0, 0, InQueue)
    requires s.db.processed == {} && s.db.tasks == map[0 := Pending]
    ensures Leads(s, s') && s'.db.tasks == map[0 := Processing]
    ensures 0 in s'.net.deliveries && s'.net.deliveries[0].task == 0 && s'.net.deliveries[0].pc.Started?
  {
    var a1, a2, a3 := Msg(Deliver(0, 0)), Work(Mark(0, Fresh)), Work(Transition(0, Done));
    var s1 := Apply(s, a1);
    var s2 := Apply(s1, a2);
    s' := Apply(s2, a3);
    Stay(s');
    Then(s2, a3, s');
    Then(s1, a2, s');
    Then(s, a1, s');
  }

  /** A run from the empty database in which the cancellation of a task under way is overwritten, with each of the three
      statuses that a worker saves. */
  lemma CancellationIsOverwritten(maxRetries: int, st: TaskStatus)
    requires st.Processing? || st.Success? || st.Failed?
    ensures exists s, s' :: Leads(Init(maxRetries), s) && Leads(s, s') &&
              0 in s.db.tasks && s.db.tasks[0].Cancelled? && 0 in s'.db.tasks && s'.db.tasks[0] == st
  {
    var started := ToStarted(maxRetries);
    var a := Api(Cancel(0));
    var s := Apply(started, a);
    Stay(s);
    Then(started, a, s);
    Follow(Init(maxRetries), started, s);
    var s' := WorkerOverwrites(s, 0, 0, st);
  }

  /** The same at the last moment: cancelled while transcoding, then saved as a success. */
  lemma CancelledThenSuccess(maxRetries: int)
    ensures exists s, s' :: Leads(Init(maxRetries), s) && Leads(s, s') && 0 in s.net.deliveries &&
              s.net.deliveries[0].task == 0 && s.net.deliveries[0].pc.Transcoding? &&
              0 in s.db.tasks && s.db.tasks[0].Cancelled? && 0 in s'.db.tasks && s'.db.tasks[0].Success?
  {
    var started := ToStarted(maxRetries);
    var a, b := Work(SaveInfo(0, Done)), Api(Cancel(0));
    var s1 := Apply(started, a);
    var s := Apply(s1, b);
    Stay(s);
    Then(s1, b, s);
    Then(started, a, s);
    Follow(Init(maxRetries), started, s);
    var s' := WorkerOverwrites(s, 0, 0, Success);
  }
}
