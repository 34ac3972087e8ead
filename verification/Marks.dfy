/** The duplicate check of the message handler one table access at a time, with and without the unique index of the
    table of processed messages. */
module Marks {
  import opened Domain
  import opened Persistence
  import P = Pipeline

  type Counts = map<EventId, nat>

  /** `rows` counts the committed marks of each message, `pending` the checks that have seen none and are about to
      insert one. `runs` and `errors` count handler runs and failed checks since the message's marks were last cleaned
      up. */
  datatype Table = Table(created: bool, indexed: bool, rows: Counts, pending: Counts, runs: Counts, errors: Counts)

  const EMPTY := Table(false, false, map[], map[], map[], map[])

  /** `Start` is the migration that every process runs: first the index, whose errors are ignored, then the table. A
      check counts the message's rows and, if there are none, inserts one in the same transaction. */
  datatype Step =
    | Start
    | Check(e: EventId)
    | CheckFails(e: EventId)
    | Insert(e: EventId, replied: bool)
    | InsertFails(e: EventId)
    | Cleanup(expired: set<EventId>)

  predicate Unique(rows: Counts) {
    forall e :: e in rows ==> rows[e] <= 1
  }

  predicate Enabled(s: Table, a: Step) {
    match a
    case Check(e) => s.created
    case Insert(e, replied) => P.Count(s.pending, e) > 0 && (s.indexed ==> P.Count(s.rows, e) == 0)
    case InsertFails(e) => P.Count(s.pending, e) > 0
    case _ => true
  }

  predicate Answers(s: Table, a: Step) {
    a.Insert? || a.InsertFails? || a.CheckFails? || (a.Check? && P.Count(s.rows, a.e) > 0)
  }

  /** What the step answers to the message handler. A violated index is an error like any other: its text is neither of
      the two that the code looks for. */
  function Answer(s: Table, a: Step): P.MarkAnswer
    requires Answers(s, a)
  {
    match a
    case Check(e) => P.Duplicate
    case Insert(e, replied) => if replied then P.Fresh else P.Errored(true)
    case _ => P.Errored(false)
  }

  function Accessed(s: Table, a: Step): Table
    requires Enabled(s, a)
  {
    match a
    case Start => s.(indexed := s.indexed || (s.created && Unique(s.rows)), created := true)
    case Check(e) => if P.Count(s.rows, e) > 0 then s else s.(pending := P.Bump(s.pending, e))
    case CheckFails(e) => s
    case Insert(e, replied) =>
      s.(rows := P.Bump(s.rows, e), pending := s.pending[e := P.Count(s.pending, e) - 1])
    case InsertFails(e) => s.(pending := s.pending[e := P.Count(s.pending, e) - 1])
    case Cleanup(expired) => s.(rows := s.rows - expired, runs := s.runs - expired, errors := s.errors - expired)
  }

  /** Any answer but a duplicate is followed by a run of the handler. */
  function Apply(s: Table, a: Step): Table
    requires Enabled(s, a)
  {
    var next := Accessed(s, a);
    if !Answers(s, a) || Answer(s, a).Duplicate? then next
    else
      next.(runs := P.Bump(s.runs, a.e), errors := if Answer(s, a).Errored? then P.Bump(s.errors, a.e) else s.errors)
  }

  predicate Run(s: Table, steps: seq<Step>)
    decreases |steps|
  {
    steps == [] || (Enabled(s, steps[0]) && Run(Apply(s, steps[0]), steps[1..]))
  }

  function After(s: Table, steps: seq<Step>): Table
    requires Run(s, steps)
    decreases |steps|
  {
    if steps == [] then s else After(Apply(s, steps[0]), steps[1..])
  }

  // ----- the bound -----

  ghost predicate Covered(s: Table, e: EventId) {
    P.Count(s.runs, e) <= P.Count(s.rows, e) + P.Count(s.errors, e)
  }

  ghost predicate Inv(s: Table) {
    (s.indexed ==> s.created && Unique(s.rows)) && forall e :: Covered(s, e)
  }

  lemma KeepsCovered(s: Table, a: Step, e: EventId)
    requires Covered(s, e) && Enabled(s, a)
    ensures Covered(Apply(s, a), e)
  {
  }

  lemma KeepsInv(s: Table, a: Step)
    requires Inv(s) && Enabled(s, a)
    ensures Inv(Apply(s, a)) && (s.indexed ==> Apply(s, a).indexed) && (s.created ==> Apply(s, a).created)
  {
    forall e | true
      ensures Covered(Apply(s, a), e)
    {
      KeepsCovered(s, a, e);
    }
  }

  lemma {:induction false} RunKeepsInv(s: Table, steps: seq<Step>)
    requires Inv(s) && Run(s, steps)
    ensures Inv(After(s, steps)) && (s.indexed ==> After(s, steps).indexed) && (s.created ==> After(s, steps).created)
    decreases |steps|
  {
    if steps != [] {
      KeepsInv(s, steps[0]);
      RunKeepsInv(Apply(s, steps[0]), steps[1..]);
    }
  }

  /** The handler has run at most once more than the check failed. */
  ghost predicate Bounded(s: Table, e: EventId) {
    P.Count(s.runs, e) <= 1 + P.Count(s.errors, e)
  }

  function Times(a: Step, n: nat): seq<Step> {
    if n == 0 then [] else [a] + Times(a, n - 1)
  }

  lemma {:induction false} RunAppend(s: Table, a: seq<Step>, b: seq<Step>)
    requires Run(s, a) && Run(After(s, a), b)
    ensures Run(s, a + b) && After(s, a + b) == After(After(s, a), b)
    decreases |a|
  {
    if a == [] {
      assert a + b == b;
    } else {
      assert (a + b)[1..] == a[1..] + b;
      RunAppend(Apply(s, a[0]), a[1..], b);
    }
  }

  lemma {:induction false} ChecksOpen(s: Table, e: EventId, n: nat)
    requires s.created && P.Count(s.rows, e) == 0
    ensures Run(s, Times(Check(e), n))
    ensures var next := After(s, Times(Check(e), n));
      P.Count(next.pending, e) == P.Count(s.pending, e) + n && next == s.(pending := next.pending)
    decreases n
  {
    if n > 0 {
      assert Times(Check(e), n)[1..] == Times(Check(e), n - 1);
      ChecksOpen(Apply(s, Check(e)), e, n - 1);
    }
  }

  lemma {:induction false} InsertsRun(s: Table, e: EventId, n: nat)
    requires !s.indexed && P.Count(s.pending, e) >= n
    ensures Run(s, Times(Insert(e, true), n))
    ensures var next := After(s, Times(Insert(e, true), n));
      && P.Count(next.runs, e) == P.Count(s.runs, e) + n && next.errors == s.errors
      && P.Count(next.rows, e) == P.Count(s.rows, e) + n && next.indexed == s.indexed
    decreases n
  {
    if n > 0 {
      assert Times(Insert(e, true), n)[1..] == Times(Insert(e, true), n - 1);
      InsertsRun(Apply(s, Insert(e, true)), e, n - 1);
    }
  }

  /** Without the index, n checks of one message at the same time all find nothing and all insert. */
  function Race(e: EventId, n: nat): seq<Step> {
    [Cleanup({e})] + Times(Check(e), n) + Times(Insert(e, true), n)
  }

  lemma RaceRuns(s: Table, e: EventId, n: nat)
    requires s.created && !s.indexed
    ensures Run(s, Race(e, n))
    ensures var next := After(s, Race(e, n));
      P.Count(next.runs, e) == P.Count(next.rows, e) == n && P.Count(next.errors, e) == 0 && !next.indexed
  {
    var clean := Apply(s, Cleanup({e}));
    assert [Cleanup({e})][1..] == [];
    assert Run(clean, []) && Run(s, [Cleanup({e})]) && After(s, [Cleanup({e})]) == After(clean, []) == clean;
    ChecksOpen(clean, e, n);
    RunAppend(s, [Cleanup({e})], Times(Check(e), n));
    var open := After(clean, Times(Check(e), n));
    InsertsRun(open, e, n);
    RunAppend(s, [Cleanup({e})] + Times(Check(e), n), Times(Insert(e, true), n));
  }

  /** Of any table that the service can have, the bound on handler runs holds in all that may follow if and only if the
      table has the index. */
  lemma BoundedExactly(before: seq<Step>, e: EventId)
    requires Run(EMPTY, before) && After(EMPTY, before).created
    ensures var s := After(EMPTY, before);
      s.indexed <==> forall steps :: Run(s, steps) ==> Bounded(After(s, steps), e)
  {
    RunKeepsInv(EMPTY, before);
    var s := After(EMPTY, before);
    if s.indexed {
      forall steps | Run(s, steps)
        ensures Bounded(After(s, steps), e)
      {
        RunKeepsInv(s, steps);
        assert Covered(After(s, steps), e);
      }
    } else {
      RaceRuns(s, e, 2);
      assert !Bounded(After(s, Race(e, 2)), e);
    }
  }

  // ----- when the index exists -----

  predicate Starts(steps: seq<Step>) {
    exists i :: 0 <= i < |steps| && steps[i].Start?
  }

  /** The first start on an empty database creates the table without the index; a later start adds the index exactly if
      by then no message has two rows. */
  lemma IndexedExactly(between: seq<Step>)
    requires !Starts(between)
    requires Run(EMPTY, [Start] + between + [Start])
    ensures var s := Apply(EMPTY, Start);
      && s.created && !s.indexed && Run(s, between)
      && (After(EMPTY, [Start] + between + [Start]).indexed <==> Unique(After(s, between).rows))
  {
    var s := Apply(EMPTY, Start);
    var all := [Start] + between + [Start];
    assert all[1..] == between + [Start];
    SplitRun(s, between, [Start]);
    NoStartNoIndex(s, between);
    var t := After(s, between);
    assert [Start][1..] == [];
    assert After(t, [Start]) == After(Apply(t, Start), []) == Apply(t, Start);
  }

  lemma {:induction false} SplitRun(s: Table, a: seq<Step>, b: seq<Step>)
    requires Run(s, a + b)
    ensures Run(s, a) && Run(After(s, a), b) && After(s, a + b) == After(After(s, a), b)
    decreases |a|
  {
    if a == [] {
      assert a + b == b;
    } else {
      assert (a + b)[1..] == a[1..] + b;
      SplitRun(Apply(s, a[0]), a[1..], b);
    }
  }

  lemma {:induction false} NoStartNoIndex(s: Table, steps: seq<Step>)
    requires Run(s, steps) && !Starts(steps)
    ensures After(s, steps).indexed == s.indexed && After(s, steps).created == s.created
    decreases |steps|
  {
    if steps != [] {
      assert !steps[0].Start?;
      assert forall i :: 0 <= i < |steps[1..]| ==> steps[1..][i] == steps[i + 1];
      NoStartNoIndex(Apply(s, steps[0]), steps[1..]);
    }
  }

  predicate CleansUp(steps: seq<Step>, e: EventId) {
    exists i :: 0 <= i < |steps| && steps[i].Cleanup? && e in steps[i].expired
  }

  /** Once a message has two rows, no number of starts creates the index until that message is cleaned up. */
  lemma {:induction false} DuplicatesKeepIndexAway(s: Table, steps: seq<Step>, e: EventId)
    requires Run(s, steps) && !s.indexed && P.Count(s.rows, e) >= 2 && !CleansUp(steps, e)
    ensures !After(s, steps).indexed && P.Count(After(s, steps).rows, e) >= 2
    decreases |steps|
  {
    if steps != [] {
      assert steps[0].Cleanup? ==> e !in steps[0].expired;
      assert forall i :: 0 <= i < |steps[1..]| ==> steps[1..][i] == steps[i + 1];
      DuplicatesKeepIndexAway(Apply(s, steps[0]), steps[1..], e);
    }
  }

  // ----- the pipeline's one-step check -----

  ghost predicate Same(s: Table, db: Db) {
    forall e :: e in db.processed <==> P.Count(s.rows, e) > 0
  }

  /** The pipeline's check allows the answer, and leaves the table that the code leaves. */
  ghost predicate AsOneStep(s: Table, a: Step, db: Db)
    requires Enabled(s, a) && Answers(s, a)
  {
    var answer := Answer(s, a);
    && (answer.Fresh? ==> TryMark(db, a.e).1) && (answer.Duplicate? ==> !TryMark(db, a.e).1)
    && Same(Apply(s, a), if answer.Fresh? || answer == P.Errored(true) then TryMark(db, a.e).0 else db)
  }

  /** The pipeline's check, which reads and marks in one step, answers as the code does: always with the index; without
      it, exactly when no other check inserted in between. */
  lemma OneStepExactly(s: Table, a: Step, db: Db)
    requires Inv(s) && Enabled(s, a) && Answers(s, a) && Same(s, db)
    ensures AsOneStep(s, a, db) <==> (a == Insert(a.e, true) ==> P.Count(s.rows, a.e) == 0)
    ensures s.indexed ==> AsOneStep(s, a, db)
  {
  }
}
