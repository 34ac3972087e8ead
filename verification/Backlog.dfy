/** What passes of the outbox service achieve over a backlog. Events created at the same time may be taken in any order,
    and all events of a pass share its deadline. For every backlog and all answers of the broker: when an event is
    certain to be published, when it can be, and how a backlog drains. */
module Backlog {
  import opened Domain
  import opened OutboxService

  // ----- times and sets -----

  function BatchSet(batch: seq<EventId>): set<EventId> {
    set e | e in batch
  }

  ghost predicate Distinct(batch: seq<EventId>) {
    forall i, j :: 0 <= i < j < |batch| ==> batch[i] != batch[j]
  }

  lemma {:induction false} BatchSetSize(batch: seq<EventId>)
    requires Distinct(batch)
    ensures |BatchSet(batch)| == |batch|
  {
    if batch != [] {
      var n := |batch| - 1;
      assert batch == batch[..n] + [batch[n]];
      assert BatchSet(batch) == BatchSet(batch[..n]) + {batch[n]};
      BatchSetSize(batch[..n]);
    }
  }

  /** The time that all events of a set take. */
  ghost function Total(s: set<EventId>, answers: Answers): nat {
    if s == {} then 0 else var e :| e in s; answers(e).delay + Total(s - {e}, answers)
  }

  lemma {:induction false} TotalWithout(s: set<EventId>, answers: Answers, e: EventId)
    requires e in s
    ensures Total(s, answers) == answers(e).delay + Total(s - {e}, answers)
    decreases s
  {
    var f :| f in s && Total(s, answers) == answers(f).delay + Total(s - {f}, answers);
    if f != e {
      TotalWithout(s - {f}, answers, e);
      TotalWithout(s - {e}, answers, f);
      assert s - {f} - {e} == s - {e} - {f};
    }
  }

  lemma {:induction false} TotalGrows(a: set<EventId>, b: set<EventId>, answers: Answers)
    requires a <= b
    ensures Total(a, answers) <= Total(b, answers)
    decreases b
  {
    if a == {} {
    } else {
      var e :| e in a;
      TotalWithout(a, answers, e);
      TotalWithout(b, answers, e);
      TotalGrows(a - {e}, b - {e}, answers);
    }
  }

  lemma {:induction false} SpentIsTotal(batch: seq<EventId>, answers: Answers)
    requires Distinct(batch)
    ensures Spent(batch, answers) == Total(BatchSet(batch), answers)
  {
    if batch != [] {
      var n := |batch| - 1;
      SpentIsTotal(batch[..n], answers);
      assert batch == batch[..n] + [batch[n]];
      assert batch[n] !in batch[..n];
      assert BatchSet(batch) - {batch[n]} == BatchSet(batch[..n]);
      TotalWithout(BatchSet(batch), answers, batch[n]);
    }
  }

  lemma {:induction false} SpentGrows(batch: seq<EventId>, i: nat, j: nat, answers: Answers)
    requires i <= j <= |batch|
    ensures Spent(batch[..i], answers) <= Spent(batch[..j], answers)
    decreases j
  {
    if i < j {
      assert batch[..j][..j - 1] == batch[..j - 1];
      SpentGrows(batch, i, j - 1, answers);
    }
  }

  // ----- the order of ties -----

  /** How the database orders events created at the same time: by this number, and freely where it is the same. */
  type Rank = EventId -> int

  /** `e` is certainly taken before `f`. */
  predicate Ahead(events: Events, rank: Rank, e: EventId, f: EventId)
    requires e in events && f in events
  {
    events[e].createdAt < events[f].createdAt || (events[e].createdAt == events[f].createdAt && rank(e) < rank(f))
  }

  /** A batch in that order. */
  ghost predicate Ranked(events: Events, batch: seq<EventId>, rank: Rank)
    requires forall i :: 0 <= i < |batch| ==> batch[i] in events
  {
    && (forall i, j :: 0 <= i < j < |batch| ==> !Ahead(events, rank, batch[j], batch[i]))
    && (forall i, f :: 0 <= i < |batch| && f in events && Eligible(events[f]) && f !in batch ==>
          !Ahead(events, rank, f, batch[i]))
  }

  ghost predicate RankedPass(events: Events, events': Events, limit: int, budget: nat, answers: Answers, rank: Rank) {
    exists batch ::
      OldestFirst(events, limit, batch) && Ranked(events, batch, rank) &&
        PassResult(events, events', Done(batch, answers, budget))
  }

  /** Eligible events that are certainly taken before `g`, by whether the broker acks them. */
  function Before(events: Events, rank: Rank, g: EventId, answers: Answers, ack: bool): set<EventId>
    requires g in events
  {
    set e | e in events && Eligible(events[e]) && e != g && Ahead(events, rank, e, g) && answers(e).ack == ack
  }

  /** Eligible events that may be taken before `g`. */
  function PerhapsBefore(events: Events, rank: Rank, g: EventId, answers: Answers, ack: bool): set<EventId>
    requires g in events
  {
    set e | e in events && Eligible(events[e]) && e != g && !Ahead(events, rank, g, e) && answers(e).ack == ack
  }

  // ----- when an event is kept out -----

  /** The refused events certainly before `f` and `f` itself take the whole time of a pass. */
  ghost predicate TooLate(events: Events, rank: Rank, f: EventId, answers: Answers, budget: nat)
    requires f in events
  {
    Total(Before(events, rank, f, answers, false), answers) + answers(f).delay >= budget
  }

  /** Refused events before `g` fill the batch, or `g` or an event before it is always too late. */
  ghost predicate Blocked(events: Events, limit: int, budget: nat, answers: Answers, rank: Rank, g: EventId)
    requires g in events
  {
    (limit >= 0 && |Before(events, rank, g, answers, false)| >= limit) || TooLate(events, rank, g, answers, budget) ||
    exists f :: f in Before(events, rank, g, answers, true) && TooLate(events, rank, f, answers, budget)
  }

  /** In a ranked batch, what is certainly before an event of the batch comes before it. */
  lemma BeforeInBatch(events: Events, batch: seq<EventId>, rank: Rank, i: nat, answers: Answers, ack: bool)
    requires (forall j :: 0 <= j < |batch| ==> batch[j] in events) && Ranked(events, batch, rank) && i < |batch|
    ensures Before(events, rank, batch[i], answers, ack) <= BatchSet(batch[..i])
  {
    forall e | e in Before(events, rank, batch[i], answers, ack)
      ensures e in batch[..i]
    {
      assert e in batch;
      var j :| 0 <= j < |batch| && batch[j] == e;
      assert j < i;
    }
  }

  /** So an event that is too late is not acked in time, nor is any later one. */
  lemma TooLateInBatch(events: Events, batch: seq<EventId>, rank: Rank, i: nat, answers: Answers, budget: nat)
    requires (forall j :: 0 <= j < |batch| ==> batch[j] in events) && Ranked(events, batch, rank) && Distinct(batch)
    requires i < |batch| && TooLate(events, rank, batch[i], answers, budget)
    ensures Spent(batch[..i + 1], answers) >= budget
  {
    BeforeInBatch(events, batch, rank, i, answers, false);
    SpentIsTotal(batch[..i], answers);
    TotalGrows(Before(events, rank, batch[i], answers, false), BatchSet(batch[..i]), answers);
    assert batch[..i + 1][..i] == batch[..i];
  }

  lemma LateIsNotDone(batch: seq<EventId>, i: nat, answers: Answers, budget: nat)
    requires Distinct(batch) && i < |batch| && Spent(batch[..i + 1], answers) >= budget
    ensures forall j :: i <= j < |batch| ==> batch[j] !in Done(batch, answers, budget)
  {
    forall j | i <= j < |batch|
      ensures batch[j] !in Done(batch, answers, budget)
    {
      SpentGrows(batch, i + 1, j + 1, answers);
    }
  }

  /** The refused events before an event are never published, so a blocked event stays blocked. */
  lemma BlockedPass(events: Events, events': Events, limit: int, budget: nat, answers: Answers, rank: Rank, g: EventId)
    requires g in events && Eligible(events[g]) && Blocked(events, limit, budget, answers, rank, g)
    requires RankedPass(events, events', limit, budget, answers, rank)
    ensures g in events' && events'[g] == events[g] && Blocked(events', limit, budget, answers, rank, g)
  {
    var batch :| OldestFirst(events, limit, batch) && Ranked(events, batch, rank) &&
      PassResult(events, events', Done(batch, answers, budget));
    if limit >= 0 && |Before(events, rank, g, answers, false)| >= limit {
      CrowdedOut(events, limit, batch, rank, answers, g);
      SameBefore(events, events', batch, budget, answers, rank, g);
    } else if TooLate(events, rank, g, answers, budget) {
      StaysLate(events, events', batch, budget, answers, rank, g, g);
    } else {
      var f :| f in Before(events, rank, g, answers, true) && TooLate(events, rank, f, answers, budget);
      StaysLate(events, events', batch, budget, answers, rank, f, g);
      assert f in Before(events', rank, g, answers, true);
    }
  }

  lemma CrowdedOut(events: Events, limit: int, batch: seq<EventId>, rank: Rank, answers: Answers, g: EventId)
    requires g in events && OldestFirst(events, limit, batch) && Ranked(events, batch, rank)
    requires 0 <= limit <= |Before(events, rank, g, answers, false)|
    ensures g !in batch
  {
    if g in batch {
      var i :| 0 <= i < |batch| && batch[i] == g;
      BeforeInBatch(events, batch, rank, i, answers, false);
      BatchSetSize(batch[..i]);
      SubsetSize(Before(events, rank, g, answers, false), BatchSet(batch[..i]));
      assert false;
    }
  }

  lemma SameBefore(events: Events, events': Events, batch: seq<EventId>, budget: nat, answers: Answers, rank: Rank,
                   f: EventId)
    requires f in events && PassResult(events, events', Done(batch, answers, budget))
    ensures f in events' && Before(events', rank, f, answers, false) == Before(events, rank, f, answers, false)
    ensures PerhapsBefore(events', rank, f, answers, false) == PerhapsBefore(events, rank, f, answers, false)
  {
  }

  /** An event that is too late is not published, and neither is one after it. */
  lemma StaysLate(events: Events, events': Events, batch: seq<EventId>, budget: nat, answers: Answers, rank: Rank,
                  f: EventId, g: EventId)
    requires (forall j :: 0 <= j < |batch| ==> batch[j] in events) && Ranked(events, batch, rank) && Distinct(batch)
    requires PassResult(events, events', Done(batch, answers, budget))
    requires f in events && g in events && Eligible(events[f]) && TooLate(events, rank, f, answers, budget)
    requires f == g || Ahead(events, rank, f, g)
    ensures events'[f] == events[f] && events'[g] == events[g] && TooLate(events', rank, f, answers, budget)
  {
    SameBefore(events, events', batch, budget, answers, rank, f);
    NotDone(events, batch, budget, answers, rank, f, g);
  }

  lemma NotDone(events: Events, batch: seq<EventId>, budget: nat, answers: Answers, rank: Rank, f: EventId, g: EventId)
    requires (forall j :: 0 <= j < |batch| ==> batch[j] in events) && Ranked(events, batch, rank) && Distinct(batch)
    requires f in events && g in events && Eligible(events[f]) && TooLate(events, rank, f, answers, budget)
    requires f == g || Ahead(events, rank, f, g)
    ensures f !in Done(batch, answers, budget) && g !in Done(batch, answers, budget)
  {
    if f in batch {
      var i :| 0 <= i < |batch| && batch[i] == f;
      TooLateInBatch(events, batch, rank, i, answers, budget);
      LateIsNotDone(batch, i, answers, budget);
      if g in batch {
        var k :| 0 <= k < |batch| && batch[k] == g;
        assert i <= k;
      }
    }
  }

  // ----- when an event gets through -----

  /** Even with every refused event that may come first, `f` is acked in time. */
  ghost predicate Timely(events: Events, rank: Rank, f: EventId, answers: Answers, budget: nat)
    requires f in events
  {
    Total(PerhapsBefore(events, rank, f, answers, false), answers) + answers(f).delay < budget
  }

  ghost predicate Clear(events: Events, limit: int, budget: nat, answers: Answers, rank: Rank, g: EventId)
    requires g in events
  {
    (limit < 0 || |PerhapsBefore(events, rank, g, answers, false)| < limit) &&
      Timely(events, rank, g, answers, budget) &&
    forall f :: f in PerhapsBefore(events, rank, g, answers, true) ==> Timely(events, rank, f, answers, budget)
  }

  /** `f` is acked and is `g` or may come before it. */
  predicate Helps(events: Events, rank: Rank, answers: Answers, g: EventId, f: EventId)
    requires g in events
  {
    answers(f).ack && (f == g || f in PerhapsBefore(events, rank, g, answers, true))
  }

  /** The batch of a clear event holds such an event. */
  lemma SomeHelps(events: Events, limit: int, batch: seq<EventId>, rank: Rank, answers: Answers, g: EventId)
    returns (i: nat)
    requires g in events && Eligible(events[g]) && answers(g).ack
    requires OldestFirst(events, limit, batch) && Ranked(events, batch, rank)
    requires limit < 0 || |PerhapsBefore(events, rank, g, answers, false)| < limit
    ensures i < |batch| && Helps(events, rank, answers, g, batch[i])
    ensures forall j :: 0 <= j < i ==> !Helps(events, rank, answers, g, batch[j])
  {
    if forall j :: 0 <= j < |batch| ==> !Helps(events, rank, answers, g, batch[j]) {
      assert g !in batch;
      forall e | e in batch
        ensures e in PerhapsBefore(events, rank, g, answers, false)
      {
        var j :| 0 <= j < |batch| && batch[j] == e;
        assert !Ahead(events, rank, g, batch[j]);
        assert !Helps(events, rank, answers, g, batch[j]);
      }
      FullBatch(events, limit, batch, g);
      SubsetSize(BatchSet(batch), PerhapsBefore(events, rank, g, answers, false));
      assert false;
    }
    i :| 0 <= i < |batch| && Helps(events, rank, answers, g, batch[i]);
    while exists j :: 0 <= j < i && Helps(events, rank, answers, g, batch[j])
      invariant i < |batch| && Helps(events, rank, answers, g, batch[i])
      decreases i
    {
      var j: nat :| 0 <= j < i && Helps(events, rank, answers, g, batch[j]);
      i := j;
    }
  }

  lemma FullBatch(events: Events, limit: int, batch: seq<EventId>, g: EventId)
    requires OldestFirst(events, limit, batch) && g in events && Eligible(events[g]) && g !in batch
    ensures limit >= 0 && |BatchSet(batch)| == |batch| == limit
  {
    BatchSetSize(batch);
    assert g in EligibleEvents(events) && g !in BatchSet(batch);
    SubsetSize(BatchSet(batch), EligibleEvents(events));
  }

  /** An event of the batch before the first one that helps is refused. */
  lemma EarlierIsRefused(events: Events, limit: int, batch: seq<EventId>, rank: Rank, answers: Answers, g: EventId,
                         i: nat, j: nat)
    requires g in events && OldestFirst(events, limit, batch) && Ranked(events, batch, rank)
    requires j < i < |batch| && Helps(events, rank, answers, g, batch[i]) && !Helps(events, rank, answers, g, batch[j])
    ensures batch[j] in PerhapsBefore(events, rank, batch[i], answers, false)
  {
    assert !Ahead(events, rank, batch[i], batch[j]);
  }

  lemma HelperIsTimely(events: Events, limit: int, budget: nat, rank: Rank, answers: Answers, g: EventId, f: EventId)
    requires g in events && Clear(events, limit, budget, answers, rank, g) && Helps(events, rank, answers, g, f)
    ensures f in events && Timely(events, rank, f, answers, budget)
  {
  }

  /** Everything before the first such event of the batch is refused, so it is acked in time. */
  lemma FirstHelps(events: Events, limit: int, budget: nat, batch: seq<EventId>, rank: Rank, answers: Answers,
                   g: EventId, i: nat)
    requires g in events && Eligible(events[g]) && Clear(events, limit, budget, answers, rank, g)
    requires OldestFirst(events, limit, batch) && Ranked(events, batch, rank)
    requires i < |batch| && Helps(events, rank, answers, g, batch[i])
    requires forall j :: 0 <= j < i ==> !Helps(events, rank, answers, g, batch[j])
    ensures batch[i] in Done(batch, answers, budget)
  {
    var f := batch[i];
    forall e | e in BatchSet(batch[..i])
      ensures e in PerhapsBefore(events, rank, f, answers, false)
    {
      var j :| 0 <= j < i && batch[j] == e;
      EarlierIsRefused(events, limit, batch, rank, answers, g, i, j);
    }
    HelperIsTimely(events, limit, budget, rank, answers, g, f);
    SpentIsTotal(batch[..i], answers);
    TotalGrows(BatchSet(batch[..i]), PerhapsBefore(events, rank, f, answers, false), answers);
    assert batch[..i + 1][..i] == batch[..i];
    assert InTime(batch, i, answers, budget);
  }

  /** A pass publishes a clear event, or an acked one that may come before it; a clear event stays clear. */
  lemma AdvancingPass(events: Events, events': Events, limit: int, budget: nat, answers: Answers, rank: Rank,
                      g: EventId)
    requires g in events && Eligible(events[g]) && answers(g).ack && Clear(events, limit, budget, answers, rank, g)
    requires RankedPass(events, events', limit, budget, answers, rank)
    ensures g in events'
    ensures events'[g].status.EventPublished? ||
            (events'[g] == events[g] && Clear(events', limit, budget, answers, rank, g) &&
             |PerhapsBefore(events', rank, g, answers, true)| < |PerhapsBefore(events, rank, g, answers, true)|)
  {
    var batch :| OldestFirst(events, limit, batch) && Ranked(events, batch, rank) &&
      PassResult(events, events', Done(batch, answers, budget));
    var i := SomeHelps(events, limit, batch, rank, answers, g);
    FirstHelps(events, limit, budget, batch, rank, answers, g, i);
    if batch[i] != g && events'[g] == events[g] {
      StaysClear(events, events', limit, budget, batch, rank, answers, g);
      assert batch[i] !in PerhapsBefore(events', rank, g, answers, true);
      SubsetSize(PerhapsBefore(events', rank, g, answers, true), PerhapsBefore(events, rank, g, answers, true));
    }
  }

  lemma StaysClear(events: Events, events': Events, limit: int, budget: nat, batch: seq<EventId>, rank: Rank,
                   answers: Answers, g: EventId)
    requires g in events && Clear(events, limit, budget, answers, rank, g) &&
             PassResult(events, events', Done(batch, answers, budget))
    ensures g in events' && Clear(events', limit, budget, answers, rank, g)
    ensures PerhapsBefore(events', rank, g, answers, true) <= PerhapsBefore(events, rank, g, answers, true)
  {
    SameBefore(events, events', batch, budget, answers, rank, g);
    forall f | f in PerhapsBefore(events', rank, g, answers, true)
      ensures Timely(events', rank, f, answers, budget)
    {
      assert f in PerhapsBefore(events, rank, g, answers, true);
      SameBefore(events, events', batch, budget, answers, rank, f);
    }
  }

  // ----- many passes -----

  /** `tables` are the committed events before and after successive passes. */
  ghost predicate Passes(tables: seq<Events>, limit: int, budget: nat, answers: Answers) {
    |tables| > 0 && forall i :: 0 <= i < |tables| - 1 ==> Pass(tables[i], tables[i + 1], limit, budget, answers)
  }

  ghost predicate RankedPasses(tables: seq<Events>, limit: int, budget: nat, answers: Answers, rank: Rank) {
    |tables| > 0 && forall i :: 0 <= i < |tables| - 1 ==>
      RankedPass(tables[i], tables[i + 1], limit, budget, answers, rank)
  }

  lemma LaterPasses(tables: seq<Events>, limit: int, budget: nat, answers: Answers, rank: Rank)
    requires RankedPasses(tables, limit, budget, answers, rank) && |tables| > 1
    ensures RankedPass(tables[0], tables[1], limit, budget, answers, rank)
    ensures RankedPasses(tables[1..], limit, budget, answers, rank)
  {
    var rest := tables[1..];
    assert RankedPass(tables[0], tables[0 + 1], limit, budget, answers, rank);
    forall i | 0 <= i < |rest| - 1
      ensures RankedPass(rest[i], rest[i + 1], limit, budget, answers, rank)
    {
      assert RankedPass(tables[i + 1], tables[(i + 1) + 1], limit, budget, answers, rank);
    }
  }

  /** A blocked event is never published, however many passes there are. */
  lemma {:induction false} NeverReached(tables: seq<Events>, limit: int, budget: nat, answers: Answers, rank: Rank,
                                        g: EventId)
    requires RankedPasses(tables, limit, budget, answers, rank)
    requires g in tables[0] && Eligible(tables[0][g]) && Blocked(tables[0], limit, budget, answers, rank, g)
    ensures g in tables[|tables| - 1] && tables[|tables| - 1][g] == tables[0][g]
    decreases |tables|
  {
    if |tables| > 1 {
      LaterPasses(tables, limit, budget, answers, rank);
      BlockedPass(tables[0], tables[1], limit, budget, answers, rank, g);
      NeverReached(tables[1..], limit, budget, answers, rank, g);
    }
  }

  lemma {:induction false} StaysPublished(tables: seq<Events>, limit: int, budget: nat, answers: Answers, rank: Rank,
                                          g: EventId)
    requires RankedPasses(tables, limit, budget, answers, rank) && g in tables[0] && tables[0][g].status.EventPublished?
    ensures g in tables[|tables| - 1] && tables[|tables| - 1][g].status.EventPublished?
    decreases |tables|
  {
    if |tables| > 1 {
      LaterPasses(tables, limit, budget, answers, rank);
      StaysPublished(tables[1..], limit, budget, answers, rank, g);
    }
  }

  /** A clear event is published by more passes than there are acked events that may come before it. */
  lemma {:induction false} Reached(tables: seq<Events>, limit: int, budget: nat, answers: Answers, rank: Rank,
                                   g: EventId)
    requires RankedPasses(tables, limit, budget, answers, rank)
    requires g in tables[0] && Eligible(tables[0][g]) && answers(g).ack &&
             Clear(tables[0], limit, budget, answers, rank, g)
    requires |tables| > |PerhapsBefore(tables[0], rank, g, answers, true)| + 1
    ensures g in tables[|tables| - 1] && tables[|tables| - 1][g].status.EventPublished?
    decreases |tables|
  {
    LaterPasses(tables, limit, budget, answers, rank);
    AdvancingPass(tables[0], tables[1], limit, budget, answers, rank, g);
    if tables[1][g].status.EventPublished? {
      StaysPublished(tables[1..], limit, budget, answers, rank, g);
    } else {
      Reached(tables[1..], limit, budget, answers, rank, g);
    }
  }

  // ----- passes in a given order exist -----

  lemma {:induction false} Pick(events: Events, candidates: set<EventId>, rank: Rank) returns (e: EventId)
    requires candidates != {} && candidates <= events.Keys
    ensures e in candidates && forall f :: f in candidates ==> !Ahead(events, rank, f, e)
    decreases |candidates|
  {
    var first :| first in candidates;
    var rest := candidates - {first};
    e := first;
    if rest != {} {
      var other := Pick(events, rest, rank);
      if Ahead(events, rank, other, first) {
        e := other;
      }
      assert forall f :: f in candidates ==> f == first || f in rest;
    }
  }

  /** A batch in the making; `rest` is still to choose from. */
  ghost predicate Started(events: Events, batch: seq<EventId>, rest: set<EventId>, rank: Rank) {
    && rest <= EligibleEvents(events) && |batch| + |rest| == |EligibleEvents(events)| && Distinct(batch)
    && (forall i :: 0 <= i < |batch| ==> batch[i] in EligibleEvents(events) && batch[i] !in rest)
    && (forall e :: e in EligibleEvents(events) && e !in rest ==> e in batch)
    && (forall i, j :: 0 <= i < j < |batch| ==> !Ahead(events, rank, batch[j], batch[i]))
    && (forall i, f :: 0 <= i < |batch| && f in rest ==> !Ahead(events, rank, f, batch[i]))
  }

  lemma AddOne(events: Events, batch: seq<EventId>, rest: set<EventId>, rank: Rank, e: EventId)
    requires Started(events, batch, rest, rank) && e in rest && forall f :: f in rest ==> !Ahead(events, rank, f, e)
    ensures Started(events, batch + [e], rest - {e}, rank)
  {
  }

  lemma MakeBatch(events: Events, limit: int, rank: Rank) returns (batch: seq<EventId>)
    ensures OldestFirst(events, limit, batch) && Ranked(events, batch, rank)
  {
    var rest := EligibleEvents(events);
    batch := [];
    while rest != {} && (limit < 0 || |batch| < limit)
      invariant Started(events, batch, rest, rank) && (limit >= 0 ==> |batch| <= limit)
      decreases |rest|
    {
      var e := Pick(events, rest, rank);
      AddOne(events, batch, rest, rank, e);
      batch := batch + [e];
      rest := rest - {e};
    }
    SortedByAge(events, batch, rest, rank);
  }

  lemma SortedByAge(events: Events, batch: seq<EventId>, rest: set<EventId>, rank: Rank)
    requires Started(events, batch, rest, rank)
    ensures forall i, j :: 0 <= i < j < |batch| ==> events[batch[i]].createdAt <= events[batch[j]].createdAt
    ensures forall i, e :: 0 <= i < |batch| && e in rest ==> events[batch[i]].createdAt <= events[e].createdAt
  {
    assert forall i, j :: 0 <= i < j < |batch| ==> !Ahead(events, rank, batch[j], batch[i]);
    assert forall i, e :: 0 <= i < |batch| && e in rest ==> !Ahead(events, rank, e, batch[i]);
  }

  lemma MakePass(events: Events, limit: int, budget: nat, answers: Answers, rank: Rank) returns (events': Events)
    ensures RankedPass(events, events', limit, budget, answers, rank)
  {
    var batch := MakeBatch(events, limit, rank);
    var done := Done(batch, answers, budget);
    events' := map e | e in events :: if e in done then events[e].(status := EventPublished) else events[e];
    assert PassResult(events, events', done);
  }

  lemma {:induction false} MakePasses(events: Events, limit: int, budget: nat, answers: Answers, rank: Rank, n: nat)
    returns (tables: seq<Events>)
    ensures RankedPasses(tables, limit, budget, answers, rank) && |tables| == n + 1 && tables[0] == events
    decreases n
  {
    if n == 0 {
      tables := [events];
    } else {
      var next := MakePass(events, limit, budget, answers, rank);
      var rest := MakePasses(next, limit, budget, answers, rank, n - 1);
      tables := [events] + rest;
      forall i | 0 <= i < |tables| - 1
        ensures RankedPass(tables[i], tables[i + 1], limit, budget, answers, rank)
      {
        assert i > 0 ==> RankedPass(rest[i - 1], rest[(i - 1) + 1], limit, budget, answers, rank);
      }
    }
  }

  lemma RankedIsPass(tables: seq<Events>, limit: int, budget: nat, answers: Answers, rank: Rank)
    requires RankedPasses(tables, limit, budget, answers, rank)
    ensures Passes(tables, limit, budget, answers)
  {
    forall i | 0 <= i < |tables| - 1
      ensures Pass(tables[i], tables[i + 1], limit, budget, answers)
    {
      assert RankedPass(tables[i], tables[i + 1], limit, budget, answers, rank);
    }
  }

  /** Without a preference every pass is in order. */
  const ANY_ORDER: Rank := e => 0

  lemma PassIsRanked(tables: seq<Events>, limit: int, budget: nat, answers: Answers)
    requires Passes(tables, limit, budget, answers)
    ensures RankedPasses(tables, limit, budget, answers, ANY_ORDER)
  {
    forall i | 0 <= i < |tables| - 1
      ensures RankedPass(tables[i], tables[i + 1], limit, budget, answers, ANY_ORDER)
    {
      assert Pass(tables[i], tables[i + 1], limit, budget, answers);
      var batch :| OldestFirst(tables[i], limit, batch) &&
        PassResult(tables[i], tables[i + 1], Done(batch, answers, budget));
      assert Ranked(tables[i], batch, ANY_ORDER);
    }
  }

  // ----- certain and possible -----

  ghost predicate Published(tables: seq<Events>, g: EventId) {
    tables != [] && g in tables[|tables| - 1] && tables[|tables| - 1][g].status.EventPublished?
  }

  /** That many passes, one after the other. */
  ghost predicate Series(tables: seq<Events>, events: Events, limit: int, budget: nat, answers: Answers, passes: nat) {
    Passes(tables, limit, budget, answers) && |tables| == passes + 1 && tables[0] == events
  }

  /** `g` is published at the end of every series of that many passes. */
  ghost predicate Certain(events: Events, limit: int, budget: nat, answers: Answers, g: EventId, passes: nat) {
    forall tables: seq<Events> :: Series(tables, events, limit, budget, answers, passes) ==> Published(tables, g)
  }

  /** `g` is published at the end of some series of that many passes. */
  ghost predicate Possible(events: Events, limit: int, budget: nat, answers: Answers, g: EventId, passes: nat) {
    exists tables: seq<Events> :: Series(tables, events, limit, budget, answers, passes) && Published(tables, g)
  }

  /** Other eligible events at least as old as `g`. */
  function AsOld(events: Events, g: EventId, answers: Answers, ack: bool): set<EventId>
    requires g in events
  {
    set e | e in events && Eligible(events[e]) && e != g && events[e].createdAt <= events[g].createdAt &&
      answers(e).ack == ack
  }

  /** Eligible events older than `g`. */
  function Older(events: Events, g: EventId, answers: Answers, ack: bool): set<EventId>
    requires g in events
  {
    set e | e in events && Eligible(events[e]) && events[e].createdAt < events[g].createdAt && answers(e).ack == ack
  }

  ghost predicate Fits(limit: int, refused: set<EventId>) {
    limit < 0 || |refused| < limit
  }

  /** Fewer refused events as old as `g` than the batch takes; and neither for `g` nor for any acked event as old as it
      do the refused events as old as that one, and its own answer, take the time of a pass. */
  ghost predicate GetsThrough(events: Events, limit: int, budget: nat, answers: Answers, g: EventId)
    requires g in events
  {
    Fits(limit, AsOld(events, g, answers, false)) &&
    forall f :: f == g || f in AsOld(events, g, answers, true) ==>
      Total(AsOld(events, f, answers, false), answers) + answers(f).delay < budget
  }

  /** The same with the events that are strictly older. */
  ghost predicate MayGetThrough(events: Events, limit: int, budget: nat, answers: Answers, g: EventId)
    requires g in events
  {
    Fits(limit, Older(events, g, answers, false)) &&
    forall f :: f == g || f in Older(events, g, answers, true) ==>
      Total(Older(events, f, answers, false), answers) + answers(f).delay < budget
  }

  lemma AnyOrder(events: Events, f: EventId, answers: Answers, ack: bool)
    requires f in events
    ensures PerhapsBefore(events, ANY_ORDER, f, answers, ack) == AsOld(events, f, answers, ack)
    ensures Before(events, ANY_ORDER, f, answers, ack) == Older(events, f, answers, ack)
  {
  }

  /** An order of ties that keeps out an event that does not get through for certain. */
  lemma Adverse(events: Events, limit: int, budget: nat, answers: Answers, g: EventId) returns (rank: Rank)
    requires g in events && answers(g).ack && !GetsThrough(events, limit, budget, answers, g)
    ensures Blocked(events, limit, budget, answers, rank, g)
  {
    if !Fits(limit, AsOld(events, g, answers, false)) ||
      Total(AsOld(events, g, answers, false), answers) + answers(g).delay >= budget {
      rank := (e: EventId) => if e == g then 1 else 0;
      assert Before(events, rank, g, answers, false) == AsOld(events, g, answers, false);
    } else {
      var f :| f in AsOld(events, g, answers, true) &&
        Total(AsOld(events, f, answers, false), answers) + answers(f).delay >= budget;
      rank := (e: EventId) => if !answers(e).ack then 0 else if e == f then 1 else 2;
      assert Before(events, rank, f, answers, false) == AsOld(events, f, answers, false);
      assert f in Before(events, rank, g, answers, true);
    }
  }

  /** After enough passes, and whatever the order of ties, an event that the broker acks is certainly published if and
      only if it gets through; otherwise no number of passes makes it certain. */
  lemma CertainExactly(events: Events, limit: int, budget: nat, answers: Answers, g: EventId, passes: nat)
    requires g in events && Eligible(events[g]) && answers(g).ack && passes > |AsOld(events, g, answers, true)|
    ensures Certain(events, limit, budget, answers, g, passes) <==> GetsThrough(events, limit, budget, answers, g)
  {
    if GetsThrough(events, limit, budget, answers, g) {
      forall tables: seq<Events> | Series(tables, events, limit, budget, answers, passes)
        ensures Published(tables, g)
      {
        PassIsRanked(tables, limit, budget, answers);
        ClearInAnyOrder(events, limit, budget, answers, g);
        Reached(tables, limit, budget, answers, ANY_ORDER, g);
      }
    } else {
      var rank := Adverse(events, limit, budget, answers, g);
      var tables := MakePasses(events, limit, budget, answers, rank, passes);
      NeverReached(tables, limit, budget, answers, rank, g);
      RankedIsPass(tables, limit, budget, answers, rank);
      assert !Published(tables, g);
    }
  }

  lemma ClearInAnyOrder(events: Events, limit: int, budget: nat, answers: Answers, g: EventId)
    requires g in events && GetsThrough(events, limit, budget, answers, g)
    ensures Clear(events, limit, budget, answers, ANY_ORDER, g)
    ensures PerhapsBefore(events, ANY_ORDER, g, answers, true) == AsOld(events, g, answers, true)
  {
    AnyOrder(events, g, answers, true);
    AnyOrder(events, g, answers, false);
    forall f | f in PerhapsBefore(events, ANY_ORDER, g, answers, true)
      ensures Timely(events, ANY_ORDER, f, answers, budget)
    {
      AnyOrder(events, f, answers, false);
    }
  }

  /** An order of ties that favours `g`, and acked events over refused ones. */
  function Favourable(answers: Answers, g: EventId): Rank {
    (e: EventId) => if e == g then 0 else if answers(e).ack then 1 else 2
  }

  lemma ClearIfFavoured(events: Events, limit: int, budget: nat, answers: Answers, g: EventId)
    requires g in events && answers(g).ack && MayGetThrough(events, limit, budget, answers, g)
    ensures Clear(events, limit, budget, answers, Favourable(answers, g), g)
    ensures PerhapsBefore(events, Favourable(answers, g), g, answers, true) == Older(events, g, answers, true)
  {
    var rank := Favourable(answers, g);
    assert PerhapsBefore(events, rank, g, answers, true) == Older(events, g, answers, true);
    assert PerhapsBefore(events, rank, g, answers, false) == Older(events, g, answers, false);
    forall f | f in PerhapsBefore(events, rank, g, answers, true)
      ensures Timely(events, rank, f, answers, budget)
    {
      assert PerhapsBefore(events, rank, f, answers, false) == Older(events, f, answers, false);
    }
  }

  /** It can have been published after enough passes if and only if it may get through. */
  lemma PossibleExactly(events: Events, limit: int, budget: nat, answers: Answers, g: EventId, passes: nat)
    requires g in events && Eligible(events[g]) && answers(g).ack && passes > |Older(events, g, answers, true)|
    ensures Possible(events, limit, budget, answers, g, passes) <==> MayGetThrough(events, limit, budget, answers, g)
  {
    if MayGetThrough(events, limit, budget, answers, g) {
      var rank := Favourable(answers, g);
      var tables := MakePasses(events, limit, budget, answers, rank, passes);
      ClearIfFavoured(events, limit, budget, answers, g);
      Reached(tables, limit, budget, answers, rank, g);
      RankedIsPass(tables, limit, budget, answers, rank);
      assert Published(tables, g);
    } else {
      BlockedInAnyOrder(events, limit, budget, answers, g);
      forall tables: seq<Events> | Series(tables, events, limit, budget, answers, passes)
        ensures !Published(tables, g)
      {
        PassIsRanked(tables, limit, budget, answers);
        NeverReached(tables, limit, budget, answers, ANY_ORDER, g);
      }
    }
  }

  lemma BlockedInAnyOrder(events: Events, limit: int, budget: nat, answers: Answers, g: EventId)
    requires g in events && !MayGetThrough(events, limit, budget, answers, g)
    ensures Blocked(events, limit, budget, answers, ANY_ORDER, g)
  {
    AnyOrder(events, g, answers, false);
    AnyOrder(events, g, answers, true);
    forall f | f in Older(events, g, answers, true)
      ensures TooLate(events, ANY_ORDER, f, answers, budget) <==>
              Total(Older(events, f, answers, false), answers) + answers(f).delay >= budget
    {
      AnyOrder(events, f, answers, false);
    }
  }

  ghost predicate DistinctTimes(events: Events) {
    forall e, f :: e in events && f in events && events[e].createdAt == events[f].createdAt ==> e == f
  }

  /** When creation times differ, every series of enough passes publishes the event if and only if it gets through. */
  lemma PublishedExactlyWhen(tables: seq<Events>, limit: int, budget: nat, answers: Answers, g: EventId)
    requires Passes(tables, limit, budget, answers) && DistinctTimes(tables[0])
    requires g in tables[0] && Eligible(tables[0][g]) && answers(g).ack &&
             |tables| > |Older(tables[0], g, answers, true)| + 1
    ensures Published(tables, g) <==> GetsThrough(tables[0], limit, budget, answers, g)
  {
    var events := tables[0];
    forall f, ack | f in events
      ensures AsOld(events, f, answers, ack) == Older(events, f, answers, ack)
    {
    }
    CertainExactly(events, limit, budget, answers, g, |tables| - 1);
    PossibleExactly(events, limit, budget, answers, g, |tables| - 1);
  }

  // ----- answers at once or not at all -----

  /** The broker answers at once, or not before the pass is over. */
  ghost predicate Prompt(answers: Answers, budget: nat) {
    forall e :: answers(e).delay == 0 || answers(e).delay >= budget
  }

  lemma {:induction false} PromptTotal(s: set<EventId>, answers: Answers, budget: nat)
    requires Prompt(answers, budget) && budget > 0
    ensures Total(s, answers) < budget <==> forall e :: e in s ==> answers(e).delay == 0
    ensures (forall e :: e in s ==> answers(e).delay == 0) ==> Total(s, answers) == 0
    decreases s
  {
    if s != {} {
      var e :| e in s;
      TotalWithout(s, answers, e);
      PromptTotal(s - {e}, answers, budget);
      assert forall f :: f in s ==> f == e || f in s - {e};
    }
  }

  /** Then an event is certain to be published if and only if fewer events as old as it are refused than the batch
      takes, and the broker leaves none of them unanswered: one such event keeps all later ones out for ever. */
  lemma PromptlyCertain(events: Events, limit: int, budget: nat, answers: Answers, g: EventId, passes: nat)
    requires Prompt(answers, budget) && budget > 0
    requires g in events && Eligible(events[g]) && answers(g) == Answer(true, 0) &&
             passes > |AsOld(events, g, answers, true)|
    ensures Certain(events, limit, budget, answers, g, passes) <==>
            Fits(limit, AsOld(events, g, answers, false)) &&
            forall e :: e in AsOld(events, g, answers, true) + AsOld(events, g, answers, false) ==>
              answers(e).delay == 0
  {
    CertainExactly(events, limit, budget, answers, g, passes);
    PromptTotal(AsOld(events, g, answers, false), answers, budget);
    if forall e :: e in AsOld(events, g, answers, true) + AsOld(events, g, answers, false) ==> answers(e).delay == 0 {
      forall f | f in AsOld(events, g, answers, true)
        ensures Total(AsOld(events, f, answers, false), answers) + answers(f).delay < budget
      {
        assert AsOld(events, f, answers, false) <= AsOld(events, g, answers, false);
        PromptTotal(AsOld(events, f, answers, false), answers, budget);
      }
    }
  }

  // ----- draining -----

  /** With a broker that acks everything, a pass takes events off the backlog one for one; at least one if there are any
      and each answer comes in time; and the whole batch if all its answers do. */
  lemma PassDrains(events: Events, events': Events, limit: int, budget: nat, answers: Answers, slowest: nat)
    requires Pass(events, events', limit, budget, answers)
    requires forall e :: e in events ==> answers(e).ack && answers(e).delay <= slowest
    ensures events'.Keys == events.Keys
    ensures var n := |EligibleEvents(events)|; var batch := BatchLength(limit, n);
      && n - batch <= |EligibleEvents(events')| <= n
      && (slowest < budget && batch > 0 ==> |EligibleEvents(events')| < n)
      && (batch * slowest < budget ==> |EligibleEvents(events')| == n - batch)
  {
    var batch :| OldestFirst(events, limit, batch) && PassResult(events, events', Done(batch, answers, budget));
    var done := Done(batch, answers, budget);
    BatchSetSize(batch);
    assert done <= BatchSet(batch) <= EligibleEvents(events);
    SubsetSize(done, BatchSet(batch));
    assert EligibleEvents(events') == EligibleEvents(events) - done;
    if slowest < budget && batch != [] {
      FirstDone(batch, answers, budget);
    }
    if |batch| * slowest < budget {
      AllDone(batch, answers, budget, slowest);
    }
  }

  lemma FirstDone(batch: seq<EventId>, answers: Answers, budget: nat)
    requires batch != [] && answers(batch[0]).ack && answers(batch[0]).delay < budget
    ensures batch[0] in Done(batch, answers, budget)
  {
    assert batch[..1] == [batch[0]] && batch[..1][..0] == [];
    assert InTime(batch, 0, answers, budget);
  }

  lemma AllDone(batch: seq<EventId>, answers: Answers, budget: nat, slowest: nat)
    requires forall i :: 0 <= i < |batch| ==> answers(batch[i]).ack && answers(batch[i]).delay <= slowest
    requires |batch| * slowest < budget
    ensures Done(batch, answers, budget) == BatchSet(batch)
  {
    SpentAtMost(batch, answers, slowest);
    assert batch[..|batch|] == batch;
    forall i | 0 <= i < |batch|
      ensures InTime(batch, i, answers, budget)
    {
      SpentGrows(batch, i + 1, |batch|, answers);
    }
  }

  lemma {:induction false} SpentAtMost(batch: seq<EventId>, answers: Answers, slowest: nat)
    requires forall i :: 0 <= i < |batch| ==> answers(batch[i]).delay <= slowest
    ensures Spent(batch, answers) <= |batch| * slowest
  {
    if batch != [] {
      SpentAtMost(batch[..|batch| - 1], answers, slowest);
    }
  }

  /** So k passes leave at most n - k events when each answer comes in time, and exactly those that exceed k batches
      when the answers of a whole batch do. */
  lemma {:induction false} BacklogDrains(tables: seq<Events>, limit: nat, budget: nat, answers: Answers, slowest: nat)
    requires Passes(tables, limit, budget, answers) && limit > 0 && slowest < budget
    requires forall e :: e in tables[0] ==> answers(e).ack && answers(e).delay <= slowest
    ensures var n, k := |EligibleEvents(tables[0])|, |tables| - 1;
      && |EligibleEvents(tables[k])| <= Minus(n, k)
      && (limit * slowest < budget ==> |EligibleEvents(tables[k])| == Minus(n, k * limit))
    decreases |tables|
  {
    if |tables| > 1 {
      assert Pass(tables[0], tables[0 + 1], limit, budget, answers);
      PassDrains(tables[0], tables[1], limit, budget, answers, slowest);
      NextPasses(tables, limit, budget, answers);
      BacklogDrains(tables[1..], limit, budget, answers, slowest);
      assert tables[1..][|tables| - 2] == tables[|tables| - 1];
      OnePassLess(|EligibleEvents(tables[0])|, |EligibleEvents(tables[1])|, limit, slowest, |tables| - 1);
    }
  }

  /** What is left of `n` after taking away as many as there are, up to `m`. */
  function Minus(n: nat, m: nat): nat {
    if n <= m then 0 else n - m
  }

  lemma OnePassLess(n: nat, m: nat, limit: nat, slowest: nat, k: nat)
    requires limit > 0 && k > 0
    ensures BatchLength(limit, n) * slowest <= limit * slowest
    ensures m <= n && (n > 0 ==> m < n) ==> Minus(m, k - 1) <= Minus(n, k)
    ensures m == n - BatchLength(limit, n) ==> Minus(m, (k - 1) * limit) == Minus(n, k * limit)
  {
    SmallerBatch(BatchLength(limit, n), limit, slowest);
    Multiples(k, limit);
  }

  lemma Multiples(k: nat, limit: nat)
    requires k > 0
    ensures k * limit == (k - 1) * limit + limit && (k - 1) * limit >= 0
  {
  }

  lemma SmallerBatch(a: nat, b: nat, c: nat)
    requires a <= b
    ensures a * c <= b * c
  {
  }

  lemma NextPasses(tables: seq<Events>, limit: int, budget: nat, answers: Answers)
    requires Passes(tables, limit, budget, answers) && |tables| > 1
    ensures Passes(tables[1..], limit, budget, answers)
  {
    var rest := tables[1..];
    forall i | 0 <= i < |rest| - 1
      ensures Pass(rest[i], rest[i + 1], limit, budget, answers)
    {
      assert Pass(tables[i + 1], tables[(i + 1) + 1], limit, budget, answers);
    }
  }
}
