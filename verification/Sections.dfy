/** What a critical section of the broker does to the table of pending confirms when nothing else runs in between, and
    that each such section is a run of the confirm protocol. */
module Sections {
  import opened Confirms

  // ----- effects -----

  function Publishing(t: Table, tag: nat, k: nat, ch: nat, accepted: bool): Table {
    var made := t.(chans := t.chans[ch := Chan(k, tag, [], false)], pending := t.pending[tag := ch]);
    if accepted then made else made.(pending := made.pending - {tag})
  }

  /** The channel under the tag, if there is one, gets the confirmation, is closed and leaves the map. */
  function Confirming(t: Table, confirm: Confirmation): Table {
    if confirm.tag in t.pending && t.pending[confirm.tag] in t.chans then
      var ch := t.pending[confirm.tag];
      t.(chans := t.chans[ch := t.chans[ch].(buf := t.chans[ch].buf + [confirm], closed := true)],
         pending := t.pending - {confirm.tag})
    else t
  }

  function Receiving(t: Table, ch: nat): Table {
    if ch in t.chans && t.chans[ch].buf != [] then t.(chans := t.chans[ch := t.chans[ch].(buf := t.chans[ch].buf[1..])])
      else t
  }

  function Expiring(t: Table, tag: nat): Table {
    t.(pending := t.pending - {tag})
  }

  function ClosingAll(t: Table): Table {
    t.(chans := map ch | ch in t.chans :: if ch in t.pending.Values then t.chans[ch].(closed := true) else t.chans[ch],
       pending := map[])
  }

  /** What a call returns that waits no longer. */
  function Outcome(chan: Chan, expired: bool): Result {
    if expired then TimedOut else if chan.buf != [] && chan.buf[0].ack then Acknowledged else Nacked
  }

  // ----- runs -----

  ghost predicate Leads(s: State, s': State) {
    exists steps :: Run(s, steps) && After(s, steps) == s'
  }

  lemma Stay(s: State)
    ensures Leads(s, s)
  {
    assert Run(s, []) && After(s, []) == s;
  }

  lemma Then(s: State, a: Step, s': State)
    requires Enabled(s, a) && Leads(Apply(s, a), s')
    ensures Leads(s, s')
  {
    var rest :| Run(Apply(s, a), rest) && After(Apply(s, a), rest) == s';
    var steps := [a] + rest;
    assert steps[0] == a && steps[1..] == rest;
    assert Run(s, steps) && After(s, steps) == s';
  }

  lemma {:induction false} RunThen(s: State, steps: seq<Step>, s': State)
    requires Run(s, steps) && Leads(After(s, steps), s')
    ensures Leads(s, s')
    decreases |steps|
  {
    if steps != [] {
      RunThen(Apply(s, steps[0]), steps[1..], s');
      Then(s, steps[0], s');
    }
  }

  lemma Follow(s: State, s1: State, s2: State)
    requires Leads(s, s1) && Leads(s1, s2)
    ensures Leads(s, s2)
  {
    var steps :| Run(s, steps) && After(s, steps) == s1;
    RunThen(s, steps, s2);
  }

  /** Publishing, from the call to the end of its section, with a channel and a tag of its own. */
  lemma PublishIsRun(s: State, k: nat, ch: nat, accepted: bool) returns (s': State)
    requires k !in s.calls && ch !in s.table.chans && s.mutex.Free?
    ensures Leads(s, s') && s'.mutex.Free? && s'.loop == s.loop && s'.cancelled == s.cancelled
    ensures s'.table == Publishing(s.table, s.conn.next, k, ch, accepted)
    ensures s'.calls == s.calls[k := Call(if accepted then Waiting else Returned(SendFailed), s.conn.next, ch)]
    ensures s'.conn == if accepted then s.conn.(next := s.conn.next + 1, sentBy := s.conn.sentBy[s.conn.next := k])
            else s.conn
  {
    var s1 := RegisterIsRun(s, k, ch);
    s' := SendIsRun(s1, k, accepted);
    Follow(s, s1, s');
  }

  lemma RegisterIsRun(s: State, k: nat, ch: nat) returns (s': State)
    requires k !in s.calls && ch !in s.table.chans && s.mutex.Free?
    ensures Leads(s, s') && s'.loop == s.loop && s'.cancelled == s.cancelled && s'.conn == s.conn
    ensures s'.table == Publishing(s.table, s.conn.next, k, ch, true)
    ensures s'.calls == s.calls[k := Call(Registered, s.conn.next, ch)]
  {
    var s1 := Apply(s, Caller(Begin(k)));
    var s2 := Apply(s1, Caller(Lock(k)));
    s' := Apply(s2, Caller(Register(k, ch)));
    Stay(s');
    Then(s2, Caller(Register(k, ch)), s');
    Then(s1, Caller(Lock(k)), s');
    Then(s, Caller(Begin(k)), s');
  }

  lemma SendIsRun(s: State, k: nat, accepted: bool) returns (s': State)
    requires k in s.calls && s.calls[k].pc.Registered?
    ensures Leads(s, s') && s'.mutex.Free? && s'.loop == s.loop && s'.cancelled == s.cancelled
    ensures s'.table == if accepted then s.table else s.table.(pending := s.table.pending - {s.calls[k].tag})
    ensures s'.calls == s.calls[k := s.calls[k].(pc := if accepted then Waiting else Returned(SendFailed))]
    ensures s'.conn == if accepted then s.conn.(next := s.conn.next + 1, sentBy := s.conn.sentBy[s.calls[k].tag := k])
            else s.conn
  {
    if accepted {
      var s1 := Apply(s, Caller(Send(k)));
      s' := Apply(s1, Caller(Unlock(k)));
      Stay(s');
      Then(s1, Caller(Unlock(k)), s');
      Then(s, Caller(Send(k)), s');
    } else {
      s' := Apply(s, Caller(SendFails(k)));
      Stay(s');
      Then(s, Caller(SendFails(k)), s');
    }
  }

  /** A call whose channel is readable, or whose time is up, returns. */
  lemma AwaitIsRun(s: State, k: nat, expired: bool) returns (s': State)
    requires k in s.calls && s.calls[k].pc.Waiting? && s.calls[k].chan in s.table.chans && s.mutex.Free?
    requires expired || s.table.chans[s.calls[k].chan].buf != [] || s.table.chans[s.calls[k].chan].closed
    ensures Leads(s, s') && s'.mutex.Free? && s'.loop == s.loop && s'.conn == s.conn && s'.cancelled == s.cancelled
    ensures s'.table == if expired then Expiring(s.table, s.calls[k].tag) else Receiving(s.table, s.calls[k].chan)
    ensures s'.calls == s.calls[k := s.calls[k].(pc := Returned(Outcome(s.table.chans[s.calls[k].chan], expired)))]
  {
    if expired {
      var s1 := Apply(s, Caller(Expire(k)));
      var s2 := Apply(s1, Caller(LockDelete(k)));
      s' := Apply(s2, Caller(Delete(k)));
      Stay(s');
      Then(s2, Caller(Delete(k)), s');
      Then(s1, Caller(LockDelete(k)), s');
      Then(s, Caller(Expire(k)), s');
    } else {
      var a := Caller(if s.table.chans[s.calls[k].chan].buf != [] then Receive(k) else ReceiveClosed(k));
      s' := Apply(s, a);
      Stay(s');
      Then(s, a, s');
    }
  }

  /** The loop's section for a confirmation that it has taken. */
  lemma ConfirmIsRun(s: State, confirm: Confirmation) returns (s': State)
    requires PendingInv(s) && s.loop == Got(confirm) && s.mutex.Free?
    ensures Leads(s, s') && s'.table == Confirming(s.table, confirm)
    ensures s'.mutex.Free? && s'.loop.Idle? && s'.calls == s.calls && s'.conn == s.conn && s'.cancelled == s.cancelled
  {
    var s1 := Apply(s, Loop(LoopLock));
    var s2 := Apply(s1, Loop(LookUp));
    if confirm.tag in s.table.pending {
      var s3 := Apply(s2, Loop(Deliver));
      var s4 := Apply(s3, Loop(CloseChan));
      s' := Apply(s4, Loop(Remove));
      Stay(s');
      Then(s4, Loop(Remove), s');
      Then(s3, Loop(CloseChan), s');
      Then(s2, Loop(Deliver), s');
    } else {
      s' := s2;
      Stay(s');
    }
    Then(s1, Loop(LookUp), s');
    Then(s, Loop(LoopLock), s');
  }

  /** Closing one channel first leaves the same to the others. */
  lemma ClosedFirst(t: Table, t': Table, tag: nat)
    requires tag in t.pending && t.pending[tag] in t.chans && t'.pending == t.pending - {tag} &&
             t'.panicked == t.panicked
    requires t'.chans == t.chans[t.pending[tag] := t.chans[t.pending[tag]].(closed := true)]
    ensures ClosingAll(t') == ClosingAll(t)
  {
    forall ch | ch in t.chans
      ensures ch in t'.pending.Values || t'.chans[ch].closed <==> ch in t.pending.Values || t.chans[ch].closed
    {
      if ch in t.pending.Values && ch != t.pending[tag] {
        var other :| other in t.pending && t.pending[other] == ch;
        assert other in t'.pending && t'.pending[other] == ch;
      }
      if ch == t.pending[tag] {
        assert ch in t.pending.Values;
      }
    }
  }

  lemma {:induction false} CloseRest(s: State) returns (s': State)
    requires MutexInv(s) && PendingInv(s) && s.loop.CloseAll?
    ensures Leads(s, s') && s'.table == ClosingAll(s.table)
    ensures s'.mutex.Free? && s'.loop.Stopped? && s'.calls == s.calls && s'.conn == s.conn &&
            s'.cancelled == s.cancelled
    decreases |s.table.pending|
  {
    if s.table.pending == map[] {
      var a := Loop(FinishCloseAll);
      s' := Apply(s, a);
      assert ClosingAll(s.table) == s.table;
      Stay(s');
      Then(s, a, s');
    } else {
      var tag :| tag in s.table.pending;
      var a := Loop(CloseOne(tag));
      ClosedFirst(s.table, Apply(s, a).table, tag);
      MutexStep(s, a);
      PendingLoop(s, a.loop);
      assert Apply(s, a).table.pending.Keys == s.table.pending.Keys - {tag};
      s' := CloseRest(Apply(s, a));
      Then(s, a, s');
    }
  }

  /** The loop's last section. */
  lemma CloseAllIsRun(s: State) returns (s': State)
    requires MutexInv(s) && PendingInv(s) && s.loop.WantsCloseAll? && s.mutex.Free?
    ensures Leads(s, s') && s'.table == ClosingAll(s.table)
    ensures s'.mutex.Free? && s'.loop.Stopped? && s'.calls == s.calls && s'.conn == s.conn &&
            s'.cancelled == s.cancelled
  {
    var a := Loop(LockCloseAll);
    MutexStep(s, a);
    PendingLoop(s, a.loop);
    s' := CloseRest(Apply(s, a));
    Then(s, a, s');
  }
}
