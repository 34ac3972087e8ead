/** The broker's critical sections as code: each holds the mutex from start to end, so no other section runs in
    between. Sending to a full channel would block and using a closed one panics; both are preconditions here. */
module Broker {
  import opened Confirms
  import opened Sections

  class ConfirmChan {
    ghost const id: nat
    ghost const call: nat
    ghost const tag: nat
    var buf: seq<Confirmation>
    var closed: bool

    ghost function State(): Chan
      reads this
    {
      Chan(call, tag, buf, closed)
    }

    constructor (ghost id: nat, ghost call: nat, ghost tag: nat)
      ensures this.id == id && this.tag == tag && State() == Chan(call, tag, [], false)
    {
      this.id, this.call, this.tag := id, call, tag;
      buf, closed := [], false;
    }

    method Send(confirm: Confirmation)
      requires buf == [] && !closed
      modifies this`buf
      ensures buf == [confirm]
    {
      buf := [confirm];
    }

    method Close()
      requires !closed
      modifies this`closed
      ensures closed
    {
      closed := true;
    }

    /** A closed, empty channel yields the zero confirmation, which is not an ack. */
    method Receive() returns (confirm: Confirmation)
      requires buf != [] || closed
      modifies this`buf
      ensures if old(buf) != [] then confirm == old(buf)[0] && buf == old(buf)[1..]
              else confirm == Confirmation(0, false) && buf == []
    {
      if buf != [] {
        confirm := buf[0];
        buf := buf[1..];
      } else {
        confirm := Confirmation(0, false);
      }
    }
  }

  class RabbitMQBroker {
    var pendingConfirms: map<nat, ConfirmChan>
    /** The next delivery tag of the connection's channel. */
    var next: nat
    /** Every channel ever made. */
    ghost var chans: map<nat, ConfirmChan>

    /** Entries are open and empty, each under its own tag, which was handed out before. */
    ghost predicate Valid()
      reads this, chans.Values, pendingConfirms.Values
    {
      Below(next)
    }

    ghost predicate Below(limit: nat)
      reads this`chans, this`pendingConfirms, chans.Values, pendingConfirms.Values
    {
      && (forall id :: id in chans ==> chans[id].id == id)
      && (forall tag :: tag in pendingConfirms ==> tag < limit && Entry(tag, pendingConfirms[tag]))
    }

    ghost predicate Entry(tag: nat, ch: ConfirmChan)
      reads this`chans, ch
    {
      ch.id in chans && chans[ch.id] == ch && ch.tag == tag && ch.buf == [] && !ch.closed
    }

    /** The table of the confirm protocol that the object stands for. */
    ghost function State(): Table
      reads this`chans, this`pendingConfirms, chans.Values
    {
      Table(map tag | tag in pendingConfirms :: pendingConfirms[tag].id, map id | id in chans :: chans[id].State(),
        false)
    }

    constructor ()
      ensures Valid() && State() == Table(map[], map[], false) && next == 1
    {
      pendingConfirms, next, chans := map[], 1, map[];
    }

    /** The section of publishing call `k`; `accepted` is whether the client library took the message. A failed publish
        uses up no tag. */
    method Publish(accepted: bool, ghost k: nat, ghost id: nat) returns (tag: nat, ch: ConfirmChan)
      requires Valid() && id !in chans
      modifies this
      ensures Valid() && fresh(ch) && chans == old(chans)[id := ch] && ch.id == id
      ensures State() == Publishing(old(State()), tag, k, id, accepted)
      ensures tag == old(next) && next == if accepted then tag + 1 else tag
      ensures pendingConfirms == if accepted then old(pendingConfirms)[tag := ch] else old(pendingConfirms)
    {
      tag := next;
      ch := Register(k, id);
      if !accepted {
        Remove(tag);
        return;
      }
      next := next + 1;
    }

    method Register(ghost k: nat, ghost id: nat) returns (ch: ConfirmChan)
      requires Valid() && id !in chans
      modifies this`chans, this`pendingConfirms
      ensures Below(next + 1) && fresh(ch) && chans == old(chans)[id := ch] && ch.id == id
      ensures State() == Publishing(old(State()), next, k, id, true)
      ensures pendingConfirms == old(pendingConfirms)[next := ch]
    {
      ch := Make(k, id);
      Enter(ch);
    }

    method Make(ghost k: nat, ghost id: nat) returns (ch: ConfirmChan)
      requires Valid() && id !in chans
      modifies this`chans
      ensures Valid() && fresh(ch) && ch.tag == next && Entry(next, ch) && chans == old(chans)[id := ch] && ch.id == id
      ensures State() == old(State()).(chans := old(State()).chans[id := Chan(k, next, [], false)])
    {
      ghost var before := State();
      ch := new ConfirmChan(id, k, next);
      chans := chans[id := ch];
      assert State().chans == before.chans[id := Chan(k, next, [], false)];
    }

    method Enter(ch: ConfirmChan)
      requires Valid() && Entry(next, ch)
      modifies this`pendingConfirms
      ensures Below(next + 1) && pendingConfirms == old(pendingConfirms)[next := ch]
      ensures State() == old(State()).(pending := old(State()).pending[next := ch.id])
    {
      ghost var before := State();
      pendingConfirms := pendingConfirms[next := ch];
      assert State().pending == before.pending[next := ch.id];
    }

    method Remove(tag: nat)
      requires Below(next + 1) && tag == next
      modifies this`pendingConfirms
      ensures Valid() && pendingConfirms == old(pendingConfirms) - {tag}
      ensures State() == Expiring(old(State()), tag)
    {
      pendingConfirms := pendingConfirms - {tag};
    }

    /** What the call returns after its channel became readable or its time was up. */
    method Await(tag: nat, ch: ConfirmChan, expired: bool) returns (r: Result)
      requires Valid() && ch.id in chans && chans[ch.id] == ch && ch.tag == tag &&
               (expired || ch.buf != [] || ch.closed)
      modifies this`pendingConfirms, ch`buf
      ensures Valid() && r == Outcome(old(ch.State()), expired)
      ensures State() == if expired then Expiring(old(State()), tag) else Receiving(old(State()), ch.id)
      ensures r == Acknowledged <==> !expired && old(ch.buf) != [] && old(ch.buf)[0].ack
    {
      if expired {
        pendingConfirms := pendingConfirms - {tag};
        return TimedOut;
      }
      var confirm := ch.Receive();
      r := if confirm.ack then Acknowledged else Nacked;
    }

    /** The loop's section for one confirmation: the channel found under the tag gets it and is closed. */
    method HandleConfirmation(confirm: Confirmation)
      requires Valid()
      modifies this`pendingConfirms, pendingConfirms.Values
      ensures Valid() && State() == Confirming(old(State()), confirm)
      ensures pendingConfirms == old(pendingConfirms) - {confirm.tag}
    {
      ghost var before := State();
      if confirm.tag in pendingConfirms {
        var ch := pendingConfirms[confirm.tag];
        ch.Send(confirm);
        ch.Close();
        pendingConfirms := pendingConfirms - {confirm.tag};
        assert before.chans[ch.id].buf + [confirm] == [confirm];
        assert State().chans == before.chans[ch.id := Chan(ch.call, ch.tag, [confirm], true)];
        assert State().pending == before.pending - {confirm.tag};
      } else {
        assert pendingConfirms == pendingConfirms - {confirm.tag};
      }
    }

    /** The loop's last section: every call that still waits sees its channel closed. */
    method CloseAll()
      requires Valid()
      modifies this`pendingConfirms, pendingConfirms.Values
      ensures Valid() && pendingConfirms == map[] && State() == ClosingAll(old(State()))
    {
      ghost var all := pendingConfirms;
      while pendingConfirms != map[]
        invariant Valid()
        invariant forall tag :: tag in pendingConfirms ==> tag in all && pendingConfirms[tag] == all[tag]
        invariant ClosingAll(State()) == ClosingAll(old(State()))
        decreases |pendingConfirms.Keys|
      {
        var tag :| tag in pendingConfirms;
        assert all[tag] in all.Values;
        ghost var left := pendingConfirms.Keys - {tag};
        CloseOne(tag);
        assert pendingConfirms.Keys == left;
      }
      assert ClosingAll(State()) == State();
    }

    method CloseOne(tag: nat)
      requires Valid() && tag in pendingConfirms
      modifies this`pendingConfirms, (pendingConfirms[tag] as ConfirmChan)`closed
      ensures Valid() && pendingConfirms == old(pendingConfirms) - {tag}
      ensures ClosingAll(State()) == ClosingAll(old(State()))
    {
      ghost var before := State();
      pendingConfirms[tag].Close();
      pendingConfirms := pendingConfirms - {tag};
      ClosedFirst(before, State(), tag);
    }
  }
}
