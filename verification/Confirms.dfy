/** Publisher confirms on one connection: concurrent publishers, the confirmation loop, timeouts and shutdown share
    a mutex-protected map from delivery tag to a one-shot channel. Every lock, map and channel operation is a step. */
module Confirms {

  datatype Confirmation = Confirmation(tag: nat, ack: bool)

  /** A channel of capacity one, made by call `call` for delivery tag `tag`. */
  datatype Chan = Chan(call: nat, tag: nat, buf: seq<Confirmation>, closed: bool)

  datatype Result = Acknowledged | Nacked | TimedOut | SendFailed
  datatype CallPc = WantsLock | InSection | Registered | Sent | Waiting | WantsDelete | Deleting
    | Returned(result: Result)
  datatype Call = Call(pc: CallPc, tag: nat, chan: nat)

  datatype LoopPc =
    | NotStarted | Idle
    | Got(confirm: Confirmation) | Holding(confirm: Confirmation)
    | Sending(confirm: Confirmation, chan: nat) | Closing(confirm: Confirmation, chan: nat)
      | Removing(confirm: Confirmation)
    | WantsCloseAll | CloseAll | Stopped

  datatype Mutex = Free | HeldByCall(k: nat) | HeldByLoop

  /** The broker's side: the next delivery tag, who sent each tag, what the broker answered, and the answers on
      their way to the loop. */
  datatype Conn = Conn(next: nat, sentBy: map<nat, nat>, answered: map<nat, bool>, queue: seq<Confirmation>,
    closed: bool)

  /** The map from delivery tag to channel, all channels ever made, and whether a channel operation panicked. */
  datatype Table = Table(pending: map<nat, nat>, chans: map<nat, Chan>, panicked: bool)

  datatype State = State(conn: Conn, table: Table, calls: map<nat, Call>, mutex: Mutex, loop: LoopPc, cancelled: bool)

  function Init(): State {
    State(Conn(1, map[], map[], [], false), Table(map[], map[], false), map[], Free, NotStarted, false)
  }

  // ----- publishing calls -----

  datatype CallStep =
    | Begin(k: nat)
    | Lock(k: nat)
    | Register(k: nat, ch: nat)
    | Send(k: nat)
    | SendFails(k: nat)
    | Unlock(k: nat)
    | Receive(k: nat)
    | ReceiveClosed(k: nat)
    | Expire(k: nat)
    | LockDelete(k: nat)
    | Delete(k: nat)

  predicate CallEnabled(s: State, a: CallStep) {
    if a.Begin? then a.k !in s.calls
    else
      a.k in s.calls &&
      var c := s.calls[a.k];
      match a
      case Begin(k) => false
      case Lock(k) => c.pc.WantsLock? && s.mutex.Free?
      case Register(k, ch) => c.pc.InSection? && ch !in s.table.chans
      case Send(k) => c.pc.Registered?
      case SendFails(k) => c.pc.Registered?
      case Unlock(k) => c.pc.Sent?
      case Receive(k) => c.pc.Waiting? && c.chan in s.table.chans && s.table.chans[c.chan].buf != []
      case ReceiveClosed(k) => c.pc.Waiting? && c.chan in s.table.chans && s.table.chans[c.chan].buf == [] &&
        s.table.chans[c.chan].closed
      case Expire(k) => c.pc.Waiting?
      case LockDelete(k) => c.pc.WantsDelete? && s.mutex.Free?
      case Delete(k) => c.pc.Deleting?
  }

  /** The call after the step. */
  function NextCall(s: State, a: CallStep): Call
    requires CallEnabled(s, a)
  {
    if a.Begin? then Call(WantsLock, 0, 0)
    else
      var c := s.calls[a.k];
      match a
      case Begin(k) => c
      case Lock(k) => c.(pc := InSection)
      case Register(k, ch) => Call(Registered, s.conn.next, ch)
      case Send(k) => c.(pc := Sent)
      case SendFails(k) => c.(pc := Returned(SendFailed))
      case Unlock(k) => c.(pc := Waiting)
      case Receive(k) => c.(pc := Returned(if s.table.chans[c.chan].buf[0].ack then Acknowledged else Nacked))
      case ReceiveClosed(k) => c.(pc := Returned(Nacked))
      case Expire(k) => c.(pc := WantsDelete)
      case LockDelete(k) => c.(pc := Deleting)
      case Delete(k) => c.(pc := Returned(TimedOut))
  }

  function CallMutex(s: State, a: CallStep): Mutex {
    if a.Lock? || a.LockDelete? then HeldByCall(a.k)
    else if a.SendFails? || a.Unlock? || a.Delete? then Free
    else s.mutex
  }

  function CallConn(s: State, a: CallStep): Conn
    requires CallEnabled(s, a)
  {
    if a.Send? then s.conn.(next := s.conn.next + 1, sentBy := s.conn.sentBy[s.calls[a.k].tag := a.k]) else s.conn
  }

  function CallTable(s: State, a: CallStep): Table
    requires CallEnabled(s, a)
  {
    var t := s.table;
    match a
    case Register(k, ch) =>
      t.(chans := t.chans[ch := Chan(k, s.conn.next, [], false)], pending := t.pending[s.conn.next := ch])
    case SendFails(k) => t.(pending := t.pending - {s.calls[k].tag})
    case Receive(k) =>
      var ch := s.calls[k].chan;
      t.(chans := t.chans[ch := t.chans[ch].(buf := t.chans[ch].buf[1..])])
    case Delete(k) => t.(pending := t.pending - {s.calls[k].tag})
    case _ => t
  }

  // ----- the confirmation loop -----

  datatype LoopStep =
    | Start
    | Take
    | LoopLock
    | LookUp
    | Deliver
    | CloseChan
    | Remove
    | SeeCancel
    | LockCloseAll
    | CloseOne(tag: nat)
    | FinishCloseAll
    | SeeClosed

  /** Delivering to a full channel would block, to a closed one it panics. */
  predicate LoopEnabled(s: State, a: LoopStep) {
    match a
    case Start => s.loop.NotStarted?
    case Take => s.loop.Idle? && s.conn.queue != []
    case LoopLock => s.loop.Got? && s.mutex.Free?
    case LookUp => s.loop.Holding?
    case Deliver =>
      s.loop.Sending? && s.loop.chan in s.table.chans &&
      (s.table.chans[s.loop.chan].closed || s.table.chans[s.loop.chan].buf == [])
    case CloseChan => s.loop.Closing? && s.loop.chan in s.table.chans
    case Remove => s.loop.Removing?
    case SeeCancel => s.loop.Idle? && s.cancelled
    case LockCloseAll => s.loop.WantsCloseAll? && s.mutex.Free?
    case CloseOne(tag) => s.loop.CloseAll? && tag in s.table.pending && s.table.pending[tag] in s.table.chans
    case FinishCloseAll => s.loop.CloseAll? && s.table.pending == map[]
    case SeeClosed => s.loop.Idle? && s.conn.closed
  }

  function NextLoop(s: State, a: LoopStep): LoopPc
    requires LoopEnabled(s, a)
  {
    match a
    case Start => Idle
    case Take => Got(s.conn.queue[0])
    case LoopLock => Holding(s.loop.confirm)
    case LookUp =>
      if s.loop.confirm.tag in s.table.pending then Sending(s.loop.confirm, s.table.pending[s.loop.confirm.tag])
        else Idle
    case Deliver => Closing(s.loop.confirm, s.loop.chan)
    case CloseChan => Removing(s.loop.confirm)
    case Remove => Idle
    case SeeCancel => WantsCloseAll
    case LockCloseAll => CloseAll
    case CloseOne(tag) => CloseAll
    case FinishCloseAll => Stopped
    case SeeClosed => Stopped
  }

  function LoopMutex(s: State, a: LoopStep): Mutex
    requires LoopEnabled(s, a)
  {
    if a.LoopLock? || a.LockCloseAll? then HeldByLoop
    else if a.Remove? || a.FinishCloseAll? || (a.LookUp? && NextLoop(s, a).Idle?) then Free
    else s.mutex
  }

  function LoopConn(s: State, a: LoopStep): Conn
    requires LoopEnabled(s, a)
  {
    if a.Take? then s.conn.(queue := s.conn.queue[1..]) else s.conn
  }

  function CloseIn(t: Table, ch: nat): Table
    requires ch in t.chans
  {
    t.(chans := t.chans[ch := t.chans[ch].(closed := true)], panicked := t.panicked || t.chans[ch].closed)
  }

  function LoopTable(s: State, a: LoopStep): Table
    requires LoopEnabled(s, a)
  {
    var t := s.table;
    match a
    case Deliver =>
      var ch := s.loop.chan;
      t.(chans := t.chans[ch := t.chans[ch].(buf := t.chans[ch].buf + [s.loop.confirm])],
         panicked := t.panicked || t.chans[ch].closed)
    case CloseChan => CloseIn(t, s.loop.chan)
    case Remove => t.(pending := t.pending - {s.loop.confirm.tag})
    case CloseOne(tag) => CloseIn(t, t.pending[tag]).(pending := t.pending - {tag})
    case _ => t
  }

  // ----- the broker and shutdown -----

  datatype EnvStep = Answer(tag: nat, ack: bool) | CloseConnection | Stop

  predicate EnvEnabled(s: State, a: EnvStep) {
    match a
    case Answer(tag, ack) => tag in s.conn.sentBy && tag !in s.conn.answered && !s.conn.closed
    case CloseConnection => true
    case Stop => true
  }

  function EnvApply(s: State, a: EnvStep): State
    requires EnvEnabled(s, a)
  {
    match a
    case Answer(tag, ack) =>
      s.(conn := s.conn.(answered := s.conn.answered[tag := ack], queue := s.conn.queue + [Confirmation(tag, ack)]))
    case CloseConnection => s.(conn := s.conn.(closed := true))
    case Stop => s.(cancelled := true)
  }

  // ----- runs -----

  datatype Step = Caller(call: CallStep) | Loop(loop: LoopStep) | Env(env: EnvStep)

  predicate Enabled(s: State, a: Step) {
    match a
    case Caller(c) => CallEnabled(s, c)
    case Loop(l) => LoopEnabled(s, l)
    case Env(e) => EnvEnabled(s, e)
  }

  function Apply(s: State, a: Step): State
    requires Enabled(s, a)
  {
    match a
    case Caller(c) =>
      s.(conn := CallConn(s, c), table := CallTable(s, c), calls := s.calls[c.k := NextCall(s, c)],
        mutex := CallMutex(s, c))
    case Loop(l) =>
      s.(conn := LoopConn(s, l), table := LoopTable(s, l), loop := NextLoop(s, l), mutex := LoopMutex(s, l))
    case Env(e) => EnvApply(s, e)
  }

  predicate Run(s: State, steps: seq<Step>)
    decreases |steps|
  {
    steps == [] || (Enabled(s, steps[0]) && Run(Apply(s, steps[0]), steps[1..]))
  }

  function After(s: State, steps: seq<Step>): State
    requires Run(s, steps)
    decreases |steps|
  {
    if steps == [] then s else After(Apply(s, steps[0]), steps[1..])
  }

  // ----- invariants -----

  predicate InCritical(pc: CallPc) {
    pc.InSection? || pc.Registered? || pc.Sent? || pc.Deleting?
  }

  predicate LoopInCritical(l: LoopPc) {
    l.Holding? || l.Sending? || l.Closing? || l.Removing? || l.CloseAll?
  }

  ghost predicate MutexInv(s: State) {
    && (forall k :: k in s.calls && InCritical(s.calls[k].pc) ==> s.mutex == HeldByCall(k))
    && (LoopInCritical(s.loop) ==> s.mutex == HeldByLoop)
    && (s.mutex.HeldByCall? ==> s.mutex.k in s.calls && InCritical(s.calls[s.mutex.k].pc))
    && (s.mutex.HeldByLoop? ==> LoopInCritical(s.loop))
  }

  predicate HasChan(pc: CallPc) {
    !pc.WantsLock? && !pc.InSection?
  }

  predicate HasSent(pc: CallPc) {
    HasChan(pc) && !pc.Registered? && pc != Returned(SendFailed)
  }

  /** Each call owns its channel. */
  ghost predicate ChansInv(s: State) {
    && (forall k :: k in s.calls && HasChan(s.calls[k].pc) ==>
          s.calls[k].chan in s.table.chans && s.table.chans[s.calls[k].chan].call == k &&
          s.table.chans[s.calls[k].chan].tag == s.calls[k].tag)
    && (forall ch :: ch in s.table.chans ==>
          s.table.chans[ch].call in s.calls && HasChan(s.calls[s.table.chans[ch].call].pc) &&
            s.calls[s.table.chans[ch].call].chan == ch)
  }

  /** A delivery tag that was sent belongs to exactly one call. */
  ghost predicate TagsInv(s: State) {
    && (forall k :: k in s.calls && HasSent(s.calls[k].pc) ==>
          s.calls[k].tag in s.conn.sentBy && s.conn.sentBy[s.calls[k].tag] == k)
    && (forall k :: k in s.calls && s.calls[k].pc.Registered? ==> s.calls[k].tag == s.conn.next)
    && (forall tag :: tag in s.conn.sentBy ==> tag < s.conn.next)
  }

  ghost predicate CallsInv(s: State) {
    ChansInv(s) && TagsInv(s)
  }

  /** While the loop is between delivering to a channel and removing it from the map, its entry is in transit. */
  predicate InTransit(l: LoopPc, tag: nat) {
    (l.Closing? || l.Removing?) && l.confirm.tag == tag
  }

  /** Entries outside a delivery in progress are open, empty channels under their own tag. */
  ghost predicate PendingInv(s: State) {
    && (forall tag :: tag in s.table.pending ==>
          tag <= s.conn.next && s.table.pending[tag] in s.table.chans &&
            s.table.chans[s.table.pending[tag]].tag == tag &&
          (InTransit(s.loop, tag) ||
            (s.table.chans[s.table.pending[tag]].buf == [] && !s.table.chans[s.table.pending[tag]].closed)))
    && (s.conn.next in s.table.pending ==>
          s.mutex.HeldByCall? && s.mutex.k in s.calls && s.calls[s.mutex.k].pc.Registered?)
    && (s.loop.Sending? || s.loop.Closing? ==>
      s.loop.confirm.tag in s.table.pending && s.table.pending[s.loop.confirm.tag] == s.loop.chan)
    && (s.loop.Closing? ==> !s.table.chans[s.loop.chan].closed)
    && (s.loop.Removing? ==>
          s.loop.confirm.tag in s.table.pending && s.table.chans[s.table.pending[s.loop.confirm.tag]].closed)
    && !s.table.panicked
  }

  predicate HasConfirm(l: LoopPc) {
    l.Got? || l.Holding? || l.Sending? || l.Closing? || l.Removing?
  }

  predicate True(conn: Conn, c: Confirmation) {
    c.tag in conn.answered && conn.answered[c.tag] == c.ack
  }

  /** What travels to a call is the broker's answer to the call's own tag. */
  ghost predicate TruthInv(s: State) {
    && (forall i :: 0 <= i < |s.conn.queue| ==> True(s.conn, s.conn.queue[i]))
    && (HasConfirm(s.loop) ==> True(s.conn, s.loop.confirm))
    && (forall ch :: ch in s.table.chans ==>
          forall i :: 0 <= i < |s.table.chans[ch].buf| ==>
            s.table.chans[ch].buf[i].tag == s.table.chans[ch].tag && True(s.conn, s.table.chans[ch].buf[i]))
  }

  /** What calls have returned. */
  ghost predicate AnswersInv(s: State) {
    && (forall k :: k in s.calls && s.calls[k].pc == Returned(Acknowledged) ==>
      True(s.conn, Confirmation(s.calls[k].tag, true)))
    && (forall k :: k in s.calls && s.calls[k].pc == Returned(Nacked) ==>
          s.cancelled || True(s.conn, Confirmation(s.calls[k].tag, false)))
  }

  /** An empty channel is closed only after its call has returned, or in a shutdown. */
  ghost predicate ClosedInv(s: State) {
    && (forall ch :: ch in s.table.chans && s.table.chans[ch].closed && s.table.chans[ch].buf == [] ==>
          s.cancelled || (s.table.chans[ch].call in s.calls && s.calls[s.table.chans[ch].call].pc.Returned?))
    && (s.loop.Closing? && s.loop.chan in s.table.chans && s.table.chans[s.loop.chan].buf == [] ==>
          s.table.chans[s.loop.chan].call in s.calls && s.calls[s.table.chans[s.loop.chan].call].pc.Returned?)
    && (s.loop.WantsCloseAll? || s.loop.CloseAll? ==> s.cancelled)
  }

  ghost predicate ResultsInv(s: State) {
    AnswersInv(s) && ClosedInv(s)
  }

  /** A call that still waits is in the map, or its channel already holds the answer or is closed. */
  ghost predicate WakeupInv(s: State) {
    forall k :: k in s.calls && (s.calls[k].pc.Registered? || s.calls[k].pc.Sent? || s.calls[k].pc.Waiting?) ==>
      && s.calls[k].chan in s.table.chans
      && ((s.calls[k].tag in s.table.pending && s.table.pending[s.calls[k].tag] == s.calls[k].chan)
          || s.table.chans[s.calls[k].chan].buf != [] || s.table.chans[s.calls[k].chan].closed)
  }

  ghost predicate Inv(s: State) {
    MutexInv(s) && CallsInv(s) && PendingInv(s) && TruthInv(s) && ResultsInv(s) && WakeupInv(s)
  }

  lemma MutexStep(s: State, a: Step)
    requires MutexInv(s) && Enabled(s, a)
    ensures MutexInv(Apply(s, a))
  {
    match a
    case Caller(c) =>
    case Loop(l) =>
    case Env(e) =>
  }

  lemma ChansCall(s: State, a: CallStep)
    requires ChansInv(s) && CallEnabled(s, a)
    ensures ChansInv(Apply(s, Caller(a)))
  {
  }

  lemma TagsCall(s: State, a: CallStep)
    requires MutexInv(s) && TagsInv(s) && CallEnabled(s, a)
    ensures TagsInv(Apply(s, Caller(a)))
  {
  }

  lemma ChansLoop(s: State, a: LoopStep)
    requires ChansInv(s) && LoopEnabled(s, a)
    ensures ChansInv(Apply(s, Loop(a)))
  {
  }

  lemma CallsStep(s: State, a: Step)
    requires MutexInv(s) && CallsInv(s) && Enabled(s, a)
    ensures CallsInv(Apply(s, a))
  {
    match a
    case Caller(c) => ChansCall(s, c); TagsCall(s, c);
    case Loop(l) => ChansLoop(s, l);
    case Env(e) =>
  }

  lemma PendingCall(s: State, a: CallStep)
    requires MutexInv(s) && CallsInv(s) && PendingInv(s) && CallEnabled(s, a)
    ensures PendingInv(Apply(s, Caller(a)))
  {
  }

  lemma PendingLoop(s: State, a: LoopStep)
    requires MutexInv(s) && PendingInv(s) && LoopEnabled(s, a)
    ensures PendingInv(Apply(s, Loop(a)))
  {
  }

  lemma PendingEnv(s: State, a: EnvStep)
    requires PendingInv(s) && EnvEnabled(s, a)
    ensures PendingInv(Apply(s, Env(a)))
  {
  }

  lemma PendingStep(s: State, a: Step)
    requires MutexInv(s) && CallsInv(s) && PendingInv(s) && Enabled(s, a)
    ensures PendingInv(Apply(s, a))
  {
    match a
    case Caller(c) => PendingCall(s, c);
    case Loop(l) => PendingLoop(s, l);
    case Env(e) => PendingEnv(s, e);
  }

  lemma TruthStep(s: State, a: Step)
    requires MutexInv(s) && CallsInv(s) && PendingInv(s) && TruthInv(s) && Enabled(s, a)
    ensures TruthInv(Apply(s, a))
  {
    match a
    case Caller(c) => TruthCall(s, c);
    case Loop(l) => TruthLoop(s, l);
    case Env(e) => TruthEnv(s, e);
  }

  lemma TruthEnv(s: State, a: EnvStep)
    requires TruthInv(s) && EnvEnabled(s, a)
    ensures TruthInv(Apply(s, Env(a)))
  {
  }

  lemma TruthCall(s: State, a: CallStep)
    requires TruthInv(s) && CallEnabled(s, a)
    ensures TruthInv(Apply(s, Caller(a)))
  {
  }

  lemma TruthLoop(s: State, a: LoopStep)
    requires PendingInv(s) && TruthInv(s) && LoopEnabled(s, a)
    ensures TruthInv(Apply(s, Loop(a)))
  {
  }

  lemma AnswersCall(s: State, a: CallStep)
    requires CallsInv(s) && TruthInv(s) && ResultsInv(s) && CallEnabled(s, a)
    ensures AnswersInv(Apply(s, Caller(a)))
  {
    match a
    case Receive(k) => assert True(s.conn, s.table.chans[s.calls[k].chan].buf[0]);
    case _ =>
  }

  lemma ClosedCall(s: State, a: CallStep)
    requires CallsInv(s) && PendingInv(s) && ClosedInv(s) && CallEnabled(s, a)
    ensures ClosedInv(Apply(s, Caller(a)))
  {
  }

  lemma AnswersLoop(s: State, a: LoopStep)
    requires AnswersInv(s) && LoopEnabled(s, a)
    ensures AnswersInv(Apply(s, Loop(a)))
  {
  }

  lemma ClosedLoop(s: State, a: LoopStep)
    requires PendingInv(s) && ClosedInv(s) && LoopEnabled(s, a)
    ensures ClosedInv(Apply(s, Loop(a)))
  {
  }

  lemma ResultsEnv(s: State, a: EnvStep)
    requires ResultsInv(s) && EnvEnabled(s, a)
    ensures ResultsInv(Apply(s, Env(a)))
  {
  }

  lemma ResultsStep(s: State, a: Step)
    requires MutexInv(s) && CallsInv(s) && PendingInv(s) && TruthInv(s) && ResultsInv(s) && Enabled(s, a)
    ensures ResultsInv(Apply(s, a))
  {
    match a
    case Caller(c) => AnswersCall(s, c); ClosedCall(s, c);
    case Loop(l) => AnswersLoop(s, l); ClosedLoop(s, l);
    case Env(e) => ResultsEnv(s, e);
  }

  lemma WakeupRemove(s: State, a: CallStep)
    requires MutexInv(s) && CallsInv(s) && WakeupInv(s) && CallEnabled(s, a) && (a.SendFails? || a.Delete?)
    ensures WakeupInv(Apply(s, Caller(a)))
  {
  }

  lemma WakeupOther(s: State, a: CallStep)
    requires MutexInv(s) && CallsInv(s) && PendingInv(s) && WakeupInv(s) && CallEnabled(s, a) && !a.SendFails? &&
             !a.Delete?
    ensures WakeupInv(Apply(s, Caller(a)))
  {
  }

  lemma WakeupCall(s: State, a: CallStep)
    requires MutexInv(s) && CallsInv(s) && PendingInv(s) && WakeupInv(s) && CallEnabled(s, a)
    ensures WakeupInv(Apply(s, Caller(a)))
  {
    if a.SendFails? || a.Delete? {
      WakeupRemove(s, a);
    } else {
      WakeupOther(s, a);
    }
  }

  lemma WakeupLoop(s: State, a: LoopStep)
    requires MutexInv(s) && CallsInv(s) && PendingInv(s) && WakeupInv(s) && LoopEnabled(s, a)
    ensures WakeupInv(Apply(s, Loop(a)))
  {
  }

  lemma WakeupStep(s: State, a: Step)
    requires MutexInv(s) && CallsInv(s) && PendingInv(s) && WakeupInv(s) && Enabled(s, a)
    ensures WakeupInv(Apply(s, a))
  {
    match a
    case Caller(c) => WakeupCall(s, c);
    case Loop(l) => WakeupLoop(s, l);
    case Env(e) =>
  }

  lemma {:induction false} RunInv(s: State, steps: seq<Step>)
    requires Inv(s) && Run(s, steps)
    ensures Inv(After(s, steps))
    decreases |steps|
  {
    if steps != [] {
      KeepsInv(s, steps[0]);
      RunInv(Apply(s, steps[0]), steps[1..]);
    }
  }

  lemma KeepsInv(s: State, a: Step)
    requires Inv(s) && Enabled(s, a)
    ensures Inv(Apply(s, a))
  {
    MutexStep(s, a);
    CallsStep(s, a);
    PendingStep(s, a);
    TruthStep(s, a);
    ResultsStep(s, a);
    WakeupStep(s, a);
  }

  // ----- main results -----

  lemma Reachable(steps: seq<Step>)
    requires Run(Init(), steps)
    ensures Inv(After(Init(), steps))
  {
    RunInv(Init(), steps);
  }

  /** Success means that the broker acked the tag that this very call sent; no other call shares the tag.
      A reported nack is a nack of that tag or a shutdown; a closed channel or a timeout is never a success. */
  lemma SuccessMeansAcked(steps: seq<Step>, k: nat)
    requires Run(Init(), steps) && k in After(Init(), steps).calls
    ensures var s := After(Init(), steps); var c := s.calls[k];
      && (c.pc == Returned(Acknowledged) ==>
            c.tag in s.conn.sentBy && s.conn.sentBy[c.tag] == k && c.tag in s.conn.answered && s.conn.answered[c.tag])
      && (c.pc == Returned(Nacked) ==> s.cancelled || (c.tag in s.conn.answered && !s.conn.answered[c.tag]))
  {
    Reachable(steps);
  }

  lemma TagsAreDistinct(steps: seq<Step>, k: nat, j: nat)
    requires Run(Init(), steps)
    ensures var calls := After(Init(), steps).calls;
      k in calls && j in calls && HasSent(calls[k].pc) && HasSent(calls[j].pc) && calls[k].tag == calls[j].tag ==>
        k == j
  {
    Reachable(steps);
  }

  /** No channel is closed twice or written after its close, and the loop never waits while it holds the mutex:
      in every critical section it has a step to take. */
  lemma LoopNeverBlocksOrPanics(steps: seq<Step>)
    requires Run(Init(), steps)
    ensures var s := After(Init(), steps);
      !s.table.panicked && (s.mutex.HeldByLoop? ==> exists a :: LoopEnabled(s, a))
  {
    Reachable(steps);
    var s := After(Init(), steps);
    if s.mutex.HeldByLoop? {
      LoopCanStep(s);
    }
  }

  lemma LoopCanStep(s: State)
    requires MutexInv(s) && PendingInv(s) && s.mutex.HeldByLoop?
    ensures exists a :: LoopEnabled(s, a)
  {
    match s.loop
    case Holding(c) => assert LoopEnabled(s, LookUp);
    case Sending(c, ch) => assert LoopEnabled(s, Deliver);
    case Closing(c, ch) => assert LoopEnabled(s, CloseChan);
    case Removing(c) => assert LoopEnabled(s, Remove);
    case CloseAll =>
      if s.table.pending == map[] {
        assert LoopEnabled(s, FinishCloseAll);
      } else {
        var tag :| tag in s.table.pending;
        assert LoopEnabled(s, CloseOne(tag));
      }
  }

  /** No wake-up is lost: the answer to a call that still waits on an empty, open channel will find that channel. */
  lemma WaitingCallsAreFound(steps: seq<Step>, k: nat)
    requires Run(Init(), steps) && k in After(Init(), steps).calls && After(Init(), steps).calls[k].pc.Waiting?
    ensures var s := After(Init(), steps); var c := s.calls[k];
      c.chan in s.table.chans &&
      (CallEnabled(s, Receive(k)) || CallEnabled(s, ReceiveClosed(k)) ||
       (c.tag in s.table.pending && s.table.pending[c.tag] == c.chan))
  {
    Reachable(steps);
  }

  /** Entries of the map are open and empty whenever the loop is outside its critical section. */
  lemma PendingChannelsAreFresh(steps: seq<Step>, tag: nat)
    requires Run(Init(), steps) && tag in After(Init(), steps).table.pending && !After(Init(), steps).mutex.HeldByLoop?
    ensures var t := After(Init(), steps).table;
      t.pending[tag] in t.chans && t.chans[t.pending[tag]].buf == [] && !t.chans[t.pending[tag]].closed
  {
    Reachable(steps);
  }
}
