/** Channels and `select` (src/vm/channel.rs) as a system of steps: any number of threads, every lock,
    flag access, queue update, wait and notification a step of its own, interleaved in any order. */
module Channels {
  import opened Wrappers

  type Msg = int

  /** A channel: its mutex, and what has been sent and received over it so far. `told` says that some
      receiver was told the channel is closed. */
  datatype Chan = Chan(
    queue: seq<Msg>, capacity: Option<nat>, closed: bool, lock: Option<nat>,
    sent: seq<Msg>, received: seq<Msg>, told: bool)

  /** Where a thread stands, named after what it does next. */
  datatype PC =
    | Idle
    // send
    | SendLock(ch: nat, msg: Msg) | SendCheck(ch: nat, msg: Msg) | SendPark(ch: nat, msg: Msg)
    | SendWait(ch: nat, msg: Msg, notified: bool)
    | SendClosed(ch: nat, msg: Msg) | SendPush(ch: nat, msg: Msg) | SendUnlock(ch: nat, sent: bool)
      | SendNotify(ch: nat)
    // wake_selectors
    | WakeLoad | WakeLock | WakeNotify
    // recv and try_recv
    | RecvLock(ch: nat, blocking: bool) | RecvPop(ch: nat, blocking: bool) | RecvClosed(ch: nat, blocking: bool)
    | RecvPark(ch: nat) | RecvWait(ch: nat, notified: bool) | RecvUnlock(ch: nat, got: bool) | RecvNotify(ch: nat)
    // close
    | CloseSet(ch: nat) | CloseNotifyEmpty(ch: nat) | CloseNotifyFull(ch: nat)
    // select
    | SelCount(sel: Select) | SelLock(sel: Select) | SelScan(sel: Select, i: nat, seen: seq<bool>)
    | SelPop(sel: Select, i: nat, seen: seq<bool>) | SelClosed(sel: Select, i: nat, seen: seq<bool>)
    | SelUnlock(sel: Select, i: nat, seen: seq<bool>, hit: bool) | SelNotify(sel: Select, ch: nat)
    | SelParked(sel: Select, seen: seq<bool>, notified: bool) | SelExit | SelUncount

  /** A `select`; a scan notes in `seen` which flags it found set, so the code's `all_closed` is that none was not. */
  datatype Select = Select(chans: seq<nat>, hasElse: bool)

  datatype State = State(chans: seq<Chan>, pcs: seq<PC>, park: Option<nat>, selectors: int)

  /** What the environment decides: the operation an idle thread begins, and whom of several waiters `notify_one`
      wakes. */
  datatype Choice = Begin(pc: PC) | Wake(t: nat) | NoChoice

  // ----- steps -----

  predicate SelIndexed(sel: Select, n: nat) {
    sel.chans != [] && forall i :: 0 <= i < |sel.chans| ==> sel.chans[i] < n
  }

  predicate Begins(pc: PC, channels: nat) {
    match pc
    case SendLock(ch, _) => ch < channels
    case RecvLock(ch, _) => ch < channels
    case CloseSet(ch) => ch < channels
    case SelCount(sel) => SelIndexed(sel, channels)
    case _ => false
  }

  /** Whom a step notifies: one waiter of its choice, all waiters on a channel for room or for a message,
      or everyone parked in `select`. */
  datatype Notice = NoNotice | One(t: nat, full: bool, ch: nat) | AllOn(full: bool, ch: nat) | AllParked

  datatype Touch = Touch(ch: nat, chan: Chan)

  /** What one step does: where its thread goes, the channel it changes, the parker lock, the selector
      count, and whom it notifies. */
  datatype Effect = Effect(pc: PC, touch: Option<Touch>, park: Option<nat>, selectors: int, notice: Notice)

  function Goes(s: State, pc: PC): Effect {
    Effect(pc, None, s.park, s.selectors, NoNotice)
  }

  function Changes(s: State, pc: PC, ch: nat, chan: Chan): Effect {
    Goes(s, pc).(touch := Some(Touch(ch, chan)))
  }

  /** Takes a channel's lock if it is free. */
  function Lock(s: State, t: nat, ch: nat, pc: PC): Option<Effect>
    requires ch < |s.chans|
  {
    if s.chans[ch].lock.None? then Some(Changes(s, pc, ch, s.chans[ch].(lock := Some(t)))) else None
  }

  function Unlock(s: State, ch: nat, pc: PC): Effect
    requires ch < |s.chans|
  {
    Changes(s, pc, ch, s.chans[ch].(lock := None))
  }

  function Pop(c: Chan): Chan
    requires c.queue != []
  {
    c.(queue := c.queue[1..], received := c.received + [c.queue[0]])
  }

  predicate Waits(pc: PC, full: bool, ch: nat) {
    if full then pc.SendWait? && pc.ch == ch else pc.RecvWait? && pc.ch == ch
  }

  /** Waits for room, or for a message, and has not been notified. */
  predicate Asleep(pc: PC, full: bool, ch: nat) {
    Waits(pc, full, ch) && !pc.notified
  }

  function Sleeper(pcs: seq<PC>, full: bool, ch: nat): (r: Option<nat>)
    ensures r.Some? ==> r.value < |pcs| && Asleep(pcs[r.value], full, ch)
    ensures r.None? ==> forall u :: 0 <= u < |pcs| ==> !Asleep(pcs[u], full, ch)
    decreases |pcs|
  {
    if pcs == [] then None
    else if Asleep(pcs[|pcs| - 1], full, ch) then Some(|pcs| - 1)
    else Sleeper(pcs[..|pcs| - 1], full, ch)
  }

  /** `notify_one`: the sleeper of the environment's choice, or else another one; nobody only if nobody sleeps. */
  function OneOf(s: State, c: Choice, full: bool, ch: nat): (r: Notice)
    ensures r.NoNotice? ==> forall u :: 0 <= u < |s.pcs| ==> !Asleep(s.pcs[u], full, ch)
    ensures !r.NoNotice? ==> r.One? && r.full == full && r.ch == ch && r.t < |s.pcs| && Asleep(s.pcs[r.t], full, ch)
  {
    if c.Wake? && c.t < |s.pcs| && Asleep(s.pcs[c.t], full, ch) then One(c.t, full, ch)
    else
      match Sleeper(s.pcs, full, ch)
      case Some(t) => One(t, full, ch)
      case None => NoNotice
  }

  /** One step of a thread at `pc`; `None` when it must wait. A waiting thread may wake up at any time,
      notified or not. */
  function Local(s: State, t: nat, pc: PC, c: Choice): Option<Effect>
    requires PcIndexed(pc, |s.chans|)
  {
    match pc
    case Idle => if c.Begin? && Begins(c.pc, |s.chans|) then Some(Goes(s, c.pc)) else None
    case SendLock(ch, msg) => Lock(s, t, ch, SendCheck(ch, msg))
    case SendCheck(ch, msg) =>
      var q := s.chans[ch];
      if q.capacity.Some? && |q.queue| >= q.capacity.value && !q.closed then Some(Goes(s, SendPark(ch, msg)))
      else Some(Goes(s, SendClosed(ch, msg)))
    case SendPark(ch, msg) => Some(Unlock(s, ch, SendWait(ch, msg, false)))
    case SendWait(ch, msg, _) => Some(Goes(s, SendLock(ch, msg)))
    case SendClosed(ch, msg) => Some(Goes(s, if s.chans[ch].closed then SendUnlock(ch, false) else SendPush(ch, msg)))
    case SendPush(ch, msg) =>
      var q := s.chans[ch];
      Some(Changes(s, SendUnlock(ch, true), ch, q.(queue := q.queue + [msg], sent := q.sent + [msg])))
    case SendUnlock(ch, sent) => Some(Unlock(s, ch, if sent then SendNotify(ch) else Idle))
    case SendNotify(ch) => Some(Goes(s, WakeLoad).(notice := OneOf(s, c, false, ch)))
    case WakeLoad => Some(Goes(s, if s.selectors == 0 then Idle else WakeLock))
    case WakeLock => if s.park.None? then Some(Goes(s, WakeNotify).(park := Some(t))) else None
    case WakeNotify => Some(Goes(s, Idle).(park := None, notice := AllParked))
    case RecvLock(ch, b) => Lock(s, t, ch, RecvPop(ch, b))
    case RecvPop(ch, b) =>
      if s.chans[ch].queue != [] then Some(Changes(s, RecvUnlock(ch, true), ch, Pop(s.chans[ch])))
        else Some(Goes(s, RecvClosed(ch, b)))
    case RecvClosed(ch, b) =>
      if s.chans[ch].closed then Some(Changes(s, RecvUnlock(ch, false), ch, s.chans[ch].(told := true)))
      else Some(Goes(s, if b then RecvPark(ch) else RecvUnlock(ch, false)))
    case RecvPark(ch) => Some(Unlock(s, ch, RecvWait(ch, false)))
    case RecvWait(ch, _) => Some(Goes(s, RecvLock(ch, true)))
    case RecvUnlock(ch, got) => Some(Unlock(s, ch, if got then RecvNotify(ch) else Idle))
    case RecvNotify(ch) => Some(Goes(s, Idle).(notice := OneOf(s, c, true, ch)))
    case CloseSet(ch) => Some(Changes(s, CloseNotifyEmpty(ch), ch, s.chans[ch].(closed := true)))
    case CloseNotifyEmpty(ch) => Some(Goes(s, CloseNotifyFull(ch)).(notice := AllOn(false, ch)))
    case CloseNotifyFull(ch) => Some(Goes(s, WakeLoad).(notice := AllOn(true, ch)))
    case SelCount(sel) => Some(Goes(s, SelLock(sel)).(selectors := s.selectors + 1))
    case SelLock(sel) => if s.park.None? then Some(Goes(s, SelScan(sel, 0, [])).(park := Some(t))) else None
    case SelScan(sel, i, seen) =>
      if i < |sel.chans| then Lock(s, t, sel.chans[i], SelPop(sel, i, seen))
      else if false !in seen || sel.hasElse then Some(Goes(s, SelExit))
      else Some(Goes(s, SelParked(sel, seen, false)).(park := None))
    case SelPop(sel, i, seen) =>
      var ch := sel.chans[i];
      if s.chans[ch].queue != [] then Some(Changes(s, SelUnlock(sel, i, seen, true), ch, Pop(s.chans[ch])))
      else Some(Goes(s, SelClosed(sel, i, seen)))
    case SelClosed(sel, i, seen) =>
      var ch := sel.chans[i];
      if s.chans[ch].closed then
        Some(Changes(s, SelUnlock(sel, i, seen + [true], false), ch, s.chans[ch].(told := true)))
      else Some(Goes(s, SelUnlock(sel, i, seen + [false], false)))
    case SelUnlock(sel, i, seen, hit) =>
      Some(Unlock(s, sel.chans[i], if hit then SelNotify(sel, sel.chans[i]) else SelScan(sel, i + 1, seen)))
    case SelNotify(_, ch) => Some(Goes(s, SelExit).(notice := OneOf(s, c, true, ch)))
    case SelParked(sel, _, _) => Some(Goes(s, SelLock(sel)))
    case SelExit => Some(Goes(s, SelUncount).(park := None))
    case SelUncount => Some(Goes(s, Idle).(selectors := s.selectors - 1))
  }

  /** Every channel number in use exists, and a scan has noted one flag for each channel behind it. */
  predicate PcIndexed(pc: PC, n: nat) {
    match pc
    case Idle => true
    case WakeLoad => true
    case WakeLock => true
    case WakeNotify => true
    case SelExit => true
    case SelUncount => true
    case SelCount(sel) => SelIndexed(sel, n)
    case SelLock(sel) => SelIndexed(sel, n)
    case SelParked(sel, seen, _) => SelIndexed(sel, n) && |seen| == |sel.chans| && false in seen
    case SelScan(sel, i, seen) => SelIndexed(sel, n) && i <= |sel.chans| && |seen| == i
    case SelPop(sel, i, seen) => SelIndexed(sel, n) && i < |sel.chans| && |seen| == i
    case SelClosed(sel, i, seen) => SelIndexed(sel, n) && i < |sel.chans| && |seen| == i
    case SelUnlock(sel, i, seen, hit) => SelIndexed(sel, n) && i < |sel.chans| && |seen| == if hit then i else i + 1
    case SelNotify(sel, ch) => SelIndexed(sel, n) && ch < n
    case _ => pc.ch < n
  }

  predicate Indexed(s: State) {
    forall t :: 0 <= t < |s.pcs| ==> PcIndexed(s.pcs[t], |s.chans|)
  }

  /** A waiting thread, marked as notified. */
  function Notified(pc: PC): PC {
    match pc
    case SendWait(ch, msg, _) => SendWait(ch, msg, true)
    case RecvWait(ch, _) => RecvWait(ch, true)
    case SelParked(sel, seen, _) => SelParked(sel, seen, true)
    case _ => pc
  }

  predicate Hears(n: Notice, u: nat, pc: PC) {
    match n
    case NoNotice => false
    case One(t, full, ch) => u == t && Waits(pc, full, ch)
    case AllOn(full, ch) => Waits(pc, full, ch)
    case AllParked => pc.SelParked?
  }

  /** The state after the step. */
  function Apply(s: State, t: nat, e: Effect): (r: State)
    requires t < |s.pcs| && (e.touch.Some? ==> e.touch.value.ch < |s.chans|)
    ensures |r.pcs| == |s.pcs| && |r.chans| == |s.chans| && r.pcs[t] == e.pc && r.park == e.park
    ensures r.selectors == e.selectors
    ensures forall u :: 0 <= u < |s.pcs| && u != t ==>
      r.pcs[u] == if Hears(e.notice, u, s.pcs[u]) then Notified(s.pcs[u]) else s.pcs[u]
    ensures forall ch :: 0 <= ch < |s.chans| ==>
      r.chans[ch] == if e.touch.Some? && e.touch.value.ch == ch then e.touch.value.chan else s.chans[ch]
  {
    State(if e.touch.Some? then s.chans[e.touch.value.ch := e.touch.value.chan] else s.chans,
          seq(|s.pcs|, u requires 0 <= u < |s.pcs| =>
                if u == t then e.pc else if Hears(e.notice, u, s.pcs[u]) then Notified(s.pcs[u]) else s.pcs[u]),
          e.park, e.selectors)
  }

  lemma LocalIndexed(s: State, t: nat, pc: PC, c: Choice)
    requires PcIndexed(pc, |s.chans|) && Local(s, t, pc, c).Some?
    ensures var e := Local(s, t, pc, c).value;
      PcIndexed(e.pc, |s.chans|) && (e.touch.Some? ==> e.touch.value.ch < |s.chans|)
  {
    if IsSelect(pc) {
      SelectIndexed(s, t, pc, c);
    }
  }

  predicate IsSelect(pc: PC) {
    pc.SelCount? || pc.SelLock? || pc.SelParked? || pc.SelScan? || pc.SelPop? || pc.SelClosed? || pc.SelUnlock?
      || pc.SelNotify?
  }

  lemma SelectIndexed(s: State, t: nat, pc: PC, c: Choice)
    requires IsSelect(pc) && PcIndexed(pc, |s.chans|) && Local(s, t, pc, c).Some?
    ensures var e := Local(s, t, pc, c).value;
      PcIndexed(e.pc, |s.chans|) && (e.touch.Some? ==> e.touch.value.ch < |s.chans|)
  {
    hide Pop;
  }

  /** One step of thread `t`. */
  function Do(s: State, t: nat, c: Choice): (r: Option<State>)
    requires t < |s.pcs| && Indexed(s)
    ensures r.Some? ==> Indexed(r.value)
  {
    var e := Local(s, t, s.pcs[t], c);
    if e.None? then None
    else
      LocalIndexed(s, t, s.pcs[t], c);
      Some(Apply(s, t, e.value))
  }

  // ----- locks -----

  /** The channel whose lock a thread at `pc` holds. */
  function Holds(pc: PC): Option<nat> {
    match pc
    case SendCheck(ch, _) => Some(ch)
    case SendPark(ch, _) => Some(ch)
    case SendClosed(ch, _) => Some(ch)
    case SendPush(ch, _) => Some(ch)
    case SendUnlock(ch, _) => Some(ch)
    case RecvPop(ch, _) => Some(ch)
    case RecvClosed(ch, _) => Some(ch)
    case RecvPark(ch) => Some(ch)
    case RecvUnlock(ch, _) => Some(ch)
    case SelPop(sel, i, _) => if i < |sel.chans| then Some(sel.chans[i]) else None
    case SelClosed(sel, i, _) => if i < |sel.chans| then Some(sel.chans[i]) else None
    case SelUnlock(sel, i, _, _) => if i < |sel.chans| then Some(sel.chans[i]) else None
    case _ => None
  }

  predicate HoldsPark(pc: PC) {
    pc.WakeNotify? || pc.SelScan? || pc.SelPop? || pc.SelClosed? || pc.SelUnlock? || pc.SelNotify? || pc.SelExit?
  }

  /** A lock is held by exactly the thread that stands where it holds it. */
  ghost predicate Locked(s: State) {
    && (forall t, ch :: 0 <= t < |s.pcs| && 0 <= ch < |s.chans| ==>
       (Holds(s.pcs[t]) == Some(ch) <==> s.chans[ch].lock == Some(t)))
    && (forall t :: 0 <= t < |s.pcs| ==> (HoldsPark(s.pcs[t]) <==> s.park == Some(t)))
    && (forall ch :: 0 <= ch < |s.chans| && s.chans[ch].lock.Some? ==> s.chans[ch].lock.value < |s.pcs|)
    && (s.park.Some? ==> s.park.value < |s.pcs|)
  }

  /** The lock of channel `ch` after the step. */
  function LockAfter(s: State, e: Effect, ch: nat): Option<nat>
    requires ch < |s.chans|
  {
    if e.touch.Some? && e.touch.value.ch == ch then e.touch.value.chan.lock else s.chans[ch].lock
  }

  /** A step takes a free lock, lets its own go, or leaves locks alone. */
  lemma LocalLocks(s: State, t: nat, pc: PC, c: Choice, ch: nat)
    requires PcIndexed(pc, |s.chans|) && Local(s, t, pc, c).Some? && ch < |s.chans|
    ensures var e := Local(s, t, pc, c).value;
      if Holds(e.pc) == Holds(pc) then LockAfter(s, e, ch) == s.chans[ch].lock
      else if Holds(pc) == Some(ch) then LockAfter(s, e, ch) == None && Holds(e.pc) == None
      else if Holds(e.pc) == Some(ch) then s.chans[ch].lock == None && LockAfter(s, e, ch) == Some(t)
      else LockAfter(s, e, ch) == s.chans[ch].lock
  {
    hide Local, Holds, PcIndexed, LockAfter;
    if IsSelect(pc) {
      SelectLocks(s, t, pc, c, ch);
    } else {
      PlainLocks(s, t, pc, c, ch);
    }
  }

  lemma PlainLocks(s: State, t: nat, pc: PC, c: Choice, ch: nat)
    requires !IsSelect(pc) && PcIndexed(pc, |s.chans|) && Local(s, t, pc, c).Some? && ch < |s.chans|
    ensures var e := Local(s, t, pc, c).value;
      if Holds(e.pc) == Holds(pc) then LockAfter(s, e, ch) == s.chans[ch].lock
      else if Holds(pc) == Some(ch) then LockAfter(s, e, ch) == None && Holds(e.pc) == None
      else if Holds(e.pc) == Some(ch) then s.chans[ch].lock == None && LockAfter(s, e, ch) == Some(t)
      else LockAfter(s, e, ch) == s.chans[ch].lock
  {
  }

  lemma SelectLocks(s: State, t: nat, pc: PC, c: Choice, ch: nat)
    requires IsSelect(pc) && PcIndexed(pc, |s.chans|) && Local(s, t, pc, c).Some? && ch < |s.chans|
    ensures var e := Local(s, t, pc, c).value;
      if Holds(e.pc) == Holds(pc) then LockAfter(s, e, ch) == s.chans[ch].lock
      else if Holds(pc) == Some(ch) then LockAfter(s, e, ch) == None && Holds(e.pc) == None
      else if Holds(e.pc) == Some(ch) then s.chans[ch].lock == None && LockAfter(s, e, ch) == Some(t)
      else LockAfter(s, e, ch) == s.chans[ch].lock
  {
  }

  lemma LocalPark(s: State, t: nat, pc: PC, c: Choice)
    requires PcIndexed(pc, |s.chans|) && Local(s, t, pc, c).Some?
    ensures var e := Local(s, t, pc, c).value;
      if HoldsPark(e.pc) == HoldsPark(pc) then e.park == s.park
      else if HoldsPark(pc) then e.park == None else s.park == None && e.park == Some(t)
  {
  }

  lemma NotifiedHolds(pc: PC)
    ensures Holds(Notified(pc)) == Holds(pc) && HoldsPark(Notified(pc)) == HoldsPark(pc)
  {
  }

  lemma LockedKept(s: State, t: nat, c: Choice)
    requires t < |s.pcs| && Indexed(s) && Locked(s) && Do(s, t, c).Some?
    ensures Locked(Do(s, t, c).value)
  {
    hide Local, Holds, HoldsPark, PcIndexed, Notified, Hears, LockAfter;
    var s2 := Do(s, t, c).value;
    LocalPark(s, t, s.pcs[t], c);
    forall u, ch | 0 <= u < |s.pcs| && 0 <= ch < |s.chans|
      ensures Holds(s2.pcs[u]) == Some(ch) <==> s2.chans[ch].lock == Some(u)
    {
      LockedOne(s, t, c, u, ch);
    }
    forall u | 0 <= u < |s.pcs| ensures HoldsPark(s2.pcs[u]) <==> s2.park == Some(u) {
      NotifiedHolds(s.pcs[u]);
    }
    forall ch | 0 <= ch < |s.chans| && s2.chans[ch].lock.Some? ensures s2.chans[ch].lock.value < |s2.pcs| {
      LockedOne(s, t, c, t, ch);
      LocalLocks(s, t, s.pcs[t], c, ch);
      AfterIs(s, t, c, ch);
    }
  }

  lemma AfterIs(s: State, t: nat, c: Choice, ch: nat)
    requires t < |s.pcs| && Indexed(s) && Do(s, t, c).Some? && ch < |s.chans|
    ensures Do(s, t, c).value.chans[ch].lock == LockAfter(s, Local(s, t, s.pcs[t], c).value, ch)
  {
    hide Local;
  }

  lemma LockedOne(s: State, t: nat, c: Choice, u: nat, ch: nat)
    requires t < |s.pcs| && Indexed(s) && Locked(s) && Do(s, t, c).Some? && u < |s.pcs| && ch < |s.chans|
    ensures var s2 := Do(s, t, c).value; Holds(s2.pcs[u]) == Some(ch) <==> s2.chans[ch].lock == Some(u)
  {
    hide Local, Holds, HoldsPark, PcIndexed, Notified, Hears, LockAfter;
    LocalLocks(s, t, s.pcs[t], c, ch);
    AfterIs(s, t, c, ch);
    NotifiedHolds(s.pcs[u]);
  }

  // ----- queues -----

  /** Messages come out in the order they went in, none lost and none made up; a bounded buffer stays
      within its bound; once a receiver was told `Closed`, the channel is closed and drained. */
  ghost predicate ChanOk(q: Chan) {
    && q.sent == q.received + q.queue
    && (q.capacity.Some? ==> |q.queue| <= q.capacity.value)
    && (q.told ==> q.closed && q.queue == [])
  }

  ghost predicate ChansOk(s: State) {
    forall ch :: 0 <= ch < |s.chans| ==> ChanOk(s.chans[ch])
  }

  predicate HasRoom(q: Chan) {
    q.capacity.Some? ==> |q.queue| < q.capacity.value
  }

  /** What a thread inside the critical section of a channel in state `q` has established. */
  predicate SectionOk(q: Chan, pc: PC) {
    match pc
    case SendClosed(_, _) => HasRoom(q) || q.closed
    case SendPush(_, _) => HasRoom(q) && !q.told
    case SendPark(_, _) => !HasRoom(q)
    case RecvClosed(_, _) => q.queue == []
    case RecvPark(_) => q.queue == []
    case SelClosed(_, _, _) => q.queue == []
    case _ => true
  }

  ghost predicate SectionsOk(s: State) {
    forall t, ch :: 0 <= t < |s.pcs| && 0 <= ch < |s.chans| && Holds(s.pcs[t]) == Some(ch) ==>
      SectionOk(s.chans[ch], s.pcs[t])
  }

  /** Without its lock a channel can only be closed, locked or unlocked. */
  predicate OnlyClosed(q: Chan, r: Chan) {
    r.queue == q.queue && r.told == q.told && r.sent == q.sent && r.received == q.received && r.capacity == q.capacity
      && (q.closed ==> r.closed)
  }

  /** The step on its own channel: it stays well formed, grows at one end and shrinks at the other. */
  lemma LocalChan(s: State, t: nat, pc: PC, c: Choice)
    requires PcIndexed(pc, |s.chans|) && Local(s, t, pc, c).Some? && Local(s, t, pc, c).value.touch.Some?
    requires var touch := Local(s, t, pc, c).value.touch.value;
      ChanOk(s.chans[touch.ch]) && (Holds(pc) == Some(touch.ch) ==> SectionOk(s.chans[touch.ch], pc))
    ensures var touch := Local(s, t, pc, c).value.touch.value;
      && ChanOk(touch.chan) && (Holds(pc) == Some(touch.ch) || OnlyClosed(s.chans[touch.ch], touch.chan))
      && (s.chans[touch.ch].told ==> touch.chan.told && touch.chan.sent == s.chans[touch.ch].sent)
      && (s.chans[touch.ch].closed ==> touch.chan.closed)
  {
    LocalIndexed(s, t, pc, c);
    if pc.SelScan? || pc.SelPop? || pc.SelClosed? || pc.SelUnlock? {
      assert pc.SelScan? ==> pc.i < |pc.sel.chans|;
    } else if pc.SendLock? || pc.SendCheck? || pc.SendClosed? || pc.SendPush? || pc.SendUnlock? {
      assert pc.ch < |s.chans|;
    }
  }

  /** The step brings its thread to a point whose condition holds. */
  lemma LocalSection(s: State, t: nat, pc: PC, c: Choice, ch: nat)
    requires PcIndexed(pc, |s.chans|) && Local(s, t, pc, c).Some? && ch < |s.chans| && ChanOk(s.chans[ch])
    requires Holds(pc) == Some(ch) ==> SectionOk(s.chans[ch], pc)
    requires Holds(Local(s, t, pc, c).value.pc) == Some(ch)
    ensures var e := Local(s, t, pc, c).value;
      SectionOk(if e.touch.Some? && e.touch.value.ch == ch then e.touch.value.chan else s.chans[ch], e.pc)
  {
    hide Local, SectionOk, Holds, PcIndexed, ChanOk;
    if IsSelect(pc) {
      SelectSection(s, t, pc, c, ch);
    } else {
      PlainSection(s, t, pc, c, ch);
    }
  }

  lemma SelectSection(s: State, t: nat, pc: PC, c: Choice, ch: nat)
    requires IsSelect(pc) && PcIndexed(pc, |s.chans|) && Local(s, t, pc, c).Some?
    requires ch < |s.chans| && ChanOk(s.chans[ch])
    requires Holds(pc) == Some(ch) ==> SectionOk(s.chans[ch], pc)
    requires Holds(Local(s, t, pc, c).value.pc) == Some(ch)
    ensures var e := Local(s, t, pc, c).value;
      SectionOk(if e.touch.Some? && e.touch.value.ch == ch then e.touch.value.chan else s.chans[ch], e.pc)
  {
  }

  lemma PlainSection(s: State, t: nat, pc: PC, c: Choice, ch: nat)
    requires !IsSelect(pc) && PcIndexed(pc, |s.chans|) && Local(s, t, pc, c).Some?
    requires ch < |s.chans| && ChanOk(s.chans[ch])
    requires Holds(pc) == Some(ch) ==> SectionOk(s.chans[ch], pc)
    requires Holds(Local(s, t, pc, c).value.pc) == Some(ch)
    ensures var e := Local(s, t, pc, c).value;
      SectionOk(if e.touch.Some? && e.touch.value.ch == ch then e.touch.value.chan else s.chans[ch], e.pc)
  {
  }

  lemma StillOk(q: Chan, r: Chan, pc: PC)
    requires SectionOk(q, pc) && (r == q || OnlyClosed(q, r))
    ensures SectionOk(r, pc) && SectionOk(r, Notified(pc))
  {
  }

  lemma QueuesKept(s: State, t: nat, c: Choice)
    requires t < |s.pcs| && Indexed(s) && Locked(s) && ChansOk(s) && SectionsOk(s) && Do(s, t, c).Some?
    ensures ChansOk(Do(s, t, c).value) && SectionsOk(Do(s, t, c).value)
  {
    hide Local, Holds, HoldsPark, PcIndexed, Notified, Hears, ChanOk, SectionOk, OnlyClosed;
    var s2 := Do(s, t, c).value;
    var e := Local(s, t, s.pcs[t], c).value;
    LocalIndexed(s, t, s.pcs[t], c);
    if e.touch.Some? {
      LocalChan(s, t, s.pcs[t], c);
    }
    forall u, ch | 0 <= u < |s.pcs| && 0 <= ch < |s.chans| && Holds(s2.pcs[u]) == Some(ch)
      ensures SectionOk(s2.chans[ch], s2.pcs[u])
    {
      if u == t {
        LocalSection(s, t, s.pcs[t], c, ch);
      } else {
        NotifiedHolds(s.pcs[u]);
        assert Holds(s.pcs[t]) != Some(ch);
        StillOk(s.chans[ch], s2.chans[ch], s.pcs[u]);
      }
    }
  }

  // ----- the selector count -----

  predicate InSelect(pc: PC) {
    (HoldsPark(pc) && !pc.WakeNotify?) || pc.SelLock? || pc.SelParked? || pc.SelUncount?
  }

  function Selecting(pcs: seq<PC>): nat
    decreases |pcs|
  {
    if pcs == [] then 0 else Selecting(pcs[..|pcs| - 1]) + if InSelect(pcs[|pcs| - 1]) then 1 else 0
  }

  /** Two thread tables that agree on who is selecting, but for `t`. */
  lemma {:induction false} SelectingChanged(a: seq<PC>, b: seq<PC>, t: nat)
    requires t < |a| == |b| && forall u :: 0 <= u < |a| && u != t ==> InSelect(a[u]) == InSelect(b[u])
    ensures Selecting(b) == Selecting(a) - (if InSelect(a[t]) then 1 else 0) + (if InSelect(b[t]) then 1 else 0)
    decreases |a|
  {
    hide InSelect;
    var n := |a| - 1;
    if t < n {
      SelectingChanged(a[..n], b[..n], t);
    } else {
      SelectingSame(a[..n], b[..n]);
    }
  }

  lemma {:induction false} SelectingSame(a: seq<PC>, b: seq<PC>)
    requires |a| == |b| && forall u :: 0 <= u < |a| ==> InSelect(a[u]) == InSelect(b[u])
    ensures Selecting(b) == Selecting(a)
    decreases |a|
  {
    hide InSelect;
    if a != [] {
      SelectingSame(a[..|a| - 1], b[..|b| - 1]);
    }
  }

  lemma {:induction false} SelectingOne(pcs: seq<PC>, t: nat)
    requires t < |pcs| && InSelect(pcs[t])
    ensures Selecting(pcs) >= 1
    decreases |pcs|
  {
    if t < |pcs| - 1 {
      SelectingOne(pcs[..|pcs| - 1], t);
    }
  }

  ghost predicate Counted(s: State) {
    s.selectors == Selecting(s.pcs)
  }

  lemma LocalCount(s: State, t: nat, pc: PC, c: Choice)
    requires PcIndexed(pc, |s.chans|) && Local(s, t, pc, c).Some?
    ensures var e := Local(s, t, pc, c).value;
      e.selectors == s.selectors - (if InSelect(pc) then 1 else 0) + (if InSelect(e.pc) then 1 else 0)
  {
  }

  lemma NotifiedSelects(pc: PC)
    ensures InSelect(Notified(pc)) == InSelect(pc)
  {
  }

  lemma CountKept(s: State, t: nat, c: Choice)
    requires t < |s.pcs| && Indexed(s) && Counted(s) && Do(s, t, c).Some?
    ensures Counted(Do(s, t, c).value)
  {
    hide Local, InSelect, PcIndexed, Notified, Hears;
    var s2 := Do(s, t, c).value;
    LocalCount(s, t, s.pcs[t], c);
    forall u | 0 <= u < |s.pcs| && u != t ensures InSelect(s.pcs[u]) == InSelect(s2.pcs[u]) {
      NotifiedSelects(s.pcs[u]);
    }
    SelectingChanged(s.pcs, s2.pcs, t);
  }

  // ----- no lost wake-up -----

  /** Among the first `i` channels of the selection some holds a message, or is closed by now although the scan
      found it open. */
  ghost predicate ReadySeen(s: State, sel: Select, i: nat, seen: seq<bool>) {
    SelIndexed(sel, |s.chans|) && i <= |sel.chans| && |seen| == i &&
    exists j :: 0 <= j < i && News(s.chans[sel.chans[j]], seen[j])
  }

  predicate News(q: Chan, seen: bool) {
    q.queue != [] || (q.closed && !seen)
  }

  /** The thread is parked in `select`, or on its way there, and has missed something. */
  ghost predicate Missed(s: State, pc: PC) {
    match pc
    case SelParked(sel, seen, notified) => !notified && ReadySeen(s, sel, |sel.chans|, seen)
    case SelScan(sel, i, a) => ReadySeen(s, sel, i, a)
    case SelPop(sel, i, a) => ReadySeen(s, sel, i, a)
    case SelClosed(sel, i, a) => ReadySeen(s, sel, i, a)
    case SelUnlock(sel, i, a, hit) => !hit && ReadySeen(s, sel, i + 1, a)
    case _ => false
  }

  /** Between its queue or flag update and its `notify_all` on the parker. */
  predicate AboutToWake(pc: PC) {
    (pc.SendUnlock? && pc.sent) || pc.SendNotify? || pc.CloseNotifyEmpty? || pc.CloseNotifyFull? || pc.WakeLoad?
      || pc.WakeLock? || pc.WakeNotify?
  }

  ghost predicate SomeoneWakes(s: State) {
    exists u :: 0 <= u < |s.pcs| && AboutToWake(s.pcs[u])
  }

  /** Whenever a thread has missed something, some sender or closer is on its way to wake it. */
  ghost predicate Awake(s: State) {
    forall t :: 0 <= t < |s.pcs| && Missed(s, s.pcs[t]) ==> SomeoneWakes(s)
  }

  /** Only a send or a close makes a channel readier, and it is then about to wake the selectors. */
  lemma LocalReady(s: State, t: nat, pc: PC, c: Choice)
    requires PcIndexed(pc, |s.chans|) && Local(s, t, pc, c).Some?
    ensures var e := Local(s, t, pc, c).value;
      AboutToWake(e.pc) || e.touch.None? ||
      (e.touch.value.ch < |s.chans| && NoReadier(s.chans[e.touch.value.ch], e.touch.value.chan))
  {
  }

  predicate NoReadier(q: Chan, r: Chan) {
    (r.queue != [] ==> q.queue != []) && (r.closed ==> q.closed)
  }

  /** The step does not make its own thread miss anything it had not missed before. */
  lemma LocalMissed(s: State, t: nat, pc: PC, c: Choice, s2: State)
    requires PcIndexed(pc, |s.chans|) && Local(s, t, pc, c).Some? && |s2.chans| == |s.chans|
    requires forall ch :: 0 <= ch < |s.chans| ==> NoReadier(s.chans[ch], s2.chans[ch])
    requires forall ch :: 0 <= ch < |s.chans| && Holds(pc) == Some(ch) ==> SectionOk(s.chans[ch], pc)
    ensures Missed(s2, Local(s, t, pc, c).value.pc) ==> Missed(s, pc)
  {
    hide Local, Missed, PcIndexed, SectionOk, NoReadier, Holds;
    if pc.SelScan? {
      ScanMissed(s, t, pc, c, s2);
    } else if pc.SelPop? {
      PopMissed(s, t, pc, c, s2);
    } else if pc.SelUnlock? {
      UnlockMissed(s, t, pc, c, s2);
    } else if pc.SelClosed? {
      ClosedMissed(s, t, pc, c, s2);
    } else {
      OthersGo(s, t, pc, c);
      NothingScanned(s2, Local(s, t, pc, c).value.pc);
    }
  }

  lemma ScanMissed(s: State, t: nat, pc: PC, c: Choice, s2: State)
    requires pc.SelScan? && PcIndexed(pc, |s.chans|) && Local(s, t, pc, c).Some? && |s2.chans| == |s.chans|
    requires forall ch :: 0 <= ch < |s.chans| ==> NoReadier(s.chans[ch], s2.chans[ch])
    ensures Missed(s2, Local(s, t, pc, c).value.pc) ==> Missed(s, pc)
  {
    hide Local, ReadySeen, NoReadier;
    ScanGoes(s, t, pc, c);
    FewerReady(s, s2, pc.sel, pc.i, pc.seen);
  }

  lemma PopMissed(s: State, t: nat, pc: PC, c: Choice, s2: State)
    requires pc.SelPop? && PcIndexed(pc, |s.chans|) && Local(s, t, pc, c).Some? && |s2.chans| == |s.chans|
    requires forall ch :: 0 <= ch < |s.chans| ==> NoReadier(s.chans[ch], s2.chans[ch])
    ensures Missed(s2, Local(s, t, pc, c).value.pc) ==> Missed(s, pc)
  {
    hide Local, ReadySeen, NoReadier;
    PopGoes(s, t, pc, c);
    FewerReady(s, s2, pc.sel, pc.i, pc.seen);
  }

  lemma UnlockMissed(s: State, t: nat, pc: PC, c: Choice, s2: State)
    requires pc.SelUnlock? && PcIndexed(pc, |s.chans|) && Local(s, t, pc, c).Some? && |s2.chans| == |s.chans|
    requires forall ch :: 0 <= ch < |s.chans| ==> NoReadier(s.chans[ch], s2.chans[ch])
    ensures Missed(s2, Local(s, t, pc, c).value.pc) ==> Missed(s, pc)
  {
    hide Local, ReadySeen, NoReadier;
    UnlockGoes(s, t, pc, c);
    FewerReady(s, s2, pc.sel, pc.i + 1, pc.seen);
  }

  lemma ClosedMissed(s: State, t: nat, pc: PC, c: Choice, s2: State)
    requires pc.SelClosed? && PcIndexed(pc, |s.chans|) && Local(s, t, pc, c).Some? && |s2.chans| == |s.chans|
    requires forall ch :: 0 <= ch < |s.chans| ==> NoReadier(s.chans[ch], s2.chans[ch])
    requires forall ch :: 0 <= ch < |s.chans| && Holds(pc) == Some(ch) ==> SectionOk(s.chans[ch], pc)
    ensures Missed(s2, Local(s, t, pc, c).value.pc) ==> Missed(s, pc)
  {
    hide Local, ReadySeen, NoReadier;
    ClosedGoes(s, t, pc, c);
    var next := Local(s, t, pc, c).value.pc;
    if Missed(s2, next) {
      ScannedOne(s, s2, pc.sel, pc.i, pc.seen);
    }
  }

  // Where a step leads in the scan of a `select`.

  lemma ScanGoes(s: State, t: nat, pc: PC, c: Choice)
    requires pc.SelScan? && PcIndexed(pc, |s.chans|) && Local(s, t, pc, c).Some?
    ensures var e := Local(s, t, pc, c).value;
      || e.pc == SelPop(pc.sel, pc.i, pc.seen) || e.pc == SelExit
      || (pc.i == |pc.sel.chans| && e.pc == SelParked(pc.sel, pc.seen, false))
  {
  }

  lemma PopGoes(s: State, t: nat, pc: PC, c: Choice)
    requires pc.SelPop? && PcIndexed(pc, |s.chans|) && Local(s, t, pc, c).Some?
    ensures var e := Local(s, t, pc, c).value;
      e.pc == SelUnlock(pc.sel, pc.i, pc.seen, true) || e.pc == SelClosed(pc.sel, pc.i, pc.seen)
  {
  }

  lemma UnlockGoes(s: State, t: nat, pc: PC, c: Choice)
    requires pc.SelUnlock? && PcIndexed(pc, |s.chans|) && Local(s, t, pc, c).Some?
    ensures var e := Local(s, t, pc, c).value;
      if pc.hit then e.pc.SelNotify? else e.pc == SelScan(pc.sel, pc.i + 1, pc.seen)
  {
  }

  lemma ClosedGoes(s: State, t: nat, pc: PC, c: Choice)
    requires pc.SelClosed? && PcIndexed(pc, |s.chans|) && Local(s, t, pc, c).Some?
    requires SectionOk(s.chans[pc.sel.chans[pc.i]], pc)
    ensures var e := Local(s, t, pc, c).value; var q := s.chans[pc.sel.chans[pc.i]];
      e.pc == SelUnlock(pc.sel, pc.i, pc.seen + [q.closed], false) && q.queue == []
  {
  }

  /** From anywhere else a step leads at most to the start of a scan. */
  lemma OthersGo(s: State, t: nat, pc: PC, c: Choice)
    requires !pc.SelScan? && !pc.SelPop? && !pc.SelUnlock? && !pc.SelClosed?
    requires PcIndexed(pc, |s.chans|) && Local(s, t, pc, c).Some?
    ensures var next := Local(s, t, pc, c).value.pc;
      && !next.SelPop? && !next.SelUnlock? && !next.SelClosed? && !next.SelParked?
      && (next.SelScan? ==> next.i == 0)
  {
  }

  lemma NothingScanned(s: State, pc: PC)
    requires pc.SelScan? ==> pc.i == 0
    requires !pc.SelPop? && !pc.SelUnlock? && !pc.SelClosed? && !pc.SelParked?
    ensures !Missed(s, pc)
  {
  }

  lemma FewerReady(s: State, s2: State, sel: Select, i: nat, seen: seq<bool>)
    requires |s2.chans| == |s.chans| && forall ch :: 0 <= ch < |s.chans| ==> NoReadier(s.chans[ch], s2.chans[ch])
    ensures ReadySeen(s2, sel, i, seen) ==> ReadySeen(s, sel, i, seen)
  {
  }

  /** A channel found empty, and its flag noted, adds nothing to what was missed. */
  lemma ScannedOne(s: State, s2: State, sel: Select, i: nat, seen: seq<bool>)
    requires SelIndexed(sel, |s.chans|) && i < |sel.chans| && s.chans[sel.chans[i]].queue == []
    requires |s2.chans| == |s.chans| && forall ch :: 0 <= ch < |s.chans| ==> NoReadier(s.chans[ch], s2.chans[ch])
    requires |seen| == i && ReadySeen(s2, sel, i + 1, seen + [s.chans[sel.chans[i]].closed])
    ensures ReadySeen(s, sel, i, seen)
  {
    var more := seen + [s.chans[sel.chans[i]].closed];
    FewerReady(s, s2, sel, i + 1, more);
    var j :| 0 <= j < i + 1 && News(s.chans[sel.chans[j]], more[j]);
    assert j < i && more[j] == seen[j];
  }

  lemma AwakeKept(s: State, t: nat, c: Choice)
    requires t < |s.pcs| && Indexed(s) && Locked(s) && SectionsOk(s) && Counted(s) && Awake(s) && Do(s, t, c).Some?
    ensures Awake(Do(s, t, c).value)
  {
    hide Local, Holds, HoldsPark, PcIndexed, Hears, SectionOk, AboutToWake, Missed, InSelect, NoReadier, SectionsOk,
      Locked;
    var s2 := Do(s, t, c).value;
    var e := Local(s, t, s.pcs[t], c).value;
    if !SomeoneWakes(s2) {
      assert !AboutToWake(s2.pcs[t]);
      LocalReady(s, t, s.pcs[t], c);
      forall ch | 0 <= ch < |s.chans| ensures NoReadier(s.chans[ch], s2.chans[ch]) {
        SameIsNoReadier(s.chans[ch]);
      }
      forall u | 0 <= u < |s2.pcs| ensures !Missed(s2, s2.pcs[u]) {
        if Missed(s2, s2.pcs[u]) {
          NobodyWakes(s, t, c, u);
          if u == t {
            SectionOf(s, t);
            LocalMissed(s, t, s.pcs[t], c, s2);
          } else {
            MissedBefore(s, s2, s.pcs[u], s2.pcs[u]);
          }
        }
      }
    }
  }

  lemma SameIsNoReadier(q: Chan)
    ensures NoReadier(q, q)
  {
  }

  lemma SectionOf(s: State, t: nat)
    requires SectionsOk(s) && t < |s.pcs|
    ensures forall ch :: 0 <= ch < |s.chans| && Holds(s.pcs[t]) == Some(ch) ==> SectionOk(s.chans[ch], s.pcs[t])
  {
  }

  lemma MissedBefore(s: State, s2: State, pc: PC, pc2: PC)
    requires |s2.chans| == |s.chans| && forall ch :: 0 <= ch < |s.chans| ==> NoReadier(s.chans[ch], s2.chans[ch])
    requires pc2 == pc || pc2 == Notified(pc)
    ensures Missed(s2, pc2) ==> Missed(s, pc)
  {
    match pc
    case SelParked(sel, seen, _) => FewerReady(s, s2, sel, |sel.chans|, seen);
    case SelScan(sel, i, a) => FewerReady(s, s2, sel, i, a);
    case SelPop(sel, i, a) => FewerReady(s, s2, sel, i, a);
    case SelClosed(sel, i, a) => FewerReady(s, s2, sel, i, a);
    case SelUnlock(sel, i, a, _) => FewerReady(s, s2, sel, i + 1, a);
    case _ =>
  }

  /** If nobody is about to wake the selectors after a step, and one of them has missed something, then
      nobody was before it either: the last waker would have found that selector counted, or notified it. */
  lemma NobodyWakes(s: State, t: nat, c: Choice, u: nat)
    requires t < |s.pcs| && Indexed(s) && Locked(s) && Counted(s) && Do(s, t, c).Some? && u < |s.pcs|
    requires var s2 := Do(s, t, c).value; !SomeoneWakes(s2) && Missed(s2, s2.pcs[u])
    ensures !SomeoneWakes(s)
  {
    hide Local, PcIndexed, Locked, Counted, Hears, InSelect, HoldsPark;
    var s2 := Do(s, t, c).value;
    if v :| 0 <= v < |s.pcs| && AboutToWake(s.pcs[v]) {
      if v != t {
        StillAbout(s.pcs[v]);
        assert false;
      } else {
        assert !AboutToWake(s2.pcs[t]);
        LastWaker(s, t, c, u);
      }
    }
  }

  lemma StillAbout(pc: PC)
    ensures AboutToWake(Notified(pc)) == AboutToWake(pc)
  {
  }

  /** A waker stops being one by finding no selector, or by notifying all that are parked. */
  lemma LastWaker(s: State, t: nat, c: Choice, u: nat)
    requires t < |s.pcs| && Indexed(s) && Locked(s) && Counted(s) && Do(s, t, c).Some? && u < |s.pcs|
    requires AboutToWake(s.pcs[t]) && !AboutToWake(Do(s, t, c).value.pcs[t])
    ensures !Missed(Do(s, t, c).value, Do(s, t, c).value.pcs[u])
  {
    hide ReadySeen, Locked;
    var s2 := Do(s, t, c).value;
    if s.pcs[t].WakeLoad? {
      if u != t && InSelect(s.pcs[u]) {
        SelectingOne(s.pcs, u);
      }
    } else {
      assert s.pcs[t].WakeNotify?;
      if HoldsPark(s.pcs[u]) {
        OnlyOneParker(s, t, u);
      }
    }
  }

  lemma OnlyOneParker(s: State, t: nat, u: nat)
    requires Locked(s) && t < |s.pcs| && u < |s.pcs| && HoldsPark(s.pcs[t]) && HoldsPark(s.pcs[u])
    ensures t == u
  {
  }

  // ----- every sleeper that could be served -----

  /** What a channel holds for those who wait: messages, or, while it is open, free places of a bounded buffer. */
  function Offers(q: Chan, full: bool): nat {
    if !full then |q.queue|
    else if q.capacity.Some? && !q.closed && |q.queue| < q.capacity.value then q.capacity.value - |q.queue|
    else 0
  }

  /** On its way to take what the channel holds, or to notify one who will: for room, a notified or entering
      sender, or a receiver or selector between its pop and its `notify_one`; for a message, a notified or
      entering receiver, or a sender between its push and its `notify_one`. */
  predicate Comes(pc: PC, full: bool, ch: nat) {
    if full then
      || (pc.SendWait? && pc.ch == ch && pc.notified)
      || ((pc.SendLock? || pc.SendCheck? || pc.SendClosed? || pc.SendPush?) && pc.ch == ch)
      || (pc.RecvUnlock? && pc.ch == ch && pc.got) || (pc.RecvNotify? && pc.ch == ch)
      || (pc.SelUnlock? && pc.hit && pc.i < |pc.sel.chans| && pc.sel.chans[pc.i] == ch)
      || (pc.SelNotify? && pc.ch == ch)
    else
      || (pc.RecvWait? && pc.ch == ch && pc.notified) || ((pc.RecvLock? || pc.RecvPop?) && pc.ch == ch)
      || (pc.SendUnlock? && pc.ch == ch && pc.sent) || (pc.SendNotify? && pc.ch == ch)
  }

  /** How many are on their way. */
  function Coming(pcs: seq<PC>, full: bool, ch: nat): nat
    decreases |pcs|
  {
    if pcs == [] then 0
    else Coming(pcs[..|pcs| - 1], full, ch) + if Comes(pcs[|pcs| - 1], full, ch) then 1 else 0
  }

  /** If somebody sleeps, there are no more messages, or free places, than threads on their way. */
  ghost predicate Served(s: State) {
    forall u, full, ch :: 0 <= u < |s.pcs| && 0 <= ch < |s.chans| && Asleep(s.pcs[u], full, ch) ==>
      Offers(s.chans[ch], full) <= Coming(s.pcs, full, ch)
  }

  predicate Notifies(pc: PC, full: bool, ch: nat) {
    if full then (pc.RecvNotify? || pc.SelNotify?) && pc.ch == ch else pc.SendNotify? && pc.ch == ch
  }

  function Weight(b: bool): nat {
    if b then 1 else 0
  }

  function ChanAfter(s: State, e: Effect, ch: nat): Chan
    requires ch < |s.chans|
  {
    if e.touch.Some? && e.touch.value.ch == ch then e.touch.value.chan else s.chans[ch]
  }

  /** A step puts no more into a channel than it sets threads on their way, unless it leaves nothing there; only
      `notify_one` is otherwise, and it finds a sleeper if there is one. */
  lemma LocalComes(s: State, t: nat, pc: PC, c: Choice, full: bool, ch: nat)
    requires PcIndexed(pc, |s.chans|) && Local(s, t, pc, c).Some?
    requires ch < |s.chans| && ChanOk(s.chans[ch]) && (Holds(pc) == Some(ch) ==> SectionOk(s.chans[ch], pc))
    ensures var e := Local(s, t, pc, c).value; var r := ChanAfter(s, e, ch);
      || Offers(r, full) == 0
      || Offers(r, full) + Weight(Comes(pc, full, ch)) <= Offers(s.chans[ch], full) + Weight(Comes(e.pc, full, ch))
      || (Notifies(pc, full, ch) && r == s.chans[ch] && e.notice == OneOf(s, c, full, ch))
  {
    hide Local, Holds, PcIndexed, ChanOk, SectionOk, Offers, Comes, Notifies, ChanAfter, OneOf;
    if IsSelect(pc) {
      SelectComes(s, t, pc, c, full, ch);
    } else {
      PlainComes(s, t, pc, c, full, ch);
    }
  }

  lemma SelectComes(s: State, t: nat, pc: PC, c: Choice, full: bool, ch: nat)
    requires IsSelect(pc) && PcIndexed(pc, |s.chans|) && Local(s, t, pc, c).Some?
    requires ch < |s.chans| && ChanOk(s.chans[ch]) && (Holds(pc) == Some(ch) ==> SectionOk(s.chans[ch], pc))
    ensures var e := Local(s, t, pc, c).value; var r := ChanAfter(s, e, ch);
      || Offers(r, full) == 0
      || Offers(r, full) + Weight(Comes(pc, full, ch)) <= Offers(s.chans[ch], full) + Weight(Comes(e.pc, full, ch))
      || (Notifies(pc, full, ch) && r == s.chans[ch] && e.notice == OneOf(s, c, full, ch))
  {
  }

  lemma PlainComes(s: State, t: nat, pc: PC, c: Choice, full: bool, ch: nat)
    requires !IsSelect(pc) && PcIndexed(pc, |s.chans|) && Local(s, t, pc, c).Some?
    requires ch < |s.chans| && ChanOk(s.chans[ch]) && (Holds(pc) == Some(ch) ==> SectionOk(s.chans[ch], pc))
    ensures var e := Local(s, t, pc, c).value; var r := ChanAfter(s, e, ch);
      || Offers(r, full) == 0
      || Offers(r, full) + Weight(Comes(pc, full, ch)) <= Offers(s.chans[ch], full) + Weight(Comes(e.pc, full, ch))
      || (Notifies(pc, full, ch) && r == s.chans[ch] && e.notice == OneOf(s, c, full, ch))
  {
  }

  /** A thread falls asleep only where there is nothing for it. */
  lemma LocalFallsAsleep(s: State, t: nat, pc: PC, c: Choice, full: bool, ch: nat)
    requires PcIndexed(pc, |s.chans|) && Local(s, t, pc, c).Some? && ch < |s.chans|
    requires Holds(pc) == Some(ch) ==> SectionOk(s.chans[ch], pc)
    requires Asleep(Local(s, t, pc, c).value.pc, full, ch)
    ensures Offers(ChanAfter(s, Local(s, t, pc, c).value, ch), full) == 0
  {
  }

  lemma NotifiedComes(pc: PC, full: bool, ch: nat)
    ensures Comes(pc, full, ch) ==> Comes(Notified(pc), full, ch)
    ensures Asleep(pc, full, ch) ==> !Comes(pc, full, ch) && Comes(Notified(pc), full, ch)
    ensures !Asleep(Notified(pc), full, ch)
  {
  }

  /** Nobody but `t` stops being on the way. */
  lemma {:induction false} ComingChanged(a: seq<PC>, b: seq<PC>, t: nat, full: bool, ch: nat)
    requires |a| == |b|
    requires forall u :: 0 <= u < |a| && u != t ==> (Comes(a[u], full, ch) ==> Comes(b[u], full, ch))
    ensures t < |a| ==>
      Coming(b, full, ch) + Weight(Comes(a[t], full, ch)) >= Coming(a, full, ch) + Weight(Comes(b[t], full, ch))
    ensures t >= |a| ==> Coming(b, full, ch) >= Coming(a, full, ch)
    decreases |a|
  {
    hide Comes;
    if a != [] {
      ComingChanged(a[..|a| - 1], b[..|b| - 1], t, full, ch);
    }
  }

  /** And somebody else, who was not, is. */
  lemma {:induction false} ComingGained(a: seq<PC>, b: seq<PC>, t: nat, w: nat, full: bool, ch: nat)
    requires |a| == |b| && w < |a| && w != t && !Comes(a[w], full, ch) && Comes(b[w], full, ch)
    requires forall u :: 0 <= u < |a| && u != t ==> (Comes(a[u], full, ch) ==> Comes(b[u], full, ch))
    ensures t < |a| ==>
      Coming(b, full, ch) + Weight(Comes(a[t], full, ch)) >= Coming(a, full, ch) + 1 + Weight(Comes(b[t], full, ch))
    ensures t >= |a| ==> Coming(b, full, ch) >= Coming(a, full, ch) + 1
    decreases |a|
  {
    hide Comes;
    var n := |a| - 1;
    if w < n {
      ComingGained(a[..n], b[..n], t, w, full, ch);
    } else {
      ComingChanged(a[..n], b[..n], t, full, ch);
    }
  }

  lemma {:induction false} SomeoneComes(pcs: seq<PC>, full: bool, ch: nat)
    requires Coming(pcs, full, ch) > 0
    ensures exists u :: 0 <= u < |pcs| && Comes(pcs[u], full, ch)
    decreases |pcs|
  {
    hide Comes;
    var n := |pcs| - 1;
    if !Comes(pcs[n], full, ch) {
      SomeoneComes(pcs[..n], full, ch);
      var u :| 0 <= u < n && Comes(pcs[..n][u], full, ch);
      assert Comes(pcs[u], full, ch);
    }
  }

  lemma ServedKept(s: State, t: nat, c: Choice)
    requires t < |s.pcs| && Indexed(s) && ChansOk(s) && SectionsOk(s) && Served(s) && Do(s, t, c).Some?
    ensures Served(Do(s, t, c).value)
  {
    hide Local, Holds, PcIndexed, Notified, Hears, ChanOk, SectionOk, Asleep, Comes, Coming, Offers, OneOf;
    var s2 := Do(s, t, c).value;
    forall u, full, ch | 0 <= u < |s2.pcs| && 0 <= ch < |s2.chans| && Asleep(s2.pcs[u], full, ch)
      ensures Offers(s2.chans[ch], full) <= Coming(s2.pcs, full, ch)
    {
      ServedOne(s, t, c, u, full, ch);
    }
  }

  lemma ServedOne(s: State, t: nat, c: Choice, u: nat, full: bool, ch: nat)
    requires t < |s.pcs| && Indexed(s) && ChansOk(s) && SectionsOk(s) && Served(s) && Do(s, t, c).Some?
    requires u < |s.pcs| && ch < |s.chans| && Asleep(Do(s, t, c).value.pcs[u], full, ch)
    ensures Offers(Do(s, t, c).value.chans[ch], full) <= Coming(Do(s, t, c).value.pcs, full, ch)
  {
    hide Local, Holds, PcIndexed, Notified, Hears, ChanOk, SectionOk, Asleep, Comes, Coming, Offers, OneOf, Notifies;
    var s2 := Do(s, t, c).value;
    var e := Local(s, t, s.pcs[t], c).value;
    assert s2.chans[ch] == ChanAfter(s, e, ch);
    if u == t {
      LocalFallsAsleep(s, t, s.pcs[t], c, full, ch);
    } else {
      NotifiedComes(s.pcs[u], full, ch);
      assert s2.pcs[u] == s.pcs[u];
      LocalComes(s, t, s.pcs[t], c, full, ch);
      OthersStillCome(s, t, c, full, ch);
      ComingChanged(s.pcs, s2.pcs, t, full, ch);
      if Notifies(s.pcs[t], full, ch) && e.notice == OneOf(s, c, full, ch) {
        OneIsTold(s, t, c, full, ch);
      }
    }
  }

  lemma OthersStillCome(s: State, t: nat, c: Choice, full: bool, ch: nat)
    requires t < |s.pcs| && Indexed(s) && Do(s, t, c).Some?
    ensures forall u :: 0 <= u < |s.pcs| && u != t ==>
      (Comes(s.pcs[u], full, ch) ==> Comes(Do(s, t, c).value.pcs[u], full, ch))
  {
    hide Local, PcIndexed, Notified, Hears, Comes;
    forall u | 0 <= u < |s.pcs| && u != t
      ensures Comes(s.pcs[u], full, ch) ==> Comes(Do(s, t, c).value.pcs[u], full, ch)
    {
      NotifiedComes(s.pcs[u], full, ch);
    }
  }

  /** `notify_one` sets a sleeper on its way in the place of the notifier. */
  lemma OneIsTold(s: State, t: nat, c: Choice, full: bool, ch: nat)
    requires t < |s.pcs| && Indexed(s) && Do(s, t, c).Some? && Notifies(s.pcs[t], full, ch)
    requires Local(s, t, s.pcs[t], c).value.notice == OneOf(s, c, full, ch)
    requires exists u :: 0 <= u < |s.pcs| && Asleep(s.pcs[u], full, ch)
    ensures Coming(Do(s, t, c).value.pcs, full, ch) >= Coming(s.pcs, full, ch)
  {
    hide Local, PcIndexed, Notified, Comes, Coming, OneOf;
    var w := OneOf(s, c, full, ch).t;
    NotifiedComes(s.pcs[w], full, ch);
    OthersStillCome(s, t, c, full, ch);
    ComingGained(s.pcs, Do(s, t, c).value.pcs, t, w, full, ch);
  }

  // ----- every run -----

  ghost predicate Inv(s: State) {
    Indexed(s) && Locked(s) && ChansOk(s) && SectionsOk(s) && Counted(s) && Awake(s) && Served(s)
  }

  /** Fresh channels of the given capacities, and idle threads. */
  function Start(capacities: seq<Option<nat>>, threads: nat): (s: State)
    ensures |s.chans| == |capacities| && |s.pcs| == threads && s.park == None && s.selectors == 0
    ensures forall t :: 0 <= t < threads ==> s.pcs[t] == Idle
    ensures forall ch :: 0 <= ch < |capacities| ==> s.chans[ch] == Chan([], capacities[ch], false, None, [], [], false)
  {
    State(seq(|capacities|, i requires 0 <= i < |capacities| => Chan([], capacities[i], false, None, [], [], false)),
          seq(threads, _ => Idle), None, 0)
  }

  /** Any interleaving: at each point some thread tries a step; if it cannot go on, nothing happens. */
  function Run(s: State, steps: seq<(nat, Choice)>): (r: State)
    requires Indexed(s)
    ensures Indexed(r)
    decreases |steps|
  {
    if steps == [] then s
    else
      var (t, c) := steps[0];
      Run(if t < |s.pcs| && Do(s, t, c).Some? then Do(s, t, c).value else s, steps[1..])
  }

  lemma {:induction false} NoneSelecting(pcs: seq<PC>)
    requires forall t :: 0 <= t < |pcs| ==> pcs[t] == Idle
    ensures Selecting(pcs) == 0
    decreases |pcs|
  {
    if pcs != [] {
      NoneSelecting(pcs[..|pcs| - 1]);
    }
  }

  lemma StartInv(capacities: seq<Option<nat>>, threads: nat)
    ensures Inv(Start(capacities, threads))
  {
    NoneSelecting(Start(capacities, threads).pcs);
  }

  lemma {:induction false} RunKeeps(s: State, steps: seq<(nat, Choice)>)
    requires Inv(s)
    ensures Inv(Run(s, steps))
    decreases |steps|
  {
    hide Do, Indexed, Locked, ChansOk, SectionsOk, Counted, Awake, Served;
    if steps != [] {
      var (t, c) := steps[0];
      if t < |s.pcs| && Do(s, t, c).Some? {
        LockedKept(s, t, c);
        QueuesKept(s, t, c);
        CountKept(s, t, c);
        AwakeKept(s, t, c);
        ServedKept(s, t, c);
        RunKeeps(Do(s, t, c).value, steps[1..]);
      } else {
        RunKeeps(s, steps[1..]);
      }
    }
  }

  /** In every run, on every channel: what was received, followed by what is buffered, is what was sent,
      in order; a bounded buffer never exceeds its capacity; after some receiver was told `Closed` the
      buffer is empty. And whenever a selector is parked without having been notified although one of its
      channels holds a message, or was closed since the scan found it open, or all of them are closed, somebody
      is about to wake it. */
  lemma ChannelsAreSafe(capacities: seq<Option<nat>>, threads: nat, steps: seq<(nat, Choice)>)
    ensures var s := Run(Start(capacities, threads), steps);
      && (forall ch :: 0 <= ch < |s.chans| ==> ChanOk(s.chans[ch]))
      && (forall t :: 0 <= t < |s.pcs| && s.pcs[t].SelParked? && !s.pcs[t].notified && Missed(s, s.pcs[t]) ==>
         SomeoneWakes(s))
      && (forall t :: 0 <= t < |s.pcs| && s.pcs[t].SelParked? && !s.pcs[t].notified && AllClosed(s, s.pcs[t].sel) ==>
         SomeoneWakes(s))
  {
    hide Start, Run, Locked, SectionsOk, Counted, Missed, ChanOk, PcIndexed, AllClosed, Served;
    StartInv(capacities, threads);
    RunKeeps(Start(capacities, threads), steps);
    var s := Run(Start(capacities, threads), steps);
    forall t | 0 <= t < |s.pcs| && s.pcs[t].SelParked? && !s.pcs[t].notified && AllClosed(s, s.pcs[t].sel)
      ensures SomeoneWakes(s)
    {
      ClosedAllMissed(s, s.pcs[t]);
    }
  }

  /** In every run: while a receiver sleeps un-notified, the buffer holds no more messages than there are notified
      or entering receivers and senders between their push and their `notify_one`; if it holds any, one of those
      is on its way. */
  lemma ReceiversAreServed(capacities: seq<Option<nat>>, threads: nat, steps: seq<(nat, Choice)>, t: nat, ch: nat)
    requires var s := Run(Start(capacities, threads), steps);
      t < |s.pcs| && ch < |s.chans| && s.pcs[t] == RecvWait(ch, false)
    ensures var s := Run(Start(capacities, threads), steps);
      && |s.chans[ch].queue| <= Coming(s.pcs, false, ch)
      && (s.chans[ch].queue != [] ==> exists u :: 0 <= u < |s.pcs| && Comes(s.pcs[u], false, ch))
  {
    hide Start, Run, Locked, SectionsOk, Counted, Awake, ChansOk, Coming, Comes;
    StartInv(capacities, threads);
    RunKeeps(Start(capacities, threads), steps);
    var s := Run(Start(capacities, threads), steps);
    assert Asleep(s.pcs[t], false, ch);
    if s.chans[ch].queue != [] {
      SomeoneComes(s.pcs, false, ch);
    }
  }

  /** In every run: while a sender sleeps un-notified on an open bounded channel, the buffer has no more free places
      than there are notified or entering senders and receivers or selectors between their pop and their
      `notify_one`; if it has any, one of those is on its way. */
  lemma SendersAreServed(capacities: seq<Option<nat>>, threads: nat, steps: seq<(nat, Choice)>, t: nat, ch: nat)
    requires var s := Run(Start(capacities, threads), steps);
      && t < |s.pcs| && ch < |s.chans| && s.pcs[t].SendWait? && s.pcs[t].ch == ch && !s.pcs[t].notified
      && !s.chans[ch].closed && s.chans[ch].capacity.Some?
    ensures var s := Run(Start(capacities, threads), steps); var cap := s.chans[ch].capacity.value;
      && cap - |s.chans[ch].queue| <= Coming(s.pcs, true, ch)
      && (|s.chans[ch].queue| < cap ==> exists u :: 0 <= u < |s.pcs| && Comes(s.pcs[u], true, ch))
  {
    hide Start, Run, Locked, SectionsOk, Counted, Awake, ChansOk, Coming, Comes;
    StartInv(capacities, threads);
    RunKeeps(Start(capacities, threads), steps);
    var s := Run(Start(capacities, threads), steps);
    assert Asleep(s.pcs[t], true, ch);
    if |s.chans[ch].queue| < s.chans[ch].capacity.value {
      SomeoneComes(s.pcs, true, ch);
    }
  }

  predicate AllClosed(s: State, sel: Select) {
    forall j :: 0 <= j < |sel.chans| ==> sel.chans[j] < |s.chans| && s.chans[sel.chans[j]].closed
  }

  /** A selector parks only after finding some channel open. */
  lemma ClosedAllMissed(s: State, pc: PC)
    requires PcIndexed(pc, |s.chans|) && pc.SelParked? && !pc.notified && AllClosed(s, pc.sel)
    ensures Missed(s, pc)
  {
    var j :| 0 <= j < |pc.seen| && !pc.seen[j];
    assert News(s.chans[pc.sel.chans[j]], pc.seen[j]);
  }

  /** Once a receiver was told `Closed`, no send on that channel ever succeeds again. */
  lemma {:induction false} ClosedIsFinal(s: State, steps: seq<(nat, Choice)>, ch: nat)
    requires Inv(s) && ch < |s.chans| && s.chans[ch].told
    ensures var r := Run(s, steps); ch < |r.chans| && r.chans[ch].told && r.chans[ch].sent == s.chans[ch].sent
    decreases |steps|
  {
    hide Do, Indexed, Locked, ChansOk, SectionsOk, Counted, Awake, Served;
    if steps != [] {
      var (t, c) := steps[0];
      if t < |s.pcs| && Do(s, t, c).Some? {
        LockedKept(s, t, c);
        QueuesKept(s, t, c);
        CountKept(s, t, c);
        AwakeKept(s, t, c);
        ServedKept(s, t, c);
        ToldStays(s, t, c, ch);
        ClosedIsFinal(Do(s, t, c).value, steps[1..], ch);
      } else {
        ClosedIsFinal(s, steps[1..], ch);
      }
    }
  }

  lemma ToldStays(s: State, t: nat, c: Choice, ch: nat)
    requires t < |s.pcs| && Indexed(s) && ChansOk(s) && SectionsOk(s) && Do(s, t, c).Some? && ch < |s.chans|
    requires s.chans[ch].told
    ensures var r := Do(s, t, c).value;
      |r.chans| == |s.chans| && r.chans[ch].told && r.chans[ch].sent == s.chans[ch].sent
  {
    hide Local, Holds, PcIndexed, Notified, Hears, ChanOk, SectionOk, OnlyClosed;
    LocalIndexed(s, t, s.pcs[t], c);
    if Local(s, t, s.pcs[t], c).value.touch.Some? {
      LocalChan(s, t, s.pcs[t], c);
    }
  }

  // ----- no deadlock -----

  /** Neither idle nor waiting on a condition variable. */
  predicate Busy(pc: PC) {
    !pc.Idle? && !pc.SendWait? && !pc.RecvWait? && !pc.SelParked?
  }

  /** Lock order: a thread that holds a channel's lock waits for no lock, so in particular not for the
      parker's. */
  lemma HoldersGoOn(s: State, t: nat, pc: PC, c: Choice)
    requires PcIndexed(pc, |s.chans|) && Holds(pc).Some?
    ensures Local(s, t, pc, c).Some? && Busy(pc)
  {
  }

  /** Whoever waits for a channel's lock waits for a thread that can go on. */
  lemma ChannelHolder(s: State, ch: nat) returns (u: nat)
    requires Indexed(s) && Locked(s) && ch < |s.chans| && s.chans[ch].lock.Some?
    ensures u < |s.pcs| && Busy(s.pcs[u]) && Do(s, u, NoChoice).Some?
  {
    hide Local, PcIndexed;
    u := s.chans[ch].lock.value;
    assert Holds(s.pcs[u]) == Some(ch);
    HoldersGoOn(s, u, s.pcs[u], NoChoice);
  }

  /** Which lock a busy thread that cannot go on waits for. */
  lemma BlockedOn(s: State, t: nat, pc: PC)
    requires PcIndexed(pc, |s.chans|) && Busy(pc) && Local(s, t, pc, NoChoice).None?
    ensures (s.park.Some? && !HoldsPark(pc)) || exists ch :: 0 <= ch < |s.chans| && s.chans[ch].lock.Some?
  {
    if pc.SendLock? || pc.RecvLock? {
      assert s.chans[pc.ch].lock.Some?;
    } else if pc.SelScan? {
      assert s.chans[pc.sel.chans[pc.i]].lock.Some?;
    }
  }

  /** In every reachable state, if any thread is in the middle of something, some such thread can take a
      step: the locks never deadlock. */
  lemma NoDeadlock(capacities: seq<Option<nat>>, threads: nat, steps: seq<(nat, Choice)>, t: nat)
    requires var s := Run(Start(capacities, threads), steps); t < |s.pcs| && Busy(s.pcs[t])
    ensures var s := Run(Start(capacities, threads), steps);
      exists u: nat :: u < |s.pcs| && Busy(s.pcs[u]) && Do(s, u, NoChoice).Some?
  {
    hide Start, Run, Local, Locked, PcIndexed, SectionsOk, ChansOk, Counted, Awake, Served;
    StartInv(capacities, threads);
    RunKeeps(Start(capacities, threads), steps);
    var s := Run(Start(capacities, threads), steps);
    if Do(s, t, NoChoice).None? {
      BlockedOn(s, t, s.pcs[t]);
      if ch :| 0 <= ch < |s.chans| && s.chans[ch].lock.Some? {
        var u := ChannelHolder(s, ch);
      } else {
        var u := ParkHolder(s);
        if Do(s, u, NoChoice).None? {
          BlockedOn(s, u, s.pcs[u]);
        }
      }
    }
  }

  lemma ParkHolder(s: State) returns (u: nat)
    requires Locked(s) && s.park.Some?
    ensures u < |s.pcs| && HoldsPark(s.pcs[u]) && Busy(s.pcs[u])
  {
    u := s.park.value;
    assert HoldsPark(s.pcs[u]);
  }

  // ----- when the wake-up of a close is missed -----

  /** The thread waits for room or for a message without having been notified. */
  predicate Sleeps(pc: PC, ch: nat) {
    (pc.SendWait? || pc.RecvWait?) && pc.ch == ch && !pc.notified
  }

  /** A closer that will notify those who wait like `pc`. */
  predicate WillTell(closer: PC, pc: PC, ch: nat) {
    (closer.CloseNotifyEmpty? || (closer.CloseNotifyFull? && pc.SendWait?)) && closer.ch == ch
  }

  /** The thread sleeps on a closed channel, and whoever closed it has already notified the others: only
      another thread's message, receive or a spurious wake-up can get it going. */
  ghost predicate Stranded(s: State, t: nat, ch: nat) {
    && t < |s.pcs| && ch < |s.chans| && Sleeps(s.pcs[t], ch) && s.chans[ch].closed
    && forall u :: 0 <= u < |s.pcs| ==> !WillTell(s.pcs[u], s.pcs[t], ch)
  }

  /** About to wait: it has read the flag, and found the channel open. */
  predicate Parks(pc: PC, ch: nat) {
    (pc.SendPark? || pc.RecvPark?) && pc.ch == ch
  }

  /** A step leaves a thread stranded that was not before if and only if the step is its own, from reading
      the flag into the wait, and in between the channel was closed and the notifications were sent. */
  lemma StrandedExactly(s: State, u: nat, c: Choice, t: nat, ch: nat)
    requires u < |s.pcs| && t < |s.pcs| && ch < |s.chans| && Indexed(s) && Do(s, u, c).Some? && !Stranded(s, t, ch)
    ensures Stranded(Do(s, u, c).value, t, ch) <==>
      && u == t && Parks(s.pcs[t], ch) && s.chans[ch].closed
      && forall v :: 0 <= v < |s.pcs| ==> v == t || !WillTell(s.pcs[v], Do(s, u, c).value.pcs[t], ch)
  {
    var s2 := Do(s, u, c).value;
    if u == t {
      OwnStep(s, t, c, ch);
    } else {
      OthersStep(s, u, c, t, ch);
    }
  }

  lemma LocalParks(s: State, t: nat, pc: PC, c: Choice, ch: nat)
    requires PcIndexed(pc, |s.chans|) && Local(s, t, pc, c).Some? && ch < |s.chans|
    ensures var e := Local(s, t, pc, c).value;
      && (Sleeps(e.pc, ch) <==> Parks(pc, ch))
      && (Parks(pc, ch) ==>
            e.notice.NoNotice? && e.touch.Some? && e.touch.value.chan.closed == s.chans[e.touch.value.ch].closed)
  {
  }

  lemma OwnStep(s: State, t: nat, c: Choice, ch: nat)
    requires t < |s.pcs| && ch < |s.chans| && Indexed(s) && Do(s, t, c).Some?
    ensures var s2 := Do(s, t, c).value;
      && (Sleeps(s2.pcs[t], ch) <==> Parks(s.pcs[t], ch))
      && (Parks(s.pcs[t], ch) ==> s2.chans[ch].closed == s.chans[ch].closed)
      && (Sleeps(s2.pcs[t], ch) ==> forall v :: 0 <= v < |s.pcs| && v != t ==> s2.pcs[v] == s.pcs[v])
  {
    hide Local, PcIndexed, Sleeps, Parks;
    LocalParks(s, t, s.pcs[t], c, ch);
  }

  /** A channel becomes closed only where its closer is about to notify. */
  lemma LocalCloses(s: State, u: nat, pc: PC, c: Choice, ch: nat)
    requires PcIndexed(pc, |s.chans|) && Local(s, u, pc, c).Some? && ch < |s.chans| && !s.chans[ch].closed
    ensures var e := Local(s, u, pc, c).value;
      e.touch.Some? && e.touch.value.ch == ch && e.touch.value.chan.closed ==> e.pc == CloseNotifyEmpty(ch)
  {
  }

  /** A closer that will tell `pct` still will after its step, or has told it. */
  lemma TellerSteps(s: State, u: nat, pc: PC, c: Choice, t: nat, pct: PC, ch: nat)
    requires PcIndexed(pc, |s.chans|) && WillTell(pc, pct, ch) && Sleeps(pct, ch)
    ensures Local(s, u, pc, c).Some?
    ensures var e := Local(s, u, pc, c).value; WillTell(e.pc, pct, ch) || Hears(e.notice, t, pct)
  {
  }

  lemma OthersStep(s: State, u: nat, c: Choice, t: nat, ch: nat)
    requires u < |s.pcs| && t < |s.pcs| && u != t && ch < |s.chans| && Indexed(s) && Do(s, u, c).Some?
    requires !Stranded(s, t, ch)
    ensures !Stranded(Do(s, u, c).value, t, ch)
  {
    hide Local, Hears, PcIndexed, Holds;
    var s2 := Do(s, u, c).value;
    if Sleeps(s2.pcs[t], ch) && s2.chans[ch].closed {
      assert s2.pcs[t] == s.pcs[t];
      if !s.chans[ch].closed {
        LocalCloses(s, u, s.pcs[u], c, ch);
        assert WillTell(s2.pcs[u], s2.pcs[t], ch);
      } else {
        var v :| 0 <= v < |s.pcs| && WillTell(s.pcs[v], s.pcs[t], ch);
        if v == u {
          TellerSteps(s, u, s.pcs[u], c, t, s.pcs[t], ch);
        }
        assert WillTell(s2.pcs[v], s2.pcs[t], ch);
      }
    }
  }

  /** One unbounded channel, still empty, and two threads. */
  function Pair(lock: Option<nat>, closed: bool, a: PC, b: PC): State {
    State([Chan([], None, closed, lock, [], [], false)], [a, b], None, 0)
  }

  /** The steps lead from one state to the other. */
  ghost predicate Leads(s: State, steps: seq<(nat, Choice)>, r: State) {
    Indexed(s) && Run(s, steps) == r
  }

  lemma LeadsFrom(s: State, t: nat, c: Choice, next: State, steps: seq<(nat, Choice)>, r: State)
    requires Indexed(s) && t < |s.pcs| && Do(s, t, c) == Some(next) && Leads(next, steps, r)
    ensures Leads(s, [(t, c)] + steps, r)
  {
    assert ([(t, c)] + steps)[1..] == steps;
  }

  /** A step of one of two threads that notifies nobody who waits. */
  lemma PairDoes(s: State, t: nat, c: Choice, next: State)
    requires Indexed(s) && t < |s.pcs| && Local(s, t, s.pcs[t], c).Some?
    requires var e := Local(s, t, s.pcs[t], c).value;
      && (e.touch.Some? ==> e.touch.value.ch < |s.chans|)
      && next == State(if e.touch.Some? then s.chans[e.touch.value.ch := e.touch.value.chan] else s.chans,
                       s.pcs[t := e.pc], e.park, e.selectors)
      && forall u :: 0 <= u < |s.pcs| && u != t ==> !Hears(e.notice, u, s.pcs[u])
    ensures Do(s, t, c) == Some(next)
  {
    hide Local, Hears, PcIndexed;
    var e := Local(s, t, s.pcs[t], c).value;
    assert Apply(s, t, e).pcs == next.pcs;
  }

  // A receiver finds the channel empty and open; another thread closes it, and finds nobody to notify; the
  // receiver then goes to sleep.

  lemma ReceiverBegins(steps: seq<(nat, Choice)>, r: State)
    requires Leads(Pair(None, false, RecvLock(0, true), Idle), steps, r)
    ensures Leads(Pair(None, false, Idle, Idle), [(0, Begin(RecvLock(0, true)))] + steps, r)
  {
    hide Leads;
    PairDoes(Pair(None, false, Idle, Idle), 0, Begin(RecvLock(0, true)), Pair(None, false, RecvLock(0, true), Idle));
    LeadsFrom(Pair(None, false, Idle, Idle), 0, Begin(RecvLock(0, true)), Pair(None, false, RecvLock(0, true), Idle),
        steps, r);
  }

  lemma ReceiverLocks(steps: seq<(nat, Choice)>, r: State)
    requires Leads(Pair(Some(0), false, RecvPop(0, true), Idle), steps, r)
    ensures Leads(Pair(None, false, RecvLock(0, true), Idle), [(0, NoChoice)] + steps, r)
  {
    hide Leads;
    PairDoes(Pair(None, false, RecvLock(0, true), Idle), 0, NoChoice, Pair(Some(0), false, RecvPop(0, true), Idle));
    LeadsFrom(Pair(None, false, RecvLock(0, true), Idle), 0, NoChoice, Pair(Some(0), false, RecvPop(0, true), Idle),
        steps, r);
  }

  lemma ReceiverFindsEmpty(steps: seq<(nat, Choice)>, r: State)
    requires Leads(Pair(Some(0), false, RecvClosed(0, true), Idle), steps, r)
    ensures Leads(Pair(Some(0), false, RecvPop(0, true), Idle), [(0, NoChoice)] + steps, r)
  {
    hide Leads;
    PairDoes(Pair(Some(0), false, RecvPop(0, true), Idle), 0, NoChoice,
        Pair(Some(0), false, RecvClosed(0, true), Idle));
    LeadsFrom(Pair(Some(0), false, RecvPop(0, true), Idle), 0, NoChoice,
        Pair(Some(0), false, RecvClosed(0, true), Idle), steps, r);
  }

  lemma ReceiverFindsOpen(steps: seq<(nat, Choice)>, r: State)
    requires Leads(Pair(Some(0), false, RecvPark(0), Idle), steps, r)
    ensures Leads(Pair(Some(0), false, RecvClosed(0, true), Idle), [(0, NoChoice)] + steps, r)
  {
    hide Leads;
    PairDoes(Pair(Some(0), false, RecvClosed(0, true), Idle), 0, NoChoice, Pair(Some(0), false, RecvPark(0), Idle));
    LeadsFrom(Pair(Some(0), false, RecvClosed(0, true), Idle), 0, NoChoice, Pair(Some(0), false, RecvPark(0), Idle),
        steps, r);
  }

  lemma CloserBegins(steps: seq<(nat, Choice)>, r: State)
    requires Leads(Pair(Some(0), false, RecvPark(0), CloseSet(0)), steps, r)
    ensures Leads(Pair(Some(0), false, RecvPark(0), Idle), [(1, Begin(CloseSet(0)))] + steps, r)
  {
    hide Leads;
    PairDoes(Pair(Some(0), false, RecvPark(0), Idle), 1, Begin(CloseSet(0)),
        Pair(Some(0), false, RecvPark(0), CloseSet(0)));
    LeadsFrom(Pair(Some(0), false, RecvPark(0), Idle), 1, Begin(CloseSet(0)),
        Pair(Some(0), false, RecvPark(0), CloseSet(0)), steps, r);
  }

  lemma CloserSets(steps: seq<(nat, Choice)>, r: State)
    requires Leads(Pair(Some(0), true, RecvPark(0), CloseNotifyEmpty(0)), steps, r)
    ensures Leads(Pair(Some(0), false, RecvPark(0), CloseSet(0)), [(1, NoChoice)] + steps, r)
  {
    hide Leads;
    PairDoes(Pair(Some(0), false, RecvPark(0), CloseSet(0)), 1, NoChoice,
        Pair(Some(0), true, RecvPark(0), CloseNotifyEmpty(0)));
    LeadsFrom(Pair(Some(0), false, RecvPark(0), CloseSet(0)), 1, NoChoice,
        Pair(Some(0), true, RecvPark(0), CloseNotifyEmpty(0)), steps, r);
  }

  lemma CloserTellsReceivers(steps: seq<(nat, Choice)>, r: State)
    requires Leads(Pair(Some(0), true, RecvPark(0), CloseNotifyFull(0)), steps, r)
    ensures Leads(Pair(Some(0), true, RecvPark(0), CloseNotifyEmpty(0)), [(1, NoChoice)] + steps, r)
  {
    hide Leads;
    PairDoes(Pair(Some(0), true, RecvPark(0), CloseNotifyEmpty(0)), 1, NoChoice,
        Pair(Some(0), true, RecvPark(0), CloseNotifyFull(0)));
    LeadsFrom(Pair(Some(0), true, RecvPark(0), CloseNotifyEmpty(0)), 1, NoChoice,
        Pair(Some(0), true, RecvPark(0), CloseNotifyFull(0)), steps, r);
  }

  lemma CloserTellsSenders(steps: seq<(nat, Choice)>, r: State)
    requires Leads(Pair(Some(0), true, RecvPark(0), WakeLoad), steps, r)
    ensures Leads(Pair(Some(0), true, RecvPark(0), CloseNotifyFull(0)), [(1, NoChoice)] + steps, r)
  {
    hide Leads;
    PairDoes(Pair(Some(0), true, RecvPark(0), CloseNotifyFull(0)), 1, NoChoice,
        Pair(Some(0), true, RecvPark(0), WakeLoad));
    LeadsFrom(Pair(Some(0), true, RecvPark(0), CloseNotifyFull(0)), 1, NoChoice,
        Pair(Some(0), true, RecvPark(0), WakeLoad), steps, r);
  }

  lemma CloserIsDone(steps: seq<(nat, Choice)>, r: State)
    requires Leads(Pair(Some(0), true, RecvPark(0), Idle), steps, r)
    ensures Leads(Pair(Some(0), true, RecvPark(0), WakeLoad), [(1, NoChoice)] + steps, r)
  {
    hide Leads;
    PairDoes(Pair(Some(0), true, RecvPark(0), WakeLoad), 1, NoChoice, Pair(Some(0), true, RecvPark(0), Idle));
    LeadsFrom(Pair(Some(0), true, RecvPark(0), WakeLoad), 1, NoChoice, Pair(Some(0), true, RecvPark(0), Idle), steps,
        r);
  }

  lemma ReceiverWaits(steps: seq<(nat, Choice)>, r: State)
    requires Leads(Pair(None, true, RecvWait(0, false), Idle), steps, r)
    ensures Leads(Pair(Some(0), true, RecvPark(0), Idle), [(0, NoChoice)] + steps, r)
  {
    hide Leads;
    PairDoes(Pair(Some(0), true, RecvPark(0), Idle), 0, NoChoice, Pair(None, true, RecvWait(0, false), Idle));
    LeadsFrom(Pair(Some(0), true, RecvPark(0), Idle), 0, NoChoice, Pair(None, true, RecvWait(0, false), Idle), steps,
        r);
  }

  lemma CloseCanBeMissed() returns (steps: seq<(nat, Choice)>, s: State)
    ensures s == Pair(None, true, RecvWait(0, false), Idle) && Stranded(s, 0, 0)
    ensures Leads(Start([None], 2), steps, s)
  {
    hide Leads, Do, Local, Run;
    s := Pair(None, true, RecvWait(0, false), Idle);
    steps := [];
    NowhereToGo(s);
    ReceiverWaits(steps, s);
    steps := [(0, NoChoice)] + steps;
    CloserIsDone(steps, s);
    steps := [(1, NoChoice)] + steps;
    CloserTellsSenders(steps, s);
    steps := [(1, NoChoice)] + steps;
    CloserTellsReceivers(steps, s);
    steps := [(1, NoChoice)] + steps;
    CloserSets(steps, s);
    steps := [(1, NoChoice)] + steps;
    CloserBegins(steps, s);
    steps := [(1, Begin(CloseSet(0)))] + steps;
    ReceiverFindsOpen(steps, s);
    steps := [(0, NoChoice)] + steps;
    ReceiverFindsEmpty(steps, s);
    steps := [(0, NoChoice)] + steps;
    ReceiverLocks(steps, s);
    steps := [(0, NoChoice)] + steps;
    ReceiverBegins(steps, s);
    steps := [(0, Begin(RecvLock(0, true)))] + steps;
    assert Start([None], 2) == Pair(None, false, Idle, Idle);
  }

  lemma NowhereToGo(s: State)
    requires Indexed(s)
    ensures Leads(s, [], s)
  {
  }
}
