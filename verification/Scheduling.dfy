/** The cooperative scheduler of one actor (src/vm/scheduler.rs): the run-queue, the four sets of parked
    coroutines, and what becomes of a coroutine over any run. */
module Scheduling {
  import opened WakeOrder
  import opened Wrappers

  /** How a parked coroutine resumes; values and errors are named by numbers. */
  datatype Outcome = Value(v: int) | Raise(e: int)

  const NULL: Outcome := Value(0)

  datatype Thread = Thread(id: nat, stack: seq<int>, resume: Option<Outcome>)

  datatype Parked<+K> = Parked(key: K, thread: Thread)

  /** When a `wait` is due; `None` is before all time, for `wait_frame`. */
  type Time = Option<real>

  predicate Due(t: Time, now: real) {
    t.None? || t.value <= now
  }

  datatype State = State(
    queue: seq<Thread>, blocked: seq<Parked<nat>>, io: seq<Parked<nat>>, timers: seq<Parked<Time>>,
      deferred: seq<Parked<nat>>)

  // ----- taking threads out of a parked set -----

  function SwapRemove<T>(s: seq<T>, i: nat): seq<T>
    requires i < |s|
  {
    var last := |s| - 1;
    if i == last then s[..last] else s[..last][i := s[last]]
  }

  /** The scan that moves out every match from position `i` on: what is left, and what came out, in order. */
  function Swept<K>(s: seq<Parked<K>>, i: nat, hit: K -> bool): (seq<Parked<K>>, seq<Parked<K>>)
    requires i <= |s|
    decreases |s| - i
  {
    if i == |s| then (s, [])
    else if hit(s[i].key) then
      var (left, out) := Swept(SwapRemove(s, i), i, hit);
      (left, [s[i]] + out)
    else Swept(s, i + 1, hit)
  }

  function Threads<K>(s: seq<Parked<K>>): seq<Thread> {
    seq(|s|, i requires 0 <= i < |s| => s[i].thread)
  }

  function Resumed<K>(s: seq<Parked<K>>, outcome: Outcome): seq<Thread> {
    seq(|s|, i requires 0 <= i < |s| => s[i].thread.(resume := Some(outcome)))
  }

  function KeyPosition<K(==)>(s: seq<Parked<K>>, key: K): (r: Option<nat>)
    ensures r.Some? ==> r.value < |s| && s[r.value].key == key
    ensures r.None? ==> forall i :: 0 <= i < |s| ==> s[i].key != key
  {
    if s == [] then None
    else if s[0].key == key then Some(0)
    else
      match KeyPosition(s[1..], key)
      case Some(i) => Some(i + 1)
      case None => assert forall i :: 0 < i < |s| ==> s[i] == s[1..][i - 1]; None
  }

  function IdPosition<K>(s: seq<Parked<K>>, id: nat): (r: Option<nat>)
    ensures r.Some? ==> r.value < |s| && s[r.value].thread.id == id
    ensures r.None? ==> forall i :: 0 <= i < |s| ==> s[i].thread.id != id
  {
    if s == [] then None
    else if s[0].thread.id == id then Some(0)
    else
      match IdPosition(s[1..], id)
      case Some(i) => Some(i + 1)
      case None => assert forall i :: 0 < i < |s| ==> s[i] == s[1..][i - 1]; None
  }

  lemma SwapRemoveTakesOne<T>(s: seq<T>, i: nat)
    requires i < |s|
    ensures multiset(SwapRemove(s, i)) == multiset(s) - multiset{s[i]}
  {
    var last := |s| - 1;
    assert s == s[..last] + [s[last]];
    if i < last {
      assert multiset(s[..last][i := s[last]]) == multiset(s[..last]) - multiset{s[i]} + multiset{s[last]};
    }
  }

  lemma Regroup<T>(a: multiset<T>, b: multiset<T>, m: multiset<T>, x: multiset<T>)
    requires a + b == m - x && x <= m
    ensures a + (x + b) == m
  {
  }

  predicate NoneHit<K>(s: seq<Parked<K>>, hit: K -> bool) {
    forall j :: 0 <= j < |s| ==> !hit(s[j].key)
  }

  predicate AllHit<K>(s: seq<Parked<K>>, hit: K -> bool) {
    forall j :: 0 <= j < |s| ==> hit(s[j].key)
  }

  lemma {:induction false} SweepSorts<K>(s: seq<Parked<K>>, i: nat, hit: K -> bool)
    requires i <= |s| && NoneHit(s[..i], hit)
    ensures NoneHit(Swept(s, i, hit).0, hit) && AllHit(Swept(s, i, hit).1, hit)
    decreases |s| - i
  {
    if i == |s| {
      assert s[..i] == s;
    } else if hit(s[i].key) {
      var rest := SwapRemove(s, i);
      assert rest[..i] == s[..i];
      SweepSorts(rest, i, hit);
    } else {
      SweepSorts(s, i + 1, hit);
    }
  }

  lemma {:induction false} SweepKeeps<K>(s: seq<Parked<K>>, i: nat, hit: K -> bool)
    requires i <= |s|
    ensures multiset(Swept(s, i, hit).0) + multiset(Swept(s, i, hit).1) == multiset(s)
    decreases |s| - i
  {
    if i == |s| {
    } else if hit(s[i].key) {
      var (left, out) := Swept(SwapRemove(s, i), i, hit);
      SweepKeeps(SwapRemove(s, i), i, hit);
      SwapRemoveTakesOne(s, i);
      assert s[i] in multiset(s);
      Regroup(multiset(left), multiset(out), multiset(s), multiset{s[i]});
      FrontCounts(s[i], out);
    } else {
      SweepKeeps(s, i + 1, hit);
    }
  }

  lemma FrontCounts<T>(x: T, s: seq<T>)
    ensures multiset([x] + s) == multiset{x} + multiset(s)
  {
  }

  /** The scan takes out exactly the matches, each once, and loses nothing. */
  lemma SweepIsExact<K>(s: seq<Parked<K>>, hit: K -> bool)
    ensures var (left, out) := Swept(s, 0, hit);
      NoneHit(left, hit) && AllHit(out, hit) && multiset(left) + multiset(out) == multiset(s)
  {
    SweepSorts(s, 0, hit);
    SweepKeeps(s, 0, hit);
  }

  // ----- the order in which they come out -----

  /** Which entries match. */
  function Flags<K>(s: seq<Parked<K>>, hit: K -> bool): (r: seq<bool>)
    ensures |r| == |s| && forall i :: 0 <= i < |s| ==> r[i] == hit(s[i].key)
  {
    seq(|s|, i requires 0 <= i < |s| => hit(s[i].key))
  }

  function Entries<K>(s: seq<Parked<K>>, at: seq<nat>): (r: seq<Parked<K>>)
    requires forall j :: 0 <= j < |at| ==> at[j] < |s|
    ensures |r| == |at| && forall j :: 0 <= j < |r| ==> r[j] == s[at[j]]
  {
    seq(|at|, j requires 0 <= j < |at| => s[at[j]])
  }

  /** The matches in the order they were parked. */
  function Matches<K>(s: seq<Parked<K>>, hit: K -> bool): seq<Parked<K>> {
    Entries(s, Hits(Flags(s, hit), 0, |s|))
  }

  lemma {:induction false} SweepScans<K>(s: seq<Parked<K>>, l: seq<Parked<K>>, hit: K -> bool, i: nat, c: nat)
    requires i <= |l| <= |s| && (i < |l| ==> c < |s| && l[i] == s[c]) && forall k :: i < k < |l| ==> l[k] == s[k]
    ensures Swept(l, i, hit).1 == Entries(s, Scan(Flags(s, hit), i, |l|, c))
    decreases |l| - i
  {
    var b := Flags(s, hit);
    if i < |l| {
      if !b[c] {
        SweepScans(s, l, hit, i + 1, i + 1);
      } else if i < |l| - 1 {
        var rest := SwapRemove(l, i);
        SweepScans(s, rest, hit, i, |l| - 1);
        var more := Scan(b, i, |l| - 1, |l| - 1);
        assert Entries(s, [c] + more) == [s[c]] + Entries(s, more);
      } else {
        assert Swept(SwapRemove(l, i), i, hit).1 == [];
        assert Entries(s, [c]) == [s[c]] + [];
      }
    }
  }

  predicate Distinct<K(==)>(s: seq<Parked<K>>) {
    forall i, j :: 0 <= i < j < |s| ==> s[i] != s[j]
  }

  lemma SameEntries<K>(s: seq<Parked<K>>, x: seq<nat>, y: seq<nat>)
    requires Distinct(s) && (forall j :: 0 <= j < |x| ==> x[j] < |s|) && forall j :: 0 <= j < |y| ==> y[j] < |s|
    ensures Entries(s, x) == Entries(s, y) <==> x == y
  {
    if Entries(s, x) == Entries(s, y) {
      assert |Entries(s, x)| == |x| && |Entries(s, y)| == |y|;
      forall j | 0 <= j < |x| ensures x[j] == y[j] {
        assert s[x[j]] == Entries(s, x)[j] == Entries(s, y)[j] == s[y[j]];
      }
    }
  }

  /** Matches come out in the order they were parked if and only if, for each but the first, the entry moved up
      before it is no match or does not stand before it: with matches at h[0], h[1], ... of n, the entry at
      n - j is no match or h[j] >= n - j. */
  lemma WakesInOrder<K>(s: seq<Parked<K>>, hit: K -> bool)
    requires Distinct(s)
    ensures var b := Flags(s, hit);
      Swept(s, 0, hit).1 == Matches(s, hit) <==> OrderKept(b, Hits(b, 0, |s|), |s|)
  {
    hide Swept, Scan, Hits, OrderKept, Entries, Distinct;
    var b := Flags(s, hit);
    SweepScans(s, s, hit, 0, 0);
    ScanOrder(b, 0, |s|);
    SameEntries(s, Scan(b, 0, |s|, 0), Hits(b, 0, |s|));
  }

  /** If all that are parked wait for the same thing, the order is kept if and only if there are at most two. */
  lemma AllInOrder<K>(s: seq<Parked<K>>, hit: K -> bool)
    requires Distinct(s) && AllHit(s, hit)
    ensures Swept(s, 0, hit).1 == s <==> |s| <= 2
  {
    hide Swept, Scan, Hits, Distinct;
    WakesInOrder(s, hit);
    AllMatch(s, hit);
    var b := Flags(s, hit);
    if |s| > 2 {
      assert !KeptAt(b, Hits(b, 0, |s|), |s|, 1);
    }
  }

  lemma AllMatch<K>(s: seq<Parked<K>>, hit: K -> bool)
    requires AllHit(s, hit)
    ensures var h := Hits(Flags(s, hit), 0, |s|);
      |h| == |s| && (forall j :: 0 <= j < |s| ==> h[j] == j) && Matches(s, hit) == s
  {
    AllHits(Flags(s, hit), 0);
  }

  /** Three of them: the last parked overtakes the second. */
  lemma WakesOutOfOrder(a: Parked<nat>, b: Parked<nat>, c: Parked<nat>, key: nat)
    requires a.key == b.key == c.key == key
    ensures Swept([a, b, c], 0, (k: nat) => k == key).1 == [a, c, b]
  {
    var hit := (k: nat) => k == key;
    assert SwapRemove([a, b, c], 0) == [c, b];
    assert SwapRemove([c, b], 0) == [b];
    assert SwapRemove([b], 0) == [];
    assert Swept<nat>([], 0, hit) == ([], []);
    assert [b] + [] == [b] && [c] + [b] == [c, b] && [a] + [c, b] == [a, c, b];
    assert Swept([b], 0, hit) == ([], [b]);
    assert Swept([c, b], 0, hit) == ([], [c, b]);
  }

  // ----- operations -----

  datatype Op =
    | Enqueue(thread: Thread) | TakeNext
    | Block(awaiting: nat, thread: Thread) | WakeJoiners(finished: nat, outcome: Outcome)
    | ParkIo(job: nat, thread: Thread) | WakeIo(job: nat, outcome: Outcome)
    | ParkTimer(time: Time, thread: Thread) | WakeTimers(now: real)
    | ParkDeferred(d: nat, thread: Thread) | WakeDeferred(d: nat, outcome: Outcome)
    | CancelUnpark(id: nat)

  function WakeOne<K>(s: seq<Parked<K>>, i: nat, outcome: Outcome): Thread
    requires i < |s|
  {
    s[i].thread.(resume := Some(outcome))
  }

  function Do(s: State, op: Op): State {
    match op
    case Enqueue(t) => s.(queue := s.queue + [t])
    case TakeNext => if s.queue == [] then s else s.(queue := s.queue[1..])
    case Block(awaiting, t) => s.(blocked := s.blocked + [Parked(awaiting, t)])
    case WakeJoiners(finished, outcome) =>
      var (left, out) := Swept(s.blocked, 0, (k: nat) => k == finished);
      s.(blocked := left, queue := s.queue + Resumed(out, outcome))
    case ParkIo(job, t) => s.(io := s.io + [Parked(job, t)])
    case WakeIo(job, outcome) =>
      (match KeyPosition(s.io, job)
       case None => s
       case Some(i) => s.(io := SwapRemove(s.io, i), queue := s.queue + [WakeOne(s.io, i, outcome)]))
    case ParkTimer(time, t) => s.(timers := s.timers + [Parked(time, t)])
    case WakeTimers(now) =>
      var (left, out) := Swept(s.timers, 0, (k: Time) => Due(k, now));
      s.(timers := left, queue := s.queue + Resumed(out, NULL))
    case ParkDeferred(d, t) => s.(deferred := s.deferred + [Parked(d, t)])
    case WakeDeferred(d, outcome) =>
      var (left, out) := Swept(s.deferred, 0, (k: nat) => k == d);
      s.(deferred := left, queue := s.queue + Resumed(out, outcome))
    case CancelUnpark(id) => Unpark(s, id)
  }

  function Unpark(s: State, id: nat): State {
    match IdPosition(s.blocked, id)
    case Some(i) => s.(blocked := SwapRemove(s.blocked, i), queue := s.queue + [WakeOne(s.blocked, i, NULL)])
    case None =>
      match IdPosition(s.io, id)
      case Some(i) => s.(io := SwapRemove(s.io, i), queue := s.queue + [WakeOne(s.io, i, NULL)])
      case None =>
        match IdPosition(s.timers, id)
        case Some(i) => s.(timers := SwapRemove(s.timers, i), queue := s.queue + [WakeOne(s.timers, i, NULL)])
        case None =>
          match IdPosition(s.deferred, id)
          case Some(i) => s.(deferred := SwapRemove(s.deferred, i), queue := s.queue + [WakeOne(s.deferred, i, NULL)])
          case None => s
  }

  // ----- what a wake delivers -----

  /** Of the parked `s` exactly those that match leave. Each of them is appended to the queue once, with its own
      id and stack and with the outcome; the others stay as they are. */
  ghost predicate Delivers<K(!new)>(s: seq<Parked<K>>, left: seq<Parked<K>>, hit: K -> bool, queue: seq<Thread>,
                                    after: seq<Thread>, outcome: Outcome) {
    exists out: seq<Parked<K>> ::
      && multiset(left) + multiset(out) == multiset(s) && NoneHit(left, hit) && AllHit(out, hit)
      && |after| == |queue| + |out| && after[..|queue|] == queue
      && forall j :: 0 <= j < |out| ==>
        after[|queue| + j] == Thread(out[j].thread.id, out[j].thread.stack, Some(outcome))
  }

  lemma SweepDelivers<K(!new)>(s: seq<Parked<K>>, hit: K -> bool, queue: seq<Thread>, outcome: Outcome)
    ensures var (left, out) := Swept(s, 0, hit); Delivers(s, left, hit, queue, queue + Resumed(out, outcome), outcome)
  {
    hide Swept;
    SweepIsExact(s, hit);
    var (left, out) := Swept(s, 0, hit);
    var after := queue + Resumed(out, outcome);
    assert forall j :: 0 <= j < |out| ==> after[|queue| + j] == Resumed(out, outcome)[j];
  }

  /** A coroutine that finishes wakes exactly those that join it, with its outcome. */
  lemma JoinersGetTheOutcome(s: State, finished: nat, outcome: Outcome)
    ensures var t := Do(s, WakeJoiners(finished, outcome));
      && Delivers(s.blocked, t.blocked, (k: nat) => k == finished, s.queue, t.queue, outcome)
      && t.io == s.io && t.timers == s.timers && t.deferred == s.deferred
  {
    hide Swept, Resumed, Delivers;
    SweepDelivers(s.blocked, (k: nat) => k == finished, s.queue, outcome);
  }

  /** Time passing wakes exactly those whose time has come, with null. */
  lemma SleepersGetNull(s: State, now: real)
    ensures var t := Do(s, WakeTimers(now));
      && Delivers(s.timers, t.timers, (k: Time) => k.None? || k.value <= now, s.queue, t.queue, Value(0))
      && t.blocked == s.blocked && t.io == s.io && t.deferred == s.deferred
  {
    hide Swept, Resumed, Delivers;
    var due := (k: Time) => Due(k, now);
    SweepDelivers(s.timers, due, s.queue, NULL);
    SameMatch(s.timers, Do(s, WakeTimers(now)).timers, due, (k: Time) => k.None? || k.value <= now, s.queue,
      Do(s, WakeTimers(now)).queue, NULL);
  }

  lemma SameMatch<K(!new)>(s: seq<Parked<K>>, left: seq<Parked<K>>, hit: K -> bool, same: K -> bool,
                           queue: seq<Thread>, after: seq<Thread>, outcome: Outcome)
    requires Delivers(s, left, hit, queue, after, outcome) && forall k :: hit(k) == same(k)
    ensures Delivers(s, left, same, queue, after, outcome)
  {
  }

  /** A settled deferred wakes exactly those that await it, with its outcome. */
  lemma AwaitersGetTheOutcome(s: State, d: nat, outcome: Outcome)
    ensures var t := Do(s, WakeDeferred(d, outcome));
      && Delivers(s.deferred, t.deferred, (k: nat) => k == d, s.queue, t.queue, outcome)
      && t.blocked == s.blocked && t.io == s.io && t.timers == s.timers
  {
    hide Swept, Resumed, Delivers;
    SweepDelivers(s.deferred, (k: nat) => k == d, s.queue, outcome);
  }

  function ParkedThreads(s: State): seq<Thread> {
    Threads(s.blocked) + Threads(s.io) + Threads(s.timers) + Threads(s.deferred)
  }

  /** Of the parked coroutines one with that id leaves; it is appended to the queue with its stack and null. */
  ghost predicate NullForOne(parked: seq<Thread>, left: seq<Thread>, queue: seq<Thread>, after: seq<Thread>, id: nat) {
    exists i :: 0 <= i < |parked| && parked[i].id == id
      && after == queue + [Thread(id, parked[i].stack, Some(Value(0)))]
      && multiset(left) == multiset(parked) - multiset{parked[i]}
  }

  /** A cancel wakes one parked coroutine with that id, or changes nothing if there is none. */
  lemma CancelGivesNull(s: State, id: nat)
    ensures var t := Do(s, CancelUnpark(id)); var parked := ParkedThreads(s);
      if forall i :: 0 <= i < |parked| ==> parked[i].id != id then t == s
      else NullForOne(parked, ParkedThreads(t), s.queue, t.queue, id)
  {
    hide SwapRemove, IdPosition, Threads, NullForOne, WakeOne;
    var t := Do(s, CancelUnpark(id));
    var a, b, c, d := Threads(s.blocked), Threads(s.io), Threads(s.timers), Threads(s.deferred);
    if IdPosition(s.blocked, id).Some? {
      TakenFrom(s, t, [], s.blocked, t.blocked, IdPosition(s.blocked, id).value, b + c + d, id);
    } else if IdPosition(s.io, id).Some? {
      TakenFrom(s, t, a, s.io, t.io, IdPosition(s.io, id).value, c + d, id);
    } else if IdPosition(s.timers, id).Some? {
      TakenFrom(s, t, a + b, s.timers, t.timers, IdPosition(s.timers, id).value, d, id);
    } else if IdPosition(s.deferred, id).Some? {
      TakenFrom(s, t, a + b + c, s.deferred, t.deferred, IdPosition(s.deferred, id).value, [], id);
    } else {
      NotThere(s.blocked, id);
      NotThere(s.io, id);
      NotThere(s.timers, id);
      NotThere(s.deferred, id);
    }
  }

  lemma NotThere<K>(s: seq<Parked<K>>, id: nat)
    requires forall i :: 0 <= i < |s| ==> s[i].thread.id != id
    ensures forall i :: 0 <= i < |Threads(s)| ==> Threads(s)[i].id != id
  {
  }

  lemma TakenFrom<K>(s: State, t: State, a: seq<Thread>, from: seq<Parked<K>>, left: seq<Parked<K>>, i: nat,
                     b: seq<Thread>, id: nat)
    requires i < |from| && from[i].thread.id == id && left == SwapRemove(from, i)
    requires ParkedThreads(s) == a + Threads(from) + b && ParkedThreads(t) == a + Threads(left) + b
    requires t.queue == s.queue + [WakeOne(from, i, NULL)]
    ensures NullForOne(ParkedThreads(s), ParkedThreads(t), s.queue, t.queue, id)
    ensures !forall i :: 0 <= i < |ParkedThreads(s)| ==> ParkedThreads(s)[i].id != id
  {
    hide ParkedThreads;
    assert Threads(left) == SwapRemove(Threads(from), i);
    SwapRemoveTakesOne(Threads(from), i);
    assert Threads(from)[i] in multiset(Threads(from));
    assert ParkedThreads(s)[|a| + i] == from[i].thread;
  }

  // ----- the scheduler -----

  class Scheduler {
    var queue: seq<Thread>
    var blocked: seq<Parked<nat>>
    var ioBlocked: seq<Parked<nat>>
    var timerBlocked: seq<Parked<Time>>
    var deferredBlocked: seq<Parked<nat>>

    ghost function View(): State
      reads this
    {
      State(queue, blocked, ioBlocked, timerBlocked, deferredBlocked)
    }

    constructor ()
      ensures View() == State([], [], [], [], [])
    {
      queue, blocked, ioBlocked, timerBlocked, deferredBlocked := [], [], [], [], [];
    }

    method EnqueueThread(t: Thread)
      modifies this
      ensures View() == Do(old(View()), Enqueue(t))
    {
      queue := queue + [t];
    }

    method Next() returns (t: Option<Thread>)
      modifies this
      ensures View() == Do(old(View()), TakeNext)
      ensures t == if old(queue) == [] then None else Some(old(queue)[0])
    {
      if queue == [] {
        return None;
      }
      t := Some(queue[0]);
      queue := queue[1..];
    }

    method BlockOn(awaiting: nat, t: Thread)
      modifies this
      ensures View() == Do(old(View()), Block(awaiting, t))
    {
      blocked := blocked + [Parked(awaiting, t)];
    }

    /** The scan shared by the wakes: an index that stays put when the last entry is swapped in. */
    method Sweep<K>(parked: seq<Parked<K>>, hit: K -> bool, outcome: Outcome) returns (left: seq<Parked<K>>, woke: bool)
      modifies this`queue
      ensures left == Swept(parked, 0, hit).0
      ensures queue == old(queue) + Resumed(Swept(parked, 0, hit).1, outcome)
      ensures woke <==> Swept(parked, 0, hit).1 != []
    {
      left := parked;
      woke := false;
      var i := 0;
      ghost var out: seq<Parked<K>> := [];
      assert out + Swept(left, i, hit).1 == Swept(left, i, hit).1 && queue + Resumed(out, outcome) == queue;
      while i < |left|
        invariant i <= |left|
        invariant Swept(parked, 0, hit) == (Swept(left, i, hit).0, out + Swept(left, i, hit).1)
        invariant queue == old(queue) + Resumed(out, outcome)
        invariant woke <==> out != []
        decreases |left| - i
      {
        if hit(left[i].key) {
          var t := left[i];
          left := SwapRemove(left, i);
          queue := queue + [t.thread.(resume := Some(outcome))];
          assert Resumed(out + [t], outcome) == Resumed(out, outcome) + [t.thread.(resume := Some(outcome))];
          assert out + ([t] + Swept(left, i, hit).1) == out + [t] + Swept(left, i, hit).1;
          out := out + [t];
          woke := true;
        } else {
          i := i + 1;
        }
      }
      assert out + [] == out;
    }

    method WakeJoinersOf(finished: nat, outcome: Outcome)
      modifies this
      ensures View() == Do(old(View()), WakeJoiners(finished, outcome))
    {
      hide Swept, Resumed;
      var left, _ := Sweep(blocked, (k: nat) => k == finished, outcome);
      blocked := left;
    }

    method ParkOnIo(job: nat, t: Thread)
      modifies this
      ensures View() == Do(old(View()), ParkIo(job, t))
    {
      ioBlocked := ioBlocked + [Parked(job, t)];
    }

    method CompleteIo(job: nat, outcome: Outcome) returns (woke: bool)
      modifies this
      ensures View() == Do(old(View()), WakeIo(job, outcome))
      ensures woke <==> exists i :: 0 <= i < |old(ioBlocked)| && old(ioBlocked)[i].key == job
    {
      match KeyPosition(ioBlocked, job) {
        case None => woke := false;
        case Some(pos) =>
          queue := queue + [WakeOne(ioBlocked, pos, outcome)];
          ioBlocked := SwapRemove(ioBlocked, pos);
          woke := true;
      }
    }

    method ParkOnTimer(time: Time, t: Thread)
      modifies this
      ensures View() == Do(old(View()), ParkTimer(time, t))
    {
      timerBlocked := timerBlocked + [Parked(time, t)];
    }

    method WakeDueTimers(now: real) returns (woke: bool)
      modifies this
      ensures View() == Do(old(View()), WakeTimers(now))
      ensures woke <==> |View().queue| > |old(queue)|
    {
      hide Swept;
      var left;
      left, woke := Sweep(timerBlocked, (k: Time) => Due(k, now), NULL);
      timerBlocked := left;
    }

    method ParkOnDeferred(d: nat, t: Thread)
      modifies this
      ensures View() == Do(old(View()), ParkDeferred(d, t))
    {
      deferredBlocked := deferredBlocked + [Parked(d, t)];
    }

    method Settle(d: nat, outcome: Outcome)
      modifies this
      ensures View() == Do(old(View()), WakeDeferred(d, outcome))
    {
      hide Swept, Resumed;
      var left, _ := Sweep(deferredBlocked, (k: nat) => k == d, outcome);
      deferredBlocked := left;
    }

    method Cancel(id: nat) returns (unparked: bool)
      modifies this
      ensures View() == Do(old(View()), CancelUnpark(id))
      ensures unparked <==> View() != old(View())
    {
      var pos := IdPosition(blocked, id);
      if pos.Some? {
        queue := queue + [WakeOne(blocked, pos.value, NULL)];
        blocked := SwapRemove(blocked, pos.value);
        return true;
      }
      pos := IdPosition(ioBlocked, id);
      if pos.Some? {
        queue := queue + [WakeOne(ioBlocked, pos.value, NULL)];
        ioBlocked := SwapRemove(ioBlocked, pos.value);
        return true;
      }
      pos := IdPosition(timerBlocked, id);
      if pos.Some? {
        queue := queue + [WakeOne(timerBlocked, pos.value, NULL)];
        timerBlocked := SwapRemove(timerBlocked, pos.value);
        return true;
      }
      pos := IdPosition(deferredBlocked, id);
      if pos.Some? {
        queue := queue + [WakeOne(deferredBlocked, pos.value, NULL)];
        deferredBlocked := SwapRemove(deferredBlocked, pos.value);
        return true;
      }
      unparked := false;
    }

    /** Every coroutine that is not running, in the order of `queued`. */
    ghost function Queued(): seq<Thread>
      reads this
    {
      queue + Threads(blocked) + Threads(ioBlocked) + Threads(timerBlocked) + Threads(deferredBlocked)
    }

    /** The stack of the first coroutine with that id. */
    method StackOf(id: nat) returns (stack: Option<seq<int>>)
      ensures stack.Some? ==> exists i ::
        0 <= i < |Queued()| && Queued()[i].id == id && stack == Some(Queued()[i].stack)
      ensures stack.None? ==> forall i :: 0 <= i < |Queued()| ==> Queued()[i].id != id
    {
      var all := queue + Threads(blocked) + Threads(ioBlocked) + Threads(timerBlocked) + Threads(deferredBlocked);
      for i := 0 to |all|
        invariant forall j :: 0 <= j < i ==> all[j].id != id
      {
        if all[i].id == id {
          assert all == Queued();
          return Some(all[i].stack);
        }
      }
      stack := None;
    }
  }

  // ----- where the coroutines are -----

  function Count(ts: seq<Thread>, id: nat): nat {
    multiset(seq(|ts|, i requires 0 <= i < |ts| => ts[i].id))[id]
  }

  function CountParked<K>(s: seq<Parked<K>>, id: nat): nat {
    multiset(seq(|s|, i requires 0 <= i < |s| => s[i].thread.id))[id]
  }

  /** How often the scheduler holds coroutine `id`. */
  function Held(s: State, id: nat): nat {
    Count(s.queue, id) + CountParked(s.blocked, id) + CountParked(s.io, id) + CountParked(s.timers, id)
      + CountParked(s.deferred, id)
  }

  /** What an operation hands to the scheduler, and what it hands out. */
  function In(op: Op): Option<Thread> {
    if op.Enqueue? || op.Block? || op.ParkIo? || op.ParkTimer? || op.ParkDeferred? then Some(op.thread) else None
  }

  function Out(s: State, op: Op): Option<Thread> {
    if op.TakeNext? && s.queue != [] then Some(s.queue[0]) else None
  }

  function One(t: Option<Thread>, id: nat): nat {
    if t.Some? && t.value.id == id then 1 else 0
  }

  lemma CountAppend(a: seq<Thread>, b: seq<Thread>, id: nat)
    ensures Count(a + b, id) == Count(a, id) + Count(b, id)
  {
    var ab := a + b;
    assert seq(|ab|, i requires 0 <= i < |ab| => ab[i].id)
        == seq(|a|, i requires 0 <= i < |a| => a[i].id) + seq(|b|, i requires 0 <= i < |b| => b[i].id);
  }

  lemma CountOne(t: Thread, id: nat)
    ensures Count([t], id) == One(Some(t), id)
  {
    assert seq(1, i requires 0 <= i < 1 => [t][i].id) == [t.id];
  }

  lemma ParkedAppend<K>(a: seq<Parked<K>>, p: Parked<K>, id: nat)
    ensures CountParked(a + [p], id) == CountParked(a, id) + One(Some(p.thread), id)
  {
    var b := a + [p];
    assert seq(|b|, i requires 0 <= i < |b| => b[i].thread.id) ==
      seq(|a|, i requires 0 <= i < |a| => a[i].thread.id) + [p.thread.id];
  }

  lemma ParkedRemove<K>(s: seq<Parked<K>>, i: nat, id: nat)
    requires i < |s|
    ensures CountParked(SwapRemove(s, i), id) == CountParked(s, id) - One(Some(s[i].thread), id)
  {
    var r := SwapRemove(s, i);
    var ids := seq(|s|, j requires 0 <= j < |s| => s[j].thread.id);
    assert seq(|r|, j requires 0 <= j < |r| => r[j].thread.id) == SwapRemove(ids, i);
    SwapRemoveTakesOne(ids, i);
    assert ids[i] in multiset(ids);
  }

  lemma {:induction false} SweepConserves<K>(s: seq<Parked<K>>, i: nat, hit: K -> bool, outcome: Outcome, id: nat)
    requires i <= |s|
    ensures var (left, out) := Swept(s, i, hit);
      CountParked(left, id) + Count(Resumed(out, outcome), id) == CountParked(s, id)
    decreases |s| - i
  {
    hide CountParked, Count;
    if i == |s| {
      NoCount(Resumed<K>([], outcome), id);
    } else if hit(s[i].key) {
      var out := Swept(SwapRemove(s, i), i, hit).1;
      SweepConserves(SwapRemove(s, i), i, hit, outcome, id);
      ParkedRemove(s, i, id);
      assert Resumed([s[i]] + out, outcome) == [WakeOne(s, i, outcome)] + Resumed(out, outcome);
      CountAppend([WakeOne(s, i, outcome)], Resumed(out, outcome), id);
      CountOne(WakeOne(s, i, outcome), id);
    } else {
      SweepConserves(s, i + 1, hit, outcome, id);
    }
  }

  lemma NoCount(ts: seq<Thread>, id: nat)
    requires ts == []
    ensures Count(ts, id) == 0
  {
  }

  /** No operation loses a coroutine or makes two of one. */
  lemma Conserves(s: State, op: Op, id: nat)
    ensures Held(Do(s, op), id) + One(Out(s, op), id) == Held(s, id) + One(In(op), id)
  {
    hide CountParked, Count, Swept, Resumed, SwapRemove, WakeOne;
    match op
    case Enqueue(t) => CountAppend(s.queue, [t], id); CountOne(t, id);
    case TakeNext =>
      if s.queue != [] {
        assert s.queue == [s.queue[0]] + s.queue[1..];
        CountAppend([s.queue[0]], s.queue[1..], id);
        CountOne(s.queue[0], id);
      }
    case Block(awaiting, t) => ParkedAppend(s.blocked, Parked(awaiting, t), id);
    case ParkIo(job, t) => ParkedAppend(s.io, Parked(job, t), id);
    case ParkTimer(time, t) => ParkedAppend(s.timers, Parked(time, t), id);
    case ParkDeferred(d, t) => ParkedAppend(s.deferred, Parked(d, t), id);
    case WakeJoiners(finished, outcome) =>
      var hit := (k: nat) => k == finished;
      SweepConserves(s.blocked, 0, hit, outcome, id);
      CountAppend(s.queue, Resumed(Swept(s.blocked, 0, hit).1, outcome), id);
    case WakeTimers(now) =>
      var hit := (k: Time) => Due(k, now);
      SweepConserves(s.timers, 0, hit, NULL, id);
      CountAppend(s.queue, Resumed(Swept(s.timers, 0, hit).1, NULL), id);
    case WakeDeferred(d, outcome) =>
      var hit := (k: nat) => k == d;
      SweepConserves(s.deferred, 0, hit, outcome, id);
      CountAppend(s.queue, Resumed(Swept(s.deferred, 0, hit).1, outcome), id);
    case WakeIo(job, outcome) =>
      if KeyPosition(s.io, job).Some? {
        MoveConserves(s.queue, s.io, KeyPosition(s.io, job).value, outcome, id);
      }
    case CancelUnpark(other) => UnparkConserves(s, other, id);
  }

  lemma MoveConserves<K>(queue: seq<Thread>, s: seq<Parked<K>>, i: nat, outcome: Outcome, id: nat)
    requires i < |s|
    ensures Count(queue + [WakeOne(s, i, outcome)], id) + CountParked(SwapRemove(s, i), id) ==
      Count(queue, id) + CountParked(s, id)
  {
    hide CountParked, Count, SwapRemove;
    CountAppend(queue, [WakeOne(s, i, outcome)], id);
    CountOne(WakeOne(s, i, outcome), id);
    ParkedRemove(s, i, id);
  }

  lemma UnparkConserves(s: State, other: nat, id: nat)
    ensures Held(Unpark(s, other), id) == Held(s, id)
  {
    hide CountParked, Count, SwapRemove, WakeOne;
    if IdPosition(s.blocked, other).Some? {
      MoveConserves(s.queue, s.blocked, IdPosition(s.blocked, other).value, NULL, id);
    } else if IdPosition(s.io, other).Some? {
      MoveConserves(s.queue, s.io, IdPosition(s.io, other).value, NULL, id);
    } else if IdPosition(s.timers, other).Some? {
      MoveConserves(s.queue, s.timers, IdPosition(s.timers, other).value, NULL, id);
    } else if IdPosition(s.deferred, other).Some? {
      MoveConserves(s.queue, s.deferred, IdPosition(s.deferred, other).value, NULL, id);
    }
  }

  // ----- whole runs -----

  /** An actor: its scheduler, the running coroutine, those started and not finished, and the counters for
      coroutine and job ids. */
  datatype Actor = Actor(s: State, running: Option<Thread>, live: set<nat>, nextId: nat, nextJob: nat)

  /** What can happen. Only the running coroutine spawns, yields, parks or finishes. */
  datatype Event =
    | Go | Yield | Exit(outcome: Outcome) | Join(awaiting: nat) | CallIo | Sleep(time: Time) | Await(d: nat)
    | Load | IoDone(job: nat, outcome: Outcome) | Tick(now: real) | Settled(d: nat, outcome: Outcome)
      | CancelOf(id: nat)

  /** The running coroutine leaves by a scheduler operation. */
  function Leave(a: Actor, op: Op): Actor {
    a.(s := Do(a.s, op), running := None)
  }

  /** An event; one that cannot happen changes nothing. */
  function Happen(a: Actor, e: Event): Actor {
    match e
    case Go =>
      if a.running.None? then a
      else a.(s := Do(a.s, Enqueue(Thread(a.nextId, [], None))), live := a.live + {a.nextId}, nextId := a.nextId + 1)
    case Yield => if a.running.None? then a else Leave(a, Enqueue(a.running.value.(resume := Some(NULL))))
    case Exit(outcome) =>
      if a.running.None? then a
      else Leave(a, WakeJoiners(a.running.value.id, outcome)).(live := a.live - {a.running.value.id})
    case Join(awaiting) => if a.running.None? then a else Leave(a, Block(awaiting, a.running.value))
    case CallIo => if a.running.None? then a
      else Leave(a, ParkIo(a.nextJob, a.running.value)).(nextJob := a.nextJob + 1)
    case Sleep(time) => if a.running.None? then a else Leave(a, ParkTimer(time, a.running.value))
    case Await(d) => if a.running.None? then a else Leave(a, ParkDeferred(d, a.running.value))
    case Load =>
      if a.running.Some? || a.s.queue == [] then a
      else a.(s := Do(a.s, TakeNext), running := Some(a.s.queue[0].(resume := None)))
    case IoDone(job, outcome) => a.(s := Do(a.s, WakeIo(job, outcome)))
    case Tick(now) => a.(s := Do(a.s, WakeTimers(now)))
    case Settled(d, outcome) => a.(s := Do(a.s, WakeDeferred(d, outcome)))
    case CancelOf(id) => a.(s := Do(a.s, CancelUnpark(id)))
  }

  function Run(a: Actor, events: seq<Event>): Actor
    decreases |events|
  {
    if events == [] then a else Run(Happen(a, events[0]), events[1..])
  }

  function Start(): Actor {
    Actor(State([], [], [], [], []), Some(Thread(0, [], None)), {0}, 1, 0)
  }

  /** Each live coroutine is in one place, running or ready or parked in one of the four sets, and no other
      coroutine is in any. */
  ghost predicate OnePlace(a: Actor) {
    forall id: nat :: Placed(a, id) == (if id in a.live then 1 else 0) && (id in a.live ==> id < a.nextId)
  }

  function Placed(a: Actor, id: nat): nat {
    Held(a.s, id) + One(a.running, id)
  }

  ghost predicate JobsDistinct(a: Actor) {
    && (forall i :: 0 <= i < |a.s.io| ==> a.s.io[i].key < a.nextJob)
    && (forall i, j :: 0 <= i < j < |a.s.io| ==> a.s.io[i].key != a.s.io[j].key)
  }

  lemma HappenMoves(a: Actor, e: Event, id: nat)
    ensures Placed(Happen(a, e), id) == Placed(a, id)
      + (if e.Go? && a.running.Some? && id == a.nextId then 1 else 0)
      - (if e.Exit? then One(a.running, id) else 0)
  {
    hide Held, Do;
    var running := if a.running.Some? then a.running.value else Thread(0, [], None);
    match e
    case Go => Conserves(a.s, Enqueue(Thread(a.nextId, [], None)), id);
    case Yield => Conserves(a.s, Enqueue(running.(resume := Some(NULL))), id);
    case Exit(outcome) => Conserves(a.s, WakeJoiners(running.id, outcome), id);
    case Join(awaiting) => Conserves(a.s, Block(awaiting, running), id);
    case CallIo => Conserves(a.s, ParkIo(a.nextJob, running), id);
    case Sleep(time) => Conserves(a.s, ParkTimer(time, running), id);
    case Await(d) => Conserves(a.s, ParkDeferred(d, running), id);
    case Load => Conserves(a.s, TakeNext, id);
    case IoDone(job, outcome) => Conserves(a.s, WakeIo(job, outcome), id);
    case Tick(now) => Conserves(a.s, WakeTimers(now), id);
    case Settled(d, outcome) => Conserves(a.s, WakeDeferred(d, outcome), id);
    case CancelOf(other) => Conserves(a.s, CancelUnpark(other), id);
  }

  lemma HappenKeepsPlace(a: Actor, e: Event)
    requires OnePlace(a)
    ensures OnePlace(Happen(a, e))
  {
    hide Held, Do;
    var b := Happen(a, e);
    forall id: nat ensures Placed(b, id) == (if id in b.live then 1 else 0) && (id in b.live ==> id < b.nextId) {
      HappenMoves(a, e, id);
      assert Placed(a, id) == if id in a.live then 1 else 0;
    }
  }

  lemma {:induction false} RunKeepsPlace(a: Actor, events: seq<Event>)
    requires OnePlace(a)
    ensures OnePlace(Run(a, events))
    decreases |events|
  {
    hide OnePlace, Happen;
    if events != [] {
      HappenKeepsPlace(a, events[0]);
      RunKeepsPlace(Happen(a, events[0]), events[1..]);
    }
  }

  lemma StartPlace()
    ensures OnePlace(Start())
  {
  }

  /** Over any run every coroutine that was started and has not finished is in exactly one place, and no
      other coroutine is anywhere. */
  lemma CoroutinesAreConserved(events: seq<Event>)
    ensures var a := Run(Start(), events); forall id :: Placed(a, id) == if id in a.live then 1 else 0
  {
    hide Run;
    StartPlace();
    RunKeepsPlace(Start(), events);
  }

  lemma HappenKeepsJobs(a: Actor, e: Event)
    requires JobsDistinct(a)
    ensures JobsDistinct(Happen(a, e))
  {
    hide Swept, Resumed, IdPosition, KeyPosition;
  }

  lemma {:induction false} RunKeepsJobs(a: Actor, events: seq<Event>)
    requires JobsDistinct(a)
    ensures JobsDistinct(Run(a, events))
    decreases |events|
  {
    hide JobsDistinct, Happen;
    if events != [] {
      HappenKeepsJobs(a, events[0]);
      RunKeepsJobs(Happen(a, events[0]), events[1..]);
    }
  }

  /** How many coroutines a run resumes. */
  function Loads(a: Actor, events: seq<Event>): nat
    decreases |events|
  {
    if events == [] then 0
    else Loads(Happen(a, events[0]), events[1..]) + if events[0].Load? && a.running.None? && a.s.queue != [] then 1
      else 0
  }

  /** A ready coroutine has had its one delivery: nothing that happens before its turn changes it, and its turn
      comes when those ahead of it have had theirs. */
  lemma {:induction false} DeliveredOnce(a: Actor, events: seq<Event>, i: nat)
    requires i < |a.s.queue| && Loads(a, events) <= i
    ensures var n := Loads(a, events); |Run(a, events).s.queue| > i - n && Run(a, events).s.queue[i - n] == a.s.queue[i]
    decreases |events|
  {
    hide Happen;
    if events != [] {
      var b := Happen(a, events[0]);
      var took := if events[0].Load? && a.running.None? && a.s.queue != [] then 1 else 0;
      QueueAfter(a, events[0]);
      assert b.s.queue[i - took] == a.s.queue[i];
      DeliveredOnce(b, events[1..], i - took);
    }
  }

  lemma QueueAfter(a: Actor, e: Event)
    ensures if e.Load? && a.running.None? && a.s.queue != [] then Happen(a, e).s.queue == a.s.queue[1..]
            else a.s.queue <= Happen(a, e).s.queue
  {
    hide Swept, Resumed, IdPosition, KeyPosition;
  }

  /** Nobody waits for job `key` any more, nor will again: its number has been given out. */
  predicate JobOver(a: Actor, key: nat) {
    key < a.nextJob && forall i :: 0 <= i < |a.s.io| ==> a.s.io[i].key != key
  }

  lemma HappenKeepsOver(a: Actor, e: Event, key: nat)
    requires JobOver(a, key)
    ensures JobOver(Happen(a, e), key)
  {
    hide Swept, Resumed, IdPosition, KeyPosition;
  }

  lemma {:induction false} RunKeepsOver(a: Actor, events: seq<Event>, key: nat)
    requires JobOver(a, key)
    ensures JobOver(Run(a, events), key)
    decreases |events|
  {
    hide JobOver, Happen;
    if events != [] {
      HappenKeepsOver(a, events[0], key);
      RunKeepsOver(Happen(a, events[0]), events[1..], key);
    }
  }

  /** Whatever happens in between, a completion of such a job changes nothing. */
  lemma OverIsIgnored(a: Actor, later: seq<Event>, key: nat, outcome: Outcome)
    requires JobOver(a, key)
    ensures Happen(Run(a, later), IoDone(key, outcome)) == Run(a, later)
  {
    hide Run;
    RunKeepsOver(a, later, key);
  }

  /** Once a coroutine's I/O wait was cancelled it is ready, and that job's completion changes nothing, however
      late it comes. */
  lemma LateCompletionIsIgnored(events: seq<Event>, i: nat, later: seq<Event>, outcome: Outcome)
    requires i < |Run(Start(), events).s.io|
    ensures var a := Run(Start(), events); var p := a.s.io[i]; var b := Happen(a, CancelOf(p.thread.id));
      && b.s.io == SwapRemove(a.s.io, i) && b.s.queue == a.s.queue + [Thread(p.thread.id, p.thread.stack, Some(NULL))]
      && Happen(Run(b, later), IoDone(p.key, outcome)) == Run(b, later)
  {
    hide Run, Held;
    StartPlace();
    var a := Run(Start(), events);
    RunKeepsJobs(Start(), events);
    RunKeepsPlace(Start(), events);
    OnlyThere(a, i);
    var r := SwapRemove(a.s.io, i);
    assert forall j :: 0 <= j < |r| ==> r[j].key != a.s.io[i].key;
    OverIsIgnored(Happen(a, CancelOf(a.s.io[i].thread.id)), later, a.s.io[i].key, outcome);
  }

  /** A completion is delivered to the coroutine that waits for it, and a second one of the same job, however
      late, changes nothing. */
  lemma CompletionIsDeliveredOnce(events: seq<Event>, i: nat, outcome: Outcome, later: seq<Event>, again: Outcome)
    requires i < |Run(Start(), events).s.io|
    ensures var a := Run(Start(), events); var p := a.s.io[i]; var b := Happen(a, IoDone(p.key, outcome));
      && b.s.io == SwapRemove(a.s.io, i)
      && b.s.queue == a.s.queue + [Thread(p.thread.id, p.thread.stack, Some(outcome))]
      && Happen(Run(b, later), IoDone(p.key, again)) == Run(b, later)
  {
    hide Run;
    var a := Run(Start(), events);
    RunKeepsJobs(Start(), events);
    assert KeyPosition(a.s.io, a.s.io[i].key) == Some(i);
    var r := SwapRemove(a.s.io, i);
    assert forall j :: 0 <= j < |r| ==> r[j].key != a.s.io[i].key;
    OverIsIgnored(Happen(a, IoDone(a.s.io[i].key, outcome)), later, a.s.io[i].key, again);
  }

  /** A coroutine parked on a job is found there, and nowhere before. */
  lemma OnlyThere(a: Actor, i: nat)
    requires OnePlace(a) && i < |a.s.io|
    ensures IdPosition(a.s.blocked, a.s.io[i].thread.id).None? && IdPosition(a.s.io, a.s.io[i].thread.id) == Some(i)
  {
    var id := a.s.io[i].thread.id;
    assert Placed(a, id) <= 1;
    ParkedAt(a.s.io, i);
    var p := IdPosition(a.s.blocked, id);
    if p.Some? {
      ParkedAt(a.s.blocked, p.value);
    }
    var q := IdPosition(a.s.io, id);
    if q.Some? && q.value != i {
      ParkedTwice(a.s.io, i, q.value);
    }
  }

  lemma ParkedAt<K>(s: seq<Parked<K>>, i: nat)
    requires i < |s|
    ensures CountParked(s, s[i].thread.id) >= 1
  {
    var ids := seq(|s|, j requires 0 <= j < |s| => s[j].thread.id);
    assert ids[i] in multiset(ids);
  }

  lemma ParkedTwice<K>(s: seq<Parked<K>>, i: nat, j: nat)
    requires i < |s| && j < |s| && i != j && s[i].thread.id == s[j].thread.id
    ensures CountParked(s, s[i].thread.id) >= 2
  {
    var ids := seq(|s|, n requires 0 <= n < |s| => s[n].thread.id);
    var lo, hi := if i < j then i else j, if i < j then j else i;
    assert ids == ids[..hi] + ids[hi..];
    assert ids[..hi][lo] in multiset(ids[..hi]);
    assert ids[hi..][0] in multiset(ids[hi..]);
  }
}
