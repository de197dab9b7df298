/** The worker pool and the completion mailboxes (src/vm/offload.rs) as a system of steps. What a thread
    does while it holds a lock is one step; a notification, a wake-up and the gap between them are others. */
module Offload {
  import opened Wrappers

  const WORKER_SOFT_CAP: nat := 512

  datatype Job = Job(actor: nat, id: nat)

  /** Where a worker stands: just spawned, back from a job, in `wait`, woken from it without the lock yet, or
      running a job. Jobs are named by the order of their submission. */
  datatype Worker = Spawned | Back | Waiting | Notified | Running(job: nat)

  datatype Stance = Awake | Parked | Woken

  /** An actor's mailbox and how the actor stands to it; `received` is what it has drained so far. */
  datatype Mailbox = Mailbox(received: seq<nat>, done: seq<nat>, actor: Stance) {
    function Log(): seq<nat> {
      received + done
    }
  }

  /** The pool with its two counters, its workers, and how many submitters have yet to notify. */
  datatype State = State(
    jobs: seq<Job>, queue: seq<nat>, idle: int, total: int, owed: nat, workers: seq<Worker>, boxes: seq<Mailbox>)
  {
    /** How many workers stand like `x`. */
    function Like(x: Worker): nat {
      multiset(workers)[x]
    }

    function Set(w: nat, x: Worker): State
      requires w < |workers|
    {
      this.(workers := workers[w := x])
    }
  }

  datatype Step =
    | Submit(job: Job) | NotifyOne(w: nat) | NotifyNobody | Spurious(w: nat) | Take(w: nat) | Finish(w: nat)
    | Drain(a: nat) | WaitDrain(a: nat) | ActorSpurious(a: nat)

  function Start(actors: nat): State {
    State([], [], 0, 0, 0, [], seq(actors, _ => Mailbox([], [], Awake)))
  }

  // ----- steps -----

  /** `submit` up to the release of the lock: a worker is spawned if jobs outnumber idle workers. */
  function DoSubmit(s: State, job: Job): State {
    var queue := s.queue + [|s.jobs|];
    var s1 := s.(jobs := s.jobs + [job], queue := queue, owed := s.owed + 1);
    if |queue| > s.idle && s.total < WORKER_SOFT_CAP then s1.(total := s.total + 1, workers := s.workers + [Spawned])
      else s1
  }

  /** A worker takes the lock: it leaves `wait` if it was in it, then pops a job or waits. */
  function DoTake(s: State, w: nat): State
    requires w < |s.workers|
  {
    var idle := if s.workers[w].Notified? then s.idle - 1 else s.idle;
    if s.queue != [] then s.(queue := s.queue[1..], idle := idle).Set(w, Running(s.queue[0]))
    else s.(idle := idle + 1).Set(w, Waiting)
  }

  /** A worker posts its result: `post` wakes the actor if it sleeps. */
  function DoFinish(s: State, w: nat, k: nat): State
    requires w < |s.workers| && k < |s.jobs| && s.jobs[k].actor < |s.boxes|
  {
    var a := s.jobs[k].actor;
    s.(boxes := s.boxes[a := Post(s.boxes[a], k)]).Set(w, Back)
  }

  function Post(b: Mailbox, job: nat): Mailbox {
    Mailbox(b.received, b.done + [job], if b.actor.Parked? then Woken else b.actor)
  }

  function TakeAll(b: Mailbox): Mailbox {
    Mailbox(b.received + b.done, [], Awake)
  }

  predicate CanTake(x: Worker) {
    x.Spawned? || x.Back? || x.Notified?
  }

  /** What a step does, if it can be taken. */
  function Do(s: State, step: Step): Option<State> {
    match step
    case Submit(job) => if job.actor < |s.boxes| then Some(DoSubmit(s, job)) else None
    case NotifyOne(w) =>
      if s.owed > 0 && w < |s.workers| && s.workers[w].Waiting? then Some(s.(owed := s.owed - 1).Set(w, Notified))
        else None
    case NotifyNobody => if s.owed > 0 && Waiting !in s.workers then Some(s.(owed := s.owed - 1)) else None
    case Spurious(w) => if w < |s.workers| && s.workers[w].Waiting? then Some(s.Set(w, Notified)) else None
    case Take(w) => if w < |s.workers| && CanTake(s.workers[w]) then Some(DoTake(s, w)) else None
    case Finish(w) =>
      if w < |s.workers| && s.workers[w].Running? && s.workers[w].job < |s.jobs|
        && s.jobs[s.workers[w].job].actor < |s.boxes| then
        Some(DoFinish(s, w, s.workers[w].job))
      else None
    case Drain(a) =>
      if a < |s.boxes| && s.boxes[a].actor.Awake? then Some(s.(boxes := s.boxes[a := TakeAll(s.boxes[a])])) else None
    case WaitDrain(a) =>
      if a < |s.boxes| && !s.boxes[a].actor.Parked? then
        Some(s.(boxes := s.boxes[a := if s.boxes[a].done == [] then s.boxes[a].(actor := Parked)
          else TakeAll(s.boxes[a])]))
      else None
    case ActorSpurious(a) =>
      if a < |s.boxes| && s.boxes[a].actor.Parked? then Some(s.(boxes := s.boxes[a := s.boxes[a].(actor := Woken)]))
        else None
  }

  /** The state after a list of steps; those that cannot be taken when their turn comes are passed over. */
  function Run(s: State, steps: seq<Step>): State
    decreases |steps|
  {
    if steps == [] then s
    else Run(if Do(s, steps[0]).Some? then Do(s, steps[0]).value else s, steps[1..])
  }

  // ----- counters -----

  /** `total` counts the workers, and `idle` those in `wait` and those woken from it that have not been able
      to take the lock. */
  ghost predicate Counted(s: State) {
    && s.total == |s.workers| <= WORKER_SOFT_CAP
    && s.idle == s.Like(Waiting) + s.Like(Notified)
  }

  /** Someone is on the way for every queued job, as long as the cap leaves room; and a worker is left
      waiting only if enough others have been woken, or are about to be. */
  ghost predicate Balanced(s: State) {
    && (s.total < WORKER_SOFT_CAP ==> |s.queue| <= s.Like(Waiting) + s.Like(Notified) + s.Like(Spawned))
    && (s.Like(Waiting) > 0 ==> |s.queue| <= s.Like(Notified) + s.Like(Spawned) + s.owed)
    && (s.queue != [] ==> s.workers != [])
  }

  lemma Moved(s: State, w: nat, x: Worker, y: Worker)
    requires w < |s.workers|
    ensures s.Set(w, x).Like(y) == s.Like(y) - (if s.workers[w] == y then 1 else 0) + (if x == y then 1 else 0)
  {
    assert multiset(s.workers[w := x]) == multiset(s.workers) - multiset{s.workers[w]} + multiset{x};
    assert s.workers[w] in multiset(s.workers);
  }

  lemma AllMoved(s: State, w: nat, x: Worker)
    requires w < |s.workers|
    ensures s.Set(w, x).Like(Waiting) ==
      s.Like(Waiting) - (if s.workers[w] == Waiting then 1 else 0) + (if x == Waiting then 1 else 0)
    ensures s.Set(w, x).Like(Notified) ==
      s.Like(Notified) - (if s.workers[w] == Notified then 1 else 0) + (if x == Notified then 1 else 0)
    ensures s.Set(w, x).Like(Spawned) ==
      s.Like(Spawned) - (if s.workers[w] == Spawned then 1 else 0) + (if x == Spawned then 1 else 0)
  {
    Moved(s, w, x, Waiting);
    Moved(s, w, x, Notified);
    Moved(s, w, x, Spawned);
  }

  lemma SubmitCounts(s: State, job: Job)
    requires Counted(s) && Balanced(s)
    ensures Counted(DoSubmit(s, job)) && Balanced(DoSubmit(s, job))
  {
    assert multiset(s.workers + [Spawned]) == multiset(s.workers) + multiset{Spawned};
  }

  lemma TakeCounts(s: State, w: nat)
    requires Counted(s) && Balanced(s) && w < |s.workers| && CanTake(s.workers[w])
    ensures Counted(DoTake(s, w)) && Balanced(DoTake(s, w))
  {
    AllMoved(s, w, if s.queue != [] then Running(s.queue[0]) else Waiting);
  }

  lemma WokenCounts(s: State, w: nat, owed: nat)
    requires Counted(s) && Balanced(s) && w < |s.workers| && s.workers[w].Waiting? && s.owed - 1 <= owed <= s.owed
    ensures var r := s.(owed := owed).Set(w, Notified); Counted(r) && Balanced(r)
  {
    AllMoved(s.(owed := owed), w, Notified);
  }

  lemma FinishCounts(s: State, w: nat, k: nat)
    requires Counted(s) && Balanced(s) && w < |s.workers| && s.workers[w].Running?
    requires k < |s.jobs| && s.jobs[k].actor < |s.boxes|
    ensures Counted(DoFinish(s, w, k)) && Balanced(DoFinish(s, w, k))
  {
    AllMoved(s, w, Back);
  }

  lemma NobodyCounts(s: State)
    requires Counted(s) && Balanced(s) && s.owed > 0 && Waiting !in s.workers
    ensures Counted(s.(owed := s.owed - 1)) && Balanced(s.(owed := s.owed - 1))
  {
    assert Waiting !in multiset(s.workers);
  }

  lemma BoxesCount(s: State, r: State)
    requires Counted(s) && Balanced(s) && r == s.(boxes := r.boxes)
    ensures Counted(r) && Balanced(r)
  {
  }

  lemma CountsKept(s: State, step: Step)
    requires Counted(s) && Balanced(s) && Do(s, step).Some?
    ensures Counted(Do(s, step).value) && Balanced(Do(s, step).value)
  {
    hide DoSubmit, DoTake, DoFinish, Counted, Balanced;
    match step
    case Submit(job) => SubmitCounts(s, job);
    case Take(w) => TakeCounts(s, w);
    case NotifyOne(w) => WokenCounts(s, w, s.owed - 1);
    case Spurious(w) => WokenCounts(s, w, s.owed);
    case Finish(w) => FinishCounts(s, w, s.workers[w].job);
    case NotifyNobody => NobodyCounts(s);
    case _ => BoxesCount(s, Do(s, step).value);
  }

  // ----- the ledger -----

  predicate Once(log: seq<nat>) {
    forall i, j :: 0 <= i < j < |log| ==> log[i] != log[j]
  }

  /** How many jobs have left the queue. */
  function Taken(s: State): int {
    |s.jobs| - |s.queue|
  }

  /** The worker that runs job `k`. */
  ghost predicate RunBy(s: State, k: nat, w: nat) {
    w < |s.workers| && s.workers[w] == Running(k)
  }

  ghost predicate BeingRun(s: State, k: nat) {
    exists w :: RunBy(s, k, w)
  }

  ghost predicate Posted(s: State, k: nat) {
    k < |s.jobs| && s.jobs[k].actor < |s.boxes| && k in s.boxes[s.jobs[k].actor].Log()
  }

  /** The queue holds the latest jobs in order. */
  ghost predicate InOrder(s: State) {
    0 <= Taken(s) && forall i :: 0 <= i < |s.queue| ==> s.queue[i] == Taken(s) + i
  }

  /** The other jobs are being run by one worker or have been posted, not both. */
  ghost predicate Accounted(s: State) {
    && (forall v, w, k :: RunBy(s, k, v) && RunBy(s, k, w) ==> v == w)
    && (forall k: nat :: BeingRun(s, k) ==> k < Taken(s) && !Posted(s, k))
    && (forall k: nat :: Posted(s, k) ==> k < Taken(s))
    && (forall k: nat :: k < Taken(s) ==> BeingRun(s, k) || Posted(s, k))
  }

  /** Posts go to the job's own actor, once. */
  ghost predicate Delivered(s: State) {
    && (forall k :: 0 <= k < |s.jobs| ==> s.jobs[k].actor < |s.boxes|)
    && (forall a :: 0 <= a < |s.boxes| ==> BelongsTo(s.boxes[a].Log(), s.jobs, a))
  }

  predicate BelongsTo(log: seq<nat>, jobs: seq<Job>, a: nat) {
    Once(log) && forall k :: k in log ==> k < |jobs| && jobs[k].actor == a
  }

  ghost predicate Ledger(s: State) {
    InOrder(s) && Accounted(s) && Delivered(s)
  }

  lemma SubmitKeepsLedger(s: State, job: Job)
    requires Ledger(s) && job.actor < |s.boxes|
    ensures Ledger(DoSubmit(s, job))
  {
    var r := DoSubmit(s, job);
    assert Taken(r) == Taken(s);
    assert forall k: nat, w :: RunBy(r, k, w) == RunBy(s, k, w);
    forall a | 0 <= a < |s.boxes| ensures BelongsTo(r.boxes[a].Log(), r.jobs, a) {
      assert BelongsTo(s.boxes[a].Log(), s.jobs, a);
    }
    assert !Posted(r, |s.jobs|) by {
      assert BelongsTo(s.boxes[job.actor].Log(), s.jobs, job.actor);
    }
    forall k: nat ensures Posted(r, k) == Posted(s, k) && BeingRun(r, k) == BeingRun(s, k) {
      if k < |s.jobs| {
        assert r.jobs[k] == s.jobs[k];
      }
    }
  }

  lemma TakeKeepsLedger(s: State, w: nat)
    requires Ledger(s) && w < |s.workers| && CanTake(s.workers[w])
    ensures Ledger(DoTake(s, w))
  {
    var r := DoTake(s, w);
    if s.queue != [] {
      var first := s.queue[0];
      assert first == Taken(s) && Taken(r) == Taken(s) + 1;
      assert forall k: nat, v :: RunBy(r, k, v) <==> RunBy(s, k, v) || (v == w && k == first);
      assert RunBy(r, first, w);
      assert !BeingRun(s, first);
      assert forall k: nat :: Posted(r, k) == Posted(s, k);
      assert forall k: nat :: BeingRun(r, k) <==> BeingRun(s, k) || k == first;
    } else {
      assert forall k: nat, v :: RunBy(r, k, v) == RunBy(s, k, v);
      SameLedger(s, r);
    }
  }

  lemma FinishKeepsLedger(s: State, w: nat, job: nat)
    requires Ledger(s) && RunBy(s, job, w) && job < |s.jobs| && s.jobs[job].actor < |s.boxes|
    ensures Ledger(DoFinish(s, w, job))
  {
    var r := DoFinish(s, w, job);
    var a := s.jobs[job].actor;
    var log := s.boxes[a].Log();
    assert r.boxes[a].Log() == log + [job];
    assert BeingRun(s, job) && !Posted(s, job);
    assert forall k: nat, v :: RunBy(r, k, v) <==> RunBy(s, k, v) && v != w;
    assert (log + [job])[|log|] == job;
    assert forall k: nat :: Posted(r, k) <==> Posted(s, k) || k == job;
    forall k: nat | BeingRun(s, k) && k != job ensures BeingRun(r, k) {
      var v :| RunBy(s, k, v);
      assert RunBy(r, k, v);
    }
    assert !BeingRun(r, job);
    forall k: nat | BeingRun(r, k) ensures BeingRun(s, k) && k != job {
      var v :| RunBy(r, k, v);
      assert RunBy(s, k, v);
    }
    forall b | 0 <= b < |s.boxes| ensures BelongsTo(r.boxes[b].Log(), r.jobs, b) {
      assert BelongsTo(s.boxes[b].Log(), s.jobs, b);
      assert b == a ==> job !in log;
    }
  }

  /** Steps that leave jobs, queue, runs and logs alone. */
  lemma SameLedger(s: State, r: State)
    requires Ledger(s)
    requires r.jobs == s.jobs && r.queue == s.queue && |r.boxes| == |s.boxes|
    requires forall k: nat, v :: RunBy(r, k, v) == RunBy(s, k, v)
    requires forall a :: 0 <= a < |s.boxes| ==> r.boxes[a].Log() == s.boxes[a].Log()
    ensures Ledger(r)
  {
    assert forall k: nat :: BeingRun(r, k) == BeingRun(s, k);
    assert forall k: nat :: Posted(r, k) == Posted(s, k);
    forall a | 0 <= a < |s.boxes| ensures BelongsTo(r.boxes[a].Log(), r.jobs, a) {
      assert BelongsTo(s.boxes[a].Log(), s.jobs, a);
    }
  }

  lemma LedgerKept(s: State, step: Step)
    requires Ledger(s) && Do(s, step).Some?
    ensures Ledger(Do(s, step).value)
  {
    hide Ledger, DoSubmit, DoTake, DoFinish;
    match step
    case Submit(job) => SubmitKeepsLedger(s, job);
    case Take(w) => TakeKeepsLedger(s, w);
    case Finish(w) => FinishKeepsLedger(s, w, s.workers[w].job);
    case _ => SameLedger(s, Do(s, step).value);
  }

  // ----- mailboxes -----

  /** An actor asleep at its mailbox has nothing to collect. */
  ghost predicate NoMissedMail(s: State) {
    forall a :: 0 <= a < |s.boxes| && s.boxes[a].actor.Parked? ==> s.boxes[a].done == []
  }

  // ----- whole runs -----

  ghost predicate Inv(s: State) {
    Counted(s) && Balanced(s) && Ledger(s) && NoMissedMail(s)
  }

  lemma MailKept(s: State, step: Step)
    requires NoMissedMail(s) && Do(s, step).Some?
    ensures NoMissedMail(Do(s, step).value)
  {
  }

  lemma {:induction false} RunKeeps(s: State, steps: seq<Step>)
    requires Inv(s)
    ensures Inv(Run(s, steps))
    decreases |steps|
  {
    hide Do, Counted, Balanced, Ledger, NoMissedMail;
    if steps != [] {
      if Do(s, steps[0]).Some? {
        CountsKept(s, steps[0]);
        LedgerKept(s, steps[0]);
        MailKept(s, steps[0]);
        RunKeeps(Do(s, steps[0]).value, steps[1..]);
      } else {
        RunKeeps(s, steps[1..]);
      }
    }
  }

  lemma StartInv(actors: nat)
    ensures Inv(Start(actors))
  {
  }

  lemma AllWaiting(s: State)
    requires s.workers != [] && forall w :: 0 <= w < |s.workers| ==> s.workers[w].Waiting?
    ensures s.Like(Waiting) > 0 && s.Like(Notified) == 0 && s.Like(Spawned) == 0
  {
    assert s.workers[0] in multiset(s.workers);
    assert Notified !in s.workers && Spawned !in s.workers;
  }

  /** Whatever the interleaving: below the cap queued jobs never outnumber the workers that were notified or
      just spawned and the notifications on their way; at the cap a queue that is not empty has a worker that
      will look at it, or a notification on its way; and there are never more workers than the cap. */
  lemma StrandsNoJob(actors: nat, steps: seq<Step>)
    ensures var s := Run(Start(actors), steps);
      && (s.total < WORKER_SOFT_CAP ==> |s.queue| <= s.Like(Notified) + s.Like(Spawned) + s.owed)
      && (s.queue != [] ==> s.owed > 0 || exists w :: 0 <= w < |s.workers| && !s.workers[w].Waiting?)
      && |s.workers| <= WORKER_SOFT_CAP
  {
    hide Start, Run, Ledger, NoMissedMail;
    StartInv(actors);
    RunKeeps(Start(actors), steps);
    var s := Run(Start(actors), steps);
    if s.workers != [] && forall w :: 0 <= w < |s.workers| ==> s.workers[w].Waiting? {
      AllWaiting(s);
    }
  }

  /** Every submitted job is in exactly one place: still queued, in the order of submission, or being run by
      one worker, or posted once, to its own actor. */
  lemma EachJobOnce(actors: nat, steps: seq<Step>, k: nat)
    requires k < |Run(Start(actors), steps).jobs|
    ensures var s := Run(Start(actors), steps); var a := s.jobs[k].actor;
      && a < |s.boxes| && Once(s.boxes[a].Log())
      && (forall b :: 0 <= b < |s.boxes| && k in s.boxes[b].Log() ==> b == a)
      && (k in s.queue <==> !BeingRun(s, k) && k !in s.boxes[a].Log())
      && !(BeingRun(s, k) && k in s.boxes[a].Log())
      && (forall v, w :: RunBy(s, k, v) && RunBy(s, k, w) ==> v == w)
      && (forall i, j :: 0 <= i < j < |s.queue| ==> s.queue[i] < s.queue[j])
  {
    hide Start, Run, Counted, Balanced, NoMissedMail;
    StartInv(actors);
    RunKeeps(Start(actors), steps);
    var s := Run(Start(actors), steps);
    if k >= Taken(s) {
      assert s.queue[k - Taken(s)] == k;
    }
    assert Posted(s, k) <==> k in s.boxes[s.jobs[k].actor].Log();
    forall b | 0 <= b < |s.boxes| ensures BelongsTo(s.boxes[b].Log(), s.jobs, b) {
    }
  }

  /** While a job has not been posted, some worker can take the lock or finish, or some submitter can
      notify; and an actor asleep has missed nothing. */
  lemma PoolGoesOn(actors: nat, steps: seq<Step>, k: nat) returns (step: Step)
    requires k < |Run(Start(actors), steps).jobs| && !Posted(Run(Start(actors), steps), k)
    ensures var s := Run(Start(actors), steps);
      && Do(s, step).Some? && (step.NotifyOne? || step.NotifyNobody? || step.Take? || step.Finish?)
      && NoMissedMail(s)
  {
    hide Start, Run, Counted, Balanced;
    StartInv(actors);
    RunKeeps(Start(actors), steps);
    StrandsNoJob(actors, steps);
    EachJobOnce(actors, steps, k);
    var s := Run(Start(actors), steps);
    if w :| 0 <= w < |s.workers| && !s.workers[w].Waiting? {
      if s.workers[w].Running? {
        assert BeingRun(s, s.workers[w].job) by { assert RunBy(s, s.workers[w].job, w); }
        step := Finish(w);
      } else {
        step := Take(w);
      }
    } else {
      assert forall k: nat, w :: !RunBy(s, k, w);
      if w :| 0 <= w < |s.workers| && s.workers[w].Waiting? {
        step := NotifyOne(w);
      } else {
        step := NotifyNobody;
      }
    }
  }

  // ----- when a worker is added -----

  /** How many workers are running a job. */
  function Busy(s: State): nat {
    BusyIn(s.workers)
  }

  function BusyIn(workers: seq<Worker>): nat
    decreases |workers|
  {
    if workers == [] then 0
    else BusyIn(workers[..|workers| - 1]) + if workers[|workers| - 1].Running? then 1 else 0
  }

  /** How many jobs are queued or being run. */
  function Outstanding(s: State): nat {
    |s.queue| + Busy(s)
  }

  lemma {:induction false} Stances(workers: seq<Worker>)
    ensures var m := multiset(workers);
      |workers| == m[Waiting] + m[Notified] + m[Spawned] + m[Back] + BusyIn(workers)
    decreases |workers|
  {
    if workers != [] {
      var n := |workers| - 1;
      Stances(workers[..n]);
      assert workers == workers[..n] + [workers[n]];
    }
  }

  /** In every reachable state a submission adds a worker exactly if the cap leaves room and the queued jobs, with
      the new one, outnumber the workers that wait or were woken. A worker so added keeps the workers within the
      jobs queued or being run if and only if, before, every worker not running a job had a queued one to take. */
  lemma SubmitAddsAWorker(actors: nat, steps: seq<Step>, job: Job)
    requires job.actor < actors
    ensures var s := Run(Start(actors), steps);
      && Do(s, Submit(job)).Some?
      && var r := Do(s, Submit(job)).value;
      && |s.workers| <= |r.workers| <= |s.workers| + 1
      && (|r.workers| == |s.workers| + 1 <==>
            |s.workers| < WORKER_SOFT_CAP && |s.queue| + 1 > s.Like(Waiting) + s.Like(Notified))
      && (|r.workers| == |s.workers| + 1 ==>
            (|r.workers| <= Outstanding(r) <==>
               s.Like(Waiting) + s.Like(Notified) + s.Like(Spawned) + s.Like(Back) <= |s.queue|))
  {
    hide Start, Run, Ledger, NoMissedMail, Balanced;
    StartInv(actors);
    RunKeeps(Start(actors), steps);
    BoxesStay(actors, steps);
    var s := Run(Start(actors), steps);
    Stances(s.workers);
    assert (s.workers + [Spawned])[..|s.workers|] == s.workers;
  }

  lemma {:induction false} RunKeepsBoxes(s: State, steps: seq<Step>)
    ensures |Run(s, steps).boxes| == |s.boxes|
    decreases |steps|
  {
    if steps != [] {
      RunKeepsBoxes(if Do(s, steps[0]).Some? then Do(s, steps[0]).value else s, steps[1..]);
    }
  }

  lemma BoxesStay(actors: nat, steps: seq<Step>)
    ensures |Run(Start(actors), steps).boxes| == actors
  {
    RunKeepsBoxes(Start(actors), steps);
  }

  /** Two jobs, the second submitted when the result of the first has been posted. */
  function OneByOne(): seq<Step> {
    [Submit(Job(0, 0)), Take(0), Finish(0), Submit(Job(0, 1))]
  }

  /** The states of that run. */
  function After(n: nat): State {
    match n
    case 0 => State([], [], 0, 0, 0, [], [Mailbox([], [], Awake)])
    case 1 => State([Job(0, 0)], [0], 0, 1, 1, [Spawned], [Mailbox([], [], Awake)])
    case 2 => State([Job(0, 0)], [], 0, 1, 1, [Running(0)], [Mailbox([], [], Awake)])
    case 3 => State([Job(0, 0)], [], 0, 1, 1, [Back], [Mailbox([], [0], Awake)])
    case _ => State([Job(0, 0), Job(0, 1)], [1], 0, 2, 2, [Back, Spawned], [Mailbox([], [0], Awake)])
  }

  lemma OneByOneSteps(n: nat)
    requires n < 4
    ensures Do(After(n), OneByOne()[n]) == Some(After(n + 1))
  {
    if n == 0 {
      assert [] + [Spawned] == [Spawned] && [] + [0] == [0] && [] + [Job(0, 0)] == [Job(0, 0)];
      assert DoSubmit(After(0), Job(0, 0)) == After(1);
      assert OneByOne()[0] == Submit(Job(0, 0));
    } else if n == 1 {
      assert [Spawned][0 := Running(0)] == [Running(0)] && [0][1..] == [];
    } else if n == 2 {
      assert [Running(0)][0 := Back] == [Back];
      assert [Mailbox([], [], Awake)][0 := Mailbox([], [0], Awake)] == [Mailbox([], [0], Awake)];
    } else {
      assert DoSubmit(After(3), Job(0, 1)) == After(4);
    }
  }

  lemma {:induction false} OneByOneRuns(n: nat)
    requires n <= 4
    ensures Run(Start(1), OneByOne()[..n]) == After(n)
    decreases n
  {
    hide Do, DoSubmit, DoTake, DoFinish;
    if n == 0 {
      assert Start(1) == After(0);
    } else {
      hide After;
      OneByOneRuns(n - 1);
      OneByOneSteps(n - 1);
      RunAppends(Start(1), OneByOne(), n - 1);
    }
  }

  lemma OneAtATime(n: nat)
    requires n <= 4
    ensures Outstanding(After(n)) <= 1
  {
    BusyOne(Spawned);
    BusyOne(Running(0));
    BusyOne(Back);
    assert [Back, Spawned][..1] == [Back];
  }

  lemma BusyOne(x: Worker)
    ensures BusyIn([x]) == if x.Running? then 1 else 0
  {
    assert [x][..0] == [];
  }

  /** The pool can have more workers than there were ever jobs at once: a worker that has posted its result and is
      not back at the queue yet does not count as idle, so that a second job brings a second worker. */
  lemma SecondWorkerForOneJobAtATime()
    ensures |Run(Start(1), OneByOne()).workers| == 2
    ensures forall n :: 0 <= n <= 4 ==> Outstanding(Run(Start(1), OneByOne()[..n])) <= 1
  {
    hide Run, Outstanding;
    assert OneByOne()[..4] == OneByOne();
    OneByOneRuns(4);
    forall n | 0 <= n <= 4 ensures Outstanding(Run(Start(1), OneByOne()[..n])) <= 1 {
      OneByOneRuns(n);
      OneAtATime(n);
    }
  }

  lemma {:induction false} RunAppends(s: State, steps: seq<Step>, n: nat)
    requires n < |steps|
    ensures var r := Run(s, steps[..n]);
      Run(s, steps[..n + 1]) == if Do(r, steps[n]).Some? then Do(r, steps[n]).value else r
    decreases n
  {
    hide Do;
    assert steps[..n + 1][1..] == steps[1..][..n];
    if n > 0 {
      assert steps[..n][1..] == steps[1..][..n - 1];
      RunAppends(if Do(s, steps[0]).Some? then Do(s, steps[0]).value else s, steps[1..], n - 1);
    }
  }

  // ----- every job is posted at last -----

  /** A step of a worker or of a submitter's notification. */
  predicate OfThePool(step: Step) {
    step.NotifyOne? || step.Take? || step.Finish?
  }

  /** The steps are the pool's own, and each can be taken when its turn comes. */
  ghost predicate Runs(s: State, steps: seq<Step>)
    decreases |steps|
  {
    steps == [] || (OfThePool(steps[0]) && Do(s, steps[0]).Some? && Runs(Do(s, steps[0]).value, steps[1..]))
  }

  lemma {:induction false} RunsOn(s: State, first: seq<Step>, rest: seq<Step>)
    requires Runs(s, first) && Runs(Run(s, first), rest)
    ensures Runs(s, first + rest) && Run(s, first + rest) == Run(Run(s, first), rest)
    decreases |first|
  {
    hide Do;
    if first == [] {
      assert first + rest == rest;
    } else {
      assert (first + rest)[1..] == first[1..] + rest;
      RunsOn(Do(s, first[0]).value, first[1..], rest);
    }
  }

  lemma OneStep(s: State, step: Step)
    requires OfThePool(step) && Do(s, step).Some?
    ensures Runs(s, [step]) && Run(s, [step]) == Do(s, step).value
  {
    assert Run(Do(s, step).value, []) == Do(s, step).value;
  }

  /** With a job queued, at most two steps get the first one taken by a worker. */
  lemma FirstIsTaken(s: State) returns (steps: seq<Step>)
    requires Inv(s) && s.queue != []
    ensures Runs(s, steps) && Run(s, steps).queue == s.queue[1..] && Run(s, steps).jobs == s.jobs
  {
    hide Counted, Ledger, NoMissedMail, Run;
    assert s.workers != [];
    if w :| 0 <= w < |s.workers| && !s.workers[w].Waiting? {
      if s.workers[w].Running? {
        CanFinish(s, w);
        OneStep(s, Finish(w));
        var back := Do(s, Finish(w)).value;
        OneStep(back, Take(w));
        RunsOn(s, [Finish(w)], [Take(w)]);
        return [Finish(w)] + [Take(w)];
      }
      OneStep(s, Take(w));
      return [Take(w)];
    }
    AllWaiting(s);
    OneStep(s, NotifyOne(0));
    var woken := Do(s, NotifyOne(0)).value;
    OneStep(woken, Take(0));
    RunsOn(s, [NotifyOne(0)], [Take(0)]);
    return [NotifyOne(0)] + [Take(0)];
  }

  lemma CanFinish(s: State, w: nat)
    requires Ledger(s) && w < |s.workers| && s.workers[w].Running?
    ensures Do(s, Finish(w)).Some? && BeingRun(s, s.workers[w].job)
  {
    var job := s.workers[w].job;
    assert RunBy(s, job, w);
    assert BeingRun(s, job);
  }

  lemma WhereIs(s: State, k: nat)
    requires Ledger(s) && k < |s.jobs| && !Posted(s, k) && !BeingRun(s, k)
    ensures s.queue != [] && s.queue[|s.queue| - 1] >= k
  {
    assert s.queue[|s.queue| - 1] == Taken(s) + |s.queue| - 1;
  }

  lemma {:induction false} Delivers(s: State, k: nat) returns (steps: seq<Step>)
    requires Inv(s) && k < |s.jobs|
    ensures Runs(s, steps) && Posted(Run(s, steps), k)
    decreases |s.queue|
  {
    hide Counted, Balanced, NoMissedMail, Ledger, Posted, BeingRun, Do;
    if Posted(s, k) {
      return [];
    }
    if BeingRun(s, k) {
      var w := FinishPosts(s, k);
      return [Finish(w)];
    }
    WhereIs(s, k);
    var first := FirstIsTaken(s);
    RunKeeps(s, first);
    var rest := Delivers(Run(s, first), k);
    RunsOn(s, first, rest);
    return first + rest;
  }

  lemma FinishPosts(s: State, k: nat) returns (w: nat)
    requires Ledger(s) && k < |s.jobs| && BeingRun(s, k)
    ensures Runs(s, [Finish(w)]) && Posted(Run(s, [Finish(w)]), k)
  {
    w :| RunBy(s, k, w);
    CanFinish(s, w);
    OneStep(s, Finish(w));
    var a := s.jobs[k].actor;
    var log := s.boxes[a].Log();
    assert Do(s, Finish(w)).value.boxes[a].Log() == log + [k];
    assert (log + [k])[|log|] == k;
  }

  /** From every reachable state the pool can deliver any job that was submitted: some list of takes,
      finishes and notifications, each possible in its turn, ends with it posted. */
  lemma EveryJobCanBePosted(actors: nat, steps: seq<Step>, k: nat) returns (more: seq<Step>)
    requires k < |Run(Start(actors), steps).jobs|
    ensures Runs(Run(Start(actors), steps), more) && Posted(Run(Run(Start(actors), steps), more), k)
  {
    hide Inv, Posted;
    StartInv(actors);
    RunKeeps(Start(actors), steps);
    more := Delivers(Run(Start(actors), steps), k);
  }
}
