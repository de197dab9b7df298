/** The reactor thread's op table (src/vm/reactor.rs): every submitted operation is in the table once or has
    been answered once, and a closed socket's operations do not come back. */
module Reactor {
  import opened Results
  import opened Wrappers
  import opened Sockets

  /** An offloaded call: the actor's mailbox and the id its coroutine is parked under. */
  datatype Job = Job(mailbox: nat, id: nat)

  datatype Completion = Completion(job: Job, answer: Result<Payload, Failure>)

  datatype Failure = Net(error: NetError) | WrongKind

  datatype PendingOp = PendingOp(socket: Socket, op: SocketOp, job: Job)

  datatype Msg = Submit(job: Job, socket: Socket, op: SocketOp) | Cancel(socketId: nat)

  function AnswerOf(r: OpResult): Result<Payload, Failure> {
    match r
    case Ok(p) => Ok(p)
    case Err(e) => Err(Net(e))
  }

  /** What is posted is the payload the operation completed with, or its error. */
  predicate Answers(op: SocketOp, w: Wire, answer: Result<Payload, Failure>, after: Wire, failed: bool)
    requires op.Valid()
  {
    match answer
    case Ok(p) => Completes(op, w, Ok(p), after, failed)
    case Err(Net(e)) => Completes(op, w, Err(e), after, failed)
    case Err(WrongKind) => false
  }

  predicate Distinct(completions: seq<Completion>) {
    forall i, j :: 0 <= i < j < |completions| ==> completions[i].job != completions[j].job
  }

  function JobsOf(completions: seq<Completion>): set<Job> {
    set i | 0 <= i < |completions| :: completions[i].job
  }

  function TableJobs(ops: map<nat, PendingOp>): set<Job> {
    set k | k in ops :: ops[k].job
  }

  predicate OneEntryEach(ops: map<nat, PendingOp>) {
    forall j, k :: j in ops && k in ops && j != k ==> ops[j].job != ops[k].job
  }

  /** Every operation of a socket other than `id`. */
  function Without(ops: map<nat, PendingOp>, id: nat): map<nat, PendingOp> {
    map k | k in ops && ops[k].socket.id != id :: ops[k]
  }

  predicate Gone(ops: map<nat, PendingOp>, id: nat) {
    forall k :: k in ops ==> ops[k].socket.id != id
  }

  /** The jobs a batch of messages submits, no two the same. */
  predicate FreshJobs(msgs: seq<Msg>, known: set<Job>) {
    && (forall i :: 0 <= i < |msgs| && msgs[i].Submit? ==> msgs[i].job !in known && msgs[i].op.Valid())
    && (forall i, j :: 0 <= i < j < |msgs| && msgs[i].Submit? && msgs[j].Submit? ==> msgs[i].job != msgs[j].job)
  }

  function Submitted(msgs: seq<Msg>): set<Job> {
    set i | 0 <= i < |msgs| && msgs[i].Submit? :: msgs[i].job
  }

  predicate Within(ops: map<nat, PendingOp>, sockets: set<Socket>) {
    forall k :: k in ops ==> ops[k].socket in sockets
  }

  // ----- a course of events -----

  /** A program closes a socket; the reactor thread takes a message, or a readiness event for a key. */
  datatype Happening = Closes(socket: Socket) | Message(msg: Msg) | Event(key: nat)

  predicate Concerns(h: Happening, sockets: set<Socket>) {
    match h
    case Closes(s) => s in sockets
    case Message(msg) => msg.Submit? ==> msg.socket in sockets
    case Event(_) => true
  }

  function JobOf(h: Happening): set<Job> {
    if h.Message? && h.msg.Submit? then {h.msg.job} else {}
  }

  predicate IsFresh(h: Happening, known: set<Job>) {
    JobOf(h) !! known && (h.Message? && h.msg.Submit? ==> h.msg.op.Valid())
  }

  function JobsIn(hs: seq<Happening>): set<Job> {
    if hs == [] then {} else JobsIn(hs[..|hs| - 1]) + JobOf(hs[|hs| - 1])
  }

  /** No job is submitted twice. */
  predicate AllFresh(hs: seq<Happening>, known: set<Job>) {
    forall i :: 0 <= i < |hs| ==> IsFresh(hs[i], known + JobsIn(hs[..i]))
  }

  lemma StillFresh(hs: seq<Happening>, known: set<Job>, i: nat)
    requires i < |hs| && AllFresh(hs, known)
    ensures IsFresh(hs[i], known + JobsIn(hs[..i])) && JobsIn(hs[..i + 1]) == JobsIn(hs[..i]) + JobOf(hs[i])
  {
    assert hs[..i + 1][..i] == hs[..i];
  }

  /** Every socket numbered `id` was closed before happening `i`: it was not among the open ones at the start,
      or was closed since. */
  predicate ClosedBefore(hs: seq<Happening>, i: nat, id: nat, sockets: set<Socket>, open: set<Socket>)
    requires i <= |hs|
  {
    forall s :: s in sockets && s.id == id ==> s !in open || Closes(s) in hs[..i]
  }

  lemma ClosedSince(hs: seq<Happening>, j: nat, i: nat, id: nat, sockets: set<Socket>, open: set<Socket>)
    requires j <= i <= |hs| && ClosedBefore(hs, j, id, sockets, open)
    ensures ClosedBefore(hs, i, id, sockets, open)
  {
    assert hs[..j] <= hs[..i];
    forall s | s in sockets && s.id == id && Closes(s) in hs[..j] ensures Closes(s) in hs[..i] {
      var n :| 0 <= n < j && hs[..j][n] == Closes(s);
      assert hs[..i][n] == Closes(s);
    }
  }

  /** Whatever number was cancelled before happening `n`, after its sockets were closed, has no operation left. */
  ghost predicate Barred(ops: map<nat, PendingOp>, hs: seq<Happening>, n: nat, sockets: set<Socket>, open: set<Socket>)
    requires n <= |hs|
  {
    forall i, id ::
      0 <= i < n && hs[i] == Message(Cancel(id)) && ClosedBefore(hs, i, id, sockets, open) ==> Gone(ops, id)
  }

  lemma NoneBarred(ops: map<nat, PendingOp>, hs: seq<Happening>, sockets: set<Socket>, open: set<Socket>)
    ensures Barred(ops, hs, 0, sockets, open)
  {
  }

  /** An entry is an old one, or of the socket the message is about; a cancelled number has none. */
  predicate Entries(before: map<nat, PendingOp>, after: map<nat, PendingOp>, h: Happening) {
    && (forall k :: k in after ==>
          || (k in before && after[k].socket == before[k].socket)
          || (h.Message? && h.msg.Submit? && after[k].socket == h.msg.socket))
    && (h.Message? && h.msg.Cancel? ==> Gone(after, h.msg.socketId))
  }

  /** A submission on a socket closed from the start or in `past`. */
  predicate Refused(h: Happening, past: seq<Happening>, open: set<Socket>) {
    h.Message? && h.msg.Submit? && (h.msg.socket !in open || Closes(h.msg.socket) in past)
  }

  lemma BarredStill(
    before: map<nat, PendingOp>, after: map<nat, PendingOp>, hs: seq<Happening>, i: nat, sockets: set<Socket>,
      open: set<Socket>)
    requires i < |hs| && Barred(before, hs, i, sockets, open) && Concerns(hs[i], sockets)
    requires Entries(before, after, hs[i])
    requires Refused(hs[i], hs[..i], open) ==> after == before
    ensures Barred(after, hs, i + 1, sockets, open)
  {
    forall j, id | 0 <= j < i + 1 && hs[j] == Message(Cancel(id)) && ClosedBefore(hs, j, id, sockets, open)
      ensures Gone(after, id)
    {
      ClosedSince(hs, j, i, id, sockets, open);
    }
  }

  class OpTable {
    var ops: map<nat, PendingOp>
    var nextKey: nat
    /** What has been posted to the mailboxes, in order. */
    var posted: seq<Completion>
    ghost var submitted: set<Job>

    /** Each submitted operation waits in the table under one key, or has been answered once. */
    ghost predicate Valid()
      reads this
    {
      && (forall k :: k in ops ==> k < nextKey && ops[k].op.Valid())
      && OneEntryEach(ops) && Distinct(posted)
      && TableJobs(ops) !! JobsOf(posted)
      && TableJobs(ops) + JobsOf(posted) == submitted
    }

    constructor ()
      ensures Valid() && ops == map[] && posted == [] && submitted == {}
    {
      ops, nextKey, posted, submitted := map[], 1, [], {};
    }

    method Post(job: Job, answer: Result<Payload, Failure>)
      requires job !in JobsOf(posted) && Distinct(posted)
      modifies this`posted
      ensures posted == old(posted) + [Completion(job, answer)] && Distinct(posted)
      ensures JobsOf(posted) == JobsOf(old(posted)) + {job}
    {
      posted := posted + [Completion(job, answer)];
      assert posted[|posted| - 1].job == job;
      forall j | j in JobsOf(old(posted)) ensures j in JobsOf(posted) {
        var i :| 0 <= i < |old(posted)| && old(posted)[i].job == j;
        assert posted[i].job == j;
      }
    }

    /** Registers an operation unless its first pass completes it. One on a closed socket is never
        registered. */
    method StartOp(job: Job, socket: Socket, op: SocketOp)
      requires Valid() && job !in submitted && op.Valid()
      modifies this, socket`readBuf, socket`incoming, socket`outgoing, socket`failures
      ensures Valid() && submitted == old(submitted) + {job}
      ensures
        || (&& posted == old(posted) && !socket.closed && exists op' ::
               && ops == old(ops)[old(nextKey) := PendingOp(socket, op', job)] && old(nextKey) !in old(ops)
               && Continues(op, old(socket.View()), op', socket.View()))
        || (&& ops == old(ops) && exists answer ::
               && posted == old(posted) + [Completion(job, answer)]
               && (answer == Err(WrongKind) || (answer == Err(Net(Io)) && socket.failures > old(socket.failures))
                   || (if socket.closed then answer == Err(Net(Closed))
                       else Answers(op, old(socket.View()), answer, socket.View(),
                                    socket.failures > old(socket.failures)))))
    {
      hide Continues, Completes, Distinct, JobsOf;
      submitted := submitted + {job};
      var eligible: bool, modeFails: bool, addFails: bool := *, *, *;
      if !eligible {
        Post(job, Err(WrongKind));
        return;
      }
      if modeFails {
        socket.failures := socket.failures + 1;
        Post(job, Err(Net(Io)));
        return;
      }
      var op', r := socket.Advance(op);
      if r.Some? {
        Post(job, AnswerOf(r.value));
        return;
      }
      if addFails {
        socket.failures := socket.failures + 1;
        nextKey := nextKey + 1;
        Post(job, Err(Net(Io)));
        return;
      }
      ops := ops[nextKey := PendingOp(socket, op', job)];
      nextKey := nextKey + 1;
      assert ops[old(nextKey)].job == job;
      assert TableJobs(ops) == TableJobs(old(ops)) + {job} by {
        forall j | j in TableJobs(old(ops)) ensures j in TableJobs(ops) {
          var k :| k in old(ops) && old(ops)[k].job == j;
          assert ops[k].job == j;
        }
      }
    }

    /** Takes an entry out and answers it. */
    method Finish(key: nat, answer: Result<Payload, Failure>)
      requires Valid() && key in ops
      modifies this`ops, this`posted
      ensures Valid() && ops == old(ops) - {key} && posted == old(posted) + [Completion(old(ops)[key].job, answer)]
    {
      hide Distinct, JobsOf;
      var pending := ops[key];
      assert pending.job in TableJobs(ops);
      ops := ops - {key};
      assert TableJobs(ops) == TableJobs(old(ops)) - {pending.job} by {
        forall j | j in TableJobs(old(ops)) && j != pending.job ensures j in TableJobs(ops) {
          var k :| k in old(ops) && old(ops)[k].job == j;
          assert k in ops;
        }
      }
      Post(pending.job, answer);
    }

    /** A readiness event. One for a key that is no longer in the table changes nothing. */
    method AdvanceToken(key: nat, ghost sockets: set<Socket>)
      requires Valid() && Within(ops, sockets)
      modifies this`ops, this`posted, sockets`readBuf, sockets`incoming, sockets`outgoing, sockets`failures
      ensures Valid() && Within(ops, sockets)
      ensures key !in old(ops) ==> ops == old(ops) && posted == old(posted)
      ensures key in old(ops) ==>
        var p := old(ops)[key];
        || (&& posted == old(posted) && !p.socket.closed && exists op' ::
               && ops == old(ops)[key := p.(op := op')] && Continues(p.op, old(p.socket.View()), op', p.socket.View()))
        || (&& ops == old(ops) - {key} && exists answer ::
               && posted == old(posted) + [Completion(p.job, answer)]
               && (if p.socket.closed then answer == Err(Net(Closed))
                   else
                     || (answer == Err(Net(Io)) && p.socket.failures > old(p.socket.failures))
                     || Answers(p.op, old(p.socket.View()), answer, p.socket.View(),
                                p.socket.failures > old(p.socket.failures))))
    {
      hide Continues, Completes, Distinct, JobsOf;
      if key !in ops {
        return;
      }
      var p := ops[key];
      var op', r := p.socket.Advance(p.op);
      if r.Some? {
        Finish(key, AnswerOf(r.value));
        return;
      }
      ops := ops[key := p.(op := op')];
      assert TableJobs(ops) == TableJobs(old(ops)) by {
        forall j | j in TableJobs(old(ops)) ensures j in TableJobs(ops) {
          var k :| k in old(ops) && old(ops)[k].job == j;
          assert ops[k].job == j;
        }
      }
      var modifyFails: bool := *;
      if modifyFails {
        p.socket.failures := p.socket.failures + 1;
        Finish(key, Err(Net(Io)));
        assert ops == old(ops) - {key};
      }
    }

    /** Answers every operation of a socket with `closed`, in any order. */
    method CancelSocket(id: nat)
      requires Valid()
      modifies this`ops, this`posted
      ensures Valid() && ops == Without(old(ops), id)
      ensures old(posted) <= posted
      ensures forall i :: |old(posted)| <= i < |posted| ==> posted[i].answer == Err(Net(Closed))
    {
      hide OneEntryEach, Distinct, JobsOf, TableJobs, Valid;
      var keys: set<nat> := set k | k in ops && ops[k].socket.id == id;
      while keys != {}
        invariant Valid()
        invariant forall k :: k in keys ==> k in ops && ops[k].socket.id == id
        invariant forall k :: k in ops <==> k in Without(old(ops), id) || k in keys
        invariant forall k :: k in ops ==> k in old(ops) && ops[k] == old(ops)[k]
        invariant old(posted) <= posted
        invariant forall i :: |old(posted)| <= i < |posted| ==> posted[i].answer == Err(Net(Closed))
        decreases |keys|
      {
        var key: nat :| key in keys;
        keys := keys - {key};
        Finish(key, Err(Net(Closed)));
      }
    }

    /** One turn of the reactor thread: all messages first, then the events. */
    method Turn(msgs: seq<Msg>, events: seq<nat>, ghost sockets: set<Socket>)
      requires Valid() && Within(ops, sockets) && FreshJobs(msgs, submitted)
      requires forall i :: 0 <= i < |msgs| && msgs[i].Submit? ==> msgs[i].socket in sockets
      modifies this, sockets`readBuf, sockets`incoming, sockets`outgoing, sockets`failures
      ensures Valid() && Within(ops, sockets) && submitted == old(submitted) + Submitted(msgs) && old(posted) <= posted
      ensures forall id :: (Gone(old(ops), id) || Cancel(id) in msgs) && Shut(msgs, id) ==> Gone(ops, id)
    {
      hide OneEntryEach, Distinct, JobsOf, TableJobs, Valid, Continues, Completes;
      DrainMessages(msgs, sockets);
      for i := 0 to |events|
        invariant Valid() && Within(ops, sockets) && submitted == old(submitted) + Submitted(msgs)
        invariant old(posted) <= posted
        invariant forall id :: (Gone(old(ops), id) || Cancel(id) in msgs) && Shut(msgs, id) ==> Gone(ops, id)
      {
        ghost var before := ops;
        AdvanceToken(events[i], sockets);
        assert forall k :: k in ops ==> k in before && ops[k].socket == before[k].socket;
      }
    }

    method DrainMessages(msgs: seq<Msg>, ghost sockets: set<Socket>)
      requires Valid() && Within(ops, sockets) && FreshJobs(msgs, submitted)
      requires forall i :: 0 <= i < |msgs| && msgs[i].Submit? ==> msgs[i].socket in sockets
      modifies this, sockets`readBuf, sockets`incoming, sockets`outgoing, sockets`failures
      ensures Valid() && Within(ops, sockets) && submitted == old(submitted) + Submitted(msgs) && old(posted) <= posted
      ensures forall id :: (Gone(old(ops), id) || Cancel(id) in msgs) && Shut(msgs, id) ==> Gone(ops, id)
    {
      hide OneEntryEach, Distinct, JobsOf, TableJobs, Valid, Continues, Completes;
      for i := 0 to |msgs|
        invariant Valid() && Within(ops, sockets) && submitted == old(submitted) + Submitted(msgs[..i])
        invariant old(posted) <= posted
        invariant forall id :: (Gone(old(ops), id) || Cancel(id) in msgs[..i]) && Shut(msgs, id) ==> Gone(ops, id)
      {
        ghost var before := ops;
        assert msgs[..i + 1] == msgs[..i] + [msgs[i]];
        SubmittedGrows(msgs, i);
        match msgs[i] {
          case Submit(job, socket, op) =>
            assert job !in Submitted(msgs[..i]);
            ghost var key := nextKey;
            StartOp(job, socket, op);
            assert ops == before || (!socket.closed && key in ops && ops[key].socket == socket
              && forall k :: k in ops && k != key ==> k in before && ops[k] == before[k]);
          case Cancel(id) =>
            CancelSocket(id);
        }
      }
      assert msgs[..|msgs|] == msgs;
    }

    /** One happening: a program closes a socket, or the reactor thread takes a message or an event. */
    method Handle(h: Happening, ghost sockets: set<Socket>)
      requires Valid() && Within(ops, sockets) && Concerns(h, sockets) && IsFresh(h, submitted)
      modifies this, sockets`readBuf, sockets`incoming, sockets`outgoing, sockets`failures, sockets`closed
      ensures Valid() && Within(ops, sockets) && submitted == old(submitted) + JobOf(h) && old(posted) <= posted
      ensures forall s :: s in sockets ==> (s.closed <==> old(s.closed) || h == Closes(s))
      ensures Entries(old(ops), ops, h)
      ensures h.Message? && h.msg.Submit? && h.msg.socket.closed ==> ops == old(ops)
    {
      hide OneEntryEach, Distinct, JobsOf, TableJobs, Continues, Completes;
      ghost var before := ops;
      match h {
        case Closes(socket) =>
          socket.Close();
        case Event(key) =>
          AdvanceToken(key, sockets);
          assert forall k :: k in ops ==> k in before && ops[k].socket == before[k].socket;
        case Message(msg) =>
          match msg {
            case Submit(job, socket, op) =>
              ghost var key := nextKey;
              StartOp(job, socket, op);
              assert ops == before || (!socket.closed && key in ops && ops[key].socket == socket
                && forall k :: k in ops && k != key ==> k in before && ops[k] == before[k]);
            case Cancel(id) =>
              CancelSocket(id);
          }
      }
    }

    /** Any course of events: closes, messages and readiness events in any order. Every job submitted is in
        the table once or was answered once, no answer is taken back; and once a socket was closed and then
        cancelled, however much follows, none of its operations is in the table, and none comes back. */
    method HandleAll(hs: seq<Happening>, ghost sockets: set<Socket>)
      requires Valid() && Within(ops, sockets) && AllFresh(hs, submitted)
      requires forall i :: 0 <= i < |hs| ==> Concerns(hs[i], sockets)
      modifies this, sockets`readBuf, sockets`incoming, sockets`outgoing, sockets`failures, sockets`closed
      ensures Valid() && Within(ops, sockets) && submitted == old(submitted) + JobsIn(hs) && old(posted) <= posted
      ensures Barred(ops, hs, |hs|, sockets, old(OpenOf(sockets)))
    {
      hide Valid, IsFresh, JobOf, Within, Barred, Entries;
      ghost var open := OpenOf(sockets);
      NoneBarred(ops, hs, sockets, open);
      for i := 0 to |hs|
        invariant Valid() && Within(ops, sockets) && submitted == old(submitted) + JobsIn(hs[..i])
        invariant old(posted) <= posted
        invariant forall s :: s in sockets ==> (s.closed <==> s !in open || Closes(s) in hs[..i])
        invariant Barred(ops, hs, i, sockets, open)
      {
        StillFresh(hs, old(submitted), i);
        assert hs[..i + 1] == hs[..i] + [hs[i]];
        ghost var before := ops;
        Handle(hs[i], sockets);
        BarredStill(before, ops, hs, i, sockets, open);
      }
      assert hs[..|hs|] == hs;
    }

    static ghost function OpenOf(sockets: set<Socket>): set<Socket>
      reads sockets`closed
    {
      set s | s in sockets && !s.closed
    }

    /** Whatever is submitted on socket `id` is submitted after it was closed. */
    static ghost predicate Shut(msgs: seq<Msg>, id: nat)
      reads set m | m in msgs && m.Submit? :: m.socket`closed
    {
      forall i :: 0 <= i < |msgs| && msgs[i].Submit? && msgs[i].socket.id == id ==> msgs[i].socket.closed
    }
  }

  lemma SubmittedGrows(msgs: seq<Msg>, i: nat)
    requires i < |msgs|
    ensures Submitted(msgs[..i + 1]) == Submitted(msgs[..i]) + if msgs[i].Submit? then {msgs[i].job} else {}
  {
    var a, b := msgs[..i], msgs[..i + 1];
    forall j | j in Submitted(a) ensures j in Submitted(b) {
      var n :| 0 <= n < |a| && a[n].Submit? && a[n].job == j;
      assert b[n].job == j;
    }
    if msgs[i].Submit? {
      assert b[i].job == msgs[i].job;
    }
  }
}
