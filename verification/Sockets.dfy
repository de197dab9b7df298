/** Connected sockets and the two executors of their operations (src/vm/socket.rs, src/vm/reactor.rs): the
    blocking one, and the state machine the reactor advances on every readiness event. */
module Sockets {
  import opened Results
  import opened Wrappers
  import opened Delimiters

  const CHUNK: nat := 8192
  const MAX_DIRECT_READ: nat := 65536

  datatype NetError = Closed | Eof(got: nat, need: nat) | Io | WriteZero

  datatype Payload = Bytes(bytes: seq<Byte>) | BytesOrNull(piece: Option<seq<Byte>>) | Line(line: Option<seq<Byte>>)
    | Count(n: nat)

  type OpResult = Result<Payload, NetError>

  /** An operation and its progress. */
  datatype SocketOp =
    | ReadChunk(n: nat) | ReadExact(need: nat, got: seq<Byte>) | ReadLine | ReadUntil(delim: Byte)
    | ReadAll(all: seq<Byte>) | WriteAll(data: seq<Byte>, sent: nat)
  {
    predicate Valid() {
      (ReadExact? ==> |got| <= need) && (WriteAll? ==> sent <= |data|)
    }
  }

  /** `finish_line` up to its UTF-8 decoding: the line without its `\n` or `\r\n`. */
  function FinishLine(piece: Option<seq<Byte>>): Payload {
    match piece
    case None => Line(None)
    case Some(s) => Line(Some(WithoutLast(WithoutLast(s, NEWLINE), RETURN)))
  }

  function WithoutLast(s: seq<Byte>, b: Byte): seq<Byte> {
    if s != [] && s[|s| - 1] == b then s[..|s| - 1] else s
  }

  // ----- what an operation means, whoever runs it -----

  /** A connection as its user sees it: the bytes not yet read, and those written so far. */
  datatype Wire = Wire(stream: seq<Byte>, written: seq<Byte>)

  predicate Suffix(s: seq<Byte>, of: seq<Byte>) {
    |s| <= |of| && s == of[|of| - |s|..]
  }

  /** An operation on an open socket may finish with `r`, leaving the wire in state `after`; `failed` says whether a
      system call failed, and only then is there an I/O error. */
  predicate Completes(op: SocketOp, w: Wire, r: OpResult, after: Wire, failed: bool)
    requires op.Valid()
  {
    var left := after.stream;
    match op
    case WriteAll(data, sent) =>
      && left == w.stream
      && (if r.Ok? then !failed && r == Ok(Count(|data|)) && after.written == w.written + data[sent..]
          else
            && r.error == (if failed then Io else WriteZero) && w.written <= after.written <= w.written + data[sent..]
            && (!failed ==> after.written != w.written + data[sent..]))
    case ReadChunk(n) =>
      && after.written == w.written
      && (if failed then r == Err(Io) && left == w.stream
          else
            && r.Ok? && r.value.Bytes? && |r.value.bytes| <= n && r.value.bytes + left == w.stream
            && (r.value.bytes == [] <==> n == 0 || w.stream == []))
    case ReadExact(need, got) =>
      && after.written == w.written
      && (if failed then r == Err(Io) && Suffix(left, w.stream)
          else if need <= |got + w.stream| then r == Ok(Bytes((got + w.stream)[..need]))
            && left == (got + w.stream)[need..]
          else r == Err(Eof(|got + w.stream|, need)) && left == [])
    case ReadUntil(delim) =>
      && after.written == w.written
      && (if failed then r == Err(Io) && left == w.stream
          else r == Ok(BytesOrNull(NextPiece(w.stream, delim))) && left == w.stream[UpTo(w.stream, delim)..])
    case ReadLine =>
      && after.written == w.written
      && (if failed then r == Err(Io) && left == w.stream
          else r == Ok(FinishLine(NextPiece(w.stream, NEWLINE))) && left == w.stream[UpTo(w.stream, NEWLINE)..])
    case ReadAll(all) =>
      && after.written == w.written
      && (if failed then r == Err(Io) && Suffix(left, w.stream) else r == Ok(Bytes(all + w.stream)) && left == [])
  }

  /** An unfinished pass: bytes moved from the stream to the operation, or from it to the wire, no more. */
  predicate Continues(op: SocketOp, w: Wire, op': SocketOp, after: Wire) {
    match op
    case ReadExact(need, got) =>
      && op'.ReadExact? && op'.need == need && got <= op'.got && |op'.got| <= need
      && op'.got + after.stream == got + w.stream && after.written == w.written
    case ReadAll(all) =>
      && op'.ReadAll? && all <= op'.all && op'.all + after.stream == all + w.stream && after.written == w.written
    case WriteAll(data, sent) =>
      && op'.WriteAll? && op'.data == data && sent <= op'.sent <= |data|
      && after.stream == w.stream && after.written == w.written + data[sent..op'.sent]
    case _ => op' == op && after == w
  }

  /** An unfinished pass goes unnoticed: what the rest may answer, the whole may. */
  lemma PassIsSilent(op: SocketOp, w: Wire, op': SocketOp, mid: Wire, r: OpResult, after: Wire,
        failed: bool)
    requires op.Valid() && op'.Valid() && Continues(op, w, op', mid) && Completes(op', mid, r, after, failed)
    ensures Completes(op, w, r, after, failed)
  {
    hide Completes, Continues;
    if op.ReadExact? {
      ExactIsSilent(op, w, op', mid, r, after, failed);
    } else if op.ReadAll? {
      AllIsSilent(op, w, op', mid, r, after, failed);
    } else if op.WriteAll? {
      WriteIsSilent(op, w, op', mid, r, after, failed);
    } else {
      EmptyIsSilent(op, w, op', mid);
    }
  }

  lemma ExactIsSilent(op: SocketOp, w: Wire, op': SocketOp, mid: Wire, r: OpResult, after: Wire,
        failed: bool)
    requires op.ReadExact? && op.Valid() && op'.Valid() && Continues(op, w, op', mid)
    requires Completes(op', mid, r, after, failed)
    ensures Completes(op, w, r, after, failed)
  {
    Tails(op.got, w.stream, op'.got, mid.stream);
    if failed {
      SuffixTrans(after.stream, mid.stream, w.stream);
    }
  }

  lemma AllIsSilent(op: SocketOp, w: Wire, op': SocketOp, mid: Wire, r: OpResult, after: Wire,
        failed: bool)
    requires op.ReadAll? && op.Valid() && op'.Valid() && Continues(op, w, op', mid)
    requires Completes(op', mid, r, after, failed)
    ensures Completes(op, w, r, after, failed)
  {
    Tails(op.all, w.stream, op'.all, mid.stream);
    if failed {
      SuffixTrans(after.stream, mid.stream, w.stream);
    }
  }

  lemma SuffixTrans(s: seq<Byte>, t: seq<Byte>, u: seq<Byte>)
    requires Suffix(s, t) && Suffix(t, u)
    ensures Suffix(s, u)
  {
  }

  lemma WriteIsSilent(op: SocketOp, w: Wire, op': SocketOp, mid: Wire, r: OpResult, after: Wire,
        failed: bool)
    requires op.WriteAll? && op.Valid() && op'.Valid() && Continues(op, w, op', mid)
    requires Completes(op', mid, r, after, failed)
    ensures Completes(op, w, r, after, failed)
  {
    var data, sent := op.data, op.sent;
    assert data[sent..op'.sent] + data[op'.sent..] == data[sent..];
    assert mid.written + data[op'.sent..] == w.written + data[sent..];
    assert w.written <= mid.written;
  }

  lemma EmptyIsSilent(op: SocketOp, w: Wire, op': SocketOp, mid: Wire)
    requires !op.ReadExact? && !op.ReadAll? && !op.WriteAll? && Continues(op, w, op', mid)
    ensures op' == op && mid == w
  {
  }

  lemma Tails(a: seq<Byte>, s: seq<Byte>, b: seq<Byte>, t: seq<Byte>)
    requires a + s == b + t && a <= b
    ensures Suffix(t, s)
  {
    var n := |b| - |a|;
    assert n + |t| == |s|;
    forall i | 0 <= i < |t| ensures t[i] == s[n..][i] {
      assert (b + t)[|b| + i] == (a + s)[|a| + n + i];
    }
  }

  /** How the bytes are cut does not matter: any two ways of running a read other than a single `read`, or a
      write that succeeds, answer the same and leave the same, unless the system reports an error. */
  lemma ExecutorsAgree(op: SocketOp, w: Wire, r1: OpResult, after1: Wire, r2: OpResult, after2: Wire)
    requires op.Valid() && !op.ReadChunk?
    requires Completes(op, w, r1, after1, false) && Completes(op, w, r2, after2, false)
    requires r1 != Err(WriteZero) && r2 != Err(WriteZero)
    ensures r1 == r2 && after1 == after2
  {
  }

  /** How a line may end in the stream: at `\n` or `\r\n`, or, the last one, at the end of the stream, with or
      without a `\r`. A `\r` before the end is never part of the line. */
  predicate EndsLine(line: seq<Byte>, ending: seq<Byte>, rest: seq<Byte>) {
    && NEWLINE !in line
    && (ending == [RETURN, NEWLINE] || (ending == [NEWLINE] && !EndsInReturn(line))
        || (rest == [] && line + ending != [] && (ending == [RETURN] || (ending == [] && !EndsInReturn(line)))))
  }

  predicate EndsInReturn(line: seq<Byte>) {
    line != [] && line[|line| - 1] == RETURN
  }

  /** Reading a line answers it without its ending and leaves what follows. */
  lemma ReadsALine(w: Wire, line: seq<Byte>, ending: seq<Byte>, rest: seq<Byte>, r: OpResult, after: Wire)
    requires Completes(SocketOp.ReadLine, w, r, after, false) && w.stream == line + ending + rest
    requires EndsLine(line, ending, rest)
    ensures r == Ok(Line(Some(line))) && after.stream == rest
  {
    var n := |line + ending|;
    if ending != [] && ending[|ending| - 1] == NEWLINE {
      assert w.stream[..n - 1] == line + ending[..|ending| - 1];
      FirstIs(w.stream, NEWLINE, n - 1);
    } else {
      assert w.stream == line + ending;
      assert NEWLINE !in w.stream;
    }
    assert UpTo(w.stream, NEWLINE) == n;
    assert w.stream[..n] == line + ending && w.stream[n..] == rest;
    WithoutEnding(line, ending, rest);
  }

  lemma WithoutEnding(line: seq<Byte>, ending: seq<Byte>, rest: seq<Byte>)
    requires EndsLine(line, ending, rest)
    ensures WithoutLast(WithoutLast(line + ending, NEWLINE), RETURN) == line
  {
    assert line + [RETURN, NEWLINE] == line + [RETURN] + [NEWLINE];
    assert WithoutLast(line + [RETURN], RETURN) == line;
    assert WithoutLast(line + [RETURN] + [NEWLINE], NEWLINE) == line + [RETURN];
    assert WithoutLast(line + [NEWLINE], NEWLINE) == line;
    assert line + [] == line;
    assert line != [] ==> line[|line| - 1] in line;
  }

  // ----- sockets -----

  datatype ReadOutcome = Got(bytes: seq<Byte>) | WouldBlock | ReadFails

  datatype WriteOutcome = Took(n: nat) | WriteBlocks | WriteFails

  class Socket {
    const id: nat
    var readBuf: seq<Byte>
    /** Bytes the peer sends before it ends the stream, as far as they have not been read. */
    var incoming: seq<Byte>
    var outgoing: seq<Byte>
    var closed: bool
    /** How many system calls on this socket have failed. */
    ghost var failures: nat

    ghost function View(): Wire
      reads this
    {
      Wire(readBuf + incoming, outgoing)
    }

    constructor (id: nat, incoming: seq<Byte>)
      ensures this.id == id && View() == Wire(incoming, []) && !closed
    {
      this.id := id;
      this.incoming := incoming;
      readBuf, outgoing, closed, failures := [], [], false, 0;
      new;
      assert readBuf + this.incoming == incoming;
    }

    method Close()
      modifies this`closed
      ensures closed
    {
      closed := true;
    }

    // ----- system calls -----

    /** Any number of the next bytes up to `cap`, none only at the end of the stream. */
    method NbRead(cap: nat) returns (r: ReadOutcome)
      requires cap > 0
      modifies this`incoming, this`failures
      ensures failures == old(failures) + if r.ReadFails? then 1 else 0
      ensures r.Got? ==>
        && |r.bytes| <= cap && old(incoming) == r.bytes + incoming && (r.bytes == [] <==> old(incoming) == [])
      ensures !r.Got? ==> incoming == old(incoming)
    {
      var blocks: bool, fails: bool := *, *;
      if blocks {
        return WouldBlock;
      }
      if fails {
        failures := failures + 1;
        return ReadFails;
      }
      if incoming == [] {
        return Got([]);
      }
      var k: nat :| 1 <= k <= cap && k <= |incoming|;
      r := Got(incoming[..k]);
      incoming := incoming[k..];
    }

    /** The same on a blocking handle. */
    method IoRead(cap: nat) returns (r: Result<seq<Byte>, NetError>)
      requires cap > 0
      modifies this`incoming, this`failures
      ensures failures == old(failures) + if r.Err? then 1 else 0
      ensures r.Ok? ==>
        && |r.value| <= cap && old(incoming) == r.value + incoming && (r.value == [] <==> old(incoming) == [])
      ensures r.Err? ==> r.error == Io && incoming == old(incoming)
    {
      var fails: bool := *;
      if fails {
        failures := failures + 1;
        return Err(Io);
      }
      if incoming == [] {
        return Ok([]);
      }
      var k: nat :| 1 <= k <= cap && k <= |incoming|;
      r := Ok(incoming[..k]);
      incoming := incoming[k..];
    }

    method NbWrite(data: seq<Byte>) returns (r: WriteOutcome)
      modifies this`outgoing, this`failures
      ensures failures == old(failures) + if r.WriteFails? then 1 else 0
      ensures r.Took? ==> r.n <= |data| && outgoing == old(outgoing) + data[..r.n]
      ensures !r.Took? ==> outgoing == old(outgoing)
    {
      var blocks: bool, fails: bool := *, *;
      if blocks {
        return WriteBlocks;
      }
      if fails {
        failures := failures + 1;
        return WriteFails;
      }
      var k: nat :| k <= |data|;
      outgoing := outgoing + data[..k];
      r := Took(k);
    }

    // ----- the read buffer -----

    method TakeBuffered(n: nat) returns (bytes: seq<Byte>)
      modifies this`readBuf
      ensures |bytes| <= n && old(readBuf) == bytes + readBuf && (bytes == [] <==> n == 0 || old(readBuf) == [])
      ensures |bytes| < n ==> readBuf == []
    {
      var k := if n < |readBuf| then n else |readBuf|;
      bytes := readBuf[..k];
      readBuf := readBuf[k..];
    }

    method TakeBufferedUntil(delim: Byte) returns (piece: Option<seq<Byte>>)
      modifies this`readBuf
      ensures piece.None? ==> readBuf == old(readBuf) && delim !in readBuf
      ensures piece.Some? ==>
        && piece == NextPiece(old(View()).stream, delim)
        && View().stream == old(View()).stream[UpTo(old(View()).stream, delim)..]
    {
      match Find(readBuf, delim) {
        case None => piece := None;
        case Some(at) =>
          FoundIsFinal(readBuf, incoming, delim);
          assert (readBuf + incoming)[..at + 1] == readBuf[..at + 1];
          assert (readBuf + incoming)[at + 1..] == readBuf[at + 1..] + incoming;
          piece := Some(readBuf[..at + 1]);
          readBuf := readBuf[at + 1..];
      }
    }

    method TakeBufferedAll() returns (bytes: seq<Byte>)
      modifies this`readBuf
      ensures bytes == old(readBuf) && readBuf == []
    {
      bytes := readBuf;
      readBuf := [];
    }

    method PushBuffered(data: seq<Byte>)
      modifies this`readBuf
      ensures readBuf == old(readBuf) + data
    {
      readBuf := readBuf + data;
    }

    // ----- blocking reads -----

    method ReadChunk(n: nat) returns (r: Result<seq<Byte>, NetError>)
      modifies this`readBuf, this`incoming, this`failures
      ensures failures == old(failures) + if r == Err(Io) then 1 else 0
      ensures closed ==> r == Err(Closed)
      ensures r.Err? ==> View() == old(View()) && (!closed ==> r.error == Io)
      ensures r.Ok? ==>
        && |r.value| <= n && old(View()).stream == r.value + View().stream
        && (r.value == [] <==> n == 0 || old(View()).stream == [])
    {
      if closed {
        return Err(Closed);
      }
      if n == 0 {
        return Ok([]);
      }
      ghost var before := View().stream;
      var buffered := TakeBuffered(n);
      if buffered != [] {
        assert before == buffered + View().stream;
        return Ok(buffered);
      }
      r := IoRead(if n < MAX_DIRECT_READ then n else MAX_DIRECT_READ);
    }

    method RecvMore() returns (r: Result<nat, NetError>)
      modifies this`readBuf, this`incoming, this`failures
      ensures failures == old(failures) + if r.Err? then 1 else 0
      ensures View() == old(View()) && old(readBuf) <= readBuf
      ensures r.Err? ==> r.error == Io
      ensures r.Ok? ==>
        |incoming| == |old(incoming)| - r.value && (r.value == 0 ==> incoming == [] && readBuf == old(readBuf))
    {
      var tmp := IoRead(CHUNK);
      match tmp {
        case Err(e) => r := Err(e);
        case Ok(bytes) =>
          if bytes != [] {
            readBuf := readBuf + bytes;
          }
          r := Ok(|bytes|);
      }
    }

    method ReadUntil(delim: Byte) returns (r: Result<Option<seq<Byte>>, NetError>)
      modifies this`readBuf, this`incoming, this`failures
      ensures failures == old(failures) + if r == Err(Io) then 1 else 0
      ensures closed ==> r == Err(Closed)
      ensures r.Err? ==> View() == old(View()) && (!closed ==> r.error == Io)
      ensures r.Ok? ==>
        && r.value == NextPiece(old(View()).stream, delim)
        && View().stream == old(View()).stream[UpTo(old(View()).stream, delim)..]
    {
      hide Find;
      if closed {
        return Err(Closed);
      }
      while true
        invariant View() == old(View()) && failures == old(failures)
        decreases |incoming|
      {
        var piece := TakeBufferedUntil(delim);
        if piece.Some? {
          return Ok(piece);
        }
        var got := RecvMore();
        if got.Err? {
          return Err(got.error);
        }
        if got.value == 0 {
          assert View().stream == readBuf;
          if readBuf == [] {
            return Ok(None);
          }
          var rest := TakeBufferedAll();
          return Ok(Some(rest));
        }
      }
    }

    /** Writes until everything is taken, then flushes. */
    method WriteAll(data: seq<Byte>) returns (r: Result<(), NetError>)
      modifies this`outgoing, this`failures
      ensures failures == old(failures) + if r == Err(Io) then 1 else 0
      ensures closed ==> r == Err(Closed) && outgoing == old(outgoing)
      ensures r.Ok? ==> outgoing == old(outgoing) + data
      ensures r.Err? && !closed ==>
        && (r.error == Io || (r.error == WriteZero && outgoing != old(outgoing) + data))
        && old(outgoing) <= outgoing <= old(outgoing) + data
    {
      if closed {
        return Err(Closed);
      }
      var sent := 0;
      while sent < |data|
        invariant sent <= |data| && outgoing == old(outgoing) + data[..sent] && failures == old(failures)
      {
        var fails: bool := *;
        if fails {
          failures := failures + 1;
          return Err(Io);
        }
        var k: nat :| k <= |data| - sent;
        outgoing := outgoing + data[sent..sent + k];
        if k == 0 {
          assert |outgoing| < |old(outgoing) + data|;
          return Err(WriteZero);
        }
        sent := sent + k;
      }
      var fails: bool := *;
      if fails {
        failures := failures + 1;
        return Err(Io);
      }
      r := Ok(());
    }

    // ----- the executors -----

    /** The blocking executor. Only a `read_exact` that needs nothing overlooks that the socket is closed. */
    method RunBlocking(op: SocketOp) returns (r: OpResult)
      requires op.Valid() && (op.WriteAll? ==> op.sent == 0)
      modifies this`readBuf, this`incoming, this`outgoing, this`failures
      ensures failures >= old(failures)
      ensures !closed ==> Completes(op, old(View()), r, View(), failures > old(failures))
      ensures closed ==>
        && View() == old(View())
        && r == if failures > old(failures) then Err(Io)
                else if op.ReadExact? && |op.got| == op.need then Ok(Bytes(op.got)) else Err(Closed)
    {
      hide Completes;
      var modeFails: bool := *;
      if modeFails {
        failures := failures + 1;
        IoIsAllowed(op, View());
        return Err(Io);
      }
      match op {
        case ReadChunk(n) => r := BlockingChunk(n);
        case ReadExact(need, got0) => r := BlockingExact(need, got0);
        case ReadLine => r := BlockingLine();
        case ReadUntil(delim) => r := BlockingUntil(delim);
        case ReadAll(all) => r := BlockingAll(all);
        case WriteAll(data, _) => r := BlockingWrite(data);
      }
    }

    method BlockingChunk(n: nat) returns (r: OpResult)
      modifies this`readBuf, this`incoming, this`failures
      ensures failures >= old(failures) && (closed ==> failures == old(failures))
      ensures !closed ==> Completes(SocketOp.ReadChunk(n), old(View()), r, View(), failures > old(failures))
      ensures closed ==> View() == old(View()) && r == Err(Closed)
    {
      var c := ReadChunk(n);
      r := if c.Ok? then Ok(Bytes(c.value)) else Err(c.error);
    }

    method BlockingLine() returns (r: OpResult)
      modifies this`readBuf, this`incoming, this`failures
      ensures failures >= old(failures) && (closed ==> failures == old(failures))
      ensures !closed ==> Completes(SocketOp.ReadLine, old(View()), r, View(), failures > old(failures))
      ensures closed ==> View() == old(View()) && r == Err(Closed)
    {
      hide UpTo, Find, NextPiece, FinishLine, Completes;
      var p := ReadUntil(NEWLINE);
      if p.Err? {
        IoIsAllowed(SocketOp.ReadLine, View());
        return Err(p.error);
      }
      PieceCompletes(old(View()), NEWLINE, View());
      r := Ok(FinishLine(p.value));
    }

    method BlockingUntil(delim: Byte) returns (r: OpResult)
      modifies this`readBuf, this`incoming, this`failures
      ensures failures >= old(failures) && (closed ==> failures == old(failures))
      ensures !closed ==> Completes(SocketOp.ReadUntil(delim), old(View()), r, View(), failures > old(failures))
      ensures closed ==> View() == old(View()) && r == Err(Closed)
    {
      hide UpTo, Find, NextPiece, Completes;
      var p := ReadUntil(delim);
      if p.Err? {
        IoIsAllowed(SocketOp.ReadUntil(delim), View());
        return Err(p.error);
      }
      PieceCompletes(old(View()), delim, View());
      r := Ok(BytesOrNull(p.value));
    }

    method BlockingWrite(data: seq<Byte>) returns (r: OpResult)
      modifies this`outgoing, this`failures
      ensures failures >= old(failures) && (closed ==> failures == old(failures))
      ensures !closed ==> Completes(SocketOp.WriteAll(data, 0), old(View()), r, View(), failures > old(failures))
      ensures closed ==> View() == old(View()) && r == Err(Closed)
    {
      var w := WriteAll(data);
      assert data[0..] == data;
      r := if w.Ok? then Ok(Count(|data|)) else Err(w.error);
    }

    method BlockingExact(need: nat, got0: seq<Byte>) returns (r: OpResult)
      requires |got0| <= need
      modifies this`readBuf, this`incoming, this`failures
      ensures failures >= old(failures) && (closed ==> failures == old(failures))
      ensures !closed ==> Completes(SocketOp.ReadExact(need, got0), old(View()), r, View(), failures > old(failures))
      ensures closed ==> View() == old(View()) && r == if |got0| == need then Ok(Bytes(got0)) else Err(Closed)
    {
      var got := got0;
      while |got| < need
        invariant |got| <= need && got0 <= got && got + View().stream == got0 + old(View()).stream
        invariant failures == old(failures) && (closed ==> got == got0 && View() == old(View()))
        decreases need - |got|
      {
        ghost var before := View().stream;
        var c := ReadChunk(need - |got|);
        match c {
          case Ok(bytes) =>
            if bytes == [] {
              return Err(Eof(|got|, need));
            }
            assert got + (bytes + View().stream) == got + bytes + View().stream;
            got := got + bytes;
          case Err(e) =>
            Tails(got0, old(View()).stream, got, View().stream);
            return Err(e);
        }
      }
      r := Ok(Bytes(got));
    }

    method BlockingAll(all: seq<Byte>) returns (r: OpResult)
      modifies this`readBuf, this`incoming, this`failures
      ensures failures >= old(failures) && (closed ==> failures == old(failures))
      ensures !closed ==> Completes(SocketOp.ReadAll(all), old(View()), r, View(), failures > old(failures))
      ensures closed ==> View() == old(View()) && r == Err(Closed)
    {
      var got := all;
      while true
        invariant all <= got && got + View().stream == all + old(View()).stream
        invariant failures == old(failures) && (closed ==> View() == old(View()))
        decreases |View().stream|
      {
        var c := ReadChunk(MAX_DIRECT_READ);
        match c {
          case Ok(bytes) =>
            if bytes == [] {
              assert View().stream == [] && got + [] == got;
              return Ok(Bytes(got));
            }
            assert got + (bytes + View().stream) == got + bytes + View().stream;
            got := got + bytes;
          case Err(e) =>
            Tails(all, old(View()).stream, got, View().stream);
            return Err(e);
        }
      }
    }

    /** One pass of the reactor: as far as the handle goes without blocking. */
    method Advance(op: SocketOp) returns (op': SocketOp, r: Option<OpResult>)
      requires op.Valid()
      modifies this`readBuf, this`incoming, this`outgoing, this`failures
      ensures op'.Valid() && failures >= old(failures)
      ensures closed ==> r == Some(Err(Closed)) && View() == old(View()) && failures == old(failures)
      ensures !closed && r.Some? ==> Completes(op, old(View()), r.value, View(), failures > old(failures))
      ensures !closed && r.None? ==> Continues(op, old(View()), op', View()) && failures == old(failures)
    {
      hide Completes, Continues;
      op' := op;
      if closed {
        return op', Some(Err(Closed));
      }
      match op {
        case ReadChunk(n) => r := AdvanceChunk(n);
        case ReadExact(need, got) => op', r := AdvanceExact(need, got);
        case ReadUntil(delim) => r := AdvanceUntil(delim);
        case ReadLine => r := AdvanceLine();
        case ReadAll(all) => op', r := AdvanceAll(all);
        case WriteAll(data, sent) => op', r := AdvanceWrite(data, sent);
      }
      if op.ReadChunk? || op.ReadUntil? || op.ReadLine? {
        EmptyPass(op, View());
      }
    }

    method AdvanceUntil(delim: Byte) returns (r: Option<OpResult>)
      modifies this`readBuf, this`incoming, this`failures
      ensures failures >= old(failures)
      ensures r.Some? ==> Completes(SocketOp.ReadUntil(delim), old(View()), r.value, View(), failures > old(failures))
      ensures r.None? ==> View() == old(View()) && failures == old(failures)
    {
      hide UpTo, Find, NextPiece, Completes;
      var s := ReadUntilStep(delim);
      if s.None? {
        return None;
      }
      if s.value.Err? {
        IoIsAllowed(SocketOp.ReadUntil(delim), View());
        return Some(Err(s.value.error));
      }
      PieceCompletes(old(View()), delim, View());
      r := Some(Ok(BytesOrNull(s.value.value)));
    }

    method AdvanceLine() returns (r: Option<OpResult>)
      modifies this`readBuf, this`incoming, this`failures
      ensures failures >= old(failures)
      ensures r.Some? ==> Completes(SocketOp.ReadLine, old(View()), r.value, View(), failures > old(failures))
      ensures r.None? ==> View() == old(View()) && failures == old(failures)
    {
      hide UpTo, Find, NextPiece, FinishLine, Completes;
      var s := ReadUntilStep(NEWLINE);
      if s.None? {
        return None;
      }
      if s.value.Err? {
        IoIsAllowed(SocketOp.ReadLine, View());
        return Some(Err(s.value.error));
      }
      PieceCompletes(old(View()), NEWLINE, View());
      r := Some(Ok(FinishLine(s.value.value)));
    }

    method AdvanceChunk(n: nat) returns (r: Option<OpResult>)
      modifies this`readBuf, this`incoming, this`failures
      ensures failures >= old(failures)
      ensures r.Some? ==> Completes(SocketOp.ReadChunk(n), old(View()), r.value, View(), failures > old(failures))
      ensures r.None? ==> View() == old(View()) && failures == old(failures)
    {
      if n == 0 {
        return Some(Ok(Bytes([])));
      }
      var buffered := TakeBuffered(n);
      if buffered != [] {
        return Some(Ok(Bytes(buffered)));
      }
      var tmp := NbRead(if n < MAX_DIRECT_READ then n else MAX_DIRECT_READ);
      match tmp {
        case Got(bytes) => r := Some(Ok(Bytes(bytes)));
        case WouldBlock => r := None;
        case ReadFails => r := Some(Err(Io));
      }
    }

    method AdvanceExact(need: nat, got0: seq<Byte>) returns (op': SocketOp, r: Option<OpResult>)
      requires |got0| <= need
      modifies this`readBuf, this`incoming, this`failures
      ensures op'.Valid() && failures >= old(failures)
      ensures r.Some? ==>
        Completes(SocketOp.ReadExact(need, got0), old(View()), r.value, View(), failures > old(failures))
      ensures r.None? ==>
        Continues(SocketOp.ReadExact(need, got0), old(View()), op', View()) && failures == old(failures)
    {
      var got := got0;
      op' := SocketOp.ReadExact(need, got);
      while |got| < need
        invariant op'.Valid() && op' == SocketOp.ReadExact(need, got) && failures == old(failures)
        invariant got0 <= got && got + View().stream == got0 + old(View()).stream
        decreases need - |got|
      {
        ghost var before := View().stream;
        var want := need - |got|;
        var buffered := TakeBuffered(want);
        if buffered != [] {
          assert before == buffered + View().stream;
          assert got + (buffered + View().stream) == got + buffered + View().stream;
          got := got + buffered;
        } else {
          var tmp := NbRead(if want < CHUNK then want else CHUNK);
          match tmp {
            case Got(bytes) =>
              if bytes == [] {
                return op', Some(Err(Eof(|got|, need)));
              }
              assert got + (bytes + incoming) == got + bytes + incoming;
              got := got + bytes;
            case WouldBlock => return op', None;
            case ReadFails =>
              Tails(got0, old(View()).stream, got, View().stream);
              return op', Some(Err(Io));
          }
        }
        op' := SocketOp.ReadExact(need, got);
      }
      r := Some(Ok(Bytes(got)));
    }

    method ReadUntilStep(delim: Byte) returns (r: Option<Result<Option<seq<Byte>>, NetError>>)
      modifies this`readBuf, this`incoming, this`failures
      ensures failures == old(failures) + if r.Some? && r.value.Err? then 1 else 0
      ensures r.None? || r.value.Err? ==> View() == old(View())
      ensures r.Some? && r.value.Err? ==> r.value.error == Io
      ensures r.Some? && r.value.Ok? ==>
        && r.value.value == NextPiece(old(View()).stream, delim)
        && View().stream == old(View()).stream[UpTo(old(View()).stream, delim)..]
    {
      hide Find;
      while true
        invariant View() == old(View()) && failures == old(failures)
        decreases |incoming|
      {
        var piece := TakeBufferedUntil(delim);
        if piece.Some? {
          return Some(Ok(piece));
        }
        var tmp := NbRead(CHUNK);
        match tmp {
          case Got(bytes) =>
            if bytes == [] {
              assert View().stream == readBuf;
              var rest := TakeBufferedAll();
              return Some(Ok(if rest == [] then None else Some(rest)));
            }
            assert readBuf + (bytes + incoming) == readBuf + bytes + incoming;
            PushBuffered(bytes);
          case WouldBlock => return None;
          case ReadFails => return Some(Err(Io));
        }
      }
    }

    method AdvanceAll(all: seq<Byte>) returns (op': SocketOp, r: Option<OpResult>)
      modifies this`readBuf, this`incoming, this`failures
      ensures op'.Valid() && failures >= old(failures)
      ensures r.Some? ==>
        Completes(SocketOp.ReadAll(all), old(View()), r.value, View(), failures > old(failures))
      ensures r.None? ==>
        Continues(SocketOp.ReadAll(all), old(View()), op', View()) && failures == old(failures)
    {
      var got := all;
      while true
        invariant all <= got && got + View().stream == all + old(View()).stream && failures == old(failures)
        decreases |incoming|
      {
        assert got + (readBuf + incoming) == got + readBuf + incoming;
        var buffered := TakeBufferedAll();
        got := got + buffered;
        assert View().stream == incoming;
        op' := SocketOp.ReadAll(got);
        var tmp := NbRead(CHUNK);
        match tmp {
          case Got(bytes) =>
            if bytes == [] {
              assert View().stream == [] && got + [] == got;
              return op', Some(Ok(Bytes(got)));
            }
            assert got + (bytes + incoming) == got + bytes + incoming;
            got := got + bytes;
          case WouldBlock => return op', None;
          case ReadFails =>
            Tails(all, old(View()).stream, got, View().stream);
            return op', Some(Err(Io));
        }
      }
    }

    method AdvanceWrite(data: seq<Byte>, sent0: nat) returns (op': SocketOp, r: Option<OpResult>)
      requires sent0 <= |data|
      modifies this`outgoing, this`failures
      ensures op'.Valid() && failures >= old(failures)
      ensures r.Some? ==>
        Completes(SocketOp.WriteAll(data, sent0), old(View()), r.value, View(), failures > old(failures))
      ensures r.None? ==>
        Continues(SocketOp.WriteAll(data, sent0), old(View()), op', View()) && failures == old(failures)
    {
      var sent := sent0;
      op' := SocketOp.WriteAll(data, sent);
      while sent < |data|
        invariant sent0 <= sent <= |data| && op' == SocketOp.WriteAll(data, sent)
        invariant outgoing == old(outgoing) + data[sent0..sent] && failures == old(failures)
      {
        var w := NbWrite(data[sent..]);
        match w {
          case Took(n) =>
            if n == 0 {
              assert |outgoing| < |old(outgoing) + data[sent0..]|;
              return op', Some(Err(WriteZero));
            }
            assert data[sent0..sent] + data[sent..][..n] == data[sent0..sent + n];
            sent := sent + n;
            op' := SocketOp.WriteAll(data, sent);
          case WriteBlocks => return op', None;
          case WriteFails => return op', Some(Err(Io));
        }
      }
      var blocks: bool, fails: bool := *, *;
      if blocks {
        return op', None;
      }
      if fails {
        failures := failures + 1;
        return op', Some(Err(Io));
      }
      r := Some(Ok(Count(|data|)));
    }

    /** The reactor's run of an operation: a pass at submission and one for every event, however many. Its
        answer, if it has come by then, is one the operation may give. */
    method Drive(op: SocketOp, events: nat) returns (op': SocketOp, r: Option<OpResult>)
      requires op.Valid() && !closed
      modifies this`readBuf, this`incoming, this`outgoing, this`failures
      ensures op'.Valid() && failures >= old(failures)
      ensures r.Some? ==> Completes(op, old(View()), r.value, View(), failures > old(failures))
      ensures r.None? ==> Continues(op, old(View()), op', View()) && failures == old(failures)
    {
      hide Completes, Continues, View;
      op', r := Advance(op);
      for i := 0 to events
        invariant op'.Valid() && failures >= old(failures)
        invariant r.Some? ==> Completes(op, old(View()), r.value, View(), failures > old(failures))
        invariant r.None? ==> Continues(op, old(View()), op', View()) && failures == old(failures)
      {
        if r.Some? {
          return;
        }
        ghost var middle, mid := op', View();
        op', r := Advance(op');
        if r.Some? {
          PassIsSilent(op, old(View()), middle, mid, r.value, View(), failures > old(failures));
        } else {
          PassesJoin(op, old(View()), middle, mid, op', View());
        }
      }
    }
  }

  /** One operation run by both executors, on two sockets at the same point of the same stream. Whenever the
      reactor has an answer, no system call failed and no write took nothing, the answers are the same and so are
      the sockets; a single `read` may be cut short differently, but takes its bytes from the same stream. */
  method RunBoth(blocking: Socket, ready: Socket, op: SocketOp, events: nat) returns (b: OpResult, r: Option<OpResult>)
    requires blocking != ready && blocking.View() == ready.View() && !blocking.closed && !ready.closed
    requires op.Valid() && (op.WriteAll? ==> op.sent == 0)
    modifies blocking`readBuf, blocking`incoming, blocking`outgoing, blocking`failures
    modifies ready`readBuf, ready`incoming, ready`outgoing, ready`failures
    ensures blocking.failures >= old(blocking.failures) && ready.failures >= old(ready.failures)
    ensures b == Err(Io) <==> blocking.failures > old(blocking.failures)
    ensures r.Some? ==> (r.value == Err(Io) <==> ready.failures > old(ready.failures))
    ensures r.Some? && !SystemError(b) && !SystemError(r.value) && !op.ReadChunk? ==>
      b == r.value && blocking.View() == ready.View()
    ensures r.Some? && !SystemError(b) && !SystemError(r.value) && op.ReadChunk? ==>
      && b.Ok? && r.value.Ok? && b.value.Bytes? && r.value.value.Bytes?
      && b.value.bytes + blocking.View().stream == r.value.value.bytes + ready.View().stream
      && (b.value.bytes == [] <==> r.value.value.bytes == [])
  {
    hide Completes, Continues;
    ghost var w := ready.View();
    b := blocking.RunBlocking(op);
    ghost var left := blocking.View();
    IoMeansFailed(op, w, b, left, blocking.failures > old(blocking.failures));
    assert ready.View() == w;
    var rest;
    rest, r := ready.Drive(op, events);
    assert blocking.View() == left;
    if r.Some? {
      IoMeansFailed(op, w, r.value, ready.View(), ready.failures > old(ready.failures));
      if !SystemError(b) && !SystemError(r.value) {
        if op.ReadChunk? {
          ChunksAgree(op, w, b, left, r.value, ready.View());
        } else {
          ExecutorsAgree(op, w, b, left, r.value, ready.View());
        }
      }
    }
  }

  predicate SystemError(r: OpResult) {
    r == Err(Io) || r == Err(WriteZero)
  }

  lemma IoMeansFailed(op: SocketOp, w: Wire, r: OpResult, after: Wire, failed: bool)
    requires op.Valid() && Completes(op, w, r, after, failed)
    ensures r == Err(Io) <==> failed
  {
  }

  lemma ChunksAgree(op: SocketOp, w: Wire, r1: OpResult, after1: Wire, r2: OpResult, after2: Wire)
    requires op.ReadChunk? && Completes(op, w, r1, after1, false) && Completes(op, w, r2, after2, false)
    ensures r1.Ok? && r2.Ok? && r1.value.Bytes? && r2.value.Bytes?
    ensures r1.value.bytes + after1.stream == r2.value.bytes + after2.stream
    ensures r1.value.bytes == [] <==> r2.value.bytes == []
  {
  }

  /** After a failed system call the answer may be an I/O error with nothing read or written. */
  lemma IoIsAllowed(op: SocketOp, w: Wire)
    requires op.Valid()
    ensures Completes(op, w, Err(Io), w, true)
  {
    if op.WriteAll? {
      assert w.written <= w.written + op.data[op.sent..];
    }
  }

  lemma PieceCompletes(w: Wire, delim: Byte, after: Wire)
    requires after == Wire(w.stream[UpTo(w.stream, delim)..], w.written)
    ensures Completes(SocketOp.ReadUntil(delim), w, Ok(BytesOrNull(NextPiece(w.stream, delim))), after, false)
    ensures delim == NEWLINE ==>
      Completes(SocketOp.ReadLine, w, Ok(FinishLine(NextPiece(w.stream, NEWLINE))), after, false)
  {
    hide UpTo, NextPiece, FinishLine;
  }

  lemma EmptyPass(op: SocketOp, w: Wire)
    requires op.ReadChunk? || op.ReadUntil? || op.ReadLine?
    ensures Continues(op, w, op, w)
  {
  }

  lemma PassesJoin(op: SocketOp, w: Wire, op1: SocketOp, w1: Wire, op2: SocketOp, w2: Wire)
    requires op.Valid() && op1.Valid() && Continues(op, w, op1, w1) && Continues(op1, w1, op2, w2)
    ensures Continues(op, w, op2, w2)
  {
    if op.WriteAll? {
      assert op.data[op.sent..op1.sent] + op.data[op1.sent..op2.sent] == op.data[op.sent..op2.sent];
    }
  }
}
