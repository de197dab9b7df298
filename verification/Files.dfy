/** The streaming file handle (src/vm/file_handle.rs): reads through a surplus buffer, in short reads of any
    size, are the reads of one plain cursor over the file. */
module Files {
  import opened Results
  import opened Wrappers
  import opened Delimiters

  const CHUNK: nat := 8192
  const MAX_DIRECT_READ: nat := 65536

  datatype Mode = Read | Write | Append

  datatype FileError = Closed | WrongMode | Eof(got: nat) | Io

  // ----- the plain cursor -----

  /** A file as its user sees it: contents, and one position in them. */
  datatype Cursor = Cursor(data: seq<Byte>, mode: Mode, closed: bool, pos: nat) {
    function Rest(): seq<Byte> {
      if pos <= |data| then data[pos..] else []
    }

    /** The cursor `n` bytes further on. */
    function Past(n: nat): Cursor {
      this.(pos := pos + n)
    }

    /** Moved forward, but not beyond the contents. */
    predicate Skipped(to: Cursor) {
      exists n: nat :: n <= |Rest()| && to == Past(n)
    }
  }

  datatype Op = ReadChunk(n: nat) | ReadExact(n: nat) | ReadUntil(delim: Byte) | ReadAll | Seek(to: int) | Tell | Close

  datatype Outcome = Bytes(bytes: seq<Byte>) | End | At(pos: int) | Unit | Failed(error: FileError)

  predicate Reads(op: Op) {
    op.ReadChunk? || op.ReadExact? || op.ReadUntil? || op.ReadAll?
  }

  /** One operation of the plain cursor: what it answers, and where it leaves the cursor. An I/O error means that a
      system call failed, or that a seek was to a negative position. */
  ghost predicate Performs(c: Cursor, op: Op, out: Outcome, after: Cursor, failed: bool) {
    if c.closed && !op.Close? then !failed && out == Failed(Closed) && after == c
    else if Reads(op) && c.mode != Read then !failed && out == Failed(WrongMode) && after == c
    else
      match op
      case ReadChunk(n) =>
        if failed then out == Failed(Io) && after == c
        else
          && out.Bytes? && |out.bytes| <= n && out.bytes <= c.Rest() && after == c.Past(|out.bytes|)
          && (out.bytes == [] <==> n == 0 || c.Rest() == [])
      case ReadExact(n) =>
        if failed then out == Failed(Io) && c.Skipped(after)
        else if n <= |c.Rest()| then out == Bytes(c.Rest()[..n]) && after == c.Past(n)
        else out == Failed(Eof(|c.Rest()|)) && after == c.Past(|c.Rest()|)
      case ReadUntil(delim) =>
        if failed then out == Failed(Io) && after == c
        else if c.Rest() == [] then out == End && after == c
        else out == Bytes(c.Rest()[..UpTo(c.Rest(), delim)]) && after == c.Past(UpTo(c.Rest(), delim))
      case ReadAll =>
        if failed then out == Failed(Io) && c.Skipped(after)
        else out == Bytes(c.Rest()) && after == c.Past(|c.Rest()|)
      case Seek(to) =>
        if failed then to >= 0 && out == Failed(Io) && c.Skipped(after)
        else if to >= 0 then out == Unit && after == c.(pos := to)
        else out == Failed(Io) && after == c
      case Tell => out == (if failed then Failed(Io) else At(c.pos)) && after == c
      case Close => !failed && out == Unit && after == c.(closed := true)
  }

  /** Some receives, one after the other. */
  ghost predicate Gathers(before: Held, after: Held) {
    exists k: nat :: (k == 0 || before.cursor + k <= |before.data|) && after == before.Received(k)
  }

  /** Some receives, and then `n` bytes handed out. */
  ghost predicate Handed(before: Held, n: nat, after: Held) {
    exists full: Held :: Gathers(before, full) && after == full.Drained(n)
  }

  lemma NothingGathered(h: Held)
    ensures Gathers(h, h)
  {
    assert h == h.Received(0);
  }

  lemma GatheredMore(before: Held, held: Held, after: Held)
    requires Gathers(before, held) && Gathers(held, after)
    ensures Gathers(before, after)
  {
    var j: nat :| (j == 0 || before.cursor + j <= |before.data|) && held == before.Received(j);
    var k: nat :| (k == 0 || held.cursor + k <= |held.data|) && after == held.Received(k);
    assert after == before.Received(j + k);
  }

  lemma ThenHanded(before: Held, full: Held, n: nat)
    requires Gathers(before, full)
    ensures Handed(before, n, full.Drained(n))
  {
  }

  lemma ExactAnswers(c: Cursor, n: nat, out: Outcome, after: Cursor)
    requires !c.closed && c.mode == Read
    requires
      || (n <= |c.Rest()| && out == Bytes(c.Rest()[..n]) && after == c.Past(n))
      || (n > |c.Rest()| && out == Failed(Eof(|c.Rest()|)) && after == c.Past(|c.Rest()|))
    ensures Performs(c, Op.ReadExact(n), out, after, false)
  {
  }

  lemma ExactFails(c: Cursor, n: nat, k: nat)
    requires !c.closed && c.mode == Read && k <= |c.Rest()|
    ensures Performs(c, Op.ReadExact(n), Failed(Io), c.Past(k), true)
  {
    assert c.Skipped(c.Past(k));
  }

  lemma ExactRefused(c: Cursor, n: nat, e: FileError)
    requires if c.closed then e == Closed else c.mode != Read && e == WrongMode
    ensures Performs(c, Op.ReadExact(n), Failed(e), c, false)
  {
  }

  lemma UntilAnswers(c: Cursor, delim: Byte, out: Outcome, after: Cursor)
    requires !c.closed && c.mode == Read
    requires
      || (c.Rest() == [] && out == End && after == c)
      || (c.Rest() != [] && out == Bytes(c.Rest()[..UpTo(c.Rest(), delim)]) && after == c.Past(UpTo(c.Rest(), delim)))
    ensures Performs(c, Op.ReadUntil(delim), out, after, false)
  {
  }

  lemma UntilFails(c: Cursor, delim: Byte)
    requires !c.closed && c.mode == Read
    ensures Performs(c, Op.ReadUntil(delim), Failed(Io), c, true)
  {
  }

  lemma UntilRefused(c: Cursor, delim: Byte, e: FileError)
    requires if c.closed then e == Closed else c.mode != Read && e == WrongMode
    ensures Performs(c, Op.ReadUntil(delim), Failed(e), c, false)
  {
  }

  lemma NotFound(s: seq<Byte>, d: Byte)
    requires Find(s, d).None?
    ensures UpTo(s, d) == |s|
  {
  }

  // ----- the buffered handle -----

  /** What a handle holds, as a value: the position a user sees is the system's cursor less the surplus. */
  datatype Held = Held(data: seq<Byte>, cursor: nat, readBuf: seq<Byte>) {
    ghost predicate Valid() {
      && |readBuf| <= cursor
      && (readBuf != [] ==> cursor <= |data| && readBuf == data[cursor - |readBuf|..cursor])
    }

    ghost function Position(): nat
      requires Valid()
    {
      cursor - |readBuf|
    }

    /** One receive that brings the next `k` bytes of the file into the surplus buffer. */
    ghost function Received(k: nat): Held {
      if cursor + k <= |data| then Held(data, cursor + k, readBuf + data[cursor..cursor + k]) else this
    }

    /** The first `k` bytes of the surplus handed out. */
    ghost function Drained(k: nat): Held {
      if k <= |readBuf| then Held(data, cursor, readBuf[k..]) else this
    }

    /** The surplus thrown away, as a seek does before its system call. */
    ghost function Dropped(): Held {
      Held(data, cursor, [])
    }
  }

  class FileHandle {
    const mode: Mode
    /** The file's contents, which do not change while it is read. */
    const data: seq<Byte>
    /** Position of the operating system's cursor. */
    var cursor: nat
    var readBuf: seq<Byte>
    var closed: bool
    /** How many system calls have failed. */
    ghost var failures: nat

    ghost function Holds(): Held
      reads this
    {
      Held(data, cursor, readBuf)
    }

    /** The surplus buffer is the stretch of the file that ends at the system's cursor. */
    ghost predicate Valid()
      reads this
    {
      Holds().Valid()
    }

    ghost function View(): Cursor
      requires Valid()
      reads this
    {
      Cursor(data, mode, closed, Holds().Position())
    }

    constructor Open(contents: seq<Byte>, mode: Mode)
      ensures Valid() && View() == Cursor(contents, mode, false, 0)
    {
      this.mode := mode;
      data := contents;
      cursor := 0;
      readBuf := [];
      closed := false;
      failures := 0;
    }

    /** One read system call: any number of the next bytes up to `cap`, none only at the end, or an error. */
    method RawRead(cap: nat) returns (r: Result<seq<Byte>, FileError>)
      requires cap > 0
      modifies this`cursor, this`failures
      ensures r.Err? ==> r.error == Io && cursor == old(cursor)
      ensures failures == old(failures) + if r.Err? then 1 else 0
      ensures r.Ok? ==>
        && |r.value| <= cap && cursor == old(cursor) + |r.value|
        && (r.value == [] <==> old(cursor) >= |data|)
        && (r.value != [] ==> cursor <= |data| && r.value == data[old(cursor)..cursor])
    {
      var fails: bool := *;
      if fails {
        failures := failures + 1;
        return Err(Io);
      }
      if cursor >= |data| {
        return Ok([]);
      }
      var got: nat :| 1 <= got <= cap && got <= |data| - cursor;
      r := Ok(data[cursor..cursor + got]);
      cursor := cursor + got;
    }

    method DrainBuffered(n: nat) returns (bytes: seq<Byte>)
      requires Valid()
      modifies this`readBuf
      ensures Valid()
      ensures |bytes| == if n < |old(readBuf)| then n else |old(readBuf)|
      ensures bytes == old(readBuf)[..|bytes|] && readBuf == old(readBuf)[|bytes|..]
      ensures bytes <= old(View()).Rest() && View() == old(View()).Past(|bytes|)
      ensures Holds() == old(Holds()).Drained(|bytes|)
    {
      var k := if n < |readBuf| then n else |readBuf|;
      bytes := readBuf[..k];
      readBuf := readBuf[k..];
    }

    method RecvMore() returns (r: Result<nat, FileError>)
      requires Valid()
      modifies this`cursor, this`readBuf, this`failures
      ensures Valid() && View() == old(View()) && cursor >= old(cursor)
      ensures failures == old(failures) + if r.Err? then 1 else 0
      ensures old(readBuf) <= readBuf
      ensures r.Err? ==> r.error == Io && cursor == old(cursor)
      ensures r.Ok? ==>
        && r.value == cursor - old(cursor)
        && (r.value == 0 <==> readBuf == View().Rest() && cursor == old(cursor))
        && (r.value > 0 ==> cursor <= |data|)
      ensures Gathers(old(Holds()), Holds())
    {
      NothingGathered(Holds());
      var tmp := RawRead(CHUNK);
      match tmp {
        case Err(e) => r := Err(e);
        case Ok(bytes) =>
          if bytes != [] {
            readBuf := readBuf + bytes;
          }
          r := Ok(|bytes|);
          assert Holds() == old(Holds()).Received(|bytes|);
      }
    }

    method EnsureRead() returns (r: Result<(), FileError>)
      requires Valid()
      ensures r == if closed then Err(Closed) else if mode != Read then Err(WrongMode) else Ok(())
    {
      r := if closed then Err(Closed) else if mode != Read then Err(WrongMode) else Ok(());
    }

    method ReadChunk(n: nat) returns (r: Result<seq<Byte>, FileError>)
      requires Valid()
      modifies this`cursor, this`readBuf, this`failures
      ensures Valid() && Performs(old(View()), Op.ReadChunk(n), Answer(r), View(), failures > old(failures))
      ensures failures >= old(failures)
    {
      var gate := EnsureRead();
      if gate.Err? {
        return Err(gate.error);
      }
      if n == 0 {
        return Ok([]);
      }
      var buffered := DrainBuffered(n);
      if buffered != [] {
        return Ok(buffered);
      }
      r := RawRead(if n < MAX_DIRECT_READ then n else MAX_DIRECT_READ);
    }

    /** One system call after `out` has been read since `before`, with nothing buffered. */
    method ReadOn(cap: nat, ghost before: Cursor, ghost out: seq<Byte>) returns (r: Result<seq<Byte>, FileError>)
      requires cap > 0 && Valid() && readBuf == [] && out <= before.Rest() && View() == before.Past(|out|)
      modifies this`cursor, this`failures
      ensures Valid() && cursor >= old(cursor)
      ensures failures == old(failures) + if r.Err? then 1 else 0
      ensures r.Err? ==> r.error == Io && View() == old(View())
      ensures r.Ok? ==>
        && |r.value| <= cap && out + r.value <= before.Rest() && View() == before.Past(|out + r.value|)
        && (r.value == [] ==> out == before.Rest()) && cursor == old(cursor) + |r.value|
        && (r.value != [] ==> cursor <= |data|)
    {
      r := RawRead(cap);
      if r.Ok? {
        Follows(before, out, r.value, old(cursor));
      }
    }

    /** What was read next in the file is what follows `out`. */
    lemma Follows(before: Cursor, out: seq<Byte>, bytes: seq<Byte>, at: nat)
      requires out <= before.Rest() && before.data == data && at == before.pos + |out|
      requires bytes == [] <==> at >= |data|
      requires bytes != [] ==> at + |bytes| <= |data| && bytes == data[at..at + |bytes|]
      ensures out + bytes <= before.Rest() && (bytes == [] ==> out == before.Rest())
    {
      var rest := before.Rest();
      if bytes != [] {
        assert rest[|out|..][..|bytes|] == bytes;
      }
    }

    method ReadExact(n: nat) returns (r: Result<seq<Byte>, FileError>)
      requires Valid()
      modifies this`cursor, this`readBuf, this`failures
      ensures Valid() && Performs(old(View()), Op.ReadExact(n), Answer(r), View(), failures > old(failures))
      ensures failures >= old(failures)
    {
      hide Performs, Cursor.Skipped;
      var gate := EnsureRead();
      if gate.Err? {
        ExactRefused(View(), n, gate.error);
        return Err(gate.error);
      }
      ghost var before := View();
      var out := DrainBuffered(n);
      while |out| < n
        invariant readBuf == [] || |out| == n
        invariant Valid() && |out| <= n && out <= before.Rest() && View() == before.Past(|out|)
        invariant failures == old(failures)
        decreases n - |out|
      {
        var remaining := n - |out|;
        var tmp := ReadOn(if remaining < MAX_DIRECT_READ then remaining else MAX_DIRECT_READ, before, out);
        match tmp {
          case Err(e) =>
            ExactFails(before, n, |out|);
            return Err(e);
          case Ok(bytes) =>
            if bytes == [] {
              ExactAnswers(before, n, Failed(Eof(|out|)), View());
              return Err(Eof(|out|));
            }
            out := out + bytes;
        }
      }
      assert out == before.Rest()[..n];
      ExactAnswers(before, n, Bytes(out), View());
      r := Ok(out);
    }

    /** A delimiter in the buffer is the first one of what is left of the file. */
    lemma BufferLeads(delim: Byte)
      requires Valid() && Find(readBuf, delim).Some?
      ensures UpTo(View().Rest(), delim) == UpTo(readBuf, delim)
    {
      var rest := View().Rest();
      assert readBuf <= rest;
      assert rest == readBuf + rest[|readBuf|..];
      FoundIsFinal(readBuf, rest[|readBuf|..], delim);
    }

    /** The buffered bytes up to the delimiter found in them. */
    method TakeThrough(at: nat, ghost delim: Byte, ghost was: Held) returns (piece: seq<Byte>)
      requires Valid() && !closed && mode == Read && Find(readBuf, delim) == Some(at) && Gathers(was, Holds())
      modifies this`readBuf
      ensures Valid() && Performs(old(View()), Op.ReadUntil(delim), Bytes(piece), View(), false)
      ensures Handed(was, |piece|, Holds())
    {
      hide Find, Gathers, Handed, Performs;
      ghost var c, full := View(), Holds();
      BufferLeads(delim);
      piece := DrainBuffered(at + 1);
      ThenHanded(was, full, |piece|);
      assert c.Rest() != [] && piece == c.Rest()[..at + 1];
      UntilAnswers(c, delim, Bytes(piece), View());
    }

    /** What is left at the end of the file. */
    method TakeRest(ghost delim: Byte, ghost was: Held) returns (rest: seq<Byte>)
      requires Valid() && !closed && mode == Read && Find(readBuf, delim).None? && Gathers(was, Holds())
      requires readBuf != [] && readBuf == View().Rest()
      modifies this`readBuf
      ensures Valid() && Performs(old(View()), Op.ReadUntil(delim), Bytes(rest), View(), false)
      ensures Handed(was, |rest|, Holds())
    {
      hide Find, UpTo, Gathers, Handed, Performs;
      ghost var c, full := View(), Holds();
      NotFound(readBuf, delim);
      rest := DrainBuffered(|readBuf|);
      ThenHanded(was, full, |rest|);
      UntilAnswers(c, delim, Bytes(rest), View());
    }

    method ReadUntil(delim: Byte) returns (r: Result<Option<seq<Byte>>, FileError>)
      requires Valid()
      modifies this`cursor, this`readBuf, this`failures
      ensures Valid() && Performs(old(View()), Op.ReadUntil(delim), AnswerOrEnd(r), View(), failures > old(failures))
      ensures failures >= old(failures)
      ensures r.Ok? && r.value.Some? ==> Handed(old(Holds()), |r.value.value|, Holds())
    {
      hide Find, Gathers, Handed, Performs, UpTo;
      var gate := EnsureRead();
      if gate.Err? {
        UntilRefused(View(), delim, gate.error);
        return Err(gate.error);
      }
      ghost var before := View();
      NothingGathered(Holds());
      while true
        invariant Valid() && View() == before && Gathers(old(Holds()), Holds()) && failures == old(failures)
        decreases if cursor <= |data| then |data| - cursor else 0
      {
        var found := Find(readBuf, delim);
        if found.Some? {
          var piece := TakeThrough(found.value, delim, old(Holds()));
          return Ok(Some(piece));
        }
        ghost var held := Holds();
        var got := RecvMore();
        GatheredMore(old(Holds()), held, Holds());
        if got.Err? {
          UntilFails(before, delim);
          return Err(got.error);
        }
        if got.value == 0 {
          if readBuf == [] {
            UntilAnswers(before, delim, End, View());
            return Ok(None);
          }
          var rest := TakeRest(delim, old(Holds()));
          return Ok(Some(rest));
        }
      }
    }

    method ReadAll() returns (r: Result<seq<Byte>, FileError>)
      requires Valid()
      modifies this`cursor, this`readBuf, this`failures
      ensures Valid() && Performs(old(View()), Op.ReadAll, Answer(r), View(), failures > old(failures))
      ensures failures >= old(failures)
    {
      var gate := EnsureRead();
      if gate.Err? {
        return Err(gate.error);
      }
      ghost var before := View();
      var out := DrainBuffered(|readBuf|);
      while true
        invariant Valid() && readBuf == [] && failures == old(failures)
        invariant out <= before.Rest() && View() == before.Past(|out|)
        decreases if cursor <= |data| then |data| - cursor else 0
      {
        var tmp := ReadOn(CHUNK, before, out);
        if tmp.Err? {
          assert before.Skipped(View());
          return Err(tmp.error);
        }
        if tmp.value == [] {
          return Ok(out);
        }
        out := out + tmp.value;
      }
    }

    /** The surplus is dropped before the system call, so a seek that fails leaves the position further on by
        exactly that surplus. */
    method Seek(to: int) returns (r: Result<(), FileError>)
      requires Valid()
      modifies this`cursor, this`readBuf, this`failures
      ensures Valid() && Performs(old(View()), Op.Seek(to), AnswerUnit(r), View(), failures > old(failures))
      ensures failures >= old(failures)
      ensures r.Err? && (closed || to < 0) ==> Holds() == old(Holds())
      ensures r.Err? && !closed && to >= 0 ==> Holds() == old(Holds()).Dropped()
      ensures r.Err? && !closed && to >= 0 ==> View() == old(View()).Past(|old(readBuf)|)
      ensures r.Err? && !closed && to >= 0 ==> (View() == old(View()) <==> old(readBuf) == [])
    {
      if closed {
        return Err(Closed);
      }
      if to < 0 {
        return Err(Io);
      }
      ghost var before := View();
      ghost var surplus: nat := |readBuf|;
      readBuf := [];
      var fails: bool := *;
      if fails {
        failures := failures + 1;
        assert surplus <= |before.Rest()| && View() == before.Past(surplus);
        return Err(Io);
      }
      cursor := to;
      r := Ok(());
    }

    method Tell() returns (r: Result<int, FileError>)
      requires Valid()
      modifies this`failures
      ensures var out := if r.Ok? then At(r.value) else Failed(r.error);
        Performs(View(), Op.Tell, out, View(), failures > old(failures))
      ensures failures >= old(failures)
    {
      if closed {
        return Err(Closed);
      }
      var fails: bool := *;
      if fails {
        failures := failures + 1;
        return Err(Io);
      }
      r := Ok(cursor - |readBuf|);
    }

    method Close()
      requires Valid()
      modifies this`closed
      ensures Valid() && View() == old(View()).(closed := true)
    {
      closed := true;
    }

    method Perform(op: Op) returns (out: Outcome)
      requires Valid()
      modifies this
      ensures Valid() && Performs(old(View()), op, out, View(), failures > old(failures))
      ensures failures >= old(failures)
    {
      match op {
        case ReadChunk(n) => var r := ReadChunk(n); out := Answer(r);
        case ReadExact(n) => var r := ReadExact(n); out := Answer(r);
        case ReadUntil(delim) => var r := ReadUntil(delim); out := AnswerOrEnd(r);
        case ReadAll => var r := ReadAll(); out := Answer(r);
        case Seek(to) => var r := Seek(to); out := AnswerUnit(r);
        case Tell => var r := Tell(); out := if r.Ok? then At(r.value) else Failed(r.error);
        case Close => Close(); out := Unit;
      }
    }

    /** Any sequence of operations is a run of the plain cursor. */
    method PerformAll(ops: seq<Op>)
      returns (outs: seq<Outcome>, ghost cursors: seq<Cursor>, ghost failed: seq<bool>)
      requires Valid()
      modifies this
      ensures Valid() && IsRun(ops, outs, cursors, failed) && cursors[0] == old(View()) && cursors[|ops|] == View()
      ensures failures == old(failures) ==> true !in failed
    {
      outs := [];
      cursors, failed := [View()], [];
      for i := 0 to |ops|
        invariant Valid() && |outs| == i && |cursors| == i + 1 && cursors[0] == old(View()) && cursors[i] == View()
        invariant IsRun(ops[..i], outs, cursors, failed) && failures >= old(failures)
        invariant failures == old(failures) ==> true !in failed
      {
        ghost var before := failures;
        var out := Perform(ops[i]);
        outs := outs + [out];
        cursors, failed := cursors + [View()], failed + [failures > before];
      }
      assert ops[..|ops|] == ops;
    }
  }

  function Answer(r: Result<seq<Byte>, FileError>): Outcome {
    if r.Ok? then Bytes(r.value) else Failed(r.error)
  }

  function AnswerOrEnd(r: Result<Option<seq<Byte>>, FileError>): Outcome {
    if r.Err? then Failed(r.error) else if r.value.None? then End else Bytes(r.value.value)
  }

  function AnswerUnit(r: Result<(), FileError>): Outcome {
    if r.Ok? then Unit else Failed(r.error)
  }

  // ----- a seek that fails -----

  /** A failed seek keeps the position exactly when nothing was buffered, and otherwise moves it by what was. */
  lemma FailedSeekKeeps(h: Held)
    requires h.Valid()
    ensures h.Dropped().Valid() && h.Dropped().Position() == h.Position() + |h.readBuf|
    ensures h.Dropped().Position() == h.Position() <==> h.readBuf == []
  {
  }

  /** The file 1, newline, 2: one receive takes all of it, the line of two bytes is handed out, and a seek that
      then fails leaves the handle at 3 where it stood at 2. */
  lemma FailedSeekMoves()
    ensures
      var handle := Held([1, 10, 2], 0, []);
      var read := handle.Received(3).Drained(2);
      var start := Cursor([1, 10, 2], Read, false, 0);
      && Handed(handle, 2, read) && read.Valid() && read.Position() == 2
      && Performs(start, Op.ReadUntil(10), Bytes([1, 10]), start.(pos := read.Position()), false)
      && read.Dropped().Valid() && read.Dropped().Position() == 3
  {
    var handle := Held([1, 10, 2], 0, []);
    assert Gathers(handle, handle.Received(3));
    ThenHanded(handle, handle.Received(3), 2);
    var start := Cursor([1, 10, 2], Read, false, 0);
    assert start.Rest() == [1, 10, 2];
    FirstIs(start.Rest(), 10, 1);
  }

  // ----- whole runs -----

  /** A run of the plain cursor; `failed` says in which operations a system call failed. */
  ghost predicate IsRun(ops: seq<Op>, outs: seq<Outcome>, cursors: seq<Cursor>, failed: seq<bool>) {
    && |outs| == |ops| == |failed| && |cursors| == |ops| + 1
    && forall i :: 0 <= i < |ops| ==> Performs(cursors[i], ops[i], outs[i], cursors[i + 1], failed[i])
  }

  /** The bytes the reads of a run answered, in order. */
  function Answered(outs: seq<Outcome>): seq<Byte> {
    if outs == [] then []
    else Answered(outs[..|outs| - 1]) + if outs[|outs| - 1].Bytes? then outs[|outs| - 1].bytes else []
  }

  predicate OnlyReads(ops: seq<Op>, outs: seq<Outcome>) {
    (forall i :: 0 <= i < |ops| ==> Reads(ops[i]) || ops[i].Tell?) && forall i :: 0 <= i < |outs| ==> !outs[i].Failed?
  }

  lemma OneRead(c: Cursor, op: Op, out: Outcome, after: Cursor)
    requires Performs(c, op, out, after, false) && !out.Failed? && (Reads(op) || op.Tell?)
    ensures var bytes := if out.Bytes? then out.bytes else []; bytes <= c.Rest() && after == c.Past(|bytes|)
  {
    hide UpTo, Find;
  }

  lemma NoFailure(c: Cursor, op: Op, out: Outcome, after: Cursor, failed: bool)
    requires Performs(c, op, out, after, failed) && !out.Failed?
    ensures !failed
  {
  }

  /** However reads of all kinds are mixed, what they answer is the file from where they began, without gap
      or repetition, and the position moves by its length. */
  lemma {:induction false} ReadsAreTheFile(ops: seq<Op>, outs: seq<Outcome>, cursors: seq<Cursor>,
        failed: seq<bool>)
    requires IsRun(ops, outs, cursors, failed) && OnlyReads(ops, outs)
    ensures Answered(outs) <= cursors[0].Rest()
    ensures cursors[|ops|] == cursors[0].Past(|Answered(outs)|)
    decreases |ops|
  {
    hide Performs, Cursor.Rest;
    if ops != [] {
      var n := |ops| - 1;
      ReadsAreTheFile(ops[..n], outs[..n], cursors[..n + 1], failed[..n]);
      NoFailure(cursors[n], ops[n], outs[n], cursors[n + 1], failed[n]);
      OneRead(cursors[n], ops[n], outs[n], cursors[n + 1]);
      Joined(cursors[0], Answered(outs[..n]), if outs[n].Bytes? then outs[n].bytes else []);
    }
  }

  lemma Joined(c: Cursor, a: seq<Byte>, b: seq<Byte>)
    requires a <= c.Rest() && b <= c.Past(|a|).Rest()
    ensures a + b <= c.Rest() && c.Past(|a|).Past(|b|) == c.Past(|a + b|)
  {
    assert c.Past(|a|).Rest() == c.Rest()[|a|..];
  }

  /** A handle told to close answers nothing more. */
  lemma {:induction false} ClosedStaysClosed(ops: seq<Op>, outs: seq<Outcome>, cursors: seq<Cursor>,
        failed: seq<bool>, i: nat)
    requires IsRun(ops, outs, cursors, failed) && i < |ops|
    requires cursors[0].closed
    ensures cursors[i].closed && cursors[i + 1] == cursors[0] && outs[i] == if ops[i].Close? then Unit
      else Failed(Closed)
  {
    if i > 0 {
      ClosedStaysClosed(ops, outs, cursors, failed, i - 1);
    }
    assert Performs(cursors[i], ops[i], outs[i], cursors[i + 1], failed[i]);
  }
}
