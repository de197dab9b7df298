/** Jump threading on encoded bytes (src/vm/chunk.rs:135-147, 276-322): a forward jump to an
    unconditional jump is retargeted to the end of the chain, in place, without moving any code. */
module Threading {
  import opened Wrappers

  type Byte = n: nat | n < 256

  const LOAD_CONST: Byte := 0
  const JUMP: Byte := 21
  const JUMP_IF_FALSE: Byte := 23
  const JUMP_IF_TRUE: Byte := 24
  const CLOSURE: Byte := 33
  const JUMP_IF_NOT_NULL: Byte := 62
  const LAST_OP: Byte := 69

  /** Opcodes followed by one byte: locals, scope and call counts, upvalues, globals, tags. */
  const ONE_BYTE: set<Byte> := {1, 2, 25, 26, 27, 31, 34, 35, 36, 37, 41, 42, 47, 61, 64}

  /** Opcodes followed by a 32-bit distance: jumps, `Loop`, `IterNext`, `IterNext2`, `PushTry`. */
  const FOUR_BYTES: set<Byte> := {21, 22, 23, 24, 39, 40, 51, 62}

  /** `operand_bytes`, except `Closure`, whose width depends on its template. */
  function OperandBytes(op: Byte): nat {
    if op in ONE_BYTE then 1 else if op in FOUR_BYTES then 4 else if op == LOAD_CONST then 2 else 0
  }

  predicate Threads(op: Byte) {
    op == JUMP || op == JUMP_IF_FALSE || op == JUMP_IF_TRUE || op == JUMP_IF_NOT_NULL
  }

  // ----- big-endian operands -----

  function ReadU16(code: seq<Byte>, at: nat): nat
    requires at + 2 <= |code|
  {
    (code[at] as int) * 0x100 + code[at + 1]
  }

  function ReadU32(code: seq<Byte>, at: nat): (n: nat)
    requires at + 4 <= |code|
    ensures n < 0x1_0000_0000
  {
    (code[at] as int) * 0x100_0000 + (code[at + 1] as int) * 0x1_0000 + (code[at + 2] as int) * 0x100 + code[at + 3]
  }

  function PatchU32(code: seq<Byte>, at: nat, n: nat): (r: seq<Byte>)
    requires at + 4 <= |code|
    ensures |r| == |code| && forall i :: 0 <= i < |code| && !(at <= i < at + 4) ==> r[i] == code[i]
  {
    code[at := n / 0x100_0000 % 0x100][at + 1 := n / 0x1_0000 % 0x100][at + 2 := n / 0x100 % 0x100][at + 3 := n % 0x100]
  }

  /** Patching an operand and reading it back. */
  lemma PatchThenRead(code: seq<Byte>, at: nat, n: nat)
    requires at + 4 <= |code| && n < 0x1_0000_0000
    ensures ReadU32(PatchU32(code, at, n), at) == n
  {
    var a, b, c := n / 0x100, n / 0x1_0000, n / 0x100_0000;
    assert n == a * 0x100 + n % 0x100 && a == b * 0x100 + a % 0x100 && b == c * 0x100 + b % 0x100;
  }

  /** Four bytes are determined by the number they spell. */
  lemma ReadIsInjective(x: seq<Byte>, y: seq<Byte>, at: nat)
    requires at + 4 <= |x| && at + 4 <= |y| && ReadU32(x, at) == ReadU32(y, at)
    ensures forall i :: at <= i < at + 4 ==> x[i] == y[i]
  {
    assert x[at] == y[at];
    assert x[at + 1] == y[at + 1];
    assert x[at + 2] == y[at + 2];
  }

  // ----- instruction boundaries -----

  /** `instr_len`: `captures` gives the number of upvalues of each function template. */
  function InstrLen(code: seq<Byte>, captures: seq<nat>, at: nat): (n: nat)
    requires at < |code|
    ensures n >= 1
  {
    if code[at] == CLOSURE then
      var index := if at + 3 <= |code| then ReadU16(code, at + 1) else |captures|;
      3 + if index < |captures| then captures[index] * 2 else 0
    else if code[at] > LAST_OP then 1
    else 1 + OperandBytes(code[at])
  }

  /** Every instruction from `from` on ends inside the code. */
  predicate Complete(code: seq<Byte>, captures: seq<nat>, from: nat)
    decreases |code| - from
  {
    from == |code| ||
    (from < |code| && from + InstrLen(code, captures, from) <= |code|
      && Complete(code, captures, from + InstrLen(code, captures, from)))
  }

  /** `at` is an instruction boundary at or after the boundary `from`. */
  predicate Starts(code: seq<Byte>, captures: seq<nat>, from: nat, at: nat)
    decreases |code| - from
  {
    at == from || (from < |code| && from < at && Starts(code, captures, from + InstrLen(code, captures, from), at))
  }

  predicate IsStart(code: seq<Byte>, captures: seq<nat>, at: nat) {
    Starts(code, captures, 0, at)
  }

  lemma {:induction false} StartsNext(code: seq<Byte>, captures: seq<nat>, from: nat, at: nat)
    requires Starts(code, captures, from, at) && at < |code|
    ensures Starts(code, captures, from, at + InstrLen(code, captures, at))
    decreases |code| - from
  {
    if at != from {
      StartsNext(code, captures, from + InstrLen(code, captures, from), at);
    }
  }

  /** Instructions do not overlap. */
  lemma {:induction false} StartsApart(code: seq<Byte>, captures: seq<nat>, from: nat, a: nat, b: nat)
    requires Starts(code, captures, from, a) && Starts(code, captures, from, b) && a < b && a < |code|
    ensures a + InstrLen(code, captures, a) <= b
    decreases |code| - from
  {
    if a != from {
      StartsApart(code, captures, from + InstrLen(code, captures, from), a, b);
    } else {
      StartsAfter(code, captures, from + InstrLen(code, captures, from), b);
    }
  }

  lemma StartsAfter(code: seq<Byte>, captures: seq<nat>, from: nat, at: nat)
    requires Starts(code, captures, from, at)
    ensures at >= from
  {
  }

  lemma {:induction false} CompleteAt(code: seq<Byte>, captures: seq<nat>, from: nat, at: nat)
    requires Complete(code, captures, from) && Starts(code, captures, from, at)
    ensures at <= |code| && (at < |code| ==> at + InstrLen(code, captures, at) <= |code|)
    decreases |code| - from
  {
    if at != from {
      CompleteAt(code, captures, from + InstrLen(code, captures, from), at);
    }
  }

  /** Every byte belongs to an instruction. */
  lemma {:induction false} Covering(code: seq<Byte>, captures: seq<nat>, from: nat, i: nat) returns (at: nat)
    requires from <= i < |code|
    ensures Starts(code, captures, from, at) && at <= i < at + InstrLen(code, captures, at) && at < |code|
    decreases |code| - from
  {
    if i < from + InstrLen(code, captures, from) {
      at := from;
    } else {
      at := Covering(code, captures, from + InstrLen(code, captures, from), i);
    }
  }

  // ----- what threading does -----

  /** Where a chain of unconditional jumps from `t` ends. Each hop goes forward. */
  function Final(code: seq<Byte>, t: nat): (r: nat)
    ensures r >= t && !(r + 5 <= |code| && code[r] == JUMP)
    decreases if t <= |code| then |code| - t else 0
  {
    if t + 5 <= |code| && code[t] == JUMP then Final(code, t + 5 + ReadU32(code, t + 1)) else t
  }

  function Target(code: seq<Byte>, at: nat): nat
    requires at + 5 <= |code|
  {
    at + 5 + ReadU32(code, at + 1)
  }

  /** The instruction at `at` is threaded if it is a forward jump whose new distance fits, and is
      otherwise what it was. */
  predicate InstrThreaded(captures: seq<nat>, was: seq<Byte>, code: seq<Byte>, at: nat)
    requires |code| == |was| && at < |was| && at + InstrLen(was, captures, at) <= |was|
  {
    && code[at] == was[at]
    && if Threads(was[at]) then Target(code, at) == if Fits(was, at) then Final(was, Target(was, at))
       else Target(was, at)
       else forall i :: at <= i < at + InstrLen(was, captures, at) ==> code[i] == was[i]
  }

  predicate Fits(code: seq<Byte>, at: nat)
    requires at + 5 <= |code|
  {
    Final(code, Target(code, at)) - (at + 5) < 0x1_0000_0000
  }

  ghost predicate IsThreaded(captures: seq<nat>, was: seq<Byte>, code: seq<Byte>) {
    && Complete(was, captures, 0) && |code| == |was|
    && forall at: nat :: IsStart(was, captures, at) && at < |was| ==>
      at + InstrLen(was, captures, at) <= |was| && InstrThreaded(captures, was, code, at)
  }

  /** Every instruction before `offset` is done. */
  ghost predicate DoneTo(captures: seq<nat>, was: seq<Byte>, code: seq<Byte>, offset: nat) {
    |code| == |was| && forall at: nat :: IsStart(was, captures, at) && at < offset && at < |was| ==>
      at + InstrLen(was, captures, at) <= |was| && InstrThreaded(captures, was, code, at)
  }

  lemma NothingDone(captures: seq<nat>, was: seq<Byte>)
    ensures DoneTo(captures, was, was, 0) && IsStart(was, captures, 0)
  {
  }

  lemma AllDone(captures: seq<nat>, was: seq<Byte>, code: seq<Byte>)
    requires DoneTo(captures, was, code, |was|) && Complete(was, captures, 0)
    ensures IsThreaded(captures, was, code)
  {
  }

  lemma FitsInside(was: seq<Byte>, captures: seq<nat>, at: nat)
    requires Complete(was, captures, 0) && IsStart(was, captures, at) && at < |was|
    ensures at + InstrLen(was, captures, at) <= |was|
  {
    CompleteAt(was, captures, 0, at);
  }

  lemma ThreadWidth(was: seq<Byte>, captures: seq<nat>, at: nat)
    requires at < |was|
    ensures Threads(was[at]) ==> InstrLen(was, captures, at) == 5
  {
  }

  lemma JustThreaded(captures: seq<nat>, was: seq<Byte>, code: seq<Byte>, at: nat)
    requires |code| == |was| && at < |was| && at + InstrLen(was, captures, at) <= |was| && code[at] == was[at]
    requires if Threads(was[at]) then at + 5 <= |was|
      && Target(code, at) == (if Fits(was, at) then Final(was, Target(was, at)) else Target(was, at))
             else forall i :: at <= i < |was| ==> code[i] == was[i]
    ensures InstrThreaded(captures, was, code, at)
    ensures InstrLen(code, captures, at) == InstrLen(was, captures, at)
  {
  }

  /** One more instruction: those before it lie before its bytes, and no other starts within it. */
  lemma ThreadedUpTo(captures: seq<nat>, was: seq<Byte>, before: seq<Byte>, code: seq<Byte>, offset: nat)
    requires DoneTo(captures, was, before, offset) && IsStart(was, captures, offset) && offset < |was|
    requires |code| == |was|
    requires offset + InstrLen(was, captures, offset) <= |was| && InstrThreaded(captures, was, code, offset)
    requires forall i :: 0 <= i < offset ==> code[i] == before[i]
    ensures var next := offset + InstrLen(was, captures, offset);
      DoneTo(captures, was, code, next) && IsStart(was, captures, next)
  {
    hide InstrLen, InstrThreaded;
    forall at: nat | IsStart(was, captures, at) && at < offset + InstrLen(was, captures, offset) && at < |was|
      ensures at + InstrLen(was, captures, at) <= |was| && InstrThreaded(captures, was, code, at)
    {
      if at < offset {
        StartsApart(was, captures, 0, at, offset);
        SameInstr(captures, was, before, code, at);
      } else if at > offset {
        StartsApart(was, captures, 0, offset, at);
      }
    }
    StartsNext(was, captures, 0, offset);
  }

  /** A code container, with the upvalue counts of the function templates it refers to. */
  class Chunk {
    const captures: seq<nat>
    var code: seq<Byte>

    constructor (captures: seq<nat>, code: seq<Byte>)
      ensures this.captures == captures && this.code == code
    {
      this.captures := captures;
      this.code := code;
    }

    /** The peephole pass: one walk over the instructions, rewriting operands in place. The hop counter
        of the original never cuts a chain short. */
    method ThreadJumps()
      requires Complete(code, captures, 0)
      modifies this`code
      ensures IsThreaded(captures, old(code), code)
    {
      hide InstrLen, IsStart, DoneTo, Complete, InstrThreaded;
      ghost var was := code;
      NothingDone(captures, was);
      var offset := 0;
      while offset < |code|
        invariant IsStart(was, captures, offset) && offset <= |was| && |code| == |was|
        invariant forall i :: offset <= i < |was| ==> code[i] == was[i]
        invariant DoneTo(captures, was, code, offset)
        decreases |was| - offset
      {
        FitsInside(was, captures, offset);
        ThreadWidth(was, captures, offset);
        ghost var before := code;
        if Threads(code[offset]) {
          ThreadOne(offset, was);
        }
        JustThreaded(captures, was, code, offset);
        ThreadedUpTo(captures, was, before, code, offset);
        offset := offset + InstrLen(code, captures, offset);
      }
      AllDone(captures, was, code);
    }

    /** Retargets the forward jump at `offset`, the code from there on being as it was. */
    method ThreadOne(offset: nat, ghost was: seq<Byte>)
      requires |code| == |was| && offset + 5 <= |was| && Threads(was[offset])
      requires forall i :: offset <= i < |was| ==> code[i] == was[i]
      modifies this`code
      ensures |code| == |was| && code[offset] == was[offset]
      ensures forall i :: 0 <= i < |was| && !(offset + 1 <= i < offset + 5) ==> code[i] == old(code)[i]
      ensures Target(code, offset) == if Fits(was, offset) then Final(was, Target(was, offset)) else Target(was, offset)
    {
      assert ReadU32(code, offset + 1) == ReadU32(was, offset + 1);
      var next := offset + 5;
      var target := next + ReadU32(code, offset + 1);
      var hops := 0;
      while target + 5 <= |code| && code[target] == JUMP && hops < |code|
        invariant target >= next + 5 * hops && hops >= 0 && Final(was, target) == Final(was, Target(was, offset))
        decreases |code| - hops
      {
        assert ReadU32(code, target + 1) == ReadU32(was, target + 1);
        target := target + 5 + ReadU32(code, target + 1);
        hops := hops + 1;
      }
      assert target == Final(was, target);
      var dist := target - next;
      if dist < 0x1_0000_0000 {
        code := PatchU32(code, offset + 1, dist);
        PatchThenRead(old(code), offset + 1, dist);
      }
    }
  }

  /** The length of an instruction shows in its head. */
  lemma SameHead(was: seq<Byte>, code: seq<Byte>, captures: seq<nat>, at: nat)
    requires |code| == |was| && at < |was| && at + InstrLen(was, captures, at) <= |was|
    requires forall i :: at <= i < at + InstrLen(was, captures, at) && i < at + 3 ==> code[i] == was[i]
    ensures InstrLen(code, captures, at) == InstrLen(was, captures, at)
  {
  }

  /** Later patches leave an earlier instruction alone. */
  lemma SameInstr(captures: seq<nat>, was: seq<Byte>, before: seq<Byte>, code: seq<Byte>, at: nat)
    requires |code| == |before| == |was| && at < |was| && at + InstrLen(was, captures, at) <= |was|
    requires InstrThreaded(captures, was, before, at)
    requires forall i :: at <= i < at + InstrLen(was, captures, at) ==> code[i] == before[i]
    ensures InstrThreaded(captures, was, code, at)
  {
  }

  // ----- what threading keeps -----

  lemma ThreadedHead(captures: seq<nat>, was: seq<Byte>, code: seq<Byte>, at: nat)
    requires IsThreaded(captures, was, code) && IsStart(was, captures, at) && at < |was|
    ensures code[at] == was[at] && InstrLen(code, captures, at) == InstrLen(was, captures, at)
    ensures !Threads(was[at]) ==>
      code[at..at + InstrLen(was, captures, at)] == was[at..at + InstrLen(was, captures, at)]
  {
    assert InstrThreaded(captures, was, code, at);
    if !Threads(was[at]) {
      SameHead(was, code, captures, at);
    }
  }

  /** No boundary moves. */
  lemma {:induction false} BoundariesStay(captures: seq<nat>, was: seq<Byte>, code: seq<Byte>, from: nat, at: nat)
    requires IsThreaded(captures, was, code) && IsStart(was, captures, from)
    ensures Starts(was, captures, from, at) <==> Starts(code, captures, from, at)
    decreases |was| - from
  {
    if from < |was| && from < at {
      ThreadedHead(captures, was, code, from);
      StartsNext(was, captures, 0, from);
      BoundariesStay(captures, was, code, from + InstrLen(was, captures, from), at);
    }
  }

  lemma {:induction false} StaysComplete(captures: seq<nat>, was: seq<Byte>, code: seq<Byte>, from: nat)
    requires IsThreaded(captures, was, code) && IsStart(was, captures, from) && Complete(was, captures, from)
    ensures Complete(code, captures, from)
    decreases |was| - from
  {
    if from < |was| {
      ThreadedHead(captures, was, code, from);
      StartsNext(was, captures, 0, from);
      StaysComplete(captures, was, code, from + InstrLen(was, captures, from));
    }
  }

  /** Every threadable jump goes to a boundary of the code, and the code is addressable in 32 bits. */
  ghost predicate JumpsLand(code: seq<Byte>, captures: seq<nat>) {
    && Complete(code, captures, 0) && |code| < 0x1_0000_0000
    && forall at: nat :: IsStart(code, captures, at) && at < |code| && Threads(code[at]) ==>
      at + 5 <= |code| && IsStart(code, captures, Target(code, at)) && Target(code, at) <= |code|
  }

  /** A chain from a boundary ends at a boundary that is not a jump. */
  lemma {:induction false} FinalLands(code: seq<Byte>, captures: seq<nat>, t: nat)
    requires JumpsLand(code, captures) && IsStart(code, captures, t) && t <= |code|
    ensures IsStart(code, captures, Final(code, t)) && Final(code, t) <= |code|
    ensures Final(code, t) < |code| ==> code[Final(code, t)] != JUMP
    decreases |code| - t
  {
    if t < |code| && code[t] == JUMP {
      FinalLands(code, captures, Target(code, t));
    }
  }

  lemma NewTarget(captures: seq<nat>, was: seq<Byte>, code: seq<Byte>, at: nat)
    requires IsThreaded(captures, was, code) && JumpsLand(was, captures)
    requires IsStart(was, captures, at) && at < |was| && Threads(was[at])
    ensures at + 5 <= |was| && Target(code, at) == Final(was, Target(was, at)) && Target(was, at) <= |was|
  {
    FinalLands(was, captures, Target(was, at));
    assert InstrThreaded(captures, was, code, at);
  }

  lemma NotAJump(captures: seq<nat>, was: seq<Byte>, code: seq<Byte>, f: nat)
    requires IsThreaded(captures, was, code) && IsStart(was, captures, f) && (f < |was| ==> was[f] != JUMP)
    ensures Final(code, f) == f
  {
    if f < |was| {
      ThreadedHead(captures, was, code, f);
    }
  }

  lemma CompleteWas(captures: seq<nat>, was: seq<Byte>, code: seq<Byte>, at: nat)
    requires IsThreaded(captures, was, code) && IsStart(was, captures, at) && at < |was|
    ensures |code| == |was| && (Threads(was[at]) ==> at + 5 <= |was|)
  {
    CompleteAt(was, captures, 0, at);
  }

  /** Chains end where they did. */
  lemma ChainsEndWhereTheyDid(captures: seq<nat>, was: seq<Byte>, code: seq<Byte>, t: nat)
    requires IsThreaded(captures, was, code) && JumpsLand(was, captures) && IsStart(was, captures, t) && t <= |was|
    ensures Final(code, t) == Final(was, t)
  {
    hide InstrLen, IsThreaded, IsStart, ReadU32;
    Lengths(captures, was, code);
    if t < |was| {
      ThreadedHead(captures, was, code, t);
      CompleteWas(captures, was, code, t);
      if was[t] == JUMP {
        NewTarget(captures, was, code, t);
        var f := Final(was, Target(was, t));
        FinalLands(was, captures, Target(was, t));
        assert Final(code, f) == f by { NotAJump(captures, was, code, f); }
        assert Final(code, t) == Final(code, f);
      }
    }
  }

  /** The new targets are boundaries too. */
  lemma ThreadedLands(captures: seq<nat>, was: seq<Byte>, code: seq<Byte>)
    requires IsThreaded(captures, was, code) && JumpsLand(was, captures)
    ensures JumpsLand(code, captures)
  {
    StaysComplete(captures, was, code, 0);
    forall at: nat | IsStart(code, captures, at) && at < |code| && Threads(code[at])
      ensures at + 5 <= |code| && IsStart(code, captures, Target(code, at)) && Target(code, at) <= |code|
    {
      BoundariesStay(captures, was, code, 0, at);
      ThreadedHead(captures, was, code, at);
      NewTarget(captures, was, code, at);
      FinalLands(was, captures, Target(was, at));
      BoundariesStay(captures, was, code, 0, Target(code, at));
    }
  }

  /** After the pass no forward jump leads to an unconditional one. */
  lemma NoChainIsLeft(captures: seq<nat>, was: seq<Byte>, code: seq<Byte>, at: nat)
    requires IsThreaded(captures, was, code) && JumpsLand(was, captures)
    requires IsStart(code, captures, at) && at < |code| && Threads(code[at])
    ensures at + 5 <= |code| && (Target(code, at) < |code| ==> code[Target(code, at)] != JUMP)
  {
    BoundariesStay(captures, was, code, 0, at);
    ThreadedHead(captures, was, code, at);
    NewTarget(captures, was, code, at);
    FinalLands(was, captures, Target(was, at));
    if Target(code, at) < |code| {
      ThreadedHead(captures, was, code, Target(code, at));
    }
  }

  /** The pass determines its result. */
  lemma ThreadedOneWay(captures: seq<nat>, was: seq<Byte>, x: seq<Byte>, y: seq<Byte>)
    requires IsThreaded(captures, was, x) && IsThreaded(captures, was, y)
    ensures x == y
  {
    forall i | 0 <= i < |was| ensures x[i] == y[i] {
      var at := Covering(was, captures, 0, i);
      assert InstrThreaded(captures, was, x, at) && InstrThreaded(captures, was, y, at);
      if Threads(was[at]) {
        ReadIsInjective(x, y, at + 1);
      }
    }
  }

  /** A second pass changes nothing. */
  lemma ThreadingIsIdempotent(captures: seq<nat>, was: seq<Byte>, once: seq<Byte>, twice: seq<Byte>)
    requires IsThreaded(captures, was, once) && JumpsLand(was, captures) && IsThreaded(captures, once, twice)
    ensures twice == once
  {
    ThreadedLands(captures, was, once);
    forall at: nat | IsStart(once, captures, at) && at < |once|
      ensures at + InstrLen(once, captures, at) <= |once| && InstrThreaded(captures, once, once, at)
    {
      CompleteAt(once, captures, 0, at);
      BoundariesStay(captures, was, once, 0, at);
      if Threads(once[at]) {
        ThreadedHead(captures, was, once, at);
        NewTarget(captures, was, once, at);
        FinalLands(was, captures, Target(was, at));
        ChainsEndWhereTheyDid(captures, was, once, Target(once, at));
      }
    }
    assert IsThreaded(captures, once, once);
    ThreadedOneWay(captures, once, once, twice);
  }

  // ----- execution -----

  /** A machine over any state: whether a conditional jump is taken, and what every other instruction
      does, given its bytes; `None` ends the run. */
  datatype Machine<!S> = Machine(taken: (Byte, S) -> bool, other: (nat, seq<Byte>, S) -> Option<(nat, S)>)

  datatype Conf<S> = At(ip: nat, s: S) | Ended

  function Step<S>(m: Machine<S>, code: seq<Byte>, captures: seq<nat>, c: Conf<S>): Conf<S> {
    if c.Ended? || c.ip >= |code| then c
    else if Threads(code[c.ip]) && c.ip + 5 <= |code| then
      At(if code[c.ip] == JUMP || m.taken(code[c.ip], c.s) then Target(code, c.ip) else c.ip + 5, c.s)
    else if c.ip + InstrLen(code, captures, c.ip) <= |code| then
      match m.other(c.ip, code[c.ip..c.ip + InstrLen(code, captures, c.ip)], c.s)
      case Some((ip, s)) => At(ip, s)
      case None => Ended
    else Ended
  }

  function Steps<S>(m: Machine<S>, code: seq<Byte>, captures: seq<nat>, c: Conf<S>, n: nat): Conf<S>
    decreases n
  {
    if n == 0 then c else Steps(m, code, captures, Step(m, code, captures, c), n - 1)
  }

  /** The next state that is not at an unconditional jump. */
  function Settled<S>(code: seq<Byte>, c: Conf<S>): Conf<S> {
    if c.Ended? then c else At(Final(code, c.ip), c.s)
  }

  /** The state before the `n`-th instruction that is not an unconditional jump. */
  function Visit<S>(m: Machine<S>, code: seq<Byte>, captures: seq<nat>, c: Conf<S>, n: nat): Conf<S>
    decreases n
  {
    if n == 0 then Settled(code, c) else Visit(m, code, captures, Step(m, code, captures, Settled(code, c)), n - 1)
  }

  predicate AtBoundary<S>(code: seq<Byte>, captures: seq<nat>, c: Conf<S>) {
    c.At? ==> IsStart(code, captures, c.ip) && c.ip <= |code|
  }

  /** Every other instruction of the machine goes on at a boundary. */
  ghost predicate StaysOnBoundaries<S(!new)>(m: Machine<S>, code: seq<Byte>, captures: seq<nat>) {
    forall ip: nat, bytes, s :: IsStart(code, captures, ip) && ip < |code| && m.other(ip, bytes, s).Some? ==>
      IsStart(code, captures, m.other(ip, bytes, s).value.0) && m.other(ip, bytes, s).value.0 <= |code|
  }

  /** From a state that is not at an unconditional jump, original and threaded code reach states that
      settle alike, at boundaries. */
  lemma StepAlike<S(!new)>(m: Machine<S>, captures: seq<nat>, was: seq<Byte>, code: seq<Byte>, c: Conf<S>)
    requires IsThreaded(captures, was, code) && JumpsLand(was, captures) && StaysOnBoundaries(m, was, captures)
    requires AtBoundary(was, captures, c) && (c.At? && c.ip < |was| ==> was[c.ip] != JUMP)
    ensures var x, y := Step(m, was, captures, c), Step(m, code, captures, c);
      AtBoundary(was, captures, x) && AtBoundary(was, captures, y) && Settled(was, x) == Settled(code, y)
  {
    hide InstrLen, IsThreaded, IsStart, JumpsLand, ReadU32, Final;
    if c.At? && c.ip < |was| {
      if Threads(was[c.ip]) {
        JumpAlike(m, captures, was, code, c);
      } else {
        OtherAlike(m, captures, was, code, c);
      }
    } else {
      Lengths(captures, was, code);
      if c.At? {
        ChainsEndWhereTheyDid(captures, was, code, c.ip);
      }
    }
  }

  lemma Lengths(captures: seq<nat>, was: seq<Byte>, code: seq<Byte>)
    requires IsThreaded(captures, was, code)
    ensures |code| == |was|
  {
  }

  lemma JumpAlike<S(!new)>(m: Machine<S>, captures: seq<nat>, was: seq<Byte>, code: seq<Byte>, c: Conf<S>)
    requires IsThreaded(captures, was, code) && JumpsLand(was, captures)
    requires AtBoundary(was, captures, c) && c.At? && c.ip < |was| && Threads(was[c.ip]) && was[c.ip] != JUMP
    ensures var x, y := Step(m, was, captures, c), Step(m, code, captures, c);
      AtBoundary(was, captures, x) && AtBoundary(was, captures, y) && Settled(was, x) == Settled(code, y)
  {
    hide IsThreaded, IsStart, ReadU32, Final, OperandBytes;
    var ip := c.ip;
    CompleteWas(captures, was, code, ip);
    ThreadedHead(captures, was, code, ip);
    NewTarget(captures, was, code, ip);
    var t, f := Target(was, ip), Target(code, ip);
    assert IsStart(was, captures, t) && t <= |was|;
    FinalLands(was, captures, t);
    NotAJump(captures, was, code, f);
    FallsThrough(captures, was, ip);
    ChainsEndWhereTheyDid(captures, was, code, ip + 5);
  }

  lemma FallsThrough(captures: seq<nat>, was: seq<Byte>, ip: nat)
    requires JumpsLand(was, captures) && IsStart(was, captures, ip) && ip < |was| && Threads(was[ip])
    ensures IsStart(was, captures, ip + 5) && ip + 5 <= |was|
  {
    CompleteAt(was, captures, 0, ip);
    StartsNext(was, captures, 0, ip);
  }

  lemma OtherAlike<S(!new)>(m: Machine<S>, captures: seq<nat>, was: seq<Byte>, code: seq<Byte>, c: Conf<S>)
    requires IsThreaded(captures, was, code) && JumpsLand(was, captures) && StaysOnBoundaries(m, was, captures)
    requires AtBoundary(was, captures, c) && c.At? && c.ip < |was| && !Threads(was[c.ip])
    ensures var x, y := Step(m, was, captures, c), Step(m, code, captures, c);
      AtBoundary(was, captures, x) && AtBoundary(was, captures, y) && Settled(was, x) == Settled(code, y)
  {
    hide InstrLen, IsThreaded, IsStart, JumpsLand, ReadU32, Final;
    Lengths(captures, was, code);
    ThreadedHead(captures, was, code, c.ip);
    var len := InstrLen(was, captures, c.ip);
    if c.ip + len <= |was| {
      var next := m.other(c.ip, was[c.ip..c.ip + len], c.s);
      if next.Some? {
        ChainsEndWhereTheyDid(captures, was, code, next.value.0);
      }
    }
  }

  /** Threaded code executes the same instructions, unconditional jumps aside, in the same order and
      with the same states, for as long as the program runs. */
  lemma {:induction false} ThreadingPreservesExecution<S(!new)>(m: Machine<S>, captures: seq<nat>, was: seq<Byte>,
        code: seq<Byte>, x: Conf<S>, y: Conf<S>, n: nat)
    requires IsThreaded(captures, was, code) && JumpsLand(was, captures) && StaysOnBoundaries(m, was, captures)
    requires AtBoundary(was, captures, x) && AtBoundary(was, captures, y) && Settled(was, x) == Settled(code, y)
    ensures Visit(m, was, captures, x, n) == Visit(m, code, captures, y, n)
    decreases n
  {
    if n > 0 {
      var c := Settled(was, x);
      if x.At? {
        FinalLands(was, captures, x.ip);
      }
      StepAlike(m, captures, was, code, c);
      ThreadingPreservesExecution(m, captures, was, code, Step(m, was, captures, c), Step(m, code, captures, c), n - 1);
    }
  }

  /** Settling is running: each hop is one step of the machine. */
  lemma {:induction false} SettlingIsRunning<S(!new)>(m: Machine<S>, code: seq<Byte>, captures: seq<nat>, c: Conf<S>)
    returns (k: nat)
    ensures Steps(m, code, captures, c, k) == Settled(code, c)
    decreases if c.At? && c.ip <= |code| then |code| - c.ip else 0
  {
    if c.At? && c.ip + 5 <= |code| && code[c.ip] == JUMP {
      k := SettlingIsRunning(m, code, captures, At(Target(code, c.ip), c.s));
      k := k + 1;
    } else {
      k := 0;
    }
  }

  /** So the visited states are states of the run. */
  lemma {:induction false} VisitsAreSteps<S(!new)>(m: Machine<S>, code: seq<Byte>, captures: seq<nat>, c: Conf<S>,
        n: nat)
    returns (k: nat)
    ensures Steps(m, code, captures, c, k) == Visit(m, code, captures, c, n)
    decreases n
  {
    k := SettlingIsRunning(m, code, captures, c);
    if n > 0 {
      var d := Settled(code, c);
      var j := VisitsAreSteps(m, code, captures, Step(m, code, captures, d), n - 1);
      StepsAdd(m, code, captures, c, k, 1 + j);
      k := k + 1 + j;
    }
  }

  lemma {:induction false} StepsAdd<S(!new)>(m: Machine<S>, code: seq<Byte>, captures: seq<nat>, c: Conf<S>, n: nat,
        k: nat)
    ensures Steps(m, code, captures, c, n + k) == Steps(m, code, captures, Steps(m, code, captures, c, n), k)
    decreases n
  {
    if n > 0 {
      StepsAdd(m, code, captures, Step(m, code, captures, c), n - 1, k);
    }
  }

  /** And every state of the run settles to a visited one. */
  lemma {:induction false} StepsAreVisits<S(!new)>(m: Machine<S>, code: seq<Byte>, captures: seq<nat>, c: Conf<S>,
        k: nat)
    returns (n: nat)
    ensures n <= k && (Settled(code, Steps(m, code, captures, c, k)) == Visit(m, code, captures, c, n))
    decreases k
  {
    if k == 0 {
      n := 0;
    } else {
      var d := Step(m, code, captures, c);
      n := StepsAreVisits(m, code, captures, d, k - 1);
      if !(c.At? && c.ip + 5 <= |code| && code[c.ip] == JUMP) {
        assert Settled(code, c) == c;
        n := n + 1;
      }
    }
  }
}
