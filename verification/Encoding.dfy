/** Instructions as the compiler writes them (src/vm/opcode.rs, src/vm/chunk.rs:91-131), byte by byte, and how
    their boundaries are found again in the bytes. */
module Encoding {
  import opened Threading

  type Word16 = n: nat | n < 0x1_0000
  type Word32 = n: nat | n < 0x1_0000_0000

  /** Instructions without operands. */
  datatype Bare =
    | Pop | PushNull | Dup | Add | Sub | Mul | Div | Mod | Pow | Negate | Return | Eq | Neq | Lt | Le | Gt | Ge | Not
      | IndexGet | IndexSet | Len | Dup2 | MakeIter | ArrayPush | ArrayExtend | ObjectMerge | CallSpread | SliceFrom
      | ObjRest | Import | PopTry | Raise | Halt | BitAnd | BitOr | BitXor | BitNot | Shl | Shr | AddAssign
      | NoMatchError | Spawn | Go | Yield | Resume

  datatype Upvalue = Upvalue(isLocal: bool, index: Byte)

  /** An instruction with its operands: a byte, an index into a pool, or a distance. */
  datatype Instruction =
    | Simple(bare: Bare)
    | LoadConst(index: Word16)
    | LoadLocal(slot: Byte) | StoreLocal(slot: Byte) | CloseScope(n: Byte) | MakeArray(n: Byte) | MakeObject(n: Byte)
    | Call(n: Byte) | GetUpvalue(upvalue: Byte) | SetUpvalue(upvalue: Byte) | LoadGlobal(global: Byte)
    | MakeRange(flags: Byte) | IterAppend(slot: Byte) | Unwind(n: Byte) | ConcatN(n: Byte) | TypeTest(tag: Byte)
    | TailCall(n: Byte)
    | Jump(dist: Word32) | Loop(dist: Word32) | JumpIfFalse(dist: Word32) | JumpIfTrue(dist: Word32)
    | IterNext(dist: Word32) | IterNext2(dist: Word32) | PushTry(dist: Word32) | JumpIfNotNull(dist: Word32)
    | Closure(index: Word16, upvalues: seq<Upvalue>)

  /** The opcodes of `Bare`. */
  predicate IsBare(n: Byte) {
    3 <= n <= 20 || 28 <= n <= 30 || n == 32 || n == 38 || 43 <= n <= 46 || 48 <= n <= 50 || 52 <= n <= 60 || n == 63
      || 65 <= n <= 69
  }

  function BareByte(b: Bare): (n: Byte)
    ensures IsBare(n)
  {
    match b
    case Pop => 3
    case PushNull => 4
    case Dup => 5
    case Add => 6
    case Sub => 7
    case Mul => 8
    case Div => 9
    case Mod => 10
    case Pow => 11
    case Negate => 12
    case Return => 13
    case Eq => 14
    case Neq => 15
    case Lt => 16
    case Le => 17
    case Gt => 18
    case Ge => 19
    case Not => 20
    case IndexGet => 28
    case IndexSet => 29
    case Len => 30
    case Dup2 => 32
    case MakeIter => 38
    case ArrayPush => 43
    case ArrayExtend => 44
    case ObjectMerge => 45
    case CallSpread => 46
    case SliceFrom => 48
    case ObjRest => 49
    case Import => 50
    case PopTry => 52
    case Raise => 53
    case Halt => 54
    case BitAnd => 55
    case BitOr => 56
    case BitXor => 57
    case BitNot => 58
    case Shl => 59
    case Shr => 60
    case AddAssign => 63
    case NoMatchError => 65
    case Spawn => 66
    case Go => 67
    case Yield => 68
    case Resume => 69
  }

  /** `write_u16` and `write_u32`: big-endian. */
  function Bytes16(n: Word16): seq<Byte> {
    [n / 0x100, n % 0x100]
  }

  function Bytes32(n: Word32): seq<Byte> {
    [n / 0x100_0000, n / 0x1_0000 % 0x100, n / 0x100 % 0x100, n % 0x100]
  }

  function UpvalueBytes(us: seq<Upvalue>): (r: seq<Byte>)
    ensures |r| == 2 * |us|
  {
    if us == [] then [] else [if us[0].isLocal then 1 else 0, us[0].index] + UpvalueBytes(us[1..])
  }

  /** What the compiler writes for an instruction. */
  function Encode(i: Instruction): seq<Byte> {
    match i
    case Simple(b) => [BareByte(b)]
    case LoadConst(index) => [0] + Bytes16(index)
    case LoadLocal(slot) => [1, slot]
    case StoreLocal(slot) => [2, slot]
    case Jump(d) => [21] + Bytes32(d)
    case Loop(d) => [22] + Bytes32(d)
    case JumpIfFalse(d) => [23] + Bytes32(d)
    case JumpIfTrue(d) => [24] + Bytes32(d)
    case CloseScope(n) => [25, n]
    case MakeArray(n) => [26, n]
    case MakeObject(n) => [27, n]
    case Call(n) => [31, n]
    case Closure(index, us) => [33] + Bytes16(index) + UpvalueBytes(us)
    case GetUpvalue(u) => [34, u]
    case SetUpvalue(u) => [35, u]
    case LoadGlobal(g) => [36, g]
    case MakeRange(flags) => [37, flags]
    case IterNext(d) => [39] + Bytes32(d)
    case IterNext2(d) => [40] + Bytes32(d)
    case IterAppend(slot) => [41, slot]
    case Unwind(n) => [42, n]
    case ConcatN(n) => [47, n]
    case PushTry(d) => [51] + Bytes32(d)
    case TypeTest(tag) => [61, tag]
    case JumpIfNotNull(d) => [62] + Bytes32(d)
    case TailCall(n) => [64, n]
  }

  /** Instructions one after the other. */
  function Assemble(list: seq<Instruction>): seq<Byte> {
    if list == [] then [] else Encode(list[0]) + Assemble(list[1..])
  }

  /** A `Closure` captures as many upvalues as its template says. */
  predicate Fits(i: Instruction, captures: seq<nat>) {
    i.Closure? ==> i.index < |captures| && captures[i.index] == |i.upvalues|
  }

  predicate AllFit(list: seq<Instruction>, captures: seq<nat>) {
    forall k :: 0 <= k < |list| ==> Fits(list[k], captures)
  }

  // ----- the boundaries are found again -----

  /** The forward jumps that threading may retarget. */
  predicate IsForwardJump(i: Instruction) {
    i.Jump? || i.JumpIfFalse? || i.JumpIfTrue? || i.JumpIfNotNull?
  }

  lemma BareOperand(n: Byte)
    requires IsBare(n)
    ensures OperandBytes(n) == 0 && n <= LAST_OP && n != CLOSURE && !Threads(n)
  {
  }

  lemma OperandOf(i: Instruction, captures: seq<nat>)
    requires Fits(i, captures)
    ensures |Encode(i)| == if i.Closure? then 3 + 2 * |i.upvalues| else 1 + OperandBytes(Encode(i)[0])
    ensures Encode(i)[0] <= LAST_OP && (i.Closure? <==> Encode(i)[0] == CLOSURE)
  {
    hide BareByte, IsBare;
    if i.Simple? {
      BareOperand(BareByte(i.bare));
    }
  }

  lemma JumpOf(i: Instruction)
    ensures Encode(i) != [] && (Threads(Encode(i)[0]) <==> IsForwardJump(i)) && (i.Jump? <==> Encode(i)[0] == JUMP)
    ensures IsForwardJump(i) ==> |Encode(i)| == 5 && Encode(i)[1..] == Bytes32(i.dist)
  {
    hide BareByte, IsBare;
    if i.Simple? {
      BareOperand(BareByte(i.bare));
    }
  }

  lemma ReadsBack16(code: seq<Byte>, at: nat, n: Word16)
    requires at + 2 <= |code| && code[at..at + 2] == Bytes16(n)
    ensures ReadU16(code, at) == n
  {
    assert code[at] == code[at..at + 2][0] && code[at + 1] == code[at..at + 2][1];
  }

  lemma ReadsBack32(code: seq<Byte>, at: nat, n: Word32)
    requires at + 4 <= |code| && code[at..at + 4] == Bytes32(n)
    ensures ReadU32(code, at) == n
  {
    var s := code[at..at + 4];
    assert code[at] == s[0] && code[at + 1] == s[1] && code[at + 2] == s[2] && code[at + 3] == s[3];
    var a, b, c := n / 0x100, n / 0x1_0000, n / 0x100_0000;
    assert n == a * 0x100 + n % 0x100 && a == b * 0x100 + a % 0x100 && b == c * 0x100 + b % 0x100;
  }

  /** In code that holds an instruction, its length is read off its bytes, it is threaded exactly if it is a forward
      jump, and then its distance is read back. */
  lemma InstructionIsRead(i: Instruction, captures: seq<nat>, code: seq<Byte>, at: nat)
    requires Fits(i, captures) && at + |Encode(i)| <= |code| && code[at..at + |Encode(i)|] == Encode(i)
    ensures at < |code| && InstrLen(code, captures, at) == |Encode(i)| && (Threads(code[at]) <==> IsForwardJump(i))
    ensures IsForwardJump(i) ==> at + 5 <= |code| && ReadU32(code, at + 1) == i.dist
  {
    hide Encode, OperandBytes, Threads, ReadU32, ReadU16, Bytes16, Bytes32;
    OperandOf(i, captures);
    JumpOf(i);
    var e := code[at..at + |Encode(i)|];
    assert code[at] == e[0];
    if i.Closure? {
      ClosureBytes(i);
      SliceOfSlice(code, at, |e|, 1, 3);
      ReadsBack16(code, at + 1, i.index);
    } else if IsForwardJump(i) {
      SliceOfSlice(code, at, 5, 1, 5);
      ReadsBack32(code, at + 1, i.dist);
    }
  }

  lemma SliceOfSlice(code: seq<Byte>, at: nat, n: nat, a: nat, b: nat)
    requires at + n <= |code| && a <= b <= n
    ensures code[at..at + n][a..b] == code[at + a..at + b]
  {
    var s, t := code[at..at + n], code[at + a..at + b];
    forall k | 0 <= k < b - a ensures s[a..b][k] == t[k] {
      assert s[a..b][k] == s[a + k] == code[at + (a + k)];
      assert t[k] == code[at + a + k];
    }
    assert |s[a..b]| == |t|;
  }

  lemma ClosureBytes(i: Instruction)
    requires i.Closure?
    ensures |Encode(i)| >= 3 && Encode(i)[1..3] == Bytes16(i.index)
  {
  }

  lemma {:induction false} AssembleJoins(a: seq<Instruction>, b: seq<Instruction>)
    ensures Assemble(a + b) == Assemble(a) + Assemble(b)
    decreases |a|
  {
    hide Encode;
    if a == [] {
      assert a + b == b;
    } else {
      assert (a + b)[1..] == a[1..] + b;
      AssembleJoins(a[1..], b);
    }
  }

  /** The walk over the bytes meets exactly the instructions: from where the first `k` end, the boundaries are where
      any more of them end. */
  lemma {:induction false} BoundariesFrom(list: seq<Instruction>, captures: seq<nat>, k: nat, at: nat)
    requires AllFit(list, captures) && k <= |list| && at <= |Assemble(list)|
    ensures var from := |Assemble(list[..k])|; var code := Assemble(list);
      && from <= |code| && Complete(code, captures, from)
      && (Starts(code, captures, from, at) <==> exists n :: k <= n <= |list| && at == |Assemble(list[..n])|)
    decreases |list| - k
  {
    hide Encode, InstrLen, Threads;
    var code := Assemble(list);
    var from := |Assemble(list[..k])|;
    Positioned(list, k);
    if k == |list| {
      assert list[..k] == list;
    } else {
      InstructionIsRead(list[k], captures, code, from);
      JumpOf(list[k]);
      BoundariesFrom(list, captures, k + 1, at);
      Later(list, k);
    }
  }

  lemma Positioned(list: seq<Instruction>, k: nat)
    requires k <= |list|
    ensures var from := |Assemble(list[..k])|; var code := Assemble(list);
      && from <= |code|
      && (k < |list| ==>
            && |Assemble(list[..k + 1])| == from + |Encode(list[k])| <= |code|
            && code[from..from + |Encode(list[k])|] == Encode(list[k]))
  {
    hide Encode;
    assert list == list[..k] + list[k..];
    AssembleJoins(list[..k], list[k..]);
    if k < |list| {
      assert list[..k + 1] == list[..k] + [list[k]];
      AssembleJoins(list[..k], [list[k]]);
      assert Assemble([list[k]]) == Encode(list[k]) by {
        assert [list[k]][1..] == [];
      }
      assert Assemble(list[k..]) == Encode(list[k]) + Assemble(list[k..][1..]);
    }
  }

  /** All later ends lie further on. */
  lemma {:induction false} Later(list: seq<Instruction>, k: nat)
    requires k < |list|
    ensures forall n :: k < n <= |list| ==> |Assemble(list[..n])| > |Assemble(list[..k])|
    decreases |list| - k
  {
    hide Encode;
    Positioned(list, k);
    JumpOf(list[k]);
    if k + 1 < |list| {
      Later(list, k + 1);
    }
  }

  /** In assembled code every instruction ends inside it, and the boundaries are the ends of its instructions. */
  lemma BoundariesAreInstructions(list: seq<Instruction>, captures: seq<nat>, at: nat)
    requires AllFit(list, captures) && at <= |Assemble(list)|
    ensures Complete(Assemble(list), captures, 0)
    ensures IsStart(Assemble(list), captures, at) <==> exists n :: 0 <= n <= |list| && at == |Assemble(list[..n])|
  {
    hide Encode, InstrLen;
    assert list[..0] == [];
    BoundariesFrom(list, captures, 0, at);
  }
}
