/** The stack machine, on the opcodes the modelled fragment emits (src/vm/opcode.rs; the dispatch
    loop of src/vm/vm.rs). Operands are kept beside the opcode and distances count instructions. */
module Machine {
  import opened Ast
  import opened Meaning

  datatype Instr =
    | LoadConst(v: Value) | PushNull | LoadLocal(slot: nat) | StoreLocal(slot: nat) | LoadGlobal(index: nat)
    | Pop | Dup | Dup2
    | BinI(op: BinOp) | AddAssign | UnI(uop: UnOp)
    | Jump(dist: int) | Loop(dist: int) | JumpIfFalse(dist: int) | JumpIfTrue(dist: int)
    | Hole(loopId: nat)          // a `break`'s jump whose distance is not patched yet
    | CloseScope(n: nat) | Unwind(n: nat)
    | MakeArray | IterAppend(slot: nat)
    | MakeIter | IterNext(dist: int) | IterNext2(dist: int)
    | IndexGet | IndexSet
    | PushTry(dist: int) | PopTry | RaiseI | ReturnI

  /** An emitted instruction with what the compiler's tracker says just before it, the stack height and
      the heights recorded by the try-frames open at this point; and with the height the stack really
      has there, to be proved, which is the tracker's unless said otherwise. */
  datatype Cell = Cell(op: Instr, h: nat, tries: seq<nat>, live: nat := h)

  type Code = seq<Cell>

  datatype TryFrame = TryFrame(catchPc: int, len: nat)

  datatype State = State(pc: int, stack: seq<Value>, tries: seq<TryFrame>, heap: Heap)

  datatype Config =
    | Run(s: State)
    | Raising(exn: Value, s: State)
    | Done(v: Value, heap: Heap)
    | Fail(exn: Value, heap: Heap)
    | Stuck                      // underflow, a bad slot, a bad pc

  predicate Halted(c: Config) {
    c.Done? || c.Fail? || c.Stuck?
  }

  function Goto(c: State, pc: int): Config {
    Run(c.(pc := pc))
  }

  /** Fall through to the next instruction with this stack. */
  function Push(c: State, stack: seq<Value>): Config {
    Run(c.(pc := c.pc + 1, stack := stack))
  }

  function PushRes(c: State, below: seq<Value>, r: Res): Config {
    match r
    case Ok(v, h) => Run(State(c.pc + 1, below + [v], c.tries, h))
    case Err(x, h) => Raising(x, State(c.pc, below, c.tries, h))
  }

  function Exec(ops: Ops, g: Globals, i: Instr, c: State): Config {
    var s := c.stack;
    var n := |s|;
    match i
    case LoadConst(v) => Push(c, s + [v])
    case PushNull => Push(c, s + [Null])
    case LoadLocal(k) => if k < n then Push(c, s + [s[k]]) else Stuck
    case StoreLocal(k) => if k < n then Push(c, s[k := s[n - 1]]) else Stuck
    case LoadGlobal(k) => Push(c, s + [GlobalValue(g, k)])
    case Pop => if n >= 1 then Push(c, s[..n - 1]) else Stuck
    case Dup => if n >= 1 then Push(c, s + [s[n - 1]]) else Stuck
    case Dup2 => if n >= 2 then Push(c, s + [s[n - 2], s[n - 1]]) else Stuck
    case BinI(op) => if n >= 2 then PushRes(c, s[..n - 2], ops.bin(op, s[n - 2], s[n - 1], c.heap)) else Stuck
    case AddAssign => if n >= 2 then PushRes(c, s[..n - 2], ops.addAssign(s[n - 2], s[n - 1], c.heap)) else Stuck
    case UnI(op) => if n >= 1 then PushRes(c, s[..n - 1], ops.un(op, s[n - 1], c.heap)) else Stuck
    case Jump(d) => Goto(c, c.pc + 1 + d)
    case Loop(d) => Goto(c, c.pc + 1 - d)
    case JumpIfFalse(d) => if n >= 1 then Goto(c, c.pc + 1 + if Truthy(s[n - 1]) then 0 else d) else Stuck
    case JumpIfTrue(d) => if n >= 1 then Goto(c, c.pc + 1 + if Truthy(s[n - 1]) then d else 0) else Stuck
    case Hole(_) => Stuck
    case CloseScope(k) => if n >= k + 1 then Push(c, s[..n - 1 - k] + [s[n - 1]]) else Stuck
    case Unwind(k) => Push(c, if k <= n then s[..k] else s)
    case MakeArray => var (a, h) := ops.newArray(c.heap); Run(State(c.pc + 1, s + [a], c.tries, h))
    case IterAppend(k) =>
      if n >= 1 && k < n - 1 then Run(State(c.pc + 1, s[..n - 1], c.tries, ops.append(s[k], s[n - 1], c.heap)))
        else Stuck
    case MakeIter => if n >= 1 then PushRes(c, s[..n - 1], ops.makeIter(s[n - 1], c.heap)) else Stuck
    case IterNext(d) => if n >= 1 then Advance(c, d, false, ops.pull(s[n - 1], c.heap)) else Stuck
    case IterNext2(d) => if n >= 1 then Advance(c, d, true, ops.pull(s[n - 1], c.heap)) else Stuck
    case IndexGet => if n >= 2 then PushRes(c, s[..n - 2], ops.indexGet(s[n - 2], s[n - 1], c.heap)) else Stuck
    case IndexSet =>
      if n >= 3 then PushRes(c, s[..n - 3], ops.indexSet(s[n - 3], s[n - 2], s[n - 1], c.heap)) else Stuck
    case PushTry(d) => Run(State(c.pc + 1, s, c.tries + [TryFrame(c.pc + 1 + d, n)], c.heap))
    case PopTry => if |c.tries| > 0 then Run(State(c.pc + 1, s, c.tries[..|c.tries| - 1], c.heap)) else Stuck
    case RaiseI => if n >= 1 then Raising(s[n - 1], c.(stack := s[..n - 1])) else Stuck
    case ReturnI => if n >= 1 then Done(s[n - 1], c.heap) else Stuck
  }

  function Advance(c: State, d: int, both: bool, p: Pull): Config {
    match p
    case Exhausted => Goto(c, c.pc + 1 + d)
    case Next(k, v, h) => Run(State(c.pc + 1, c.stack + if both then [k, v] else [v], c.tries, h))
    case Failed(x, h) => Raising(x, c.(heap := h))
  }

  /** A raise goes to the newest try-frame: the stack is cut to the recorded length and the error
      pushed. Without a frame the program fails. */
  function Catch(x: Value, c: State): Config {
    var t := |c.tries|;
    if t == 0 then Fail(x, c.heap)
    else
      var f := c.tries[t - 1];
      var cut := if f.len <= |c.stack| then c.stack[..f.len] else c.stack;
      Run(State(f.catchPc, cut + [x], c.tries[..t - 1], c.heap))
  }

  function Step(ops: Ops, g: Globals, p: Code, c: Config): Config {
    match c
    case Run(s) => if 0 <= s.pc < |p| then Exec(ops, g, p[s.pc].op, s) else Stuck
    case Raising(x, s) => Catch(x, s)
    case _ => c
  }

  function Steps(ops: Ops, g: Globals, p: Code, c: Config, n: nat): Config
    decreases n
  {
    if n == 0 then c else Steps(ops, g, p, Step(ops, g, p, c), n - 1)
  }

  lemma {:induction false} StepsAdd(ops: Ops, g: Globals, p: Code, c: Config, n: nat, m: nat)
    ensures Steps(ops, g, p, c, n + m) == Steps(ops, g, p, Steps(ops, g, p, c, n), m)
    decreases n
  {
    if n > 0 {
      StepsAdd(ops, g, p, Step(ops, g, p, c), n - 1, m);
    }
  }

  lemma {:induction false} HaltedStays(ops: Ops, g: Globals, p: Code, c: Config, n: nat)
    requires Halted(c)
    ensures Steps(ops, g, p, c, n) == c
    decreases n
  {
    if n > 0 {
      HaltedStays(ops, g, p, c, n - 1);
    }
  }
}
