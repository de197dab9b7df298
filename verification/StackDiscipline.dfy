/** Stack discipline: along every run of a compiled program the stack is exactly as high as predicted for each
    instruction (its `live`), the open try-frames are the ones the compiler recorded, and all paths into an
    instruction agree (src/vm/compiler.rs:628-700, 787-870, 906-1074). What the compiler's own tracker said is
    compared with that in `Tracker`. */
module StackDiscipline {
  import opened Ast
  import opened Wrappers
  import opened Meaning
  import opened Machine
  import opened Lowering
  import opened SimulationBase
  import opened Correctness

  /** How many values an instruction pops and pushes when it falls through, and whether it can raise. */
  datatype Effect = Effect(pops: nat, pushes: nat, raises: bool)

  function EffectOf(op: Instr): Effect {
    match op
    case Pop => Effect(1, 0, false)
    case StoreLocal(_) => Effect(1, 1, false)
    case Dup => Effect(1, 2, false)
    case Dup2 => Effect(2, 4, false)
    case BinI(_) => Effect(2, 1, true)
    case AddAssign => Effect(2, 1, true)
    case UnI(_) => Effect(1, 1, true)
    case CloseScope(n) => Effect(n + 1, 1, false)
    case IterAppend(_) => Effect(1, 0, false)
    case MakeIter => Effect(1, 1, true)
    case IndexGet => Effect(2, 1, true)
    case IndexSet => Effect(3, 1, true)
    case _ => Effect(0, 1, false)
  }

  /** Falls through to the next instruction, whatever the operands are. */
  predicate Plain(op: Instr) {
    match op
    case Jump(_) => false
    case Loop(_) => false
    case JumpIfFalse(_) => false
    case JumpIfTrue(_) => false
    case IterNext(_) => false
    case IterNext2(_) => false
    case Unwind(_) => false
    case PushTry(_) => false
    case PopTry => false
    case RaiseI => false
    case ReturnI => false
    case Hole(_) => false
    case _ => true
  }

  /** A slot operand names a live slot. */
  predicate SlotOk(op: Instr, h: nat) {
    match op
    case LoadLocal(k) => k < h
    case StoreLocal(k) => k < h
    case IterAppend(k) => k + 1 < h
    case _ => true
  }

  /** The innermost open try-frame was opened at height `n` or below. */
  predicate Below(tries: seq<nat>, n: nat) {
    tries == [] || tries[|tries| - 1] <= n
  }

  /** The stack has this height, with these try-frames open, before the instruction at `at`. */
  ghost predicate SigIs(p: Code, at: int, h: nat, tries: seq<nat>) {
    0 <= at < |p| && p[at].live == h && p[at].tries == tries
  }

  /** The instruction at `i` does not underflow, and everywhere it may go next the stack is to have the
      height it leaves. */
  ghost predicate FlowOk(p: Code, i: int) {
    0 <= i < |p| &&
    var h, t := p[i].live, p[i].tries;
    match p[i].op
    case Jump(d) => SigIs(p, i + 1 + d, h, t)
    case Loop(d) => SigIs(p, i + 1 - d, h, t)
    case JumpIfFalse(d) => h >= 1 && SigIs(p, i + 1, h, t) && SigIs(p, i + 1 + d, h, t)
    case JumpIfTrue(d) => h >= 1 && SigIs(p, i + 1, h, t) && SigIs(p, i + 1 + d, h, t)
    case IterNext(d) => h >= 1 && Below(t, h) && SigIs(p, i + 1, h + 1, t) && SigIs(p, i + 1 + d, h, t)
    case IterNext2(d) => h >= 1 && Below(t, h) && SigIs(p, i + 1, h + 2, t) && SigIs(p, i + 1 + d, h, t)
    case Unwind(k) => k <= h && SigIs(p, i + 1, k, t)
    case PushTry(d) => SigIs(p, i + 1, h, t + [h]) && SigIs(p, i + 1 + d, h + 1, t)
    case PopTry => t != [] && SigIs(p, i + 1, h, t[..|t| - 1])
    case RaiseI => h >= 1 && Below(t, h - 1)
    case ReturnI => h >= 1
    case Hole(_) => false
    case op =>
      var f := EffectOf(op);
      SlotOk(op, h) && f.pops <= h && (f.raises ==> Below(t, h - f.pops)) && SigIs(p, i + 1, h - f.pops + f.pushes, t)
  }

  ghost predicate Flows(p: Code, a: int, b: int) {
    forall i :: a <= i < b ==> FlowOk(p, i)
  }

  // ----- runs keep the discipline -----

  /** The frames are the recorded ones, and each leads to a handler compiled for its height. */
  ghost predicate FramesOk(p: Code, frames: seq<TryFrame>, tries: seq<nat>) {
    && |frames| == |tries|
    && forall k :: 0 <= k < |frames| ==>
      frames[k].len == tries[k] && SigIs(p, frames[k].catchPc, tries[k] + 1, tries[..k])
  }

  ghost predicate Disciplined(p: Code, c: Config) {
    match c
    case Run(s) => 0 <= s.pc < |p| && |s.stack| == p[s.pc].live && FramesOk(p, s.tries, p[s.pc].tries)
    case Raising(_, s) => 0 <= s.pc < |p| && FramesOk(p, s.tries, p[s.pc].tries) && Below(p[s.pc].tries, |s.stack|)
    case Done(_, _) => true
    case Fail(_, _) => true
    case Stuck => false
  }

  lemma PlainKeeps(w: World, s: State)
    requires Disciplined(w.p, Run(s)) && FlowOk(w.p, s.pc) && Plain(w.p[s.pc].op)
    ensures Disciplined(w.p, Exec(w.ops, w.g, w.p[s.pc].op, s))
  {
  }

  lemma ControlKeeps(w: World, s: State)
    requires Disciplined(w.p, Run(s)) && FlowOk(w.p, s.pc)
    requires !Plain(w.p[s.pc].op) && !w.p[s.pc].op.PushTry? && !w.p[s.pc].op.PopTry?
    ensures Disciplined(w.p, Exec(w.ops, w.g, w.p[s.pc].op, s))
  {
  }

  lemma TryKeeps(w: World, s: State)
    requires Disciplined(w.p, Run(s)) && FlowOk(w.p, s.pc)
    requires w.p[s.pc].op.PushTry? || w.p[s.pc].op.PopTry?
    ensures Disciplined(w.p, Exec(w.ops, w.g, w.p[s.pc].op, s))
  {
    if w.p[s.pc].op.PushTry? {
      PushTryKeeps(w, s);
    } else {
      PopTryKeeps(w, s);
    }
  }

  lemma PushTryKeeps(w: World, s: State)
    requires Disciplined(w.p, Run(s)) && FlowOk(w.p, s.pc) && w.p[s.pc].op.PushTry?
    ensures Disciplined(w.p, Exec(w.ops, w.g, w.p[s.pc].op, s))
  {
    hide EffectOf;
    var t := w.p[s.pc].tries;
    var frames := s.tries + [TryFrame(s.pc + 1 + w.p[s.pc].op.dist, |s.stack|)];
    forall k | 0 <= k < |frames| ensures (t + [|s.stack|])[..k] == t[..k] {}
  }

  lemma PopTryKeeps(w: World, s: State)
    requires Disciplined(w.p, Run(s)) && FlowOk(w.p, s.pc) && w.p[s.pc].op.PopTry?
    ensures Disciplined(w.p, Exec(w.ops, w.g, w.p[s.pc].op, s))
  {
    hide EffectOf;
    var t := w.p[s.pc].tries;
    var n := |t| - 1;
    forall k | 0 <= k < n ensures t[..n][..k] == t[..k] {}
  }

  lemma CatchKeeps(p: Code, x: Value, s: State)
    requires Disciplined(p, Raising(x, s))
    ensures Disciplined(p, Machine.Catch(x, s))
  {
    var n := |s.tries| - 1;
    if n >= 0 {
      var t := p[s.pc].tries;
      forall k | 0 <= k < n ensures t[..n][..k] == t[..k] {}
    }
  }

  lemma StepKeeps(w: World, c: Config)
    requires Flows(w.p, 0, |w.p|) && Disciplined(w.p, c)
    ensures Disciplined(w.p, Step(w.ops, w.g, w.p, c))
  {
    hide Exec, FlowOk, Plain;
    match c
    case Run(s) =>
      if Plain(w.p[s.pc].op) {
        PlainKeeps(w, s);
      } else if w.p[s.pc].op.PushTry? || w.p[s.pc].op.PopTry? {
        TryKeeps(w, s);
      } else {
        ControlKeeps(w, s);
      }
    case Raising(x, s) => CatchKeeps(w.p, x, s);
    case _ =>
  }

  lemma {:induction false} StepsKeep(w: World, c: Config, n: nat)
    requires Flows(w.p, 0, |w.p|) && Disciplined(w.p, c)
    ensures Disciplined(w.p, Ran(w, c, n))
    decreases n
  {
    hide Step, Disciplined, Flows;
    if n > 0 {
      StepKeeps(w, c);
      StepsKeep(w, Step(w.ops, w.g, w.p, c), n - 1);
    }
  }

  // ----- code and its tracked heights in place -----

  /** `code` stands at `at`, patched for `exits`, with the heights recorded for it. */
  ghost predicate Stands(p: Code, at: int, code: Code, exits: map<nat, int>) {
    && 0 <= at && at + |code| <= |p|
    && forall i {:trigger code[i]} :: 0 <= i < |code| ==>
      && p[at + i].op == Placement(code[i], at + i, exits)
      && p[at + i].live == code[i].live && p[at + i].tries == code[i].tries
  }

  lemma Parts(p: Code, at: int, a: Code, b: Code, exits: map<nat, int>)
    requires Stands(p, at, a + b, exits)
    ensures Stands(p, at, a, exits) && Stands(p, at + |a|, b, exits)
  {
    forall i | 0 <= i < |a|
      ensures p[at + i].op == Placement(a[i], at + i, exits) && p[at + i].live == a[i].live
      ensures p[at + i].tries == a[i].tries
    {
      assert (a + b)[i] == a[i];
    }
    forall i | 0 <= i < |b|
      ensures p[at + |a| + i].op == Placement(b[i], at + |a| + i, exits)
      ensures p[at + |a| + i].live == b[i].live && p[at + |a| + i].tries == b[i].tries
    {
      assert (a + b)[|a| + i] == b[i];
      assert p[at + (|a| + i)].op == Placement((a + b)[|a| + i], at + (|a| + i), exits);
    }
  }

  lemma Unpatched(p: Code, at: int, code: Code, id: nat, exit: int, exits: map<nat, int>)
    requires Stands(p, at, Patch(code, at, id, exit), exits)
    ensures Stands(p, at, code, exits[id := exit])
  {
    var patched := Patch(code, at, id, exit);
    forall i | 0 <= i < |code|
      ensures p[at + i].op == Placement(code[i], at + i, exits[id := exit])
      ensures p[at + i].live == code[i].live && p[at + i].tries == code[i].tries
    {
      assert patched[i] == PatchCell(code[i], at + i, id, exit);
    }
  }

  lemma Cell1(p: Code, at: int, c: Ctx, h: nat, op: Instr, exits: map<nat, int>)
    requires Stands(p, at, At(c, h, op), exits)
    ensures SigIs(p, at, h, c.tries) && (!op.Hole? ==> p[at].op == op)
    ensures op.Hole? && op.loopId in exits ==> p[at].op == Jump(exits[op.loopId] - at - 1)
  {
    assert At(c, h, op)[0] == Cell(op, h, c.tries);
  }

  /** The jump after the `Unwind` of a `break` or `continue`. */
  lemma LeaveFlow(p: Code, at: int, c: Ctx, h: nat, base: nat, op: Instr, exits: map<nat, int>)
    requires Stands(p, at, AfterUnwind(c, h, base, op), exits)
    requires match op
      case Loop(d) => SigIs(p, at + 1 - d, base, c.tries)
      case Hole(id) => id in exits && SigIs(p, exits[id], base, c.tries)
      case _ => false
    ensures FlowOk(p, at) && SigIs(p, at, base, c.tries)
  {
    assert AfterUnwind(c, h, base, op)[0] == Cell(op, h, c.tries, base);
  }

  /** One plain instruction. */
  lemma PlainFlow(p: Code, at: int, c: Ctx, h: nat, op: Instr, exits: map<nat, int>)
    requires Stands(p, at, At(c, h, op), exits) && Plain(op) && SlotOk(op, h)
    requires var f := EffectOf(op);
      f.pops <= h && (f.raises ==> Below(c.tries, h - f.pops)) && SigIs(p, at + 1, h - f.pops + f.pushes, c.tries)
    ensures FlowOk(p, at) && SigIs(p, at, h, c.tries)
  {
    Cell1(p, at, c, h, op, exits);
  }

  /** One jump. */
  lemma JumpFlow(p: Code, at: int, c: Ctx, h: nat, op: Instr, exits: map<nat, int>)
    requires Stands(p, at, At(c, h, op), exits) && h >= 1
    requires match op
      case Jump(d) => SigIs(p, at + 1 + d, h, c.tries)
      case Loop(d) => SigIs(p, at + 1 - d, h, c.tries)
      case JumpIfFalse(d) => SigIs(p, at + 1, h, c.tries) && SigIs(p, at + 1 + d, h, c.tries)
      case JumpIfTrue(d) => SigIs(p, at + 1, h, c.tries) && SigIs(p, at + 1 + d, h, c.tries)
      case IterNext(d) => Below(c.tries, h) && SigIs(p, at + 1, h + 1, c.tries) && SigIs(p, at + 1 + d, h, c.tries)
      case IterNext2(d) => Below(c.tries, h) && SigIs(p, at + 1, h + 2, c.tries) && SigIs(p, at + 1 + d, h, c.tries)
      case Unwind(k) => k <= h && SigIs(p, at + 1, k, c.tries)
      case RaiseI => Below(c.tries, h - 1)
      case ReturnI => true
      case _ => false
    ensures FlowOk(p, at) && SigIs(p, at, h, c.tries)
  {
    Cell1(p, at, c, h, op, exits);
  }

  // ----- what the compiler keeps true of its own state -----

  /** Every slot the compiler may name, every loop base and every try height is below the tracker. */
  ghost predicate HeightOk(c: Ctx) {
    && c.h >= 1
    && (forall i :: 0 <= i < |c.locals| ==> c.locals[i].val < c.h)
    && (forall x :: x in c.hoisted ==> c.hoisted[x] < c.h)
    && (forall i :: 0 <= i < |c.loops| ==> c.loops[i].id < c.nloops && c.loops[i].resultSlot < c.loops[i].base <= c.h)
    && Below(c.tries, c.h)
  }

  /** The innermost `n` loops are in the same `try` as this point, and their heads and exits were
      compiled at their base height. */
  ghost predicate LoopsIn(p: Code, c: Ctx, exits: map<nat, int>, n: nat) {
    && n <= |c.loops|
    && forall k :: |c.loops| - n <= k < |c.loops| ==> LoopIn(p, c, exits, c.loops[k])
  }

  ghost predicate LoopIn(p: Code, c: Ctx, exits: map<nat, int>, l: LoopCtx) {
    l.id in exits && SigIs(p, exits[l.id], l.base, c.tries) && SigIs(p, l.start, l.base, c.tries)
  }

  /** `r`, compiled in state `c`, stands at `pos`, and what follows expects the height it leaves. */
  ghost predicate Here(p: Code, c: Ctx, pos: nat, r: Result, exits: map<nat, int>, n: nat) {
    && Stands(p, pos, r.code, exits) && SigIs(p, pos + |r.code|, r.h, c.tries) && r.fits
    && HeightOk(c) && LoopsIn(p, c, exits, n)
  }

  ghost predicate Begins(c: Ctx, code: Code) {
    |code| > 0 && code[0].live == c.h && code[0].tries == c.tries
  }

  lemma Entry(p: Code, c: Ctx, pos: int, code: Code, exits: map<nat, int>)
    requires Stands(p, pos, code, exits) && Begins(c, code)
    ensures SigIs(p, pos, c.h, c.tries)
  {
  }

  // ----- the first instruction of every construct -----

  lemma {:induction false} FirstExpr(e: Expr, c: Ctx, pos: nat)
    ensures Begins(c, Compile(e, c, pos).code)
    decreases e, 4
  {
    hide HoistExpr, Dedup, SlotMap, PrologueLocals, CompileBreak, CompileContinue, CompileDecl, CompileAssign,
      CompileIndexAssign, CompileTry, CompileReturn;
    match e
    case Lit(_) =>
    case Ident(_) =>
    case Binary(_, l, _) => FirstExpr(l, c, pos);
    case Unary(_, x) => FirstExpr(x, c, pos);
    case Paren(b) => FirstBlock(b, c, pos);
    case Scope(b) => FirstScope(b, c, pos);
    case If(x, _, _) => FirstExpr(x, c, pos);
    case While(_, _, _) =>
    case For(_, _, _, _, _) =>
    case Index(o, _) => FirstExpr(o, c, pos);
    case Raise(x) => FirstExpr(x, c, pos);
    case _ => FirstOfRest(e, c, pos);
  }

  lemma {:induction false} FirstOfRest(e: Expr, c: Ctx, pos: nat)
    requires e.Break? || e.Continue? || e.Decl? || e.Assign? || e.IndexAssign? || e.Try? || e.Return?
    ensures Begins(c, Compile(e, c, pos).code)
    decreases e, 3
  {
    hide HoistExpr, CompileHandler;
    match e
    case Break(arg) =>
      if arg.Some? && c.loops != [] {
        FirstExpr(arg.value, c.(loops := c.loops[..|c.loops| - 1]), pos);
      }
    case Continue =>
    case Decl(_, init) => FirstExpr(init, c, pos);
    case Assign(_, _, rhs) => FirstExpr(rhs, c, pos);
    case IndexAssign(o, _, _, _) => FirstExpr(o, c, pos);
    case Try(_, _) =>
    case Return(arg) => if arg.Some? { FirstExpr(arg.value, c, pos); }
  }

  lemma {:induction false} FirstBlock(b: Block, c: Ctx, pos: nat)
    ensures Begins(c, CompileBlock(b, c, pos).code)
    decreases b, 2
  {
    match b
    case End =>
    case Tail(e) => FirstExpr(e, c, pos);
    case Then(s, rest) => FirstExpr(s, c, pos);
  }

  lemma {:induction false} FirstScope(b: Block, c: Ctx, pos: nat)
    ensures Begins(c, CompileScope(b, c, pos).code)
    decreases b, 3
  {
    hide Compile, HoistBlock, SlotMap, PrologueLocals;
    var names := Dedup(HoistBlock(b));
    FirstBlock(b, Enter(c, names), pos + |names|);
    FirstOpened(c, names, CompileBlock(b, Enter(c, names), pos + |names|).code);
  }

  /** A prologue and the code after it. */
  lemma {:induction false} FirstOpened(c: Ctx, names: seq<string>, code: Code)
    requires Begins(Enter(c, names), code)
    ensures Begins(c, Prologue(c, names) + code)
    decreases |names|
  {
    if names != [] {
      var n := |names| - 1;
      var last := At(c, c.h + n, PushNull);
      FirstOpened(c, names[..n], last + code);
      assert Prologue(c, names[..n]) + (last + code) == Prologue(c, names) + code;
    }
  }
}
