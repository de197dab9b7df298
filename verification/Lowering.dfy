/** The compiler as a function: what code each expression becomes, given the compile-time state at
    that point (src/vm/compiler.rs). The imperative compiler is proved to emit exactly this code. */
module Lowering {
  import opened Ast
  import opened Wrappers
  import opened Machine

  /** A named local and the stack slot that holds it. */
  type Local = Named<nat>

  /** A loop that an enclosed `break`/`continue` may target: where its result lives, the height to
      unwind to, where it restarts, and how many named locals are visible at its head. */
  datatype LoopCtx = LoopCtx(id: nat, resultSlot: nat, base: nat, isArray: bool, start: nat, visible: nat)

  /** The compiler's state at one point. `loops` holds the enclosing loops that are not skipped,
      outermost first; `nloops` counts all of them. `scopeBase` is the first local of the
      current scope. */
  datatype Ctx = Ctx(
    locals: seq<Local>, h: nat, hoisted: map<string, nat>, scopeBase: nat,
    loops: seq<LoopCtx>, nloops: nat, tries: seq<nat>, globals: seq<string>)

  /** Emitted code, the locals and tracker height after it, whether no error was recorded, and
      whether every slot and height narrowed to a byte fitted in one. */
  datatype Result = Result(code: Code, locals: seq<Local>, h: nat, ok: bool, fits: bool)

  datatype Resolved = AtSlot(slot: nat) | AtGlobal(index: nat) | Unknown

  /** A `u32` height stored in a `u8` operand. */
  function U8(n: nat): nat {
    n % 256
  }

  function Resolve(c: Ctx, x: string): Resolved {
    match Newest(c.locals, x)
    case Some(i) => AtSlot(c.locals[i].val)
    case None =>
      match Meaning.IndexOf(c.globals, x)
      case Some(j) => AtGlobal(j)
      case None => Unknown
  }

  predicate Declared(c: Ctx, x: string) {
    exists i :: c.scopeBase <= i < |c.locals| && c.locals[i].name == x
  }

  /** One instruction at tracker height `h`. */
  function At(c: Ctx, h: nat, op: Instr): Code {
    [Cell(op, h, c.tries)]
  }

  /** The jump that ends a `break` or `continue`: the `Unwind` before it has cut the stack to `base`, but the
      tracker is not told and still stands at `h`. */
  function AfterUnwind(c: Ctx, h: nat, base: nat, op: Instr): Code {
    [Cell(op, h, c.tries, base)]
  }

  function CompoundInstr(op: BinOp): Instr {
    if op == Add then AddAssign else BinI(op)
  }

  /** The prologue of a scope: one `null` per hoisted name. */
  function Prologue(c: Ctx, names: seq<string>): Code
    decreases |names|
  {
    if names == [] then [] else Prologue(c, names[..|names| - 1]) + At(c, c.h + |names| - 1, PushNull)
  }

  function PrologueLocals(h: nat, names: seq<string>): (r: seq<Local>)
    ensures |r| == |names|
    ensures forall i :: 0 <= i < |r| ==> r[i] == Named(names[i], U8(h + i))
    decreases |names|
  {
    if names == [] then []
    else PrologueLocals(h, names[..|names| - 1]) + [Named(names[|names| - 1], U8(h + |names| - 1))]
  }

  /** Name-to-slot map of the hoisted names. */
  function SlotMap(h: nat, names: seq<string>): (r: map<string, nat>)
    ensures forall x :: x in r <==> x in names
    decreases |names|
  {
    if names == [] then map[]
    else
      var n := |names| - 1;
      SlotMap(h, names[..n])[names[n] := U8(h + n)]
  }

  /** State after entering a scope and running the prologue for `names`. */
  function Enter(c: Ctx, names: seq<string>): Ctx {
    c.(locals := c.locals + PrologueLocals(c.h, names), h := c.h + |names|,
       hoisted := SlotMap(c.h, names), scopeBase := |c.locals|)
  }

  /** State after a piece of code. */
  function After(c: Ctx, r: Result): Ctx {
    c.(locals := r.locals, h := r.h)
  }

  function Up(c: Ctx, h: nat): Ctx {
    c.(h := h)
  }

  /** Back-patching: give every jump left open for loop `id` its distance to `exit`. The code starts
      at `pos`. */
  function Patch(code: Code, pos: int, id: nat, exit: int): (r: Code)
    ensures |r| == |code|
    ensures forall i :: 0 <= i < |r| ==> r[i] == PatchCell(code[i], pos + i, id, exit)
  {
    seq(|code|, i requires 0 <= i < |code| => PatchCell(code[i], pos + i, id, exit))
  }

  function PatchCell(c: Cell, at: int, id: nat, exit: int): Cell {
    if c.op == Hole(id) then c.(op := Jump(exit - at - 1)) else c
  }

  function Compile(e: Expr, c: Ctx, pos: nat): Result
    decreases e, 4
  {
    match e
    case Lit(v) => Result(At(c, c.h, if v.Null? then PushNull else LoadConst(v)), c.locals, c.h + 1, true, true)
    case Ident(x) => CompileIdent(x, c)
    case Binary(op, l, r) => if op == And || op == Or then CompileShort(e, c, pos) else CompileBinary(e, c, pos)
    case Unary(op, x) => var a := Compile(x, c, pos); a.(code := a.code + At(c, a.h, UnI(op)))
    case Paren(b) => CompileBlock(b, c, pos)
    case Scope(b) => CompileScope(b, c, pos)
    case If(_, _, _) => CompileIf(e, c, pos)
    case While(_, _, _) => CompileWhile(e, c, pos)
    case For(_, _, _, _, _) => CompileFor(e, c, pos)
    case Break(arg) => CompileBreak(e, c, pos)
    case Continue => CompileContinue(c, pos)
    case Decl(_, _) => CompileDecl(e, c, pos)
    case Assign(_, _, _) => CompileAssign(e, c, pos)
    case Index(_, _) => CompileIndex(e, c, pos)
    case IndexAssign(_, _, _, _) => CompileIndexAssign(e, c, pos)
    case Try(_, _) => CompileTry(e, c, pos)
    case Raise(x) => var a := Compile(x, c, pos); a.(code := a.code + At(c, a.h, RaiseI), h := c.h + 1)
    case Return(_) => CompileReturn(e, c, pos)
  }

  function CompileIdent(x: string, c: Ctx): Result {
    match Resolve(c, x)
    case AtSlot(s) => Result(At(c, c.h, LoadLocal(s)), c.locals, c.h + 1, true, true)
    case AtGlobal(i) => Result(At(c, c.h, LoadGlobal(i)), c.locals, c.h + 1, true, true)
    case Unknown => Result(At(c, c.h, PushNull), c.locals, c.h + 1, false, true)
  }

  /** `compile_and`, `compile_or`: the jump peeks, so the left value is the result when it decides. */
  function CompileShort(e: Expr, c: Ctx, pos: nat): Result
    requires e.Binary?
    decreases e, 3
  {
    var a := Compile(e.lhs, c, pos);
    var b := Compile(e.rhs, Drop(After(c, a)), pos + |a.code| + 2);
    var d := |b.code| + 1;
    var jump := if e.op == And then JumpIfFalse(d) else JumpIfTrue(d);
    Result(a.code + At(c, a.h, jump) + At(c, a.h, Pop) + b.code, b.locals, b.h, a.ok && b.ok, a.fits && b.fits)
  }

  function CompileBinary(e: Expr, c: Ctx, pos: nat): Result
    requires e.Binary?
    decreases e, 3
  {
    var a := Compile(e.lhs, c, pos);
    var b := Compile(e.rhs, After(c, a), pos + |a.code|);
    Result(a.code + b.code + At(c, b.h, BinI(e.op)), b.locals, Less(b.h, 1), a.ok && b.ok, a.fits && b.fits)
  }

  function CompileIf(e: Expr, c: Ctx, pos: nat): Result
    requires e.If?
    decreases e, 3
  {
    var a := Compile(e.cond, c, pos);
    var b := Compile(e.thn, Drop(After(c, a)), pos + |a.code| + 2);
    var d := Compile(e.els, Drop(After(c, b).(h := a.h)), pos + |a.code| + |b.code| + 4);
    Result(a.code + At(c, a.h, JumpIfFalse(|b.code| + 2)) + At(c, a.h, Pop) + b.code
             + At(c, b.h, Jump(|d.code| + 1)) + At(c, a.h, Pop) + d.code,
           d.locals, d.h, a.ok && b.ok && d.ok, a.fits && b.fits && d.fits)
  }

  /** The value of a `break` is compiled with its target loop skipped. */
  function CompileBreak(e: Expr, c: Ctx, pos: nat): Result
    requires e.Break?
    decreases e, 3
  {
    if c.loops == [] then Result(At(c, c.h, PushNull), c.locals, c.h + 1, false, true)
    else
      var n := |c.loops| - 1;
      var l := c.loops[n];
      var a := if e.arg.Some? then Compile(e.arg.value, c.(loops := c.loops[..n]), pos)
               else if l.isArray then Result([], c.locals, c.h, true, true)
               else Result(At(c, c.h, PushNull), c.locals, c.h + 1, true, true);
      var bare := l.isArray && e.arg.None?;
      var fold := if bare then [] else Fold(c, a.h, l.isArray, l.resultSlot);
      var h := if bare then a.h else Less(a.h, 1);
      Result(a.code + fold + At(c, h, Unwind(U8(l.base))) + AfterUnwind(c, h, l.base, Hole(l.id)),
             a.locals, c.h + 1, a.ok, a.fits && l.base <= 255)
  }

  function CompileContinue(c: Ctx, pos: nat): Result {
    if c.loops == [] then Result(At(c, c.h, PushNull), c.locals, c.h + 1, false, true)
    else
      var l := c.loops[|c.loops| - 1];
      var store := if l.isArray then []
                   else At(c, c.h, PushNull) + Fold(c, c.h + 1, false, l.resultSlot);
      var back := pos + |store| + 2 - l.start;
      Result(store + At(c, c.h, Unwind(U8(l.base))) + AfterUnwind(c, c.h, l.base, Loop(back)), c.locals, c.h + 1, true,
          l.base <= 255)
  }

  /** A hoisted name has its slot already; any other becomes a local just below a copy of its value. */
  function CompileDecl(e: Expr, c: Ctx, pos: nat): Result
    requires e.Decl?
    decreases e, 3
  {
    var a := Compile(e.init, c, pos);
    if e.name in c.hoisted then a.(code := a.code + At(c, a.h, StoreLocal(c.hoisted[e.name])))
    else
      Result(a.code + At(c, a.h, Dup), a.locals + [Named(e.name, U8(Less(a.h, 1)))], a.h + 1,
             a.ok && !Declared(After(c, a), e.name), a.fits && a.h <= 256)
  }

  function CompileAssign(e: Expr, c: Ctx, pos: nat): Result
    requires e.Assign?
    decreases e, 3
  {
    match Resolve(c, e.name)
    case AtSlot(s) =>
      if e.aop.Some? then
        var a := Compile(e.rhs, Up(c, c.h + 1), pos + 1);
        Result(At(c, c.h, LoadLocal(s)) + a.code + At(c, a.h, CompoundInstr(e.aop.value))
                 + At(c, Less(a.h, 1), StoreLocal(s)), a.locals, Less(a.h, 1), a.ok, a.fits)
      else
        var a := Compile(e.rhs, c, pos);
        a.(code := a.code + At(c, a.h, StoreLocal(s)))
    case _ => Compile(e.rhs, c, pos).(ok := false)
  }

  function CompileIndex(e: Expr, c: Ctx, pos: nat): Result
    requires e.Index?
    decreases e, 3
  {
    var a := Compile(e.obj, c, pos);
    var b := Compile(e.key, After(c, a), pos + |a.code|);
    Result(a.code + b.code + At(c, b.h, IndexGet), b.locals, Less(b.h, 1), a.ok && b.ok, a.fits && b.fits)
  }

  /** The compound form duplicates object and key, so that they are evaluated once. */
  function CompileIndexAssign(e: Expr, c: Ctx, pos: nat): Result
    requires e.IndexAssign?
    decreases e, 3
  {
    var a := Compile(e.obj, c, pos);
    var b := Compile(e.key, After(c, a), pos + |a.code|);
    var cur := if e.iop.Some? then At(c, b.h, Dup2) + At(c, b.h + 2, IndexGet) else [];
    var hv := b.h + if e.iop.Some? then 1 else 0;
    var d := Compile(e.rhs, After(c, b).(h := hv), pos + |a.code| + |b.code| + |cur|);
    var op := if e.iop.Some? then At(c, d.h, CompoundInstr(e.iop.value)) else [];
    var h := Less(d.h, |op|);
    Result(a.code + b.code + cur + d.code + op + At(c, h, IndexSet), d.locals, Less(h, 2),
           a.ok && b.ok && d.ok, a.fits && b.fits && d.fits)
  }

  function CompileTry(e: Expr, c: Ctx, pos: nat): Result
    requires e.Try?
    decreases e, 3
  {
    var a := Compile(e.attempt, c.(tries := c.tries + [c.h]), pos + 1);
    var tail := CompileHandler(e.handler, After(c, a), pos + |a.code| + 3);
    Result(At(c, c.h, PushTry(|a.code| + 2)) + a.code + [Cell(PopTry, a.h, c.tries + [c.h])]
             + At(c, a.h, Jump(|tail.code|)) + tail.code, tail.locals, a.h, a.ok && tail.ok, a.fits && tail.fits)
  }

  function CompileReturn(e: Expr, c: Ctx, pos: nat): Result
    requires e.Return?
    decreases e, 3
  {
    if e.result.None? then Result(At(c, c.h, PushNull) + At(c, c.h + 1, ReturnI), c.locals, c.h + 1, true, true)
    else
      var a := Compile(e.result.value, c, pos);
      a.(code := a.code + At(c, a.h, ReturnI))
  }

  function Less(h: nat, n: nat): nat {
    if n <= h then h - n else 0
  }

  /** The state with the top of the stack popped. */
  function Drop(c: Ctx): Ctx {
    c.(h := Less(c.h, 1))
  }

  function CompileBlock(b: Block, c: Ctx, pos: nat): Result
    decreases b, 2
  {
    match b
    case End => Result(At(c, c.h, PushNull), c.locals, c.h + 1, true, true)
    case Tail(e) => Compile(e, c, pos)
    case Then(s, rest) =>
      var a := Compile(s, c, pos);
      var d := CompileBlock(rest, Drop(After(c, a)), pos + |a.code| + 1);
      Result(a.code + At(c, a.h, Pop) + d.code, d.locals, d.h, a.ok && d.ok, a.fits && d.fits)
  }

  /** Close the scope opened by `c` over `extra` unnamed slots and the locals of `r`. */
  function Close(c: Ctx, r: Result, extra: nat): Result {
    var count := Less(|r.locals|, |c.locals|) + extra;
    Result(r.code + if count > 0 then At(c, r.h, CloseScope(count)) else [], c.locals, Less(r.h, count),
           r.ok && count <= 255, r.fits)
  }

  function CompileScope(b: Block, c: Ctx, pos: nat): Result
    decreases b, 3
  {
    var names := Dedup(HoistBlock(b));
    var inner := Enter(c, names);
    var r := CompileBlock(b, inner, pos + |names|);
    Close(c, r.(code := Prologue(c, names) + r.code, fits := r.fits && c.h + |names| <= 256), 0)
  }

  /** The handler of a `try`: the error is on top of the stack. */
  function CompileHandler(handler: Option<Catch>, c: Ctx, pos: nat): Result
    decreases handler, 4
  {
    match handler
    case None => Result(At(c, c.h, Pop) + At(c, Less(c.h, 1), PushNull), c.locals, c.h, true, true)
    case Some(k) =>
      var inner := c.(locals := c.locals + [Named(k.param, U8(Less(c.h, 1)))], hoisted := map[],
                  scopeBase := |c.locals|);
      var r := CompileScope(k.body, inner, pos);
      Close(c, r.(fits := r.fits && c.h <= 256), 0)
  }

  /** The initial result of a loop: `null`, or a fresh array. */
  function Seed(c: Ctx, isArray: bool): Code {
    At(c, c.h, if isArray then MakeArray else PushNull)
  }

  /** Fold the value on top (at height `h`) into the loop's result. */
  function Fold(c: Ctx, h: nat, isArray: bool, slot: nat): Code {
    if isArray then At(c, h, IterAppend(slot)) else At(c, h, StoreLocal(slot)) + At(c, h, Pop)
  }

  function CompileWhile(e: Expr, c: Ctx, pos: nat): Result
    requires e.While?
    decreases e, 3
  {
    var names := Dedup(HoistExpr(e.cond));
    var head := Enter(Up(c, c.h + 1), names);
    var r := WhileLoop(e, head, U8(c.h), pos + 1 + |names|);
    var code := Seed(c, e.isArray) + Prologue(Up(c, c.h + 1), names) + r.code + At(c, head.h, LoadLocal(U8(c.h)));
    Close(c, Result(code, r.locals, r.h + 1, r.ok, r.fits && c.h + |names| <= 255), 1)
  }

  /** The loop proper, from its condition at `start` to the end of the exit's `Pop`. */
  function WhileLoop(e: Expr, head: Ctx, result: nat, start: nat): Result
    requires e.While?
    decreases e, 2
  {
    var l := LoopCtx(head.nloops, result, head.h, e.isArray, start, |head.locals|);
    var inner := head.(loops := head.loops + [l], nloops := head.nloops + 1);
    var a := Compile(e.cond, inner, start);
    var b := CompileScope(e.body, Drop(After(inner, a)), start + |a.code| + 2);
    var code := WhileCode(e.isArray, head, result, start, a, b);
    Result(Patch(code, start, head.nloops, start + |code|), b.locals, Less(a.h, 1), a.ok && b.ok,
           a.fits && b.fits && head.h <= 255)
  }

  function WhileCode(isArray: bool, head: Ctx, result: nat, start: nat, a: Result, b: Result): Code {
    var fold := Fold(head, b.h, isArray, result);
    var back := |a.code| + |b.code| + |fold| + 3;
    a.code + At(head, a.h, JumpIfFalse(|b.code| + |fold| + 2)) + At(head, a.h, Pop) + b.code + fold
      + At(head, Less(b.h, 1), Loop(back)) + At(head, a.h, Pop)
  }

  /** Slots of the iteration variables: the counter below the element. */
  function LoopLocals(e: Expr, base: nat): seq<Local>
    requires e.For?
  {
    match e.second
    case None => [Named(e.first, U8(base))]
    case Some(x) => [Named(e.first, U8(base)), Named(x, U8(base + 1))]
  }

  function CompileFor(e: Expr, c: Ctx, pos: nat): Result
    requires e.For?
    decreases e, 3
  {
    var names := Dedup(HoistExpr(e.iter));
    var head := Enter(Up(c, c.h + 1), names);
    var a := Compile(e.iter, head, pos + 1 + |names|);
    var r := ForLoop(e, After(head, a), U8(c.h), pos + 2 + |names| + |a.code|);
    var code := Seed(c, e.isArray) + Prologue(Up(c, c.h + 1), names) + a.code + At(c, a.h, MakeIter) + r.code
                  + At(c, a.h, LoadLocal(U8(c.h)));
    Close(c, Result(code, a.locals, a.h + 1, a.ok && r.ok, a.fits && r.fits), 2)
  }

  /** The state inside one iteration of a `for`: its variables have been pushed. */
  function Iteration(e: Expr, head: Ctx, result: nat, start: nat): Ctx
    requires e.For?
  {
    var l := LoopCtx(head.nloops, result, head.h, e.isArray, start, |head.locals|);
    var vars := LoopLocals(e, head.h);
    head.(locals := head.locals + vars, h := head.h + |vars|, hoisted := map[], scopeBase := |head.locals|,
          loops := head.loops + [l], nloops := head.nloops + 1)
  }

  /** The loop proper, from the pull of the iterator at `start`; `head.h` is the height to unwind to. */
  function ForLoop(e: Expr, head: Ctx, result: nat, start: nat): Result
    requires e.For?
    decreases e, 2
  {
    var b := CompileScope(e.body, Iteration(e, head, result, start), start + 1);
    var code := ForCode(e, head, result, b);
    Result(Patch(code, start, head.nloops, start + |code|), head.locals, head.h, b.ok && Some(e.first) != e.second,
           b.fits && head.h + 2 <= 255)
  }

  function ForCode(e: Expr, head: Ctx, result: nat, b: Result): Code
    requires e.For?
  {
    var fold := Fold(head, b.h, e.isArray, result);
    var n := |b.code| + |fold| + 1;
    At(head, head.h, if e.second.None? then IterNext(n + 1) else IterNext2(n + 1)) + b.code + fold
      + At(head, Less(b.h, 1), Unwind(U8(head.h))) + At(head, head.h, Loop(n + 2))
  }

  /** The state at the start of a program: slot 0 holds the closure itself. */
  function Initial(globals: seq<string>): Ctx {
    Ctx([], 1, map[], 0, [], 0, [], globals)
  }

  /** A whole program: hoisted names, the block, `Return`. The outermost scope is never closed. */
  function CompileProgram(program: Block, globals: seq<string>): Result {
    var c := Initial(globals);
    var names := Dedup(HoistBlock(program));
    var r := CompileBlock(program, Enter(c, names), |names|);
    r.(code := Prologue(c, names) + r.code + At(c, r.h, ReturnI), fits := r.fits && 1 + |names| <= 256)
  }
}
