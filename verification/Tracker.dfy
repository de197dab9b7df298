/** The height the compiler tracks against the height the stack has: equal at every instruction a run
    reaches, except at the jump of a `break` or `continue` that cut the stack, where the tracker has not been
    told (src/vm/compiler.rs:787-870, 2260-2271, 2310-2316). */
module Tracker {
  import opened Ast
  import opened Wrappers
  import opened Meaning
  import opened Machine
  import opened Lowering
  import opened LoweringShape
  import opened SimulationBase
  import opened Correctness
  import opened StackDiscipline
  import opened StackFlow

  // ----- how the recorded heights differ -----

  predicate AfterCut(code: Code, i: int) {
    0 < i < |code| && code[i - 1].op.Unwind?
  }

  /** The stack is as high as tracked, except after an `Unwind`, whose operand it then has. There the tracker
      is what it was before, or has been reset at the end of a `for` iteration. */
  predicate ToldAt(code: Code, i: int) {
    0 <= i < |code| &&
    if AfterCut(code, i) then
      var cut := code[i - 1];
      && code[i].live == cut.op.n && (code[i].op.Hole? || code[i].op.Jump? || code[i].op.Loop?)
      && (code[i].h == cut.h || (code[i].op.Loop? && code[i].h == cut.op.n))
    else code[i].live == code[i].h
  }

  ghost predicate Told(code: Code) {
    (forall i :: 0 <= i < |code| ==> ToldAt(code, i)) && (code != [] ==> !code[|code| - 1].op.Unwind?)
  }

  lemma Join(a: Code, b: Code)
    requires Told(a) && Told(b)
    ensures Told(a + b)
  {
    forall i | 0 <= i < |a + b| ensures ToldAt(a + b, i) {
      if i < |a| {
        assert ToldAt(a, i);
      } else {
        assert ToldAt(b, i - |a|);
      }
    }
  }

  lemma Join3(a: Code, b: Code, c: Code)
    requires Told(a) && Told(b) && Told(c)
    ensures Told(a + b + c)
  {
    hide Told;
    Join(a, b);
    Join(a + b, c);
  }

  lemma Join5(a: Code, b: Code, c: Code, d: Code, e: Code)
    requires Told(a) && Told(b) && Told(c) && Told(d) && Told(e)
    ensures Told(a + b + c + d + e)
  {
    hide Told;
    Join3(a, b, c);
    Join3(a + b + c, d, e);
  }

  lemma One(c: Ctx, h: nat, op: Instr)
    requires !op.Unwind?
    ensures Told(At(c, h, op)) && Told([])
  {
  }

  /** Cut and leave: the jump of a `break` or `continue`. */
  lemma Cut(c: Ctx, h: nat, base: nat, op: Instr)
    requires (op.Hole? || op.Loop?) && base <= 255
    ensures Told(At(c, h, Unwind(U8(base))) + AfterUnwind(c, h, base, op))
  {
    var code := At(c, h, Unwind(U8(base))) + AfterUnwind(c, h, base, op);
    assert code[0] == Cell(Unwind(base), h, c.tries) && code[1] == Cell(op, h, c.tries, base);
  }

  /** Cut and loop: the end of a `for` iteration. */
  lemma CutReset(c: Ctx, h: nat, base: nat, dist: int)
    requires base <= 255
    ensures Told(At(c, h, Unwind(U8(base))) + At(c, base, Loop(dist)))
  {
    var code := At(c, h, Unwind(U8(base))) + At(c, base, Loop(dist));
    assert code[0] == Cell(Unwind(base), h, c.tries) && code[1] == Cell(Loop(dist), base, c.tries);
  }

  lemma PatchTold(code: Code, pos: int, id: nat, exit: int)
    requires Told(code)
    ensures Told(Patch(code, pos, id, exit))
  {
    var r := Patch(code, pos, id, exit);
    forall i | 0 <= i < |r| ensures ToldAt(r, i) {
      assert ToldAt(code, i) && r[i] == PatchCell(code[i], pos + i, id, exit);
      if i > 0 {
        assert r[i - 1] == PatchCell(code[i - 1], pos + i - 1, id, exit);
      }
    }
    if code != [] {
      assert r[|r| - 1] == PatchCell(code[|r| - 1], pos + |r| - 1, id, exit);
    }
  }

  lemma {:induction false} PrologueTold(c: Ctx, names: seq<string>)
    ensures Told(Prologue(c, names))
    decreases |names|
  {
    if names != [] {
      PrologueTold(c, names[..|names| - 1]);
      One(c, c.h + |names| - 1, PushNull);
      Join(Prologue(c, names[..|names| - 1]), At(c, c.h + |names| - 1, PushNull));
    }
  }

  lemma FoldTold(c: Ctx, h: nat, isArray: bool, slot: nat)
    ensures Told(Lowering.Fold(c, h, isArray, slot))
  {
    hide Told;
    if isArray {
      One(c, h, IterAppend(slot));
    } else {
      One(c, h, StoreLocal(slot));
      One(c, h, Pop);
      Join(At(c, h, StoreLocal(slot)), At(c, h, Pop));
    }
  }

  lemma CloseTold(c: Ctx, r: Result, extra: nat)
    requires Told(r.code)
    ensures Told(Close(c, r, extra).code)
  {
    hide Told;
    var count := Less(|r.locals|, |c.locals|) + extra;
    One(c, r.h, CloseScope(count));
    Join(r.code, At(c, r.h, CloseScope(count)));
    Join(r.code, []);
  }

  // ----- every construct -----

  lemma {:induction false} ToldExpr(e: Expr, c: Ctx, pos: nat)
    requires Compile(e, c, pos).fits
    ensures Told(Compile(e, c, pos).code)
    decreases e, 5
  {
    hide Told, CompileScope, CompileWhile, CompileFor, CompileIf, CompileTry, CompileShort, CompileBinary,
      CompileIndexAssign,
      CompileAssign, CompileDecl, CompileBreak, CompileIndex, CompileReturn, CompileBlock;
    match e
    case Lit(v) => One(c, c.h, if v.Null? then PushNull else LoadConst(v));
    case Ident(x) => ToldIdent(x, c);
    case Binary(op, _, _) =>
      if op == And || op == Or {
        ToldShort(e, c, pos);
      } else {
        ToldBinary(e, c, pos);
      }
    case Unary(op, x) => ToldThen(x, c, pos, Compile(x, c, pos).h, UnI(op));
    case Paren(b) => ToldBlock(b, c, pos);
    case Scope(b) => ToldScope(b, c, pos);
    case If(_, _, _) => ToldIf(e, c, pos);
    case While(_, _, _) => ToldWhile(e, c, pos);
    case For(_, _, _, _, _) => ToldFor(e, c, pos);
    case Break(_) => ToldBreak(e, c, pos);
    case Continue => ToldContinue(c, pos);
    case Decl(_, _) => ToldDecl(e, c, pos);
    case Assign(_, _, _) => ToldAssign(e, c, pos);
    case Index(_, _) => ToldIndex(e, c, pos);
    case IndexAssign(_, _, _, _) => ToldIndexAssign(e, c, pos);
    case Try(_, _) => ToldTry(e, c, pos);
    case Raise(x) => ToldThen(x, c, pos, Compile(x, c, pos).h, RaiseI);
    case Return(_) => ToldReturn(e, c, pos);
  }

  /** An expression and one instruction after it. */
  lemma {:induction false} ToldThen(e: Expr, c: Ctx, pos: nat, h: nat, op: Instr)
    requires Compile(e, c, pos).fits && !op.Unwind?
    ensures Told(Compile(e, c, pos).code + At(c, h, op))
    decreases e, 6
  {
    hide Told, Compile;
    ToldExpr(e, c, pos);
    One(c, h, op);
    Join(Compile(e, c, pos).code, At(c, h, op));
  }

  lemma ToldIdent(x: string, c: Ctx)
    ensures Told(CompileIdent(x, c).code)
  {
    hide Told;
    match Resolve(c, x)
    case AtSlot(s) => One(c, c.h, LoadLocal(s));
    case AtGlobal(i) => One(c, c.h, LoadGlobal(i));
    case Unknown => One(c, c.h, PushNull);
  }

  lemma {:induction false} ToldShort(e: Expr, c: Ctx, pos: nat)
    requires e.Binary? && CompileShort(e, c, pos).fits
    ensures Told(CompileShort(e, c, pos).code)
    decreases e, 4
  {
    hide Told, Compile;
    var a := Compile(e.lhs, c, pos);
    var b := Compile(e.rhs, Drop(After(c, a)), pos + |a.code| + 2);
    var d := |b.code| + 1;
    var jump := if e.op == And then JumpIfFalse(d) else JumpIfTrue(d);
    ToldExpr(e.lhs, c, pos);
    ToldExpr(e.rhs, Drop(After(c, a)), pos + |a.code| + 2);
    One(c, a.h, jump);
    One(c, a.h, Pop);
    Join3(a.code, At(c, a.h, jump), At(c, a.h, Pop));
    Join(a.code + At(c, a.h, jump) + At(c, a.h, Pop), b.code);
  }

  lemma {:induction false} ToldBinary(e: Expr, c: Ctx, pos: nat)
    requires e.Binary? && CompileBinary(e, c, pos).fits
    ensures Told(CompileBinary(e, c, pos).code)
    decreases e, 4
  {
    hide Told, Compile;
    var a := Compile(e.lhs, c, pos);
    var b := Compile(e.rhs, After(c, a), pos + |a.code|);
    ToldExpr(e.lhs, c, pos);
    ToldExpr(e.rhs, After(c, a), pos + |a.code|);
    One(c, b.h, BinI(e.op));
    Join3(a.code, b.code, At(c, b.h, BinI(e.op)));
  }

  lemma {:induction false} ToldIf(e: Expr, c: Ctx, pos: nat)
    requires e.If? && CompileIf(e, c, pos).fits
    ensures Told(CompileIf(e, c, pos).code)
    decreases e, 4
  {
    hide Told;
    var a := Compile(e.cond, c, pos);
    var b := Compile(e.thn, Drop(After(c, a)), pos + |a.code| + 2);
    var d := Compile(e.els, Drop(After(c, b).(h := a.h)), pos + |a.code| + |b.code| + 4);
    ToldExpr(e.cond, c, pos);
    ToldExpr(e.thn, Drop(After(c, a)), pos + |a.code| + 2);
    ToldExpr(e.els, Drop(After(c, b).(h := a.h)), pos + |a.code| + |b.code| + 4);
    var test, pop, jump := At(c, a.h, JumpIfFalse(|b.code| + 2)), At(c, a.h, Pop), At(c, b.h, Jump(|d.code| + 1));
    One(c, a.h, JumpIfFalse(|b.code| + 2));
    One(c, a.h, Pop);
    One(c, b.h, Jump(|d.code| + 1));
    Join5(a.code, test, pop, b.code, jump);
    Join3(a.code + test + pop + b.code + jump, pop, d.code);
  }

  lemma {:induction false} ToldBreak(e: Expr, c: Ctx, pos: nat)
    requires e.Break? && CompileBreak(e, c, pos).fits
    ensures Told(CompileBreak(e, c, pos).code)
    decreases e, 4
  {
    hide Told, Lowering.Fold;
    One(c, c.h, PushNull);
    if c.loops != [] {
      var n := |c.loops| - 1;
      var l := c.loops[n];
      var a := if e.arg.Some? then Compile(e.arg.value, c.(loops := c.loops[..n]), pos)
               else if l.isArray then Result([], c.locals, c.h, true, true)
               else Result(At(c, c.h, PushNull), c.locals, c.h + 1, true, true);
      if e.arg.Some? {
        ToldExpr(e.arg.value, c.(loops := c.loops[..n]), pos);
      }
      var bare := l.isArray && e.arg.None?;
      var fold := if bare then [] else Lowering.Fold(c, a.h, l.isArray, l.resultSlot);
      var h := if bare then a.h else Less(a.h, 1);
      FoldTold(c, a.h, l.isArray, l.resultSlot);
      var unwind, out := At(c, h, Unwind(U8(l.base))), AfterUnwind(c, h, l.base, Hole(l.id));
      Cut(c, h, l.base, Hole(l.id));
      Join3(a.code, fold, unwind + out);
      assert a.code + fold + (unwind + out) == a.code + fold + unwind + out;
    }
  }

  lemma ToldContinue(c: Ctx, pos: nat)
    requires CompileContinue(c, pos).fits
    ensures Told(CompileContinue(c, pos).code)
  {
    hide Told, Lowering.Fold;
    One(c, c.h, PushNull);
    if c.loops != [] {
      var l := c.loops[|c.loops| - 1];
      var fold := Lowering.Fold(c, c.h + 1, false, l.resultSlot);
      FoldTold(c, c.h + 1, false, l.resultSlot);
      Join(At(c, c.h, PushNull), fold);
      var store := if l.isArray then [] else At(c, c.h, PushNull) + fold;
      var back := Loop(pos + |store| + 2 - l.start);
      Cut(c, c.h, l.base, back);
      Join(store, At(c, c.h, Unwind(U8(l.base))) + AfterUnwind(c, c.h, l.base, back));
      assert store + (At(c, c.h, Unwind(U8(l.base))) + AfterUnwind(c, c.h, l.base, back))
          == store + At(c, c.h, Unwind(U8(l.base))) + AfterUnwind(c, c.h, l.base, back);
    }
  }

  lemma {:induction false} ToldDecl(e: Expr, c: Ctx, pos: nat)
    requires e.Decl? && CompileDecl(e, c, pos).fits
    ensures Told(CompileDecl(e, c, pos).code)
    decreases e, 4
  {
    hide Told;
    var a := Compile(e.init, c, pos);
    ToldThen(e.init, c, pos, a.h, if e.name in c.hoisted then StoreLocal(c.hoisted[e.name]) else Dup);
  }

  lemma {:induction false} ToldAssign(e: Expr, c: Ctx, pos: nat)
    requires e.Assign? && CompileAssign(e, c, pos).fits
    ensures Told(CompileAssign(e, c, pos).code)
    decreases e, 4
  {
    hide Told;
    match Resolve(c, e.name)
    case AtSlot(s) =>
      if e.aop.Some? {
        var a := Compile(e.rhs, Up(c, c.h + 1), pos + 1);
        ToldExpr(e.rhs, Up(c, c.h + 1), pos + 1);
        One(c, c.h, LoadLocal(s));
        One(c, a.h, CompoundInstr(e.aop.value));
        One(c, Less(a.h, 1), StoreLocal(s));
        Join3(At(c, c.h, LoadLocal(s)), a.code, At(c, a.h, CompoundInstr(e.aop.value)));
        Join(At(c, c.h, LoadLocal(s)) + a.code + At(c, a.h, CompoundInstr(e.aop.value)),
            At(c, Less(a.h, 1), StoreLocal(s)));
      } else {
        ToldThen(e.rhs, c, pos, Compile(e.rhs, c, pos).h, StoreLocal(s));
      }
    case _ => ToldExpr(e.rhs, c, pos);
  }

  lemma {:induction false} ToldIndex(e: Expr, c: Ctx, pos: nat)
    requires e.Index? && CompileIndex(e, c, pos).fits
    ensures Told(CompileIndex(e, c, pos).code)
    decreases e, 4
  {
    hide Told, Compile;
    var a := Compile(e.obj, c, pos);
    ToldExpr(e.obj, c, pos);
    ToldExpr(e.key, After(c, a), pos + |a.code|);
    var b := Compile(e.key, After(c, a), pos + |a.code|);
    One(c, b.h, IndexGet);
    Join3(a.code, b.code, At(c, b.h, IndexGet));
  }

  lemma {:induction false} ToldIndexAssign(e: Expr, c: Ctx, pos: nat)
    requires e.IndexAssign? && CompileIndexAssign(e, c, pos).fits
    ensures Told(CompileIndexAssign(e, c, pos).code)
    decreases e, 4
  {
    hide Told;
    var a := Compile(e.obj, c, pos);
    var b := Compile(e.key, After(c, a), pos + |a.code|);
    var cur := if e.iop.Some? then At(c, b.h, Dup2) + At(c, b.h + 2, IndexGet) else [];
    var hv := b.h + if e.iop.Some? then 1 else 0;
    var d := Compile(e.rhs, After(c, b).(h := hv), pos + |a.code| + |b.code| + |cur|);
    var op := if e.iop.Some? then At(c, d.h, CompoundInstr(e.iop.value)) else [];
    var h := Less(d.h, |op|);
    ToldExpr(e.obj, c, pos);
    ToldExpr(e.key, After(c, a), pos + |a.code|);
    ToldExpr(e.rhs, After(c, b).(h := hv), pos + |a.code| + |b.code| + |cur|);
    One(c, b.h, Dup2);
    One(c, b.h + 2, IndexGet);
    Join(At(c, b.h, Dup2), At(c, b.h + 2, IndexGet));
    if e.iop.Some? {
      One(c, d.h, CompoundInstr(e.iop.value));
    }
    One(c, h, IndexSet);
    Join5(a.code, b.code, cur, d.code, op);
    Join(a.code + b.code + cur + d.code + op, At(c, h, IndexSet));
  }

  lemma {:induction false} ToldTry(e: Expr, c: Ctx, pos: nat)
    requires e.Try? && CompileTry(e, c, pos).fits
    ensures Told(CompileTry(e, c, pos).code)
    decreases e, 4
  {
    hide Told, CompileHandler;
    var c1 := c.(tries := c.tries + [c.h]);
    var a := Compile(e.attempt, c1, pos + 1);
    var tail := CompileHandler(e.handler, After(c, a), pos + |a.code| + 3);
    ToldExpr(e.attempt, c1, pos + 1);
    ToldHandler(e.handler, After(c, a), pos + |a.code| + 3);
    One(c, c.h, PushTry(|a.code| + 2));
    One(c1, a.h, PopTry);
    One(c, a.h, Jump(|tail.code|));
    Join5(At(c, c.h, PushTry(|a.code| + 2)), a.code, At(c1, a.h, PopTry), At(c, a.h, Jump(|tail.code|)), tail.code);
  }

  lemma {:induction false} ToldHandler(handler: Option<Catch>, c: Ctx, pos: nat)
    requires CompileHandler(handler, c, pos).fits
    ensures Told(CompileHandler(handler, c, pos).code)
    decreases handler, 5
  {
    hide Told, CompileScope;
    match handler
    case None =>
      One(c, c.h, Pop);
      One(c, Less(c.h, 1), PushNull);
      Join(At(c, c.h, Pop), At(c, Less(c.h, 1), PushNull));
    case Some(k) =>
      var inner := c.(locals := c.locals + [Named(k.param, U8(Less(c.h, 1)))], hoisted := map[],
                  scopeBase := |c.locals|);
      var r := CompileScope(k.body, inner, pos);
      ToldScope(k.body, inner, pos);
      CloseTold(c, r.(fits := r.fits && c.h <= 256), 0);
  }

  lemma {:induction false} ToldReturn(e: Expr, c: Ctx, pos: nat)
    requires e.Return? && CompileReturn(e, c, pos).fits
    ensures Told(CompileReturn(e, c, pos).code)
    decreases e, 4
  {
    hide Told;
    if e.result.None? {
      One(c, c.h, PushNull);
      One(c, c.h + 1, ReturnI);
      Join(At(c, c.h, PushNull), At(c, c.h + 1, ReturnI));
    } else {
      ToldThen(e.result.value, c, pos, Compile(e.result.value, c, pos).h, ReturnI);
    }
  }

  lemma {:induction false} ToldBlock(b: Block, c: Ctx, pos: nat)
    requires CompileBlock(b, c, pos).fits
    ensures Told(CompileBlock(b, c, pos).code)
    decreases b, 3
  {
    hide Told, Compile;
    match b
    case End => One(c, c.h, PushNull);
    case Tail(e) => ToldExpr(e, c, pos);
    case Then(s, rest) =>
      var a := Compile(s, c, pos);
      ToldThen(s, c, pos, a.h, Pop);
      ToldBlock(rest, Drop(After(c, a)), pos + |a.code| + 1);
      Join(a.code + At(c, a.h, Pop), CompileBlock(rest, Drop(After(c, a)), pos + |a.code| + 1).code);
  }

  lemma {:induction false} ToldScope(b: Block, c: Ctx, pos: nat)
    requires CompileScope(b, c, pos).fits
    ensures Told(CompileScope(b, c, pos).code)
    decreases b, 4
  {
    hide Told, CompileBlock, Enter, Dedup, HoistBlock, Prologue;
    var names := Dedup(HoistBlock(b));
    var r := CompileBlock(b, Enter(c, names), pos + |names|);
    ToldBlock(b, Enter(c, names), pos + |names|);
    PrologueTold(c, names);
    Join(Prologue(c, names), r.code);
    CloseTold(c, r.(code := Prologue(c, names) + r.code, fits := r.fits && c.h + |names| <= 256), 0);
  }

  lemma {:induction false} ToldWhile(e: Expr, c: Ctx, pos: nat)
    requires e.While? && CompileWhile(e, c, pos).fits
    ensures Told(CompileWhile(e, c, pos).code)
    decreases e, 4
  {
    hide Told, WhileLoop, Enter, Dedup, HoistExpr, Prologue;
    var names := Dedup(HoistExpr(e.cond));
    var head := Enter(Up(c, c.h + 1), names);
    var r := WhileLoop(e, head, U8(c.h), pos + 1 + |names|);
    ToldWhileLoop(e, head, U8(c.h), pos + 1 + |names|);
    PrologueTold(Up(c, c.h + 1), names);
    One(c, c.h, if e.isArray then MakeArray else PushNull);
    One(c, head.h, LoadLocal(U8(c.h)));
    var load := At(c, head.h, LoadLocal(U8(c.h)));
    Join3(Seed(c, e.isArray), Prologue(Up(c, c.h + 1), names), r.code);
    Join(Seed(c, e.isArray) + Prologue(Up(c, c.h + 1), names) + r.code, load);
    var code := Seed(c, e.isArray) + Prologue(Up(c, c.h + 1), names) + r.code + load;
    CloseTold(c, Result(code, r.locals, r.h + 1, r.ok, r.fits && c.h + |names| <= 255), 1);
  }

  lemma {:induction false} ToldWhileLoop(e: Expr, head: Ctx, result: nat, start: nat)
    requires e.While? && WhileLoop(e, head, result, start).fits
    ensures Told(WhileLoop(e, head, result, start).code)
    decreases e, 3
  {
    hide Told, CompileScope, Compile, Lowering.Fold, Patch;
    var l := LoopCtx(head.nloops, result, head.h, e.isArray, start, |head.locals|);
    var inner := head.(loops := head.loops + [l], nloops := head.nloops + 1);
    var a := Compile(e.cond, inner, start);
    var b := CompileScope(e.body, Drop(After(inner, a)), start + |a.code| + 2);
    ToldExpr(e.cond, inner, start);
    ToldScope(e.body, Drop(After(inner, a)), start + |a.code| + 2);
    var fold := Lowering.Fold(head, b.h, e.isArray, result);
    FoldTold(head, b.h, e.isArray, result);
    var test, back := JumpIfFalse(|b.code| + |fold| + 2), Loop(|a.code| + |b.code| + |fold| + 3);
    One(head, a.h, test);
    One(head, a.h, Pop);
    One(head, Less(b.h, 1), back);
    Join5(a.code, At(head, a.h, test), At(head, a.h, Pop), b.code, fold);
    Join3(a.code + At(head, a.h, test) + At(head, a.h, Pop) + b.code + fold, At(head, Less(b.h, 1), back),
        At(head, a.h, Pop));
    var code := WhileCode(e.isArray, head, result, start, a, b);
    PatchTold(code, start, head.nloops, start + |code|);
  }

  lemma {:induction false} ToldFor(e: Expr, c: Ctx, pos: nat)
    requires e.For? && CompileFor(e, c, pos).fits
    ensures Told(CompileFor(e, c, pos).code)
    decreases e, 4
  {
    hide Told, ForLoop, Enter, Dedup, HoistExpr, Prologue, Compile;
    var names := Dedup(HoistExpr(e.iter));
    var head := Enter(Up(c, c.h + 1), names);
    var a := Compile(e.iter, head, pos + 1 + |names|);
    var r := ForLoop(e, After(head, a), U8(c.h), pos + 2 + |names| + |a.code|);
    ToldExpr(e.iter, head, pos + 1 + |names|);
    ToldForLoop(e, After(head, a), U8(c.h), pos + 2 + |names| + |a.code|);
    PrologueTold(Up(c, c.h + 1), names);
    One(c, c.h, if e.isArray then MakeArray else PushNull);
    One(c, a.h, MakeIter);
    One(c, a.h, LoadLocal(U8(c.h)));
    var seed, prologue, load := Seed(c, e.isArray), Prologue(Up(c, c.h + 1), names), At(c, a.h, LoadLocal(U8(c.h)));
    Join5(seed, prologue, a.code, At(c, a.h, MakeIter), r.code);
    Join(seed + prologue + a.code + At(c, a.h, MakeIter) + r.code, load);
    var code := seed + prologue + a.code + At(c, a.h, MakeIter) + r.code + load;
    CloseTold(c, Result(code, a.locals, a.h + 1, a.ok && r.ok, a.fits && r.fits), 2);
  }

  lemma {:induction false} ToldForLoop(e: Expr, head: Ctx, result: nat, start: nat)
    requires e.For? && ForLoop(e, head, result, start).fits
    ensures Told(ForLoop(e, head, result, start).code)
    decreases e, 3
  {
    hide Told, CompileScope, Lowering.Fold, Patch, Iteration;
    var b := CompileScope(e.body, Iteration(e, head, result, start), start + 1);
    ToldScope(e.body, Iteration(e, head, result, start), start + 1);
    var fold := Lowering.Fold(head, b.h, e.isArray, result);
    FoldTold(head, b.h, e.isArray, result);
    var n := |b.code| + |fold| + 1;
    var pull := if e.second.None? then IterNext(n + 1) else IterNext2(n + 1);
    var unwind, back := At(head, Less(b.h, 1), Unwind(U8(head.h))), At(head, head.h, Loop(n + 2));
    One(head, head.h, pull);
    Join3(At(head, head.h, pull), b.code, fold);
    CutReset(head, Less(b.h, 1), head.h, n + 2);
    Join(At(head, head.h, pull) + b.code + fold, unwind + back);
    var code := ForCode(e, head, result, b);
    assert code == At(head, head.h, pull) + b.code + fold + (unwind + back);
    PatchTold(code, start, head.nloops, start + |code|);
  }

  lemma ToldProgram(program: Block, globals: seq<string>)
    requires CompileProgram(program, globals).fits
    ensures Told(CompileProgram(program, globals).code)
  {
    hide Told, CompileBlock, Enter, Dedup, HoistBlock, Prologue;
    var c := Initial(globals);
    var names := Dedup(HoistBlock(program));
    var r := CompileBlock(program, Enter(c, names), |names|);
    ToldBlock(program, Enter(c, names), |names|);
    PrologueTold(c, names);
    One(c, r.h, ReturnI);
    Join3(Prologue(c, names), r.code, At(c, r.h, ReturnI));
  }

  // ----- the theorem -----

  /** The tracker has not been told that the stack was cut. */
  predicate Untold(code: Code, i: int) {
    AfterCut(code, i) && code[i].h == code[i - 1].h && code[i - 1].h != code[i - 1].op.n
  }

  /** At every point of every run the stack is as high as the compiler tracked it for the next instruction, if
      and only if that is not the jump of a `break` or `continue` whose `Unwind` cut the stack: there it has
      the height it was cut to, and the tracker still the one before. The open try-frames are always those
      the compiler recorded, each leading to a handler compiled for the height it restores. */
  lemma TrackerIsExact(program: Block, w: World, closure: Value, heap: Heap, n: nat)
    requires w.p == CompileProgram(program, w.g.names).code && Compilable(program, w.g)
    requires Ran(w, Run(Start(closure, heap)), n).Run?
    ensures var s := Ran(w, Run(Start(closure, heap)), n).s;
      && 0 <= s.pc < |w.p| && FramesOk(w.p, s.tries, w.p[s.pc].tries)
      && (|s.stack| == w.p[s.pc].h <==> !Untold(w.p, s.pc))
      && (Untold(w.p, s.pc) ==> |s.stack| == w.p[s.pc - 1].op.n && (w.p[s.pc].op.Jump? || w.p[s.pc].op.Loop?))
  {
    hide CompileProgram, FramesOk, JumpsOkBlock;
    var s := Ran(w, Run(Start(closure, heap)), n).s;
    StackIsPredicted(program, w, closure, heap, n);
    ToldProgram(program, w.g.names);
    ProgramFlows(program, w);
    assert ToldAt(w.p, s.pc) && FlowOk(w.p, s.pc);
  }

  /** A `break` in a state of height `c.h`: the two last instructions are tracked at that height, so the tracker
      is right at the jump if and only if the loop's base is that height; what follows is tracked from one
      above it, whatever the jump's height was. */
  lemma BreakTracker(e: Expr, c: Ctx, pos: nat)
    requires e.Break? && c.loops != [] && Hoisted(e, c.hoisted.Keys)
    ensures var r := CompileBreak(e, c, pos);
      var l := c.loops[|c.loops| - 1];
      var k := |r.code| - 1;
      && k >= 1 && r.code[k - 1].op == Unwind(U8(l.base)) && r.code[k - 1].h == c.h && r.code[k].h == c.h
      && (r.code[k].h == r.code[k].live <==> l.base == c.h) && r.h == c.h + 1
  {
    var n := |c.loops| - 1;
    if e.arg.Some? {
      HoistedParts(e, c.hoisted.Keys);
      FlatExpr(e.arg.value, c.(loops := c.loops[..n]), pos);
    }
  }

  lemma ContinueTracker(c: Ctx, pos: nat)
    requires c.loops != []
    ensures var r := CompileContinue(c, pos);
      var l := c.loops[|c.loops| - 1];
      var k := |r.code| - 1;
      && k >= 1 && r.code[k - 1].op == Unwind(U8(l.base)) && r.code[k - 1].h == c.h && r.code[k].h == c.h
      && (r.code[k].h == r.code[k].live <==> l.base == c.h) && r.h == c.h + 1
  {
  }
}
