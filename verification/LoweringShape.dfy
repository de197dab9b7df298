/** What the compiler's tracker promises about every expression, whatever the program does: a nested
    expression leaves the locals alone and adds one value; only a declaration at statement level
    adds a local, just under that value. */
module LoweringShape {
  import opened Ast
  import opened Wrappers
  import opened Machine
  import opened Lowering

  ghost predicate Grows(c: Ctx, r: Result) {
    && |c.locals| <= |r.locals| && r.locals[..|c.locals|] == c.locals
    && r.h == c.h + 1 + |r.locals| - |c.locals|
  }

  ghost predicate Flat(c: Ctx, r: Result) {
    r.locals == c.locals && r.h == c.h + 1
  }

  lemma {:induction false} FlatExpr(e: Expr, c: Ctx, pos: nat)
    requires Hoisted(e, c.hoisted.Keys)
    ensures Flat(c, Compile(e, c, pos))
    decreases e, 4
  {
    hide CompileScope, CompileIf, CompileWhile, CompileFor, CompileTry, CompileIndexAssign, CompileShort, CompileBinary,
      CompileBlock, CompileBreak, CompileDecl, CompileAssign, CompileIndex, CompileReturn;
    match e
    case Lit(_) =>
    case Ident(_) =>
    case Binary(_, _, _) => FlatBinary(e, c, pos);
    case Unary(_, x) => FlatExpr(x, c, pos);
    case Paren(b) => FlatParen(b, c, pos);
    case Scope(b) => FlatScope(b, c, pos);
    case If(_, _, _) => FlatIf(e, c, pos);
    case While(_, _, _) => FlatWhile(e, c, pos);
    case For(_, _, _, _, _) => FlatFor(e, c, pos);
    case Break(_) => FlatBreak(e, c, pos);
    case Continue =>
    case Decl(_, _) => FlatDecl(e, c, pos);
    case Assign(_, _, _) => FlatAssign(e, c, pos);
    case Index(_, _) => FlatIndex(e, c, pos);
    case IndexAssign(_, _, _, _) => FlatIndexAssign(e, c, pos);
    case Try(attempt, handler) => FlatTry(e, c, pos);
    case Raise(x) => FlatExpr(x, c, pos);
    case Return(_) => FlatReturn(e, c, pos);
  }

  lemma {:induction false} FlatBreak(e: Expr, c: Ctx, pos: nat)
    requires e.Break? && Hoisted(e, c.hoisted.Keys)
    ensures Flat(c, CompileBreak(e, c, pos))
    decreases e, 3
  {
    hide Compile;
    if e.arg.Some? && c.loops != [] {
      assert HoistExpr(e) == HoistExpr(e.arg.value);
      FlatExpr(e.arg.value, c.(loops := c.loops[..|c.loops| - 1]), pos);
    }
  }

  lemma {:induction false} FlatReturn(e: Expr, c: Ctx, pos: nat)
    requires e.Return? && Hoisted(e, c.hoisted.Keys)
    ensures Flat(c, CompileReturn(e, c, pos))
    decreases e, 3
  {
    hide Compile;
    match e
    case Return(arg) =>
      if arg.Some? {
        assert HoistExpr(e) == HoistExpr(arg.value);
        FlatExpr(arg.value, c, pos);
      }
  }

  lemma {:induction false} FlatDecl(e: Expr, c: Ctx, pos: nat)
    requires e.Decl? && Hoisted(e, c.hoisted.Keys)
    ensures Flat(c, CompileDecl(e, c, pos))
    decreases e, 3
  {
    hide Compile;
    assert e.name in HoistExpr(e);
    FlatExpr(e.init, c, pos);
  }

  lemma {:induction false} FlatAssign(e: Expr, c: Ctx, pos: nat)
    requires e.Assign? && Hoisted(e, c.hoisted.Keys)
    ensures Flat(c, CompileAssign(e, c, pos))
    decreases e, 3
  {
    hide Compile;
    FlatExpr(e.rhs, Up(c, c.h + 1), pos + 1);
    FlatExpr(e.rhs, c, pos);
  }

  lemma {:induction false} FlatIndex(e: Expr, c: Ctx, pos: nat)
    requires e.Index? && Hoisted(e, c.hoisted.Keys)
    ensures Flat(c, CompileIndex(e, c, pos))
    decreases e, 3
  {
    hide Compile;
    FlatExpr(e.obj, c, pos);
    var a := Compile(e.obj, c, pos);
    FlatExpr(e.key, After(c, a), pos + |a.code|);
  }

  lemma {:induction false} FlatBinary(e: Expr, c: Ctx, pos: nat)
    requires e.Binary? && Hoisted(e, c.hoisted.Keys)
    ensures Flat(c, CompileBinary(e, c, pos)) && Flat(c, CompileShort(e, c, pos))
    decreases e, 3
  {
    hide Compile;
    FlatExpr(e.lhs, c, pos);
    var a := Compile(e.lhs, c, pos);
    FlatExpr(e.rhs, Drop(After(c, a)), pos + |a.code| + 2);
    FlatExpr(e.rhs, After(c, a), pos + |a.code|);
  }

  lemma {:induction false} FlatIf(e: Expr, c: Ctx, pos: nat)
    requires e.If? && Hoisted(e, c.hoisted.Keys)
    ensures Flat(c, CompileIf(e, c, pos))
    decreases e, 3
  {
    hide Compile;
    FlatExpr(e.cond, c, pos);
    var a := Compile(e.cond, c, pos);
    FlatExpr(e.thn, Drop(After(c, a)), pos + |a.code| + 2);
    var b := Compile(e.thn, Drop(After(c, a)), pos + |a.code| + 2);
    FlatExpr(e.els, Drop(After(c, b).(h := a.h)), pos + |a.code| + |b.code| + 4);
  }

  lemma {:induction false} FlatIndexAssign(e: Expr, c: Ctx, pos: nat)
    requires e.IndexAssign? && Hoisted(e, c.hoisted.Keys)
    ensures Flat(c, CompileIndexAssign(e, c, pos))
    decreases e, 3
  {
    hide Compile;
    FlatExpr(e.obj, c, pos);
    var a := Compile(e.obj, c, pos);
    FlatExpr(e.key, After(c, a), pos + |a.code|);
    var b := Compile(e.key, After(c, a), pos + |a.code|);
    var cur := if e.iop.Some? then At(c, b.h, Dup2) + At(c, b.h + 2, IndexGet) else [];
    FlatExpr(e.rhs, After(c, b).(h := b.h + if e.iop.Some? then 1 else 0), pos + |a.code| + |b.code| + |cur|);
  }

  lemma {:induction false} FlatTry(e: Expr, c: Ctx, pos: nat)
    requires e.Try? && Hoisted(e, c.hoisted.Keys)
    ensures Flat(c, CompileTry(e, c, pos))
    decreases e, 3
  {
    hide Compile, CompileHandler;
    FlatExpr(e.attempt, c.(tries := c.tries + [c.h]), pos + 1);
    var a := Compile(e.attempt, c.(tries := c.tries + [c.h]), pos + 1);
    FlatHandler(e.handler, After(c, a), pos + |a.code| + 3);
  }

  lemma {:induction false} FlatParen(b: Block, c: Ctx, pos: nat)
    requires forall x :: x in HoistParen(b) ==> x in c.hoisted.Keys
    ensures Flat(c, CompileBlock(b, c, pos))
    decreases b, 2
  {
    match b
    case End =>
    case Tail(e) => FlatExpr(e, c, pos);
    case Then(s, rest) =>
      FlatExpr(s, c, pos);
      var a := Compile(s, c, pos);
      FlatParen(rest, Drop(After(c, a)), pos + |a.code| + 1);
  }

  lemma {:induction false} GrowsExpr(e: Expr, c: Ctx, pos: nat)
    requires Placed(e, c.hoisted.Keys)
    ensures Grows(c, Compile(e, c, pos))
    ensures e.Decl? && e.name !in c.hoisted ==> Compile(e, c, pos).locals == c.locals + [Named(e.name, U8(c.h))]
    ensures !e.Decl? || e.name in c.hoisted ==> Flat(c, Compile(e, c, pos))
    decreases e, 5
  {
    if e.Decl? {
      FlatExpr(e.init, c, pos);
    } else {
      FlatExpr(e, c, pos);
    }
  }

  lemma {:induction false} GrowsBlock(b: Block, c: Ctx, pos: nat)
    requires PlacedBlock(b, c.hoisted.Keys)
    ensures Grows(c, CompileBlock(b, c, pos))
    decreases b, 2
  {
    match b
    case End =>
    case Tail(e) => GrowsExpr(e, c, pos);
    case Then(s, rest) =>
      GrowsExpr(s, c, pos);
      var a := Compile(s, c, pos);
      GrowsBlock(rest, Drop(After(c, a)), pos + |a.code| + 1);
  }

  lemma {:induction false} FlatScope(b: Block, c: Ctx, pos: nat)
    ensures Flat(c, CompileScope(b, c, pos))
    decreases b, 3
  {
    hide CompileBlock, HoistBlock, Dedup;
    var names := Dedup(HoistBlock(b));
    HoistBlockPlaces(b, Enter(c, names).hoisted.Keys);
    GrowsBlock(b, Enter(c, names), pos + |names|);
  }

  lemma {:induction false} FlatHandler(handler: Option<Catch>, c: Ctx, pos: nat)
    requires c.h >= 1
    ensures CompileHandler(handler, c, pos).locals == c.locals && CompileHandler(handler, c, pos).h == c.h
    decreases handler, 4
  {
    hide CompileScope;
    if handler.Some? {
      var k := handler.value;
      var inner := c.(locals := c.locals + [Named(k.param, U8(c.h - 1))], hoisted := map[], scopeBase := |c.locals|);
      FlatScope(k.body, inner, pos);
    }
  }

  lemma {:induction false} FlatWhile(e: Expr, c: Ctx, pos: nat)
    requires e.While?
    ensures Flat(c, CompileWhile(e, c, pos))
    decreases e, 3
  {
    hide HoistExpr, Dedup, Compile, CompileScope, Prologue, SlotMap, PrologueLocals;
    var names := Dedup(HoistExpr(e.cond));
    var head := Enter(Up(c, c.h + 1), names);
    FlatWhileLoop(e, head, U8(c.h), pos + 1 + |names|);
  }

  lemma {:induction false} FlatWhileLoop(e: Expr, head: Ctx, result: nat, start: nat)
    requires e.While? && Hoisted(e.cond, head.hoisted.Keys)
    ensures WhileLoop(e, head, result, start).locals == head.locals && WhileLoop(e, head, result, start).h == head.h
    decreases e, 2
  {
    hide Compile, CompileScope, HoistExpr, WhileCode, Patch, PatchCell;
    var l := LoopCtx(head.nloops, result, head.h, e.isArray, start, |head.locals|);
    var inner := head.(loops := head.loops + [l], nloops := head.nloops + 1);
    FlatExpr(e.cond, inner, start);
    var a := Compile(e.cond, inner, start);
    FlatScope(e.body, Drop(After(inner, a)), start + |a.code| + 2);
  }

  lemma {:induction false} FlatFor(e: Expr, c: Ctx, pos: nat)
    requires e.For?
    ensures Flat(c, CompileFor(e, c, pos))
    decreases e, 3
  {
    hide ForLoop, HoistExpr, Dedup, Prologue, SlotMap, PrologueLocals, Compile;
    var names := Dedup(HoistExpr(e.iter));
    var head := Enter(Up(c, c.h + 1), names);
    FlatExpr(e.iter, head, pos + 1 + |names|);
    var r := CompileFor(e, c, pos);
    assert |head.locals| == |c.locals| + |names| && head.h == c.h + 1 + |names|;
  }
}
