/** When the slots and heights that an accepted program needs fit the bytes of its instructions (src/vm/compiler.rs),
    said of the syntax tree alone: only how high the stack stands is counted, there is no code. */
module Room {
  import opened Ast
  import opened Wrappers
  import opened Machine
  import opened Lowering
  import opened LoweringShape
  import Meaning

  /** A place in the program: the height of the stack there, the heights of the loops around it, outermost first,
      and the names its scope has from the start. */
  datatype Depth = Depth(h: nat, bases: seq<nat>, hoisted: set<string>)

  /** The same place with `n` more values on the stack. */
  function Higher(d: Depth, n: nat): Depth {
    d.(h := d.h + n)
  }

  /** A declaration leaves its variable on the stack, unless the name has its place already. */
  function Kept(e: Expr, d: Depth): nat {
    if e.Decl? && e.name !in d.hoisted then 1 else 0
  }

  function NamesIn(names: seq<string>): set<string> {
    Meaning.ToSet(names)
  }

  /** Every variable has a slot below 256, and every loop that a jump leaves or repeats has its height below that.
      A loop keeps a slot for its result under its hoisted names, a `for` another one for its iterator. */
  predicate Fits(e: Expr, d: Depth)
    decreases e, 1
  {
    match e
    case Lit(_) => true
    case Ident(_) => true
    case Binary(op, l, r) => Fits(l, d) && Fits(r, if op == And || op == Or then d else Higher(d, 1))
    case Unary(_, x) => Fits(x, d)
    case Paren(b) => FitsBlock(b, d)
    case Scope(b) => FitsScope(b, d)
    case If(c, t, f) => Fits(c, d) && Fits(t, d) && Fits(f, d)
    case While(_, c, b) =>
      var names := Dedup(HoistExpr(c));
      var h := d.h + 1 + |names|;
      var head := Depth(h, d.bases + [h], NamesIn(names));
      h <= 255 && Fits(c, head) && FitsScope(b, head)
    case For(_, _, y, it, b) =>
      var names := Dedup(HoistExpr(it));
      var h := d.h + 2 + |names|;
      && h + 2 <= 255 && Fits(it, Depth(h - 1, d.bases, NamesIn(names)))
      && FitsScope(b, Depth(h + (if y.None? then 1 else 2), d.bases + [h], {}))
    case Break(arg) =>
      && d.bases != [] && d.bases[|d.bases| - 1] <= 255
      && (arg.Some? ==> Fits(arg.value, d.(bases := d.bases[..|d.bases| - 1])))
    case Continue => d.bases != [] && d.bases[|d.bases| - 1] <= 255
    case Decl(_, init) => Fits(init, d) && (Kept(e, d) == 1 ==> d.h <= 255)
    case Assign(_, op, x) => Fits(x, Higher(d, if op.Some? then 1 else 0))
    case Index(o, k) => Fits(o, d) && Fits(k, Higher(d, 1))
    case IndexAssign(o, k, op, x) =>
      Fits(o, d) && Fits(k, Higher(d, 1)) && Fits(x, Higher(d, if op.Some? then 3 else 2))
    case Try(x, h) =>
      && Fits(x, d)
      && (h.Some? ==> d.h <= 255 && FitsScope(h.value.body, Depth(d.h + 1, d.bases, {})))
    case Raise(x) => Fits(x, d)
    case Return(arg) => arg.Some? ==> Fits(arg.value, d)
  }

  predicate FitsBlock(b: Block, d: Depth)
    decreases b, 1
  {
    match b
    case End => true
    case Tail(e) => Fits(e, d)
    case Then(s, rest) => Fits(s, d) && FitsBlock(rest, Higher(d, Kept(s, d)))
  }

  predicate FitsScope(b: Block, d: Depth)
    decreases b, 2
  {
    var names := Dedup(HoistBlock(b));
    d.h + |names| <= 256 && FitsBlock(b, Depth(d.h + |names|, d.bases, NamesIn(names)))
  }

  /** What a program starts with: slot 0 holds the closure, the hoisted names follow. */
  predicate FitsProgram(program: Block) {
    FitsScope(program, Depth(1, [], {}))
  }

  // ----- what the compiler counts -----

  function BasesOf(loops: seq<LoopCtx>): (r: seq<nat>)
    ensures |r| == |loops| && forall i :: 0 <= i < |r| ==> r[i] == loops[i].base
  {
    seq(|loops|, i requires 0 <= i < |loops| => loops[i].base)
  }

  function DepthOf(c: Ctx): Depth {
    Depth(c.h, BasesOf(c.loops), c.hoisted.Keys)
  }

  lemma OneLoopLess(c: Ctx)
    requires c.loops != []
    ensures var n := |c.loops| - 1;
      DepthOf(c.(loops := c.loops[..n])) == DepthOf(c).(bases := DepthOf(c).bases[..n])
  {
  }

  lemma OneLoopMore(c: Ctx, l: LoopCtx)
    ensures BasesOf(c.loops + [l]) == BasesOf(c.loops) + [l.base]
  {
  }

  lemma {:induction false} ExprFits(e: Expr, c: Ctx, pos: nat)
    requires Placed(e, c.hoisted.Keys) && Compile(e, c, pos).ok
    ensures Compile(e, c, pos).fits <==> Fits(e, DepthOf(c))
    decreases e, 4
  {
    hide CompileScope, CompileIf, CompileWhile, CompileFor, CompileTry, CompileIndexAssign, CompileShort, CompileBinary,
      CompileBlock, CompileBreak, CompileDecl, CompileAssign, CompileIndex, CompileReturn, FitsBlock, FitsScope, Kept;
    match e
    case Lit(_) =>
    case Ident(_) =>
    case Binary(op, _, _) => if op == And || op == Or { ShortFits(e, c, pos); } else { BinaryFits(e, c, pos); }
    case Unary(_, x) => NestedFits(x, c, pos);
    case Paren(b) =>
      ParenPlaces(b, c.hoisted.Keys);
      BlockFits(b, c, pos);
    case Scope(b) => ScopeFits(b, c, pos);
    case If(_, _, _) => IfFits(e, c, pos);
    case While(_, _, _) => WhileFits(e, c, pos);
    case For(_, _, _, _, _) => ForFits(e, c, pos);
    case Break(_) => BreakFits(e, c, pos);
    case Continue =>
    case Decl(_, _) => DeclFits(e, c, pos);
    case Assign(_, _, _) => AssignFits(e, c, pos);
    case Index(_, _) => IndexFits(e, c, pos);
    case IndexAssign(_, _, _, _) => IndexAssignFits(e, c, pos);
    case Try(_, _) => TryFits(e, c, pos);
    case Raise(x) => NestedFits(x, c, pos);
    case Return(_) => ReturnFits(e, c, pos);
  }

  /** The same where all declarations are hoisted: the height grows by one. */
  lemma {:induction false} NestedFits(e: Expr, c: Ctx, pos: nat)
    requires Hoisted(e, c.hoisted.Keys) && Compile(e, c, pos).ok
    ensures Compile(e, c, pos).fits <==> Fits(e, DepthOf(c))
    ensures Flat(c, Compile(e, c, pos))
    decreases e, 5
  {
    hide Compile, Fits;
    FlatExpr(e, c, pos);
    ExprFits(e, c, pos);
  }

  lemma {:induction false} ParenPlaces(b: Block, hoisted: set<string>)
    requires forall x :: x in HoistParen(b) ==> x in hoisted
    ensures PlacedBlock(b, hoisted)
    decreases b
  {
    match b
    case End =>
    case Tail(e) => StillPlaced(e, hoisted);
    case Then(s, rest) =>
      StillPlaced(s, hoisted);
      ParenPlaces(rest, hoisted);
  }

  lemma StillPlaced(e: Expr, hoisted: set<string>)
    requires Hoisted(e, hoisted)
    ensures Placed(e, hoisted)
  {
  }

  lemma {:induction false} ShortFits(e: Expr, c: Ctx, pos: nat)
    requires e.Binary? && Hoisted(e, c.hoisted.Keys) && (e.op == And || e.op == Or) && CompileShort(e, c, pos).ok
    ensures CompileShort(e, c, pos).fits <==> Fits(e, DepthOf(c))
    decreases e, 3
  {
    hide Compile;
    NestedFits(e.lhs, c, pos);
    var a := Compile(e.lhs, c, pos);
    NestedFits(e.rhs, Drop(After(c, a)), pos + |a.code| + 2);
  }

  lemma {:induction false} BinaryFits(e: Expr, c: Ctx, pos: nat)
    requires e.Binary? && Hoisted(e, c.hoisted.Keys) && e.op != And && e.op != Or && CompileBinary(e, c, pos).ok
    ensures CompileBinary(e, c, pos).fits <==> Fits(e, DepthOf(c))
    decreases e, 3
  {
    hide Compile;
    NestedFits(e.lhs, c, pos);
    var a := Compile(e.lhs, c, pos);
    NestedFits(e.rhs, After(c, a), pos + |a.code|);
  }

  lemma {:induction false} IfFits(e: Expr, c: Ctx, pos: nat)
    requires e.If? && Hoisted(e, c.hoisted.Keys) && CompileIf(e, c, pos).ok
    ensures CompileIf(e, c, pos).fits <==> Fits(e, DepthOf(c))
    decreases e, 3
  {
    hide Compile;
    NestedFits(e.cond, c, pos);
    var a := Compile(e.cond, c, pos);
    var c1 := Drop(After(c, a));
    NestedFits(e.thn, c1, pos + |a.code| + 2);
    var b := Compile(e.thn, c1, pos + |a.code| + 2);
    NestedFits(e.els, Drop(After(c, b).(h := a.h)), pos + |a.code| + |b.code| + 4);
  }

  lemma {:induction false} BreakFits(e: Expr, c: Ctx, pos: nat)
    requires e.Break? && Hoisted(e, c.hoisted.Keys) && CompileBreak(e, c, pos).ok
    ensures CompileBreak(e, c, pos).fits <==> Fits(e, DepthOf(c))
    decreases e, 3
  {
    hide Compile;
    OneLoopLess(c);
    if e.arg.Some? {
      assert HoistExpr(e) == HoistExpr(e.arg.value);
      NestedFits(e.arg.value, c.(loops := c.loops[..|c.loops| - 1]), pos);
    }
  }

  lemma {:induction false} ReturnFits(e: Expr, c: Ctx, pos: nat)
    requires e.Return? && Hoisted(e, c.hoisted.Keys) && CompileReturn(e, c, pos).ok
    ensures CompileReturn(e, c, pos).fits <==> Fits(e, DepthOf(c))
    decreases e, 3
  {
    hide Compile;
    if e.result.Some? {
      assert HoistExpr(e) == HoistExpr(e.result.value);
      NestedFits(e.result.value, c, pos);
    }
  }

  lemma {:induction false} DeclFits(e: Expr, c: Ctx, pos: nat)
    requires e.Decl? && Hoisted(e.init, c.hoisted.Keys) && CompileDecl(e, c, pos).ok
    ensures CompileDecl(e, c, pos).fits <==> Fits(e, DepthOf(c))
    decreases e, 3
  {
    hide Compile, Declared;
    NestedFits(e.init, c, pos);
  }

  lemma {:induction false} AssignFits(e: Expr, c: Ctx, pos: nat)
    requires e.Assign? && Hoisted(e, c.hoisted.Keys) && CompileAssign(e, c, pos).ok
    ensures CompileAssign(e, c, pos).fits <==> Fits(e, DepthOf(c))
    decreases e, 3
  {
    hide Compile, Resolve;
    if e.aop.Some? {
      NestedFits(e.rhs, Up(c, c.h + 1), pos + 1);
    } else {
      NestedFits(e.rhs, c, pos);
    }
  }

  lemma {:induction false} IndexFits(e: Expr, c: Ctx, pos: nat)
    requires e.Index? && Hoisted(e, c.hoisted.Keys) && CompileIndex(e, c, pos).ok
    ensures CompileIndex(e, c, pos).fits <==> Fits(e, DepthOf(c))
    decreases e, 3
  {
    hide Compile;
    NestedFits(e.obj, c, pos);
    var a := Compile(e.obj, c, pos);
    NestedFits(e.key, After(c, a), pos + |a.code|);
  }

  lemma PartsHoisted(e: Expr, hoisted: set<string>)
    requires e.IndexAssign? && Hoisted(e, hoisted)
    ensures Hoisted(e.obj, hoisted) && Hoisted(e.key, hoisted) && Hoisted(e.rhs, hoisted)
  {
  }

  lemma {:induction false} IndexAssignFits(e: Expr, c: Ctx, pos: nat)
    requires e.IndexAssign? && Hoisted(e, c.hoisted.Keys) && CompileIndexAssign(e, c, pos).ok
    ensures CompileIndexAssign(e, c, pos).fits <==> Fits(e, DepthOf(c))
    decreases e, 3
  {
    hide Compile, Hoisted;
    PartsHoisted(e, c.hoisted.Keys);
    NestedFits(e.obj, c, pos);
    var a := Compile(e.obj, c, pos);
    NestedFits(e.key, After(c, a), pos + |a.code|);
    var b := Compile(e.key, After(c, a), pos + |a.code|);
    var cur := if e.iop.Some? then At(c, b.h, Dup2) + At(c, b.h + 2, IndexGet) else [];
    var c2 := After(c, b).(h := b.h + if e.iop.Some? then 1 else 0);
    NestedFits(e.rhs, c2, pos + |a.code| + |b.code| + |cur|);
  }

  lemma {:induction false} BlockFits(b: Block, c: Ctx, pos: nat)
    requires PlacedBlock(b, c.hoisted.Keys) && CompileBlock(b, c, pos).ok
    ensures CompileBlock(b, c, pos).fits <==> FitsBlock(b, DepthOf(c))
    decreases b, 2
  {
    hide Compile, Fits;
    match b
    case End =>
    case Tail(e) => ExprFits(e, c, pos);
    case Then(s, rest) =>
      ExprFits(s, c, pos);
      GrowsExpr(s, c, pos);
      var a := Compile(s, c, pos);
      BlockFits(rest, Drop(After(c, a)), pos + |a.code| + 1);
  }

  lemma {:induction false} ScopeFits(b: Block, c: Ctx, pos: nat)
    requires CompileScope(b, c, pos).ok
    ensures CompileScope(b, c, pos).fits <==> FitsScope(b, DepthOf(c))
    decreases b, 3
  {
    hide CompileBlock, HoistBlock, Dedup, FitsBlock, Prologue;
    var names := Dedup(HoistBlock(b));
    var inner := Enter(c, names);
    assert inner.hoisted.Keys == NamesIn(names);
    HoistBlockPlaces(b, inner.hoisted.Keys);
    BlockFits(b, inner, pos + |names|);
  }

  lemma {:induction false} WhileFits(e: Expr, c: Ctx, pos: nat)
    requires e.While? && CompileWhile(e, c, pos).ok
    ensures CompileWhile(e, c, pos).fits <==> Fits(e, DepthOf(c))
    decreases e, 3
  {
    hide Compile, CompileScope, HoistExpr, Dedup, Prologue, WhileLoop, FitsScope;
    var names := Dedup(HoistExpr(e.cond));
    var head := Enter(Up(c, c.h + 1), names);
    assert head.hoisted.Keys == NamesIn(names);
    LoopFits(e, head, U8(c.h), pos + 1 + |names|);
  }

  lemma {:induction false} LoopFits(e: Expr, head: Ctx, result: nat, start: nat)
    requires e.While? && Hoisted(e.cond, head.hoisted.Keys) && WhileLoop(e, head, result, start).ok
    ensures var d := Depth(head.h, BasesOf(head.loops) + [head.h], head.hoisted.Keys);
      WhileLoop(e, head, result, start).fits <==> Fits(e.cond, d) && FitsScope(e.body, d) && head.h <= 255
    decreases e, 2
  {
    hide Compile, CompileScope, WhileCode, Patch, Fits, FitsScope;
    var l := LoopCtx(head.nloops, result, head.h, e.isArray, start, |head.locals|);
    var inner := head.(loops := head.loops + [l], nloops := head.nloops + 1);
    OneLoopMore(head, l);
    NestedFits(e.cond, inner, start);
    var a := Compile(e.cond, inner, start);
    ScopeFits(e.body, Drop(After(inner, a)), start + |a.code| + 2);
  }

  lemma {:induction false} ForFits(e: Expr, c: Ctx, pos: nat)
    requires e.For? && CompileFor(e, c, pos).ok
    ensures CompileFor(e, c, pos).fits <==> Fits(e, DepthOf(c))
    decreases e, 3
  {
    hide Compile, CompileScope, HoistExpr, Dedup, Prologue, ForLoop, FitsScope;
    var names := Dedup(HoistExpr(e.iter));
    var head := Enter(Up(c, c.h + 1), names);
    assert head.hoisted.Keys == NamesIn(names);
    NestedFits(e.iter, head, pos + 1 + |names|);
    var a := Compile(e.iter, head, pos + 1 + |names|);
    IterationFits(e, After(head, a), U8(c.h), pos + 2 + |names| + |a.code|);
  }

  lemma {:induction false} IterationFits(e: Expr, head: Ctx, result: nat, start: nat)
    requires e.For? && ForLoop(e, head, result, start).ok
    ensures var d := Depth(head.h + (if e.second.None? then 1 else 2), BasesOf(head.loops) + [head.h], {});
      ForLoop(e, head, result, start).fits <==> FitsScope(e.body, d) && head.h + 2 <= 255
    decreases e, 2
  {
    hide Compile, CompileScope, ForCode, Patch, FitsScope;
    var l := LoopCtx(head.nloops, result, head.h, e.isArray, start, |head.locals|);
    OneLoopMore(head, l);
    var d := Iteration(e, head, result, start);
    assert d.hoisted.Keys == {} && DepthOf(d).bases == BasesOf(head.loops) + [head.h];
    ScopeFits(e.body, d, start + 1);
  }

  lemma {:induction false} TryFits(e: Expr, c: Ctx, pos: nat)
    requires e.Try? && Hoisted(e, c.hoisted.Keys) && CompileTry(e, c, pos).ok
    ensures CompileTry(e, c, pos).fits <==> Fits(e, DepthOf(c))
    decreases e, 3
  {
    hide Compile, CompileHandler, FitsScope;
    var inner := c.(tries := c.tries + [c.h]);
    NestedFits(e.attempt, inner, pos + 1);
    assert DepthOf(inner) == DepthOf(c);
    var a := Compile(e.attempt, inner, pos + 1);
    HandlerFits(e, After(c, a), pos + |a.code| + 3);
  }

  lemma {:induction false} HandlerFits(e: Expr, c: Ctx, pos: nat)
    requires e.Try? && CompileHandler(e.handler, c, pos).ok
    ensures CompileHandler(e.handler, c, pos).fits <==> (e.handler.Some? ==>
      c.h <= 256 && FitsScope(e.handler.value.body, Depth(c.h, BasesOf(c.loops), {})))
    decreases e, 2
  {
    hide CompileScope, FitsScope;
    match e.handler
    case None =>
    case Some(k) =>
      var inner := c.(locals := c.locals + [Named(k.param, U8(Less(c.h, 1)))], hoisted := map[],
                  scopeBase := |c.locals|);
      assert inner.hoisted.Keys == {};
      ScopeFits(k.body, inner, pos);
  }

  /** An accepted program is compiled without narrowing anything exactly if it fits. */
  lemma FitsExactly(program: Block, globals: seq<string>)
    requires CompileProgram(program, globals).ok
    ensures CompileProgram(program, globals).fits <==> FitsProgram(program)
  {
    hide CompileBlock, HoistBlock, Dedup, FitsBlock, Prologue;
    var c := Initial(globals);
    var names := Dedup(HoistBlock(program));
    var inner := Enter(c, names);
    assert inner.hoisted.Keys == NamesIn(names);
    HoistBlockPlaces(program, inner.hoisted.Keys);
    BlockFits(program, inner, |names|);
    assert BasesOf(inner.loops) == [];
  }
}
