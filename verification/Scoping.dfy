/** Which programs the compiler accepts (src/vm/compiler.rs), said of the syntax tree alone: no code, no slots and
    no heights. */
module Scoping {
  import opened Ast
  import opened Wrappers
  import opened Machine
  import opened Lowering
  import Meaning

  /** What a place in the program can see: the names of the scopes around it, those of its own scope so far,
      which of these are there from the start, how many loops a jump could leave, and the globals. */
  datatype Sight = Sight(outer: set<string>, own: seq<string>, hoisted: set<string>, loops: nat, globals: seq<string>)

  /** A scope opened here, with these names from the start; `fixed` if none of them is assigned by a `:=`. */
  function Opened(v: Sight, names: seq<string>, fixed: bool := false): Sight {
    v.(outer := v.outer + Meaning.ToSet(v.own), own := names, hoisted := if fixed then {} else Meaning.ToSet(names))
  }

  /** The names that `e` adds to its scope: those it declares that are not hoisted. */
  function Adds(e: Expr, hoisted: set<string>): seq<string> {
    match e
    case Decl(x, init) => Adds(init, hoisted) + if x in hoisted then [] else [x]
    case Binary(_, l, r) => Adds(l, hoisted) + Adds(r, hoisted)
    case Unary(_, x) => Adds(x, hoisted)
    case Paren(b) => AddsBlock(b, hoisted)
    case If(c, t, f) => Adds(c, hoisted) + Adds(t, hoisted) + Adds(f, hoisted)
    case Break(arg) => if arg.Some? then Adds(arg.value, hoisted) else []
    case Assign(_, _, x) => Adds(x, hoisted)
    case Index(o, k) => Adds(o, hoisted) + Adds(k, hoisted)
    case IndexAssign(o, k, _, x) => Adds(o, hoisted) + Adds(k, hoisted) + Adds(x, hoisted)
    case Try(x, _) => Adds(x, hoisted)
    case Raise(x) => Adds(x, hoisted)
    case Return(arg) => if arg.Some? then Adds(arg.value, hoisted) else []
    case _ => []
  }

  function AddsBlock(b: Block, hoisted: set<string>): seq<string> {
    match b
    case End => []
    case Tail(e) => Adds(e, hoisted)
    case Then(s, rest) => Adds(s, hoisted) + AddsBlock(rest, hoisted)
  }

  /** What is seen after `e`. */
  function Past(v: Sight, e: Expr): Sight {
    v.(own := v.own + Adds(e, v.hoisted))
  }

  predicate Local(v: Sight, x: string) {
    x in v.outer || x in v.own
  }

  /** A name is read where it is visible, assigned where it is a local, and declared once in its scope; `break` and
      `continue` stand in a loop, the value of a `break` in one more; the variables of a `for` are different. No
      scope closes over more than 255 slots, a loop having one of its own for its result and a `for` two. */
  predicate WellScoped(e: Expr, v: Sight)
    decreases e, 1
  {
    match e
    case Lit(_) => true
    case Ident(x) => Local(v, x) || x in v.globals
    case Binary(_, l, r) => WellScoped(l, v) && WellScoped(r, Past(v, l))
    case Unary(_, x) => WellScoped(x, v)
    case Paren(b) => WellScopedBlock(b, v)
    case Scope(b) => WellScopedScope(b, v)
    case If(c, t, f) => WellScoped(c, v) && WellScoped(t, Past(v, c)) && WellScoped(f, Past(Past(v, c), t))
    case While(_, c, b) =>
      var head := Opened(v, Dedup(HoistExpr(c))).(loops := v.loops + 1);
      WellScoped(c, head) && WellScopedScope(b, Past(head, c)) && |Past(head, c).own| + 1 <= 255
    case For(_, x, y, it, b) =>
      var head := Opened(v, Dedup(HoistExpr(it)));
      var vars := if y.None? then [x] else [x, y.value];
      && WellScoped(it, head) && y != Some(x) && |Past(head, it).own| + 2 <= 255
      && WellScopedScope(b, Opened(Past(head, it), vars, true).(loops := v.loops + 1))
    case Break(arg) => v.loops > 0 && (arg.Some? ==> WellScoped(arg.value, v.(loops := v.loops - 1)))
    case Continue => v.loops > 0
    case Decl(x, init) => WellScoped(init, v) && (x in v.hoisted || x !in Past(v, init).own)
    case Assign(x, _, y) => Local(v, x) && WellScoped(y, v)
    case Index(o, k) => WellScoped(o, v) && WellScoped(k, Past(v, o))
    case IndexAssign(o, k, _, x) =>
      WellScoped(o, v) && WellScoped(k, Past(v, o)) && WellScoped(x, Past(Past(v, o), k))
    case Try(x, h) =>
      WellScoped(x, v) && (h.Some? ==> WellScopedScope(h.value.body, Opened(Past(v, x), [h.value.param], true)))
    case Raise(x) => WellScoped(x, v)
    case Return(arg) => arg.Some? ==> WellScoped(arg.value, v)
  }

  predicate WellScopedBlock(b: Block, v: Sight)
    decreases b, 1
  {
    match b
    case End => true
    case Tail(e) => WellScoped(e, v)
    case Then(s, rest) => WellScoped(s, v) && WellScopedBlock(rest, Past(v, s))
  }

  predicate WellScopedScope(b: Block, v: Sight)
    decreases b, 2
  {
    var inner := Opened(v, Dedup(HoistBlock(b)));
    WellScopedBlock(b, inner) && |inner.own| + |AddsBlock(b, inner.hoisted)| <= 255
  }

  /** What a program sees at its start. */
  function Outermost(program: Block, globals: seq<string>): Sight {
    Opened(Sight({}, [], {}, 0, globals), Dedup(HoistBlock(program)))
  }

  // ----- what the compiler sees -----

  function Names(locals: seq<Named<nat>>): (r: seq<string>)
    ensures |r| == |locals| && forall i :: 0 <= i < |r| ==> r[i] == locals[i].name
  {
    seq(|locals|, i requires 0 <= i < |locals| => locals[i].name)
  }

  function SightOf(c: Ctx): Sight
    requires c.scopeBase <= |c.locals|
  {
    Sight(Meaning.ToSet(Names(c.locals[..c.scopeBase])), Names(c.locals[c.scopeBase..]), c.hoisted.Keys, |c.loops|,
          c.globals)
  }

  lemma LocalIsFound(c: Ctx, x: string)
    requires c.scopeBase <= |c.locals|
    ensures Local(SightOf(c), x) <==> Newest(c.locals, x).Some?
    ensures x in SightOf(c).own <==> Declared(c, x)
  {
    var outer, own := Names(c.locals[..c.scopeBase]), Names(c.locals[c.scopeBase..]);
    assert forall i :: 0 <= i < c.scopeBase ==> outer[i] == c.locals[i].name;
    assert forall i :: c.scopeBase <= i < |c.locals| ==> own[i - c.scopeBase] == c.locals[i].name;
  }

  /** The compiler accepts what is well scoped, and the locals grow by the names added. */
  predicate Agrees(e: Expr, c: Ctx, r: Result)
    requires c.scopeBase <= |c.locals|
  {
    (r.ok <==> WellScoped(e, SightOf(c))) && (r.ok ==> Names(r.locals) == Names(c.locals) + Adds(e, c.hoisted.Keys))
  }

  /** The same context further on, as far as names go. */
  lemma Further(c: Ctx, d: Ctx, e: Expr)
    requires c.scopeBase <= |c.locals| && d.scopeBase == c.scopeBase && d.hoisted == c.hoisted && d.globals == c.globals
    requires Names(d.locals) == Names(c.locals) + Adds(e, c.hoisted.Keys) && |d.loops| == |c.loops|
    ensures d.scopeBase <= |d.locals| && SightOf(d) == Past(SightOf(c), e)
  {
    hide Adds;
    var more := Adds(e, c.hoisted.Keys);
    assert |Names(d.locals)| == |Names(c.locals)| + |more|;
    assert Names(d.locals[..d.scopeBase]) == Names(d.locals)[..d.scopeBase] == Names(c.locals)[..c.scopeBase]
        == Names(c.locals[..c.scopeBase]);
    assert Names(d.locals[d.scopeBase..]) == Names(d.locals)[d.scopeBase..] == Names(c.locals)[c.scopeBase..] + more
        == Names(c.locals[c.scopeBase..]) + more;
  }

  /** The same of a block. */
  predicate AgreesBlock(b: Block, c: Ctx, r: Result)
    requires c.scopeBase <= |c.locals|
  {
    && (r.ok <==> WellScopedBlock(b, SightOf(c)))
    && (r.ok ==> Names(r.locals) == Names(c.locals) + AddsBlock(b, c.hoisted.Keys))
  }

  lemma {:induction false} CompileAgrees(e: Expr, c: Ctx, pos: nat)
    requires c.scopeBase <= |c.locals|
    ensures Agrees(e, c, Compile(e, c, pos))
    decreases e, 4
  {
    hide CompileScope, CompileIf, CompileWhile, CompileFor, CompileTry, CompileIndexAssign, CompileShort, CompileBinary,
      CompileBlock, CompileBreak, CompileDecl, CompileAssign, CompileIndex, CompileReturn, Names, SightOf;
    match e
    case Lit(_) =>
    case Ident(x) =>
      LocalIsFound(c, x);
      SeesLoops(c);
    case Binary(_, _, _) => BinaryAgrees(e, c, pos);
    case Unary(_, x) => CompileAgrees(x, c, pos);
    case Paren(b) => BlockAgrees(b, c, pos);
    case Scope(b) => ScopeAgrees(b, c, pos);
    case If(_, _, _) => IfAgrees(e, c, pos);
    case While(_, _, _) => WhileAgrees(e, c, pos);
    case For(_, _, _, _, _) => ForAgrees(e, c, pos);
    case Break(_) => BreakAgrees(e, c, pos);
    case Continue => SeesLoops(c);
    case Decl(_, _) => DeclAgrees(e, c, pos);
    case Assign(_, _, _) => AssignAgrees(e, c, pos);
    case Index(_, _) => IndexAgrees(e, c, pos);
    case IndexAssign(_, _, _, _) => IndexAssignAgrees(e, c, pos);
    case Try(_, _) => TryAgrees(e, c, pos);
    case Raise(x) => CompileAgrees(x, c, pos);
    case Return(arg) => ReturnAgrees(e, c, pos);
  }

  lemma SeesLoops(c: Ctx)
    requires c.scopeBase <= |c.locals|
    ensures SightOf(c).loops == |c.loops| && SightOf(c).globals == c.globals && SightOf(c).hoisted == c.hoisted.Keys
    ensures SightOf(c).own == Names(c.locals)[c.scopeBase..]
  {
  }

  lemma {:induction false} BinaryAgrees(e: Expr, c: Ctx, pos: nat)
    requires c.scopeBase <= |c.locals| && e.Binary?
    ensures Agrees(e, c, CompileShort(e, c, pos)) && Agrees(e, c, CompileBinary(e, c, pos))
    decreases e, 3
  {
    hide Compile, Names, SightOf;
    CompileAgrees(e.lhs, c, pos);
    var a := Compile(e.lhs, c, pos);
    if a.ok {
      Further(c, After(c, a), e.lhs);
      Further(c, Drop(After(c, a)), e.lhs);
      CompileAgrees(e.rhs, After(c, a), pos + |a.code|);
      CompileAgrees(e.rhs, Drop(After(c, a)), pos + |a.code| + 2);
    }
  }

  lemma {:induction false} IfAgrees(e: Expr, c: Ctx, pos: nat)
    requires c.scopeBase <= |c.locals| && e.If?
    ensures Agrees(e, c, CompileIf(e, c, pos))
    decreases e, 3
  {
    hide Compile, Names, SightOf;
    CompileAgrees(e.cond, c, pos);
    var a := Compile(e.cond, c, pos);
    if a.ok {
      var c1 := Drop(After(c, a));
      Further(c, c1, e.cond);
      CompileAgrees(e.thn, c1, pos + |a.code| + 2);
      var b := Compile(e.thn, c1, pos + |a.code| + 2);
      if b.ok {
        var c2 := Drop(After(c, b).(h := a.h));
        Further(c1, c2, e.thn);
        CompileAgrees(e.els, c2, pos + |a.code| + |b.code| + 4);
      }
    }
  }

  lemma {:induction false} BreakAgrees(e: Expr, c: Ctx, pos: nat)
    requires c.scopeBase <= |c.locals| && e.Break?
    ensures Agrees(e, c, CompileBreak(e, c, pos))
    decreases e, 3
  {
    hide Compile, Names;
    if c.loops != [] && e.arg.Some? {
      CompileAgrees(e.arg.value, c.(loops := c.loops[..|c.loops| - 1]), pos);
    }
  }

  lemma {:induction false} ReturnAgrees(e: Expr, c: Ctx, pos: nat)
    requires c.scopeBase <= |c.locals| && e.Return?
    ensures Agrees(e, c, CompileReturn(e, c, pos))
    decreases e, 3
  {
    hide Compile, Names, SightOf;
    if e.result.Some? {
      CompileAgrees(e.result.value, c, pos);
    }
  }

  lemma {:induction false} DeclAgrees(e: Expr, c: Ctx, pos: nat)
    requires c.scopeBase <= |c.locals| && e.Decl?
    ensures Agrees(e, c, CompileDecl(e, c, pos))
    decreases e, 3
  {
    hide Compile, SightOf, Declared;
    CompileAgrees(e.init, c, pos);
    SeesLoops(c);
    var a := Compile(e.init, c, pos);
    if a.ok {
      Further(c, After(c, a), e.init);
      LocalIsFound(After(c, a), e.name);
    }
  }

  lemma {:induction false} AssignAgrees(e: Expr, c: Ctx, pos: nat)
    requires c.scopeBase <= |c.locals| && e.Assign?
    ensures Agrees(e, c, CompileAssign(e, c, pos))
    decreases e, 3
  {
    hide Compile, Names, Local;
    LocalIsFound(c, e.name);
    CompileAgrees(e.rhs, c, pos);
    CompileAgrees(e.rhs, Up(c, c.h + 1), pos + 1);
  }

  lemma {:induction false} IndexAgrees(e: Expr, c: Ctx, pos: nat)
    requires c.scopeBase <= |c.locals| && e.Index?
    ensures Agrees(e, c, CompileIndex(e, c, pos))
    decreases e, 3
  {
    hide Compile, Names, SightOf;
    CompileAgrees(e.obj, c, pos);
    var a := Compile(e.obj, c, pos);
    if a.ok {
      Further(c, After(c, a), e.obj);
      CompileAgrees(e.key, After(c, a), pos + |a.code|);
    }
  }

  lemma {:induction false} IndexAssignAgrees(e: Expr, c: Ctx, pos: nat)
    requires c.scopeBase <= |c.locals| && e.IndexAssign?
    ensures Agrees(e, c, CompileIndexAssign(e, c, pos))
    decreases e, 3
  {
    hide Compile, Names, SightOf;
    CompileAgrees(e.obj, c, pos);
    var a := Compile(e.obj, c, pos);
    if a.ok {
      var c1 := After(c, a);
      Further(c, c1, e.obj);
      CompileAgrees(e.key, c1, pos + |a.code|);
      var b := Compile(e.key, c1, pos + |a.code|);
      if b.ok {
        var cur := if e.iop.Some? then At(c, b.h, Dup2) + At(c, b.h + 2, IndexGet) else [];
        var c2 := After(c, b).(h := b.h + if e.iop.Some? then 1 else 0);
        Further(c1, c2, e.key);
        CompileAgrees(e.rhs, c2, pos + |a.code| + |b.code| + |cur|);
      }
    }
  }

  lemma {:induction false} BlockAgrees(b: Block, c: Ctx, pos: nat)
    requires c.scopeBase <= |c.locals|
    ensures AgreesBlock(b, c, CompileBlock(b, c, pos))
    decreases b, 2
  {
    hide Compile, Names, SightOf;
    match b
    case End =>
    case Tail(e) => CompileAgrees(e, c, pos);
    case Then(s, rest) =>
      CompileAgrees(s, c, pos);
      var a := Compile(s, c, pos);
      if a.ok {
        Further(c, Drop(After(c, a)), s);
        BlockAgrees(rest, Drop(After(c, a)), pos + |a.code| + 1);
      }
  }

  /** Entering a scope whose names are the given locals. */
  lemma Entered(c: Ctx, d: Ctx, names: seq<string>, fixed: bool)
    requires c.scopeBase <= |c.locals| && d.scopeBase == |c.locals| && Names(d.locals) == Names(c.locals) + names
    requires d.hoisted.Keys == (if fixed then {} else Meaning.ToSet(names)) && d.globals == c.globals
    ensures d.scopeBase <= |d.locals|
    ensures SightOf(d) == Opened(SightOf(c), names, fixed).(loops := |d.loops|)
  {
    NamesSplit(d.locals, |c.locals|);
    NamesSplit(c.locals, c.scopeBase);
    var a, b, n := Names(d.locals[..d.scopeBase]), Names(d.locals[d.scopeBase..]), |c.locals|;
    assert a == (a + b)[..n] && b == (a + b)[n..];
    assert a == (Names(c.locals) + names)[..n] && b == (Names(c.locals) + names)[n..];
    assert a == Names(c.locals) && b == names;
  }

  lemma NamesSplit(locals: seq<Named<nat>>, n: nat)
    requires n <= |locals|
    ensures Names(locals) == Names(locals[..n]) + Names(locals[n..])
  {
  }

  lemma EntersHoisted(c: Ctx, names: seq<string>)
    requires c.scopeBase <= |c.locals|
    ensures var d := Enter(c, names); d.scopeBase <= |d.locals| && SightOf(d) == Opened(SightOf(c), names)
  {
    var d := Enter(c, names);
    assert Names(d.locals) == Names(c.locals) + names;
    assert d.hoisted.Keys == Meaning.ToSet(names);
    Entered(c, d, names, false);
  }

  /** How many locals a scope has at its end. */
  lemma OwnCount(c: Ctx, d: Ctx, more: seq<string>, locals: seq<Named<nat>>)
    requires d.scopeBase == |c.locals| <= |d.locals| && Names(locals) == Names(d.locals) + more
    ensures Less(|locals|, |c.locals|) == |SightOf(d).own| + |more|
  {
    assert |Names(locals)| == |d.locals| + |more|;
  }

  lemma {:induction false} ScopeAgrees(b: Block, c: Ctx, pos: nat)
    requires c.scopeBase <= |c.locals|
    ensures var r := CompileScope(b, c, pos); r.locals == c.locals && (r.ok <==> WellScopedScope(b, SightOf(c)))
    decreases b, 3
  {
    hide CompileBlock, Names, SightOf, Enter, HoistBlock, Dedup;
    var names := Dedup(HoistBlock(b));
    var inner := Enter(c, names);
    EntersHoisted(c, names);
    BlockAgrees(b, inner, pos + |names|);
    var r := CompileBlock(b, inner, pos + |names|);
    EnterBase(c, names);
    if r.ok {
      OwnCount(c, inner, AddsBlock(b, inner.hoisted.Keys), r.locals);
    }
  }

  lemma EnterBase(c: Ctx, names: seq<string>)
    ensures var d := Enter(c, names);
      d.scopeBase == |c.locals| <= |d.locals| && d.loops == c.loops && d.hoisted.Keys == Meaning.ToSet(names)
  {
  }

  lemma {:induction false} WhileAgrees(e: Expr, c: Ctx, pos: nat)
    requires c.scopeBase <= |c.locals| && e.While?
    ensures Agrees(e, c, CompileWhile(e, c, pos))
    decreases e, 3
  {
    hide Compile, CompileScope, Names, SightOf, Enter, HoistExpr, Dedup, WhileLoop, Prologue;
    var names := Dedup(HoistExpr(e.cond));
    var up := Up(c, c.h + 1);
    var head := Enter(up, names);
    SameSight(c, up);
    EntersHoisted(up, names);
    EnterBase(up, names);
    LoopAgrees(e, head, U8(c.h), pos + 1 + |names|);
    var r := WhileLoop(e, head, U8(c.h), pos + 1 + |names|);
    SeesLoops(c);
    SeesLoops(head);
    if r.ok {
      OwnCount(c, head, Adds(e.cond, head.hoisted.Keys), r.locals);
    }
  }

  lemma SameSight(c: Ctx, d: Ctx)
    requires c.scopeBase == d.scopeBase <= |c.locals| && c.locals == d.locals && c.hoisted == d.hoisted
    requires |c.loops| == |d.loops| && c.globals == d.globals
    ensures SightOf(c) == SightOf(d)
  {
  }

  lemma {:induction false} LoopAgrees(e: Expr, head: Ctx, result: nat, start: nat)
    requires head.scopeBase <= |head.locals| && e.While?
    ensures var r := WhileLoop(e, head, result, start); var v := SightOf(head).(loops := |head.loops| + 1);
      && (r.ok <==> WellScoped(e.cond, v) && WellScopedScope(e.body, Past(v, e.cond)))
      && (r.ok ==> Names(r.locals) == Names(head.locals) + Adds(e.cond, head.hoisted.Keys))
    decreases e, 2
  {
    hide Compile, CompileScope, Names, Patch, WhileCode;
    var l := LoopCtx(head.nloops, result, head.h, e.isArray, start, |head.locals|);
    var inner := head.(loops := head.loops + [l], nloops := head.nloops + 1);
    assert SightOf(inner) == SightOf(head).(loops := |head.loops| + 1);
    CompileAgrees(e.cond, inner, start);
    var a := Compile(e.cond, inner, start);
    if a.ok {
      var d := Drop(After(inner, a));
      Further(inner, d, e.cond);
      ScopeAgrees(e.body, d, start + |a.code| + 2);
    }
  }

  lemma {:induction false} ForAgrees(e: Expr, c: Ctx, pos: nat)
    requires c.scopeBase <= |c.locals| && e.For?
    ensures Agrees(e, c, CompileFor(e, c, pos))
    decreases e, 3
  {
    hide Compile, CompileScope, Names, SightOf, Enter, HoistExpr, Dedup, ForLoop, Prologue;
    var names := Dedup(HoistExpr(e.iter));
    var up := Up(c, c.h + 1);
    var head := Enter(up, names);
    SameSight(c, up);
    EntersHoisted(up, names);
    EnterBase(up, names);
    CompileAgrees(e.iter, head, pos + 1 + |names|);
    var a := Compile(e.iter, head, pos + 1 + |names|);
    if a.ok {
      Further(head, After(head, a), e.iter);
      OwnCount(c, head, Adds(e.iter, head.hoisted.Keys), a.locals);
      IterationAgrees(e, After(head, a), U8(c.h), pos + 2 + |names| + |a.code|);
      SeesLoops(c);
    }
  }

  lemma {:induction false} IterationAgrees(e: Expr, head: Ctx, result: nat, start: nat)
    requires head.scopeBase <= |head.locals| && e.For?
    ensures var vars := if e.second.None? then [e.first] else [e.first, e.second.value];
      var v := Opened(SightOf(head), vars, true).(loops := |head.loops| + 1);
      ForLoop(e, head, result, start).ok <==> e.second != Some(e.first) && WellScopedScope(e.body, v)
    decreases e, 2
  {
    hide Compile, CompileScope, SightOf, Patch, ForCode;
    var vars := if e.second.None? then [e.first] else [e.first, e.second.value];
    var d := Iteration(e, head, result, start);
    assert Names(d.locals) == Names(head.locals) + vars;
    Entered(head, d, vars, true);
    ScopeAgrees(e.body, d, start + 1);
  }

  lemma {:induction false} TryAgrees(e: Expr, c: Ctx, pos: nat)
    requires c.scopeBase <= |c.locals| && e.Try?
    ensures Agrees(e, c, CompileTry(e, c, pos))
    decreases e, 3
  {
    hide Compile, CompileScope, Names, SightOf, CompileHandler;
    var inner := c.(tries := c.tries + [c.h]);
    SameSight(c, inner);
    CompileAgrees(e.attempt, inner, pos + 1);
    var a := Compile(e.attempt, inner, pos + 1);
    if a.ok {
      Further(c, After(c, a), e.attempt);
      HandlerAgrees(e, After(c, a), pos + |a.code| + 3);
    }
  }

  lemma {:induction false} HandlerAgrees(e: Expr, c: Ctx, pos: nat)
    requires c.scopeBase <= |c.locals| && e.Try?
    ensures var r := CompileHandler(e.handler, c, pos);
      && r.locals == c.locals
      && (r.ok <==> (e.handler.Some? ==>
            WellScopedScope(e.handler.value.body, Opened(SightOf(c), [e.handler.value.param], true))))
    decreases e, 2
  {
    hide CompileScope, SightOf;
    match e.handler
    case None =>
    case Some(k) =>
      var inner := c.(locals := c.locals + [Named(k.param, U8(Less(c.h, 1)))], hoisted := map[],
                  scopeBase := |c.locals|);
      assert Names(inner.locals) == Names(c.locals) + [k.param];
      Entered(c, inner, [k.param], true);
      SeesLoops(c);
      ScopeAgrees(k.body, inner, pos);
  }

  /** The compiler records no error exactly for the well-scoped programs. */
  lemma AcceptsExactly(program: Block, globals: seq<string>)
    ensures CompileProgram(program, globals).ok <==> WellScopedBlock(program, Outermost(program, globals))
  {
    hide CompileBlock, Dedup, HoistBlock, SightOf;
    var c := Initial(globals);
    var names := Dedup(HoistBlock(program));
    assert SightOf(c) == Sight({}, [], {}, 0, globals) by {
      NothingSeen(globals);
    }
    EntersHoisted(c, names);
    BlockAgrees(program, Enter(c, names), |names|);
  }

  lemma NothingSeen(globals: seq<string>)
    ensures SightOf(Initial(globals)) == Sight({}, [], {}, 0, globals)
  {
  }
}
