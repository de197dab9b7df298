/** Every construct's code keeps the stack discipline wherever it is placed, hence so does every
    compiled program: the tracker's height is the run-time height at every reachable state. */
module StackFlow {
  import opened Ast
  import opened Wrappers
  import opened Meaning
  import opened Machine
  import opened Lowering
  import opened LoweringShape
  import opened SimulationBase
  import opened Simulation
  import opened StackDiscipline
  import opened Correctness

  /** Same locals, loops and try-frames, no lower: what held of the state still does. */
  lemma Moved(p: Code, c: Ctx, c2: Ctx, exits: map<nat, int>, n: nat)
    requires HeightOk(c) && LoopsIn(p, c, exits, n) && c2.h >= c.h && c2.nloops == c.nloops
    requires c2.locals == c.locals && c2.hoisted == c.hoisted && c2.loops == c.loops && c2.tries == c.tries
    ensures HeightOk(c2) && LoopsIn(p, c2, exits, n)
  {
    forall k | |c.loops| - n <= k < |c.loops| ensures LoopIn(p, c2, exits, c2.loops[k]) {
      assert LoopIn(p, c, exits, c.loops[k]);
    }
  }

  /** The same with new locals, each below the new height. */
  lemma Grown(p: Code, c: Ctx, c2: Ctx, exits: map<nat, int>, n: nat)
    requires HeightOk(c) && LoopsIn(p, c, exits, n) && c2.h >= c.h
    requires c2.loops == c.loops && c2.nloops == c.nloops && c2.tries == c.tries
    requires c.locals <= c2.locals && forall i :: |c.locals| <= i < |c2.locals| ==> c2.locals[i].val < c2.h
    requires forall x :: x in c2.hoisted ==> c2.hoisted[x] < c2.h
    ensures HeightOk(c2) && LoopsIn(p, c2, exits, n)
  {
    forall k | |c.loops| - n <= k < |c.loops| ensures LoopIn(p, c2, exits, c2.loops[k]) {
      assert LoopIn(p, c, exits, c.loops[k]);
    }
  }

  lemma HoistedParts(e: Expr, names: set<string>)
    requires Hoisted(e, names)
    ensures match e
      case Binary(_, l, r) => Hoisted(l, names) && Hoisted(r, names)
      case Unary(_, x) => Hoisted(x, names)
      case Paren(b) => forall x :: x in HoistParen(b) ==> x in names
      case If(x, t, f) => Hoisted(x, names) && Hoisted(t, names) && Hoisted(f, names)
      case Break(arg) => arg.Some? ==> Hoisted(arg.value, names)
      case Return(arg) => arg.Some? ==> Hoisted(arg.value, names)
      case Decl(x, init) => x in names && Hoisted(init, names)
      case Assign(_, _, v) => Hoisted(v, names)
      case Index(o, k) => Hoisted(o, names) && Hoisted(k, names)
      case IndexAssign(o, k, _, v) => Hoisted(o, names) && Hoisted(k, names) && Hoisted(v, names)
      case Try(b, _) => Hoisted(b, names)
      case Raise(x) => Hoisted(x, names)
      case _ => true
  {
    match e
    case If(x, t, f) => assert HoistExpr(e) == HoistExpr(x) + HoistExpr(t) + HoistExpr(f);
    case IndexAssign(o, k, _, v) => assert HoistExpr(e) == HoistExpr(o) + HoistExpr(k) + HoistExpr(v);
    case Break(arg) => assert arg.Some? ==> HoistExpr(e) == HoistExpr(arg.value);
    case Return(arg) => assert arg.Some? ==> HoistExpr(e) == HoistExpr(arg.value);
    case _ =>
  }

  lemma {:induction false} FlowExpr(p: Code, e: Expr, c: Ctx, pos: nat, exits: map<nat, int>, n: nat)
    requires Hoisted(e, c.hoisted.Keys) && JumpsOk(e, n) && Here(p, c, pos, Compile(e, c, pos), exits, n)
    ensures Flows(p, pos, pos + |Compile(e, c, pos).code|)
    decreases e, 5
  {
    hide Here, Flows, HoistExpr, CompileShort, CompileBinary, CompileIf, CompileWhile, CompileFor, CompileBreak,
      CompileContinue,
      CompileDecl, CompileAssign, CompileIndex, CompileIndexAssign, CompileTry, CompileReturn, CompileScope,
        CompileBlock, CompileIdent;
    HoistedParts(e, c.hoisted.Keys);
    match e
    case Lit(_) => FlowLit(p, e, c, pos, exits, n);
    case Ident(x) => FlowIdent(p, x, c, pos, exits, n);
    case Binary(op, _, _) =>
      if op == And || op == Or {
        FlowShort(p, e, c, pos, exits, n);
      } else {
        FlowBinary(p, e, c, pos, exits, n);
      }
    case Unary(_, _) => FlowUnary(p, e, c, pos, exits, n);
    case Paren(b) => FlowParen(p, b, c, pos, exits, n);
    case Scope(b) => FlowScope(p, b, c, pos, exits, n);
    case If(_, _, _) => FlowIf(p, e, c, pos, exits, n);
    case While(_, _, _) => FlowWhile(p, e, c, pos, exits, n);
    case For(_, _, _, _, _) => FlowFor(p, e, c, pos, exits, n);
    case Break(_) => FlowBreak(p, e, c, pos, exits, n);
    case Continue => FlowContinue(p, c, pos, exits, n);
    case Decl(_, _) => FlowDecl(p, e, c, pos, exits, n);
    case Assign(_, _, _) => FlowAssign(p, e, c, pos, exits, n);
    case Index(_, _) => FlowIndex(p, e, c, pos, exits, n);
    case IndexAssign(_, _, _, _) => FlowIndexAssign(p, e, c, pos, exits, n);
    case Try(_, _) => FlowTry(p, e, c, pos, exits, n);
    case Raise(_) => FlowUnary(p, e, c, pos, exits, n);
    case Return(_) => FlowReturn(p, e, c, pos, exits, n);
  }

  lemma FlowLit(p: Code, e: Expr, c: Ctx, pos: nat, exits: map<nat, int>, n: nat)
    requires e.Lit? && Here(p, c, pos, Compile(e, c, pos), exits, n)
    ensures Flows(p, pos, pos + |Compile(e, c, pos).code|)
  {
    hide FlowOk;
    PlainFlow(p, pos, c, c.h, if e.v.Null? then PushNull else LoadConst(e.v), exits);
  }

  lemma FlowIdent(p: Code, x: string, c: Ctx, pos: nat, exits: map<nat, int>, n: nat)
    requires Here(p, c, pos, CompileIdent(x, c), exits, n)
    ensures Flows(p, pos, pos + |CompileIdent(x, c).code|)
  {
    hide FlowOk;
    PlainFlow(p, pos, c, c.h, CompileIdent(x, c).code[0].op, exits);
  }

  /** An operand, compiled in a state that is `c` but for the height. */
  lemma {:induction false} FlowPart(p: Code, e: Expr, c: Ctx, c1: Ctx, at: nat, exits: map<nat, int>, n: nat)
    requires Hoisted(e, c.hoisted.Keys) && JumpsOk(e, n) && HeightOk(c) && LoopsIn(p, c, exits, n)
    requires c1 == Up(c, c1.h) && c1.h >= c.h
    requires Stands(p, at, Compile(e, c1, at).code, exits) && Compile(e, c1, at).fits
    requires SigIs(p, at + |Compile(e, c1, at).code|, c1.h + 1, c.tries)
    ensures Flows(p, at, at + |Compile(e, c1, at).code|) && SigIs(p, at, c1.h, c.tries)
    decreases e, 6
  {
    hide FlowOk, Compile, Stands, HeightOk, LoopsIn, HoistExpr;
    Moved(p, c, c1, exits, n);
    FlatExpr(e, c1, at);
    FirstExpr(e, c1, at);
    Entry(p, c1, at, Compile(e, c1, at).code, exits);
    FlowExpr(p, e, c1, at, exits, n);
  }

  lemma {:induction false} FlowUnary(p: Code, e: Expr, c: Ctx, pos: nat, exits: map<nat, int>, n: nat)
    requires e.Unary? || e.Raise?
    requires Hoisted(e, c.hoisted.Keys) && JumpsOk(e, n) && Here(p, c, pos, Compile(e, c, pos), exits, n)
    ensures Flows(p, pos, pos + |Compile(e, c, pos).code|)
    decreases e, 4
  {
    hide FlowOk, Stands, HoistExpr, Hoisted, LoopsIn;
    var x := if e.Unary? then e.operand else e.exn;
    HoistedParts(e, c.hoisted.Keys);
    var a := Compile(x, c, pos);
    FlatExpr(x, c, pos);
    var op := if e.Unary? then UnI(e.uop) else RaiseI;
    Parts(p, pos, a.code, At(c, a.h, op), exits);
    if e.Unary? {
      PlainFlow(p, pos + |a.code|, c, a.h, op, exits);
    } else {
      JumpFlow(p, pos + |a.code|, c, a.h, op, exits);
    }
    FlowPart(p, x, c, c, pos, exits, n);
  }

  /** What `and` and `or` are made of: the right operand is compiled in the state before the left. */
  lemma ShortShape(e: Expr, c: Ctx, pos: nat)
    requires e.Binary? && Hoisted(e, c.hoisted.Keys)
    ensures var a := Compile(e.lhs, c, pos);
      var b := Compile(e.rhs, c, pos + |a.code| + 2);
      var r := CompileShort(e, c, pos);
      && r.code == a.code + At(c, c.h + 1, if e.op == And then JumpIfFalse(|b.code| + 1) else JumpIfTrue(|b.code| + 1))
           + At(c, c.h + 1, Pop) + b.code
      && r.h == c.h + 1 && r.locals == c.locals && r.ok == (a.ok && b.ok) && (r.fits ==> a.fits && b.fits)
  {
    hide HoistExpr, Hoisted, Compile;
    HoistedParts(e, c.hoisted.Keys);
    FlatExpr(e.lhs, c, pos);
    var a := Compile(e.lhs, c, pos);
    assert Drop(After(c, a)) == c;
    FlatExpr(e.rhs, c, pos + |a.code| + 2);
  }

  lemma {:induction false} FlowShort(p: Code, e: Expr, c: Ctx, pos: nat, exits: map<nat, int>, n: nat)
    requires e.Binary? && Hoisted(e, c.hoisted.Keys) && JumpsOk(e, n)
    requires Here(p, c, pos, CompileShort(e, c, pos), exits, n)
    ensures Flows(p, pos, pos + |CompileShort(e, c, pos).code|)
    decreases e, 4
  {
    hide FlowOk, Stands, HoistExpr, Hoisted, Compile, CompileShort, LoopsIn, HeightOk;
    HoistedParts(e, c.hoisted.Keys);
    ShortShape(e, c, pos);
    Bounds(c);
    var a := Compile(e.lhs, c, pos);
    var at := pos + |a.code|;
    var b := Compile(e.rhs, c, at + 2);
    var jump := if e.op == And then JumpIfFalse(|b.code| + 1) else JumpIfTrue(|b.code| + 1);
    var test, pop := At(c, c.h + 1, jump), At(c, c.h + 1, Pop);
    Parts(p, pos, a.code + test + pop, b.code, exits);
    Parts(p, pos, a.code + test, pop, exits);
    Parts(p, pos, a.code, test, exits);
    FlowPart(p, e.rhs, c, c, at + 2, exits, n);
    PlainFlow(p, at + 1, c, c.h + 1, Pop, exits);
    JumpFlow(p, at, c, c.h + 1, jump, exits);
    FlowPart(p, e.lhs, c, c, pos, exits, n);
  }

  lemma {:induction false} FlowBinary(p: Code, e: Expr, c: Ctx, pos: nat, exits: map<nat, int>, n: nat)
    requires e.Binary? && Hoisted(e, c.hoisted.Keys) && JumpsOk(e, n)
    requires Here(p, c, pos, CompileBinary(e, c, pos), exits, n)
    ensures Flows(p, pos, pos + |CompileBinary(e, c, pos).code|)
    decreases e, 4
  {
    hide FlowOk, Stands, HoistExpr, Hoisted, Compile, CompileBlock, CompileScope, LoopsIn;
    HoistedParts(e, c.hoisted.Keys);
    FlatExpr(e.lhs, c, pos);
    var a := Compile(e.lhs, c, pos);
    var at := pos + |a.code|;
    FlatExpr(e.rhs, After(c, a), at);
    var b := Compile(e.rhs, After(c, a), at);
    Parts(p, pos, a.code + b.code, At(c, b.h, BinI(e.op)), exits);
    Parts(p, pos, a.code, b.code, exits);
    PlainFlow(p, at + |b.code|, c, b.h, BinI(e.op), exits);
    FlowPart(p, e.rhs, c, After(c, a), at, exits, n);
    FlowPart(p, e.lhs, c, c, pos, exits, n);
  }

  lemma {:induction false} FlowIndex(p: Code, e: Expr, c: Ctx, pos: nat, exits: map<nat, int>, n: nat)
    requires e.Index? && Hoisted(e, c.hoisted.Keys) && JumpsOk(e, n)
    requires Here(p, c, pos, CompileIndex(e, c, pos), exits, n)
    ensures Flows(p, pos, pos + |CompileIndex(e, c, pos).code|)
    decreases e, 4
  {
    hide FlowOk, Stands, HoistExpr, Hoisted, Compile, CompileBlock, CompileScope, LoopsIn;
    HoistedParts(e, c.hoisted.Keys);
    FlatExpr(e.obj, c, pos);
    var a := Compile(e.obj, c, pos);
    var at := pos + |a.code|;
    FlatExpr(e.key, After(c, a), at);
    var b := Compile(e.key, After(c, a), at);
    Parts(p, pos, a.code + b.code, At(c, b.h, IndexGet), exits);
    Parts(p, pos, a.code, b.code, exits);
    PlainFlow(p, at + |b.code|, c, b.h, IndexGet, exits);
    FlowPart(p, e.key, c, After(c, a), at, exits, n);
    FlowPart(p, e.obj, c, c, pos, exits, n);
  }

  /** What an `if` is made of: both branches are compiled in the state before the test. */
  lemma IfShape(e: Expr, c: Ctx, pos: nat)
    requires e.If? && Hoisted(e, c.hoisted.Keys)
    ensures var a := Compile(e.cond, c, pos);
      var b := Compile(e.thn, c, pos + |a.code| + 2);
      var d := Compile(e.els, c, pos + |a.code| + |b.code| + 4);
      var r := CompileIf(e, c, pos);
      && r.code == a.code + At(c, c.h + 1, JumpIfFalse(|b.code| + 2)) + At(c, c.h + 1, Pop) + b.code
           + At(c, c.h + 1, Jump(|d.code| + 1)) + At(c, c.h + 1, Pop) + d.code
      && r.locals == c.locals && r.ok == (a.ok && b.ok && d.ok)
      && r.h == c.h + 1 && (r.fits ==> a.fits && b.fits && d.fits)
  {
    hide HoistExpr, Hoisted, Compile;
    HoistedParts(e, c.hoisted.Keys);
    FlatExpr(e.cond, c, pos);
    var a := Compile(e.cond, c, pos);
    assert Drop(After(c, a)) == c;
    FlatExpr(e.thn, c, pos + |a.code| + 2);
    var b := Compile(e.thn, c, pos + |a.code| + 2);
    assert Drop(After(c, b).(h := a.h)) == c;
    FlatExpr(e.els, c, pos + |a.code| + |b.code| + 4);
  }

  lemma {:induction false} FlowIf(p: Code, e: Expr, c: Ctx, pos: nat, exits: map<nat, int>, n: nat)
    requires e.If? && Hoisted(e, c.hoisted.Keys) && JumpsOk(e, n) && Here(p, c, pos, CompileIf(e, c, pos), exits, n)
    ensures Flows(p, pos, pos + |CompileIf(e, c, pos).code|)
    decreases e, 4
  {
    hide FlowOk, Stands, HoistExpr, Hoisted, Compile, CompileIf, LoopsIn, HeightOk;
    HoistedParts(e, c.hoisted.Keys);
    IfShape(e, c, pos);
    Bounds(c);
    var a := Compile(e.cond, c, pos);
    var at := pos + |a.code|;
    var b := Compile(e.thn, c, at + 2);
    var mid := at + 2 + |b.code|;
    var d := Compile(e.els, c, mid + 2);
    Parts7(p, pos, a.code, At(c, c.h + 1, JumpIfFalse(|b.code| + 2)), At(c, c.h + 1, Pop), b.code,
      At(c, c.h + 1, Jump(|d.code| + 1)), At(c, c.h + 1, Pop), d.code, exits);
    FlowPart(p, e.els, c, c, mid + 2, exits, n);
    PlainFlow(p, mid + 1, c, c.h + 1, Pop, exits);
    JumpFlow(p, mid, c, c.h + 1, Jump(|d.code| + 1), exits);
    FlowPart(p, e.thn, c, c, at + 2, exits, n);
    PlainFlow(p, at + 1, c, c.h + 1, Pop, exits);
    JumpFlow(p, at, c, c.h + 1, JumpIfFalse(|b.code| + 2), exits);
    FlowPart(p, e.cond, c, c, pos, exits, n);
  }

  lemma {:induction false} FlowReturn(p: Code, e: Expr, c: Ctx, pos: nat, exits: map<nat, int>, n: nat)
    requires e.Return? && Hoisted(e, c.hoisted.Keys) && JumpsOk(e, n)
    requires Here(p, c, pos, CompileReturn(e, c, pos), exits, n)
    ensures Flows(p, pos, pos + |CompileReturn(e, c, pos).code|)
    decreases e, 4
  {
    hide FlowOk, Stands, HoistExpr, Hoisted, Compile, CompileBlock, CompileScope, LoopsIn;
    if e.result.None? {
      Parts(p, pos, At(c, c.h, PushNull), At(c, c.h + 1, ReturnI), exits);
      JumpFlow(p, pos + 1, c, c.h + 1, ReturnI, exits);
      PlainFlow(p, pos, c, c.h, PushNull, exits);
    } else {
      var x := e.result.value;
      HoistedParts(e, c.hoisted.Keys);
      FlatExpr(x, c, pos);
      var a := Compile(x, c, pos);
      Parts(p, pos, a.code, At(c, a.h, ReturnI), exits);
      JumpFlow(p, pos + |a.code|, c, a.h, ReturnI, exits);
      FlowPart(p, x, c, c, pos, exits, n);
    }
  }

  lemma {:induction false} FlowDecl(p: Code, e: Expr, c: Ctx, pos: nat, exits: map<nat, int>, n: nat)
    requires e.Decl? && Placed(e, c.hoisted.Keys) && JumpsOk(e, n) && Here(p, c, pos, CompileDecl(e, c, pos), exits, n)
    ensures Flows(p, pos, pos + |CompileDecl(e, c, pos).code|)
    decreases e, 4
  {
    hide FlowOk, Stands, HoistExpr, Hoisted, Compile, CompileBlock, CompileScope, LoopsIn;
    FlatExpr(e.init, c, pos);
    var a := Compile(e.init, c, pos);
    var op := if e.name in c.hoisted then StoreLocal(c.hoisted[e.name]) else Dup;
    Parts(p, pos, a.code, At(c, a.h, op), exits);
    PlainFlow(p, pos + |a.code|, c, a.h, op, exits);
    FlowPart(p, e.init, c, c, pos, exits, n);
  }

  lemma {:induction false} FlowAssign(p: Code, e: Expr, c: Ctx, pos: nat, exits: map<nat, int>, n: nat)
    requires e.Assign? && Hoisted(e, c.hoisted.Keys) && JumpsOk(e, n)
    requires Here(p, c, pos, CompileAssign(e, c, pos), exits, n)
    ensures Flows(p, pos, pos + |CompileAssign(e, c, pos).code|)
    decreases e, 4
  {
    hide FlowOk, Stands, HoistExpr, Hoisted, Compile, CompileBlock, CompileScope, LoopsIn;
    HoistedParts(e, c.hoisted.Keys);
    match Resolve(c, e.name)
    case AtSlot(s) =>
      if e.aop.Some? {
        FlowCompoundAssign(p, e, c, pos, exits, n, s);
      } else {
        FlatExpr(e.rhs, c, pos);
        var a := Compile(e.rhs, c, pos);
        Parts(p, pos, a.code, At(c, a.h, StoreLocal(s)), exits);
        PlainFlow(p, pos + |a.code|, c, a.h, StoreLocal(s), exits);
        FlowPart(p, e.rhs, c, c, pos, exits, n);
      }
    case _ =>
      FlatExpr(e.rhs, c, pos);
      FlowPart(p, e.rhs, c, c, pos, exits, n);
  }

  lemma {:induction false} FlowCompoundAssign(p: Code, e: Expr, c: Ctx, pos: nat, exits: map<nat, int>, n: nat, s: nat)
    requires e.Assign? && e.aop.Some? && Hoisted(e, c.hoisted.Keys) && JumpsOk(e, n) && Resolve(c, e.name) == AtSlot(s)
    requires Here(p, c, pos, CompileAssign(e, c, pos), exits, n)
    ensures Flows(p, pos, pos + |CompileAssign(e, c, pos).code|)
    decreases e, 3
  {
    hide FlowOk, Stands, HoistExpr, Hoisted, Compile, CompileBlock, CompileScope, LoopsIn;
    HoistedParts(e, c.hoisted.Keys);
    var c1 := Up(c, c.h + 1);
    FlatExpr(e.rhs, c1, pos + 1);
    var a := Compile(e.rhs, c1, pos + 1);
    var op := CompoundInstr(e.aop.value);
    Parts(p, pos, At(c, c.h, LoadLocal(s)) + a.code + At(c, a.h, op), At(c, Less(a.h, 1), StoreLocal(s)), exits);
    Parts(p, pos, At(c, c.h, LoadLocal(s)) + a.code, At(c, a.h, op), exits);
    Parts(p, pos, At(c, c.h, LoadLocal(s)), a.code, exits);
    PlainFlow(p, pos + |a.code| + 2, c, Less(a.h, 1), StoreLocal(s), exits);
    PlainFlow(p, pos + |a.code| + 1, c, a.h, op, exits);
    FlowPart(p, e.rhs, c, c1, pos + 1, exits, n);
    PlainFlow(p, pos, c, c.h, LoadLocal(s), exits);
  }

  lemma {:induction false} FlowIndexAssign(p: Code, e: Expr, c: Ctx, pos: nat, exits: map<nat, int>, n: nat)
    requires e.IndexAssign? && Hoisted(e, c.hoisted.Keys) && JumpsOk(e, n)
    requires Here(p, c, pos, CompileIndexAssign(e, c, pos), exits, n)
    ensures Flows(p, pos, pos + |CompileIndexAssign(e, c, pos).code|)
    decreases e, 4
  {
    hide FlowOk, Stands, HoistExpr, Here;
    if e.iop.Some? {
      FlowCompound(p, e, c, pos, exits, n);
    } else {
      FlowPlainSet(p, e, c, pos, exits, n);
    }
  }

  /** What `o[k] = v` is made of. */
  lemma PlainSetShape(e: Expr, c: Ctx, pos: nat)
    requires e.IndexAssign? && e.iop.None? && Hoisted(e, c.hoisted.Keys)
    ensures var a := Compile(e.obj, c, pos);
      var b := Compile(e.key, Up(c, c.h + 1), pos + |a.code|);
      var d := Compile(e.rhs, Up(c, c.h + 2), pos + |a.code| + |b.code|);
      var r := CompileIndexAssign(e, c, pos);
      && r.code == a.code + b.code + d.code + At(c, c.h + 3, IndexSet)
      && r.h == c.h + 1 && (r.fits ==> a.fits && b.fits && d.fits)
      && r.locals == c.locals && r.ok == (a.ok && b.ok && d.ok)
  {
    hide HoistExpr, Compile;
    HoistedParts(e, c.hoisted.Keys);
    FlatExpr(e.obj, c, pos);
    var a := Compile(e.obj, c, pos);
    assert After(c, a) == Up(c, c.h + 1);
    FlatExpr(e.key, After(c, a), pos + |a.code|);
    var b := Compile(e.key, After(c, a), pos + |a.code|);
    assert After(c, b).(h := b.h) == Up(c, c.h + 2);
    FlatExpr(e.rhs, Up(c, c.h + 2), pos + |a.code| + |b.code|);
    var d := Compile(e.rhs, Up(c, c.h + 2), pos + |a.code| + |b.code|);
    assert a.code + b.code + [] + d.code + [] + At(c, c.h + 3, IndexSet) ==
      a.code + b.code + d.code + At(c, c.h + 3, IndexSet);
  }

  lemma {:induction false} FlowPlainSet(p: Code, e: Expr, c: Ctx, pos: nat, exits: map<nat, int>, n: nat)
    requires e.IndexAssign? && Hoisted(e, c.hoisted.Keys) && JumpsOk(e, n) && e.iop.None?
    requires Here(p, c, pos, CompileIndexAssign(e, c, pos), exits, n)
    ensures Flows(p, pos, pos + |CompileIndexAssign(e, c, pos).code|)
    decreases e, 3
  {
    hide FlowOk, Stands, HoistExpr, Hoisted, Compile, LoopsIn, CompileIndexAssign, HeightOk;
    HoistedParts(e, c.hoisted.Keys);
    PlainSetShape(e, c, pos);
    Bounds(c);
    var a := Compile(e.obj, c, pos);
    var at := pos + |a.code|;
    var b := Compile(e.key, Up(c, c.h + 1), at);
    var mid := at + |b.code|;
    var d := Compile(e.rhs, Up(c, c.h + 2), mid);
    Parts(p, pos, a.code + b.code + d.code, At(c, c.h + 3, IndexSet), exits);
    Parts(p, pos, a.code + b.code, d.code, exits);
    Parts(p, pos, a.code, b.code, exits);
    PlainFlow(p, mid + |d.code|, c, c.h + 3, IndexSet, exits);
    FlowPart(p, e.rhs, c, Up(c, c.h + 2), mid, exits, n);
    FlowPart(p, e.key, c, Up(c, c.h + 1), at, exits, n);
    FlowPart(p, e.obj, c, c, pos, exits, n);
  }

  /** What a compound `o[k] op= v` is made of. */
  lemma CompoundShape(e: Expr, c: Ctx, pos: nat)
    requires e.IndexAssign? && e.iop.Some? && Hoisted(e, c.hoisted.Keys)
    ensures var a := Compile(e.obj, c, pos);
      var c1 := Up(c, c.h + 1);
      var b := Compile(e.key, c1, pos + |a.code|);
      var c3 := Up(c, c.h + 3);
      var d := Compile(e.rhs, c3, pos + |a.code| + |b.code| + 2);
      var r := CompileIndexAssign(e, c, pos);
      && r.code == a.code + b.code + (At(c, c.h + 2, Dup2) + At(c, c.h + 4, IndexGet)) + d.code
           + (At(c, c.h + 4, CompoundInstr(e.iop.value)) + At(c, c.h + 3, IndexSet))
      && r.h == c.h + 1 && (r.fits ==> a.fits && b.fits && d.fits)
      && r.locals == c.locals && r.ok == (a.ok && b.ok && d.ok)
  {
    hide HoistExpr, Compile;
    HoistedParts(e, c.hoisted.Keys);
    FlatExpr(e.obj, c, pos);
    var a := Compile(e.obj, c, pos);
    assert After(c, a) == Up(c, c.h + 1);
    FlatExpr(e.key, After(c, a), pos + |a.code|);
    var b := Compile(e.key, After(c, a), pos + |a.code|);
    assert After(c, b).(h := b.h + 1) == Up(c, c.h + 3);
    FlatExpr(e.rhs, Up(c, c.h + 3), pos + |a.code| + |b.code| + 2);
  }

  lemma {:induction false} FlowCompound(p: Code, e: Expr, c: Ctx, pos: nat, exits: map<nat, int>, n: nat)
    requires e.IndexAssign? && Hoisted(e, c.hoisted.Keys) && JumpsOk(e, n) && e.iop.Some?
    requires Here(p, c, pos, CompileIndexAssign(e, c, pos), exits, n)
    ensures Flows(p, pos, pos + |CompileIndexAssign(e, c, pos).code|)
    decreases e, 3
  {
    hide FlowOk, Stands, HoistExpr, Hoisted, Compile, LoopsIn, CompileIndexAssign, HeightOk;
    HoistedParts(e, c.hoisted.Keys);
    CompoundShape(e, c, pos);
    Bounds(c);
    var a := Compile(e.obj, c, pos);
    var at := pos + |a.code|;
    var b := Compile(e.key, Up(c, c.h + 1), at);
    var mid := at + |b.code|;
    var d := Compile(e.rhs, Up(c, c.h + 3), mid + 2);
    var op := CompoundInstr(e.iop.value);
    var cur := At(c, c.h + 2, Dup2) + At(c, c.h + 4, IndexGet);
    var end := At(c, c.h + 4, op) + At(c, c.h + 3, IndexSet);
    Parts(p, pos, a.code + b.code + cur + d.code, end, exits);
    Parts(p, pos, a.code + b.code + cur, d.code, exits);
    Parts(p, pos, a.code + b.code, cur, exits);
    Parts(p, pos, a.code, b.code, exits);
    TwoPlain(p, mid + 2 + |d.code|, c, c.h + 4, op, IndexSet, exits);
    FlowPart(p, e.rhs, c, Up(c, c.h + 3), mid + 2, exits, n);
    TwoPlain(p, mid, c, c.h + 2, Dup2, IndexGet, exits);
    FlowPart(p, e.key, c, Up(c, c.h + 1), at, exits, n);
    FlowPart(p, e.obj, c, c, pos, exits, n);
  }

  /** Two plain instructions without slot operands. */
  lemma TwoPlain(p: Code, at: nat, c: Ctx, h: nat, op: Instr, op2: Instr, exits: map<nat, int>)
    requires var f := EffectOf(op); f.pops <= h && (f.raises ==> Below(c.tries, h - f.pops))
    requires var f, f2, h2 := EffectOf(op), EffectOf(op2), h - EffectOf(op).pops + EffectOf(op).pushes;
      && Stands(p, at, At(c, h, op) + At(c, h2, op2), exits) && Plain(op) && Plain(op2) && SlotOk(op, h)
      && SlotOk(op2, h2)
      && f2.pops <= h2 && (f2.raises ==> Below(c.tries, h2 - f2.pops))
      && SigIs(p, at + 2, h2 - f2.pops + f2.pushes, c.tries)
    ensures Flows(p, at, at + 2) && SigIs(p, at, h, c.tries)
  {
    hide FlowOk, Stands, Plain, SlotOk;
    var h2 := h - EffectOf(op).pops + EffectOf(op).pushes;
    Parts(p, at, At(c, h, op), At(c, h2, op2), exits);
    PlainFlow(p, at + 1, c, h2, op2, exits);
    PlainFlow(p, at, c, h, op, exits);
  }

  // ----- jumps out -----

  /** The value folded into a loop's result, then the cut and the jump. */
  lemma FlowFold(p: Code, c: Ctx, at: nat, h: nat, isArray: bool, slot: nat, exits: map<nat, int>)
    requires Stands(p, at, Lowering.Fold(c, h, isArray, slot), exits) && slot + 1 < h
    requires SigIs(p, at + |Lowering.Fold(c, h, isArray, slot)|, h - 1, c.tries)
    ensures Flows(p, at, at + |Lowering.Fold(c, h, isArray, slot)|) && SigIs(p, at, h, c.tries)
  {
    hide FlowOk, Stands;
    if isArray {
      PlainFlow(p, at, c, h, IterAppend(slot), exits);
    } else {
      Parts(p, at, At(c, h, StoreLocal(slot)), At(c, h, Pop), exits);
      PlainFlow(p, at + 1, c, h, Pop, exits);
      PlainFlow(p, at, c, h, StoreLocal(slot), exits);
    }
  }

  lemma InnermostLoop(p: Code, c: Ctx, exits: map<nat, int>, n: nat)
    requires HeightOk(c) && LoopsIn(p, c, exits, n) && n > 0
    ensures |c.loops| > 0 && LoopIn(p, c, exits, c.loops[|c.loops| - 1])
    ensures var c1 := c.(loops := c.loops[..|c.loops| - 1]); HeightOk(c1) && LoopsIn(p, c1, exits, n - 1)
  {
    var c1 := c.(loops := c.loops[..|c.loops| - 1]);
    forall k | |c1.loops| - (n - 1) <= k < |c1.loops| ensures LoopIn(p, c1, exits, c1.loops[k]) {
      assert LoopIn(p, c, exits, c.loops[k]);
    }
  }

  lemma {:induction false} FlowBreak(p: Code, e: Expr, c: Ctx, pos: nat, exits: map<nat, int>, n: nat)
    requires e.Break? && Hoisted(e, c.hoisted.Keys) && JumpsOk(e, n)
    requires Here(p, c, pos, CompileBreak(e, c, pos), exits, n)
    ensures Flows(p, pos, pos + |CompileBreak(e, c, pos).code|)
    decreases e, 4
  {
    hide FlowOk, Stands, HoistExpr, Hoisted, Compile, CompileBlock, CompileScope, LoopsIn;
    InnermostLoop(p, c, exits, n);
    var l := c.loops[|c.loops| - 1];
    var c1 := c.(loops := c.loops[..|c.loops| - 1]);
    var out := AfterUnwind(c, c.h, l.base, Hole(l.id));
    if e.arg.None? && l.isArray {
      assert CompileBreak(e, c, pos).code == At(c, c.h, Unwind(U8(l.base))) + out;
      CutAndGo(p, c, pos, c.h, l, exits);
    } else {
      var a := if e.arg.Some? then Compile(e.arg.value, c1, pos)
               else Result(At(c, c.h, PushNull), c.locals, c.h + 1, true, true);
      if e.arg.Some? {
        HoistedParts(e, c.hoisted.Keys);
        FlatExpr(e.arg.value, c1, pos);
      }
      var fold := Lowering.Fold(c, a.h, l.isArray, l.resultSlot);
      var cut := At(c, c.h, Unwind(U8(l.base)));
      BreakShape(e, c, pos);
      Parts(p, pos, a.code + fold, cut + out, exits);
      Parts(p, pos, a.code, fold, exits);
      CutAndGo(p, c, pos + |a.code| + |fold|, c.h, l, exits);
      FlowFold(p, c, pos + |a.code|, a.h, l.isArray, l.resultSlot, exits);
      if e.arg.Some? {
        FlowPart(p, e.arg.value, c1, c1, pos, exits, n - 1);
      } else {
        PlainFlow(p, pos, c, c.h, PushNull, exits);
      }
    }
  }

  /** A `break` that carries a value, or the `null` it stands for. */
  lemma BreakShape(e: Expr, c: Ctx, pos: nat)
    requires e.Break? && c.loops != [] && Hoisted(e, c.hoisted.Keys)
    requires !(e.arg.None? && c.loops[|c.loops| - 1].isArray)
    ensures var l := c.loops[|c.loops| - 1];
      var a := if e.arg.Some? then Compile(e.arg.value, c.(loops := c.loops[..|c.loops| - 1]), pos)
               else Result(At(c, c.h, PushNull), c.locals, c.h + 1, true, true);
      && CompileBreak(e, c, pos).code == a.code + Lowering.Fold(c, a.h, l.isArray, l.resultSlot)
                   + (At(c, c.h, Unwind(U8(l.base))) + AfterUnwind(c, c.h, l.base, Hole(l.id)))
      && (CompileBreak(e, c, pos).fits ==> a.fits && l.base <= 255)
  {
    hide HoistExpr, Compile, Lowering.Fold;
    if e.arg.Some? {
      HoistedParts(e, c.hoisted.Keys);
      FlatExpr(e.arg.value, c.(loops := c.loops[..|c.loops| - 1]), pos);
    }
  }

  /** Cut the stack to the loop's base and leave for its exit. */
  lemma CutAndGo(p: Code, c: Ctx, at: nat, h: nat, l: LoopCtx, exits: map<nat, int>)
    requires Stands(p, at, At(c, h, Unwind(U8(l.base))) + AfterUnwind(c, h, l.base, Hole(l.id)), exits)
    requires LoopIn(p, c, exits, l) && 1 <= l.base <= 255 && l.base <= h
    ensures Flows(p, at, at + 2) && SigIs(p, at, h, c.tries)
  {
    hide FlowOk, Stands;
    Parts(p, at, At(c, h, Unwind(U8(l.base))), AfterUnwind(c, h, l.base, Hole(l.id)), exits);
    LeaveFlow(p, at + 1, c, h, l.base, Hole(l.id), exits);
    JumpFlow(p, at, c, h, Unwind(U8(l.base)), exits);
  }

  lemma FlowContinue(p: Code, c: Ctx, pos: nat, exits: map<nat, int>, n: nat)
    requires n > 0 && Here(p, c, pos, CompileContinue(c, pos), exits, n)
    ensures Flows(p, pos, pos + |CompileContinue(c, pos).code|)
  {
    hide FlowOk, Stands, LoopsIn;
    InnermostLoop(p, c, exits, n);
    var l := c.loops[|c.loops| - 1];
    var fold := Lowering.Fold(c, c.h + 1, false, l.resultSlot);
    var store := if l.isArray then [] else At(c, c.h, PushNull) + fold;
    var at := pos + |store|;
    var back := at + 2 - l.start;
    Parts(p, pos, store + At(c, c.h, Unwind(U8(l.base))), AfterUnwind(c, c.h, l.base, Loop(back)), exits);
    Parts(p, pos, store, At(c, c.h, Unwind(U8(l.base))), exits);
    LeaveFlow(p, at + 1, c, c.h, l.base, Loop(back), exits);
    JumpFlow(p, at, c, c.h, Unwind(U8(l.base)), exits);
    if !l.isArray {
      Parts(p, pos, At(c, c.h, PushNull), fold, exits);
      FlowFold(p, c, pos + 1, c.h + 1, false, l.resultSlot, exits);
      PlainFlow(p, pos, c, c.h, PushNull, exits);
    }
  }

  // ----- blocks and scopes -----

  lemma {:induction false} FlowParen(p: Code, b: Block, c: Ctx, pos: nat, exits: map<nat, int>, n: nat)
    requires forall x :: x in HoistParen(b) ==> x in c.hoisted.Keys
    requires JumpsOkBlock(b, n) && Here(p, c, pos, CompileBlock(b, c, pos), exits, n)
    ensures Flows(p, pos, pos + |CompileBlock(b, c, pos).code|)
    decreases b, 4
  {
    hide FlowOk, Stands, HoistExpr, Compile, LoopsIn;
    match b
    case End => PlainFlow(p, pos, c, c.h, PushNull, exits);
    case Tail(e) => FlowExpr(p, e, c, pos, exits, n);
    case Then(s, rest) =>
      FlatExpr(s, c, pos);
      var a := Compile(s, c, pos);
      assert Drop(After(c, a)) == c;
      var d := CompileBlock(rest, c, pos + |a.code| + 1);
      Parts(p, pos, a.code + At(c, a.h, Pop), d.code, exits);
      Parts(p, pos, a.code, At(c, a.h, Pop), exits);
      FlowParen(p, rest, c, pos + |a.code| + 1, exits, n);
      FirstBlock(rest, c, pos + |a.code| + 1);
      Entry(p, c, pos + |a.code| + 1, d.code, exits);
      PlainFlow(p, pos + |a.code|, c, a.h, Pop, exits);
      FlowPart(p, s, c, c, pos, exits, n);
  }

  lemma {:induction false} FlowBlock(p: Code, b: Block, c: Ctx, pos: nat, exits: map<nat, int>, n: nat)
    requires PlacedBlock(b, c.hoisted.Keys)
    requires JumpsOkBlock(b, n) && Here(p, c, pos, CompileBlock(b, c, pos), exits, n)
    ensures Flows(p, pos, pos + |CompileBlock(b, c, pos).code|)
    decreases b, 4
  {
    hide FlowOk, Stands, HoistExpr, Hoisted, Compile, LoopsIn;
    match b
    case End => PlainFlow(p, pos, c, c.h, PushNull, exits);
    case Tail(e) => FlowStmt(p, e, c, pos, exits, n);
    case Then(s, rest) =>
      GrowsExpr(s, c, pos);
      var a := Compile(s, c, pos);
      var c1 := Drop(After(c, a));
      var d := CompileBlock(rest, c1, pos + |a.code| + 1);
      Parts(p, pos, a.code + At(c, a.h, Pop), d.code, exits);
      Parts(p, pos, a.code, At(c, a.h, Pop), exits);
      Grown(p, c, c1, exits, n);
      FlowBlock(p, rest, c1, pos + |a.code| + 1, exits, n);
      FirstBlock(rest, c1, pos + |a.code| + 1);
      Entry(p, c1, pos + |a.code| + 1, d.code, exits);
      PlainFlow(p, pos + |a.code|, c, a.h, Pop, exits);
      FlowStmt(p, s, c, pos, exits, n);
  }

  lemma {:induction false} FlowStmt(p: Code, e: Expr, c: Ctx, pos: nat, exits: map<nat, int>, n: nat)
    requires Placed(e, c.hoisted.Keys) && JumpsOk(e, n) && Here(p, c, pos, Compile(e, c, pos), exits, n)
    ensures Flows(p, pos, pos + |Compile(e, c, pos).code|)
    decreases e, 6
  {
    hide Here, Flows, HoistExpr, CompileDecl;
    if e.Decl? {
      FlowDecl(p, e, c, pos, exits, n);
    } else {
      FlowExpr(p, e, c, pos, exits, n);
    }
  }

  lemma {:induction false} FlowPrologue(p: Code, c: Ctx, names: seq<string>, pos: nat, exits: map<nat, int>)
    requires Stands(p, pos, Prologue(c, names), exits) && SigIs(p, pos + |names|, c.h + |names|, c.tries)
    ensures |Prologue(c, names)| == |names| && Flows(p, pos, pos + |names|) && SigIs(p, pos, c.h, c.tries)
    decreases |names|
  {
    hide FlowOk, Stands;
    PrologueLength(c, names);
    if names != [] {
      var n := |names| - 1;
      PrologueLength(c, names[..n]);
      Parts(p, pos, Prologue(c, names[..n]), At(c, c.h + n, PushNull), exits);
      PlainFlow(p, pos + n, c, c.h + n, PushNull, exits);
      FlowPrologue(p, c, names[..n], pos, exits);
    }
  }

  lemma {:induction false} SlotMapBound(h: nat, names: seq<string>)
    ensures forall x :: x in SlotMap(h, names) ==> SlotMap(h, names)[x] < h + |names|
    decreases |names|
  {
    if names != [] {
      SlotMapBound(h, names[..|names| - 1]);
    }
  }

  lemma Entered(p: Code, c: Ctx, names: seq<string>, exits: map<nat, int>, n: nat)
    requires HeightOk(c) && LoopsIn(p, c, exits, n)
    ensures HeightOk(Enter(c, names)) && LoopsIn(p, Enter(c, names), exits, n)
  {
    hide SlotMap, PrologueLocals, LoopsIn;
    SlotMapBound(c.h, names);
    Grown(p, c, Enter(c, names), exits, n);
  }

  /** A prologue and the block after it, up to the closing instruction. */
  lemma {:induction false} FlowOpened(p: Code, b: Block, c: Ctx, names: seq<string>, pos: nat, exits: map<nat, int>,
        n: nat)
    requires names == Dedup(HoistBlock(b)) && JumpsOkBlock(b, n) && HeightOk(c) && LoopsIn(p, c, exits, n)
    requires var r := CompileBlock(b, Enter(c, names), pos + |names|);
      && Stands(p, pos, Prologue(c, names), exits) && Stands(p, pos + |names|, r.code, exits)
      && SigIs(p, pos + |names| + |r.code|, r.h, c.tries) && r.fits
    ensures Flows(p, pos, pos + |names| + |CompileBlock(b, Enter(c, names), pos + |names|).code|)
    ensures SigIs(p, pos, c.h, c.tries)
    decreases b, 5
  {
    hide FlowOk, Stands, HoistBlock, CompileBlock, Prologue, HeightOk, LoopsIn, SlotMap, PrologueLocals;
    var inner := Enter(c, names);
    Entered(p, c, names, exits, n);
    HoistBlockPlaces(b, inner.hoisted.Keys);
    FlowBlock(p, b, inner, pos + |names|, exits, n);
    FirstBlock(b, inner, pos + |names|);
    Entry(p, inner, pos + |names|, CompileBlock(b, inner, pos + |names|).code, exits);
    FlowPrologue(p, c, names, pos, exits);
  }

  lemma FlowClose(p: Code, at: nat, c: Ctx, h: nat, count: nat, exits: map<nat, int>)
    requires Stands(p, at, if count > 0 then At(c, h, CloseScope(count)) else [], exits) && count < h
    requires SigIs(p, at + if count > 0 then 1 else 0, h - count, c.tries)
    ensures Flows(p, at, at + if count > 0 then 1 else 0) && SigIs(p, at, h, c.tries)
  {
    hide FlowOk, Stands;
    if count > 0 {
      PlainFlow(p, at, c, h, CloseScope(count), exits);
    }
  }

  /** What a scope's code is made of, and what it closes. */
  lemma ScopeShape(b: Block, c: Ctx, pos: nat)
    ensures var names := Dedup(HoistBlock(b));
      var r := CompileBlock(b, Enter(c, names), pos + |names|);
      var count := |r.locals| - |c.locals|;
      && count >= 0 && r.h == c.h + count + 1 && |Prologue(c, names)| == |names|
      && CompileScope(b, c, pos).code == Prologue(c, names) + r.code + (if count > 0 then At(c, r.h, CloseScope(count))
         else [])
      && CompileScope(b, c, pos).locals == c.locals && CompileScope(b, c, pos).ok == (r.ok && count <= 255)
      && CompileScope(b, c, pos).h == c.h + 1 && (CompileScope(b, c, pos).fits ==> r.fits)
  {
    hide HoistBlock, CompileBlock, SlotMap, Dedup, Prologue;
    var names := Dedup(HoistBlock(b));
    HoistBlockPlaces(b, Enter(c, names).hoisted.Keys);
    GrowsBlock(b, Enter(c, names), pos + |names|);
    PrologueLength(c, names);
  }

  lemma {:induction false} FlowScope(p: Code, b: Block, c: Ctx, pos: nat, exits: map<nat, int>, n: nat)
    requires JumpsOkBlock(b, n) && Here(p, c, pos, CompileScope(b, c, pos), exits, n)
    ensures Flows(p, pos, pos + |CompileScope(b, c, pos).code|)
    decreases b, 6
  {
    hide FlowOk, Stands, HoistBlock, CompileBlock, CompileScope, Enter, Dedup, Prologue, HeightOk, LoopsIn,
      JumpsOkBlock;
    var names := Dedup(HoistBlock(b));
    var r := CompileBlock(b, Enter(c, names), pos + |names|);
    ScopeShape(b, c, pos);
    var count := |r.locals| - |c.locals|;
    var close := if count > 0 then At(c, r.h, CloseScope(count)) else [];
    Parts(p, pos, Prologue(c, names) + r.code, close, exits);
    Parts(p, pos, Prologue(c, names), r.code, exits);
    FlowClose(p, pos + |names| + |r.code|, c, r.h, count, exits);
    FlowOpened(p, b, c, names, pos, exits, n);
  }

  lemma {:induction false} FlowHandler(p: Code, handler: Option<Catch>, c: Ctx, pos: nat, exits: map<nat, int>, n: nat)
    requires handler.Some? ==> JumpsOkBlock(handler.value.body, n)
    requires Here(p, c, pos, CompileHandler(handler, c, pos), exits, n) && c.h >= 2
    ensures Flows(p, pos, pos + |CompileHandler(handler, c, pos).code|) && SigIs(p, pos, c.h, c.tries)
    decreases handler, 7
  {
    hide FlowOk, Stands, CompileScope, LoopsIn;
    match handler
    case None =>
      Parts(p, pos, At(c, c.h, Pop), At(c, Less(c.h, 1), PushNull), exits);
      PlainFlow(p, pos + 1, c, Less(c.h, 1), PushNull, exits);
      PlainFlow(p, pos, c, c.h, Pop, exits);
    case Some(k) =>
      var inner := c.(locals := c.locals + [Named(k.param, U8(Less(c.h, 1)))], hoisted := map[],
                  scopeBase := |c.locals|);
      var r := CompileScope(k.body, inner, pos);
      FlatScope(k.body, inner, pos);
      Parts(p, pos, r.code, At(c, r.h, CloseScope(1)), exits);
      FlowClose(p, pos + |r.code|, c, r.h, 1, exits);
      Grown(p, c, inner, exits, n);
      FlowScope(p, k.body, inner, pos, exits, n);
      FirstScope(k.body, inner, pos);
      Entry(p, inner, pos, r.code, exits);
  }

  lemma {:induction false} FlowTry(p: Code, e: Expr, c: Ctx, pos: nat, exits: map<nat, int>, n: nat)
    requires e.Try? && Hoisted(e, c.hoisted.Keys) && JumpsOk(e, n) && Here(p, c, pos, CompileTry(e, c, pos), exits, n)
    ensures Flows(p, pos, pos + |CompileTry(e, c, pos).code|)
    decreases e, 4
  {
    hide FlowOk, Stands, HoistExpr, Hoisted, CompileHandler, LoopsIn, HeightOk, Compile;
    HoistedParts(e, c.hoisted.Keys);
    var c1 := c.(tries := c.tries + [c.h]);
    FlatExpr(e.attempt, c1, pos + 1);
    var a := Compile(e.attempt, c1, pos + 1);
    var at := pos + |a.code| + 1;
    var tail := CompileHandler(e.handler, After(c, a), at + 2);
    FlatHandler(e.handler, After(c, a), at + 2);
    var open := At(c, c.h, PushTry(|a.code| + 2));
    var shut := [Cell(PopTry, a.h, c1.tries)];
    Parts(p, pos, open + a.code + shut + At(c, a.h, Jump(|tail.code|)), tail.code, exits);
    Parts(p, pos, open + a.code + shut, At(c, a.h, Jump(|tail.code|)), exits);
    Parts(p, pos, open + a.code, shut, exits);
    Parts(p, pos, open, a.code, exits);
    Bounds(c);
    Moved(p, c, After(c, a), exits, n);
    FlowHandler(p, e.handler, After(c, a), at + 2, exits, n);
    JumpFlow(p, at + 1, c, a.h, Jump(|tail.code|), exits);
    TryCells(p, pos, at, c, a, exits);
    InTry(p, c, c1, exits);
    FlowPart(p, e.attempt, c1, c1, pos + 1, exits, 0);
    TryOpens(p, pos, at, c, a, exits);
  }

  /** Inside a `try` no outer loop is in reach. */
  lemma InTry(p: Code, c: Ctx, c1: Ctx, exits: map<nat, int>)
    requires HeightOk(c) && c1 == c.(tries := c.tries + [c.h])
    ensures HeightOk(c1) && LoopsIn(p, c1, exits, 0)
  {
  }

  lemma TryCells(p: Code, pos: nat, at: nat, c: Ctx, a: Result, exits: map<nat, int>)
    requires Stands(p, at, [Cell(PopTry, a.h, c.tries + [c.h])], exits) && SigIs(p, at + 1, a.h, c.tries)
    ensures FlowOk(p, at) && SigIs(p, at, a.h, c.tries + [c.h])
  {
    assert [Cell(PopTry, a.h, c.tries + [c.h])][0].op == PopTry;
    assert (c.tries + [c.h])[..|c.tries|] == c.tries;
  }

  lemma TryOpens(p: Code, pos: nat, at: nat, c: Ctx, a: Result, exits: map<nat, int>)
    requires Stands(p, pos, At(c, c.h, PushTry(|a.code| + 2)), exits) && at == pos + |a.code| + 1
    requires SigIs(p, pos + 1, c.h, c.tries + [c.h]) && SigIs(p, at + 2, c.h + 1, c.tries)
    ensures FlowOk(p, pos)
  {
    Cell1(p, pos, c, c.h, PushTry(|a.code| + 2), exits);
  }

  // ----- loops -----

  /** What a `while` is made of. */
  lemma WhileShape(e: Expr, c: Ctx, pos: nat)
    requires e.While?
    ensures var names := Dedup(HoistExpr(e.cond));
      var head := Enter(Up(c, c.h + 1), names);
      var r := WhileLoop(e, head, U8(c.h), pos + 1 + |names|);
      && CompileWhile(e, c, pos).code == Seed(c, e.isArray) + Prologue(Up(c, c.h + 1), names) + r.code
                         + At(c, head.h, LoadLocal(U8(c.h))) + At(c, head.h + 1, CloseScope(|names| + 1))
      && CompileWhile(e, c, pos).h == c.h + 1 && (CompileWhile(e, c, pos).fits ==> r.fits)
      && CompileWhile(e, c, pos).locals == c.locals && CompileWhile(e, c, pos).ok == (r.ok && |names| + 1 <= 255)
      && r.locals == head.locals
      && r.h == head.h == c.h + 1 + |names| && head.tries == c.tries && |Prologue(Up(c, c.h + 1), names)| == |names|
      && Hoisted(e.cond, head.hoisted.Keys)
  {
    hide HoistExpr, Dedup, WhileLoop, Prologue, SlotMap, PrologueLocals;
    var names := Dedup(HoistExpr(e.cond));
    FlatWhileLoop(e, Enter(Up(c, c.h + 1), names), U8(c.h), pos + 1 + |names|);
    PrologueLength(Up(c, c.h + 1), names);
  }

  lemma {:induction false} FlowWhile(p: Code, e: Expr, c: Ctx, pos: nat, exits: map<nat, int>, n: nat)
    requires e.While? && JumpsOk(e, n) && Here(p, c, pos, CompileWhile(e, c, pos), exits, n)
    ensures Flows(p, pos, pos + |CompileWhile(e, c, pos).code|)
    decreases e, 4
  {
    hide FlowOk, Stands, HoistExpr, Hoisted, Dedup, Enter, LoopsIn, WhileLoop, Prologue, HeightOk, CompileWhile;
    var names := Dedup(HoistExpr(e.cond));
    var c1 := Up(c, c.h + 1);
    var head := Enter(c1, names);
    var start := pos + 1 + |names|;
    var r := WhileLoop(e, head, U8(c.h), start);
    WhileShape(e, c, pos);
    var load := At(c, head.h, LoadLocal(U8(c.h)));
    var close := At(c, head.h + 1, CloseScope(|names| + 1));
    var seed := Seed(c, e.isArray);
    Parts(p, pos, seed + Prologue(c1, names) + r.code + load, close, exits);
    Parts(p, pos, seed + Prologue(c1, names) + r.code, load, exits);
    Parts(p, pos, seed + Prologue(c1, names), r.code, exits);
    Parts(p, pos, seed, Prologue(c1, names), exits);
    PlainFlow(p, start + |r.code| + 1, c, head.h + 1, CloseScope(|names| + 1), exits);
    PlainFlow(p, start + |r.code|, c, head.h, LoadLocal(U8(c.h)), exits);
    Moved(p, c, c1, exits, n);
    Entered(p, c1, names, exits, n);
    FlowWhileLoop(p, e, head, U8(c.h), start, exits, n);
    FlowPrologue(p, c1, names, pos + 1, exits);
    PlainFlow(p, pos, c, c.h, if e.isArray then MakeArray else PushNull, exits);
  }

  /** A loop entered at its head: its own entry joins the loops a jump may find. */
  lemma LoopEntered(p: Code, head: Ctx, l: LoopCtx, exits: map<nat, int>, exit: int, n: nat, c2: Ctx)
    requires HeightOk(head) && LoopsIn(p, head, exits, n) && l.id == head.nloops && l.resultSlot < l.base == head.h
    requires SigIs(p, exit, l.base, head.tries) && SigIs(p, l.start, l.base, head.tries)
    requires c2.loops == head.loops + [l] && c2.nloops == head.nloops + 1 && c2.tries == head.tries && c2.h >= head.h
    requires c2.locals == head.locals || (head.locals <= c2.locals
      && forall i :: |head.locals| <= i < |c2.locals| ==> c2.locals[i].val < c2.h)
    requires c2.hoisted == head.hoisted || c2.hoisted == map[]
    ensures HeightOk(c2) && LoopsIn(p, c2, exits[l.id := exit], n + 1)
  {
    forall k | |c2.loops| - (n + 1) <= k < |c2.loops| ensures LoopIn(p, c2, exits[l.id := exit], c2.loops[k]) {
      if k < |head.loops| {
        assert LoopIn(p, head, exits, head.loops[k]);
      }
    }
  }

  lemma {:induction false} FlowWhileLoop(p: Code, e: Expr, head: Ctx, result: nat, start: nat, exits: map<nat, int>,
        n: nat)
    requires e.While? && JumpsOk(e.cond, n + 1) && JumpsOkBlock(e.body, n + 1)
    requires Hoisted(e.cond, head.hoisted.Keys) && result < head.h
    requires Here(p, head, start, WhileLoop(e, head, result, start), exits, n)
    ensures Flows(p, start, start + |WhileLoop(e, head, result, start).code|) && SigIs(p, start, head.h, head.tries)
    decreases e, 3
  {
    hide FlowOk, Stands, HoistExpr, Hoisted, LoopsIn, HeightOk, CompileScope, Compile, Patch, PatchCell, JumpsOk,
      JumpsOkBlock, WhileCode;
    var l := LoopCtx(head.nloops, result, head.h, e.isArray, start, |head.locals|);
    var c := head.(loops := head.loops + [l], nloops := head.nloops + 1);
    var a := Compile(e.cond, c, start);
    FlatExpr(e.cond, c, start);
    assert Drop(After(c, a)) == c;
    var at := start + |a.code|;
    var b := CompileScope(e.body, c, at + 2);
    FlatScope(e.body, c, at + 2);
    var code := WhileCode(e.isArray, head, result, start, a, b);
    var exit := start + |code|;
    Unpatched(p, start, code, head.nloops, exit, exits);
    var exits2 := exits[head.nloops := exit];
    WhilePieces(p, e.isArray, head, result, start, a, b, exits2);
    FirstExpr(e.cond, c, start);
    Entry(p, c, start, a.code, exits2);
    LoopEntered(p, head, l, exits, exit, n, c);
    FirstScope(e.body, c, at + 2);
    Entry(p, c, at + 2, b.code, exits2);
    FlowWhileEnds(p, e.isArray, head, result, start, a, b, exits2);
    FlowScope(p, e.body, c, at + 2, exits2, n + 1);
    FlowPart(p, e.cond, c, c, start, exits2, n + 1);
  }

  /** Where the parts of a loop's code stand. */
  lemma WhilePieces(p: Code, isArray: bool, head: Ctx, result: nat, start: nat, a: Result, b: Result, exits: map<nat,
        int>)
    requires Stands(p, start, WhileCode(isArray, head, result, start, a, b), exits)
    ensures var fold := Lowering.Fold(head, b.h, isArray, result);
      var at := start + |a.code|;
      && Stands(p, start, a.code, exits) && Stands(p, at, At(head, a.h, JumpIfFalse(|b.code| + |fold| + 2)), exits)
      && Stands(p, at + 1, At(head, a.h, Pop), exits) && Stands(p, at + 2, b.code, exits)
      && Stands(p, at + 2 + |b.code|, fold, exits)
      && Stands(p, at + 2 + |b.code| + |fold|, At(head, Less(b.h, 1), Loop(|a.code| + |b.code| + |fold| + 3)), exits)
      && Stands(p, at + 3 + |b.code| + |fold|, At(head, a.h, Pop), exits)
  {
    hide Stands, Lowering.Fold;
    var fold := Lowering.Fold(head, b.h, isArray, result);
    var back := |a.code| + |b.code| + |fold| + 3;
    var test := At(head, a.h, JumpIfFalse(|b.code| + |fold| + 2));
    var pop := At(head, a.h, Pop);
    var loop := At(head, Less(b.h, 1), Loop(back));
    Parts(p, start, a.code + test + pop + b.code + fold + loop, pop, exits);
    Parts(p, start, a.code + test + pop + b.code + fold, loop, exits);
    Parts(p, start, a.code + test + pop + b.code, fold, exits);
    Parts(p, start, a.code + test + pop, b.code, exits);
    Parts(p, start, a.code + test, pop, exits);
    Parts(p, start, a.code, test, exits);
  }

  /** Everything in a `while` but its condition and its body. */
  lemma FlowWhileEnds(p: Code, isArray: bool, head: Ctx, result: nat, start: nat, a: Result, b: Result, exits: map<nat,
        int>)
    requires Stands(p, start, WhileCode(isArray, head, result, start, a, b), exits)
    requires a.h == b.h == head.h + 1 && result < head.h && SigIs(p, start, head.h, head.tries)
    requires SigIs(p, start + |WhileCode(isArray, head, result, start, a, b)|, head.h, head.tries)
    requires SigIs(p, start + |a.code| + 2, head.h, head.tries)
    ensures var at := start + |a.code|;
      var end := start + |WhileCode(isArray, head, result, start, a, b)|;
      && Flows(p, at, at + 2) && SigIs(p, at, head.h + 1, head.tries)
      && Flows(p, at + 2 + |b.code|, end) && SigIs(p, at + 2 + |b.code|, head.h + 1, head.tries)
  {
    hide FlowOk, Stands;
    var fold := Lowering.Fold(head, b.h, isArray, result);
    var at := start + |a.code|;
    var mid := at + 2 + |b.code|;
    WhilePieces(p, isArray, head, result, start, a, b, exits);
    PlainFlow(p, mid + |fold| + 1, head, a.h, Pop, exits);
    JumpFlow(p, mid + |fold|, head, Less(b.h, 1), Loop(|a.code| + |b.code| + |fold| + 3), exits);
    FlowFold(p, head, mid, b.h, isArray, result, exits);
    PlainFlow(p, at + 1, head, a.h, Pop, exits);
    JumpFlow(p, at, head, a.h, JumpIfFalse(|b.code| + |fold| + 2), exits);
  }

  /** What a `for` is made of. */
  lemma ForShape(e: Expr, c: Ctx, pos: nat)
    requires e.For?
    ensures var names := Dedup(HoistExpr(e.iter));
      var head := Enter(Up(c, c.h + 1), names);
      var a := Compile(e.iter, head, pos + 1 + |names|);
      var r := ForLoop(e, After(head, a), U8(c.h), pos + 2 + |names| + |a.code|);
      && CompileFor(e, c, pos).code == Seed(c, e.isArray) + Prologue(Up(c, c.h + 1), names) + a.code
         + At(c, a.h, MakeIter)
                       + r.code + At(c, a.h, LoadLocal(U8(c.h))) + At(c, a.h + 1, CloseScope(|names| + 2))
      && CompileFor(e, c, pos).h == c.h + 1 && (CompileFor(e, c, pos).fits ==> r.fits && a.fits)
      && CompileFor(e, c, pos).locals == c.locals && CompileFor(e, c, pos).ok == (a.ok && r.ok && |names| + 2 <= 255)
      && Flat(head, a) && r.h == a.h && r.locals == head.locals && head.h == c.h + 1 + |names| && head.tries == c.tries
      && |Prologue(Up(c, c.h + 1), names)| == |names| && Hoisted(e.iter, head.hoisted.Keys)
  {
    hide HoistExpr, Dedup, Compile, CompileScope, Prologue, SlotMap, PrologueLocals, ForCode, Patch;
    var names := Dedup(HoistExpr(e.iter));
    FlatExpr(e.iter, Enter(Up(c, c.h + 1), names), pos + 1 + |names|);
    PrologueLength(Up(c, c.h + 1), names);
  }

  lemma Parts7(p: Code, at: nat, a: Code, b: Code, c: Code, d: Code, e: Code, f: Code, g: Code, exits: map<nat, int>)
    requires Stands(p, at, a + b + c + d + e + f + g, exits)
    ensures Stands(p, at, a, exits) && Stands(p, at + |a|, b, exits) && Stands(p, at + |a| + |b|, c, exits)
    ensures Stands(p, at + |a| + |b| + |c|, d, exits) && Stands(p, at + |a| + |b| + |c| + |d|, e, exits)
    ensures Stands(p, at + |a| + |b| + |c| + |d| + |e|, f, exits)
    ensures Stands(p, at + |a| + |b| + |c| + |d| + |e| + |f|, g, exits)
  {
    hide Stands;
    Parts(p, at, a + b + c + d + e + f, g, exits);
    Parts(p, at, a + b + c + d + e, f, exits);
    Parts(p, at, a + b + c + d, e, exits);
    Parts(p, at, a + b + c, d, exits);
    Parts(p, at, a + b, c, exits);
    Parts(p, at, a, b, exits);
  }

  lemma {:induction false} FlowFor(p: Code, e: Expr, c: Ctx, pos: nat, exits: map<nat, int>, n: nat)
    requires e.For? && JumpsOk(e, n) && Here(p, c, pos, CompileFor(e, c, pos), exits, n)
    ensures Flows(p, pos, pos + |CompileFor(e, c, pos).code|)
    decreases e, 4
  {
    hide FlowOk, Stands, HoistExpr, Hoisted, Dedup, Enter, LoopsIn, ForLoop, Prologue, HeightOk, CompileFor, Compile;
    var names := Dedup(HoistExpr(e.iter));
    var c1 := Up(c, c.h + 1);
    var head := Enter(c1, names);
    var at := pos + 1 + |names|;
    var a := Compile(e.iter, head, at);
    var c2 := After(head, a);
    var start := at + |a.code| + 1;
    var r := ForLoop(e, c2, U8(c.h), start);
    ForShape(e, c, pos);
    Parts7(p, pos, Seed(c, e.isArray), Prologue(c1, names), a.code, At(c, a.h, MakeIter), r.code,
        At(c, a.h, LoadLocal(U8(c.h))),
      At(c, a.h + 1, CloseScope(|names| + 2)), exits);
    PlainFlow(p, start + |r.code| + 1, c, a.h + 1, CloseScope(|names| + 2), exits);
    PlainFlow(p, start + |r.code|, c, a.h, LoadLocal(U8(c.h)), exits);
    Moved(p, c, c1, exits, n);
    Entered(p, c1, names, exits, n);
    Moved(p, head, c2, exits, n);
    FlowForLoop(p, e, c2, U8(c.h), start, exits, n);
    Bounds(head);
    PlainFlow(p, start - 1, c, a.h, MakeIter, exits);
    FlowPart(p, e.iter, head, head, at, exits, n);
    FlowPrologue(p, c1, names, pos + 1, exits);
    PlainFlow(p, pos, c, c.h, if e.isArray then MakeArray else PushNull, exits);
  }

  lemma Bounds(c: Ctx)
    requires HeightOk(c)
    ensures c.h >= 1 && Below(c.tries, c.h)
  {
  }

  lemma {:induction false} FlowForLoop(p: Code, e: Expr, head: Ctx, result: nat, start: nat, exits: map<nat, int>,
        n: nat)
    requires e.For? && JumpsOkBlock(e.body, n + 1) && result < head.h
    requires Here(p, head, start, ForLoop(e, head, result, start), exits, n)
    ensures Flows(p, start, start + |ForLoop(e, head, result, start).code|) && SigIs(p, start, head.h, head.tries)
    decreases e, 3
  {
    hide FlowOk, Stands, LoopsIn, HeightOk, CompileScope, Patch, PatchCell, JumpsOkBlock, ForCode;
    var c := Iteration(e, head, result, start);
    var l := LoopCtx(head.nloops, result, head.h, e.isArray, start, |head.locals|);
    var b := CompileScope(e.body, c, start + 1);
    FlatScope(e.body, c, start + 1);
    var code := ForCode(e, head, result, b);
    var exit := start + |code|;
    Unpatched(p, start, code, head.nloops, exit, exits);
    var exits2 := exits[head.nloops := exit];
    ForPieces(p, e, head, result, start, b, exits2);
    FirstScope(e.body, c, start + 1);
    Entry(p, c, start + 1, b.code, exits2);
    Bounds(head);
    FlowForEnds(p, e, head, result, start, b, exits2);
    LoopEntered(p, head, l, exits, exit, n, c);
    FlowScope(p, e.body, c, start + 1, exits2, n + 1);
  }

  /** Where the parts of a `for` loop's code stand. */
  lemma ForPieces(p: Code, e: Expr, head: Ctx, result: nat, start: nat, b: Result, exits: map<nat, int>)
    requires e.For? && Stands(p, start, ForCode(e, head, result, b), exits)
    ensures var fold := Lowering.Fold(head, b.h, e.isArray, result);
      var m := |b.code| + |fold| + 1;
      && Stands(p, start, At(head, head.h, if e.second.None? then IterNext(m + 1) else IterNext2(m + 1)), exits)
      && Stands(p, start + 1, b.code, exits) && Stands(p, start + 1 + |b.code|, fold, exits)
      && Stands(p, start + m, At(head, Less(b.h, 1), Unwind(U8(head.h))), exits)
      && Stands(p, start + m + 1, At(head, head.h, Loop(m + 2)), exits)
  {
    hide Stands, Lowering.Fold;
    var fold := Lowering.Fold(head, b.h, e.isArray, result);
    var m := |b.code| + |fold| + 1;
    var pull := At(head, head.h, if e.second.None? then IterNext(m + 1) else IterNext2(m + 1));
    var cut := At(head, Less(b.h, 1), Unwind(U8(head.h)));
    Parts(p, start, pull + b.code + fold + cut, At(head, head.h, Loop(m + 2)), exits);
    Parts(p, start, pull + b.code + fold, cut, exits);
    Parts(p, start, pull + b.code, fold, exits);
    Parts(p, start, pull, b.code, exits);
  }

  /** Everything in a `for` loop but its body. */
  lemma FlowForEnds(p: Code, e: Expr, head: Ctx, result: nat, start: nat, b: Result, exits: map<nat, int>)
    requires e.For? && Stands(p, start, ForCode(e, head, result, b), exits) && result < head.h <= 255
    requires Below(head.tries, head.h)
    requires b.h == head.h + 1 + (if e.second.None? then 1 else 2)
    requires SigIs(p, start + 1, b.h - 1, head.tries)
    requires SigIs(p, start + |ForCode(e, head, result, b)|, head.h, head.tries)
    ensures var end := start + |ForCode(e, head, result, b)|;
      && FlowOk(p, start) && SigIs(p, start, head.h, head.tries)
      && Flows(p, start + 1 + |b.code|, end) && SigIs(p, start + 1 + |b.code|, b.h, head.tries)
  {
    hide FlowOk, Stands;
    var fold := Lowering.Fold(head, b.h, e.isArray, result);
    var m := |b.code| + |fold| + 1;
    var pull := if e.second.None? then IterNext(m + 1) else IterNext2(m + 1);
    ForPieces(p, e, head, result, start, b, exits);
    Cell1(p, start, head, head.h, pull, exits);
    JumpFlow(p, start + m + 1, head, head.h, Loop(m + 2), exits);
    JumpFlow(p, start + m, head, Less(b.h, 1), Unwind(U8(head.h)), exits);
    FlowFold(p, head, start + 1 + |b.code|, b.h, e.isArray, result, exits);
    JumpFlow(p, start, head, head.h, pull, exits);
  }

  // ----- what `CloseScope` discards -----

  /** The locals from number `k` on sit in consecutive slots from `h` up, with nothing between. */
  ghost predicate Consecutive(locals: seq<Local>, k: nat, h: nat) {
    k <= |locals| && forall i :: k <= i < |locals| ==> locals[i].val == h + i - k
  }

  lemma {:induction false} BlockSlots(b: Block, c: Ctx, pos: nat, k: nat, h: nat)
    requires PlacedBlock(b, c.hoisted.Keys) && CompileBlock(b, c, pos).fits
    requires Consecutive(c.locals, k, h) && c.h == h + |c.locals| - k
    ensures var r := CompileBlock(b, c, pos); Consecutive(r.locals, k, h) && r.h == h + |r.locals| - k + 1
    decreases b
  {
    hide HoistExpr, Placed, SlotMap, PrologueLocals, HoistBlock;
    match b
    case End =>
    case Tail(e) => StmtSlots(e, c, pos, k, h);
    case Then(s, rest) =>
      StmtSlots(s, c, pos, k, h);
      var a := Compile(s, c, pos);
      BlockSlots(rest, Drop(After(c, a)), pos + |a.code| + 1, k, h);
  }

  lemma StmtSlots(e: Expr, c: Ctx, pos: nat, k: nat, h: nat)
    requires Placed(e, c.hoisted.Keys) && Compile(e, c, pos).fits
    requires Consecutive(c.locals, k, h) && c.h == h + |c.locals| - k
    ensures var r := Compile(e, c, pos); Consecutive(r.locals, k, h) && r.h == h + |r.locals| - k + 1
  {
    GrowsExpr(e, c, pos);
    if e.Decl? && e.name !in c.hoisted {
      FlatExpr(e.init, c, pos);
    }
  }

  lemma {:induction false} PrologueSlots(h: nat, names: seq<string>)
    requires h + |names| <= 256
    ensures forall i :: 0 <= i < |names| ==> PrologueLocals(h, names)[i].val == h + i
    decreases |names|
  {
    if names != [] {
      PrologueSlots(h, names[..|names| - 1]);
    }
  }

  /** When a scope ends, its result is on top and its locals, hoisted and declared, fill exactly the
      slots between the scope's own base and that result: `CloseScope` discards them and nothing else,
      wherever in a larger expression the scope stands. */
  lemma ScopeClosesItsSlots(b: Block, c: Ctx, pos: nat)
    requires CompileScope(b, c, pos).fits
    ensures var names := Dedup(HoistBlock(b));
      var r := CompileBlock(b, Enter(c, names), pos + |names|);
      var count := |r.locals| - |c.locals|;
      && Consecutive(r.locals, |c.locals|, c.h) && r.h == c.h + count + 1 && c.locals <= r.locals
      && (count > 0 ==> CompileScope(b, c, pos).code[|CompileScope(b, c, pos).code| - 1].op == CloseScope(count))
      && (count == 0 ==> CompileScope(b, c, pos).code == r.code)
  {
    hide HoistBlock, CompileBlock, Dedup, Enter, Consecutive;
    ScopeLocals(b, c, pos);
    var names := Dedup(HoistBlock(b));
    var r := CompileBlock(b, Enter(c, names), pos + |names|);
    if |r.locals| == |c.locals| {
      assert Prologue(c, []) == [];
      assert [] + r.code + [] == r.code;
    }
  }

  lemma ScopeLocals(b: Block, c: Ctx, pos: nat)
    requires CompileScope(b, c, pos).fits
    ensures var names := Dedup(HoistBlock(b));
      var r := CompileBlock(b, Enter(c, names), pos + |names|);
      && Consecutive(r.locals, |c.locals|, c.h) && r.h == c.h + |r.locals| - |c.locals| + 1 && c.locals <= r.locals
      && |c.locals| + |names| <= |r.locals|
  {
    hide HoistBlock, CompileBlock, SlotMap, Dedup, Prologue, PlacedBlock;
    var names := Dedup(HoistBlock(b));
    var inner := Enter(c, names);
    HoistBlockPlaces(b, inner.hoisted.Keys);
    GrowsBlock(b, inner, pos + |names|);
    PrologueSlots(c.h, names);
    assert Consecutive(inner.locals, |c.locals|, c.h);
    BlockSlots(b, inner, pos + |names|, |c.locals|, c.h);
    ScopeShape(b, c, pos);
    var r := CompileBlock(b, inner, pos + |names|);
    assert c.locals <= r.locals by { assert inner.locals[..|c.locals|] == c.locals
      && r.locals[..|c.locals|] == inner.locals[..|c.locals|]; }
  }

  // ----- whole programs -----

  lemma ProgramShape(program: Block, globals: seq<string>)
    ensures var c := Initial(globals);
      var names := Dedup(HoistBlock(program));
      var r := CompileBlock(program, Enter(c, names), |names|);
      && CompileProgram(program, globals).code == Prologue(c, names) + r.code + At(c, r.h, ReturnI)
      && (CompileProgram(program, globals).fits ==> r.fits) && r.h >= 1 && |Prologue(c, names)| == |names|
  {
    hide HoistBlock, CompileBlock, SlotMap, Dedup, Prologue;
    var c := Initial(globals);
    var names := Dedup(HoistBlock(program));
    HoistBlockPlaces(program, Enter(c, names).hoisted.Keys);
    GrowsBlock(program, Enter(c, names), |names|);
    PrologueLength(c, names);
  }

  lemma ProgramFlows(program: Block, w: World)
    requires w.p == CompileProgram(program, w.g.names).code && Compilable(program, w.g)
    ensures Flows(w.p, 0, |w.p|) && SigIs(w.p, 0, 1, [])
  {
    hide FlowOk, Stands, HoistBlock, Dedup, Enter, CompileBlock, Prologue, CompileProgram, JumpsOkBlock;
    var c := Initial(w.g.names);
    var names := Dedup(HoistBlock(program));
    var r := CompileBlock(program, Enter(c, names), |names|);
    ProgramShape(program, w.g.names);
    assert Stands(w.p, 0, w.p, map[]) by { Whole(w.p); }
    Parts(w.p, 0, Prologue(c, names) + r.code, At(c, r.h, ReturnI), map[]);
    Parts(w.p, 0, Prologue(c, names), r.code, map[]);
    JumpFlow(w.p, |names| + |r.code|, c, r.h, ReturnI, map[]);
    FlowOpened(w.p, program, c, names, 0, map[], 0);
  }

  lemma Whole(p: Code)
    ensures Stands(p, 0, p, map[])
  {
  }

  /** At every point of every run the stack has the height recorded for the next instruction, and the open
      try-frames are those the compiler recorded. The machine never gets stuck. */
  lemma StackIsPredicted(program: Block, w: World, closure: Value, heap: Heap, n: nat)
    requires w.p == CompileProgram(program, w.g.names).code && Compilable(program, w.g)
    ensures Disciplined(w.p, Ran(w, Run(Start(closure, heap)), n))
  {
    hide CompileProgram, JumpsOkBlock, FlowOk, Flows;
    ProgramFlows(program, w);
    StepsKeep(w, Run(Start(closure, heap)), n);
  }
}
