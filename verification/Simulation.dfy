/** Compiled code does what the expression means: one lemma per construct, by induction on the fuel
    and the expression. Each returns the number of machine steps taken. */
module Simulation {
  import opened Ast
  import opened Wrappers
  import opened Meaning
  import opened Machine
  import opened Lowering
  import opened LoweringShape
  import opened SimulationBase

  /** The machine is about to run the compiled code `r`. */
  ghost predicate Go(w: World, r: Result, c: Ctx, pos: nat, exits: map<nat, int>, env: Env, s: State) {
    Ready(w, c, exits, env, s) && s.pc == pos && CodeAt(w.p, pos, r.code, exits) && r.fits
  }

  /** `e` is a nested expression whose jumps find one of the `k` innermost loops. */
  ghost predicate Inner(e: Expr, c: Ctx, k: nat) {
    Hoisted(e, c.hoisted.Keys) && JumpsOk(e, k) && k <= |c.loops|
  }

  predicate JumpsWithin(o: Outcome, k: nat) {
    o.Brk? || o.Cont? ==> o.n < k
  }

  /** After `n` steps the machine shows outcome `o`; without enough fuel it ran at least that long. */
  ghost predicate Sims(w: World, c: Ctx, exits: map<nat, int>, r: Result, s: State, o: Outcome, pos: nat, n: nat,
        fuel: nat, k: nat)
  {
    && Agrees(w, c, exits, r, s, o, pos + |r.code|, Ran(w, Run(s), n))
    && n >= 1 && (o.Timeout? ==> n >= fuel) && JumpsWithin(o, k)
  }

  function Meant(w: World, e: Expr, c: Ctx, env: Env, heap: Heap, fuel: nat): Outcome {
    Eval(w.ops, w.g, e, c.hoisted.Keys, env, heap, fuel)
  }

  /** The parts of a nested expression are nested too. */
  lemma Nested(e: Expr, hoisted: set<string>)
    requires Hoisted(e, hoisted)
    ensures e.Binary? ==> Hoisted(e.lhs, hoisted) && Hoisted(e.rhs, hoisted)
    ensures e.Unary? ==> Hoisted(e.operand, hoisted)
    ensures e.If? ==> Hoisted(e.cond, hoisted) && Hoisted(e.thn, hoisted) && Hoisted(e.els, hoisted)
    ensures e.Break? && e.arg.Some? ==> Hoisted(e.arg.value, hoisted)
    ensures e.Return? && e.result.Some? ==> Hoisted(e.result.value, hoisted)
    ensures e.Decl? ==> e.name in hoisted && Hoisted(e.init, hoisted)
    ensures e.Assign? ==> Hoisted(e.rhs, hoisted)
    ensures e.Index? ==> Hoisted(e.obj, hoisted) && Hoisted(e.key, hoisted)
    ensures e.IndexAssign? ==> Hoisted(e.obj, hoisted) && Hoisted(e.key, hoisted) && Hoisted(e.rhs, hoisted)
    ensures e.Try? ==> Hoisted(e.attempt, hoisted)
    ensures e.Raise? ==> Hoisted(e.exn, hoisted)
    ensures Placed(e, hoisted)
  {
    if e.Break? && e.arg.Some? {
      assert HoistExpr(e) == HoistExpr(e.arg.value);
    }
    if e.Return? && e.result.Some? {
      assert HoistExpr(e) == HoistExpr(e.result.value);
    }
    if e.Decl? {
      assert HoistExpr(e)[0] == e.name;
    }
  }

  lemma {:induction false} SimBinary(w: World, e: Expr, c: Ctx, pos: nat, exits: map<nat, int>, env: Env, s: State,
        fuel: nat, k: nat)
    returns (n: nat)
    requires e.Binary? && e.op != And && e.op != Or && Inner(e, c, k)
    requires Go(w, CompileBinary(e, c, pos), c, pos, exits, env, s)
    ensures Sims(w, c, exits, CompileBinary(e, c, pos), s, EvalBinary(w.ops, w.g, e, c.hoisted.Keys, env, s.heap, fuel),
        pos, n, fuel, k)
    decreases fuel, e, 3
  {
    hide Compile, Eval, HoistExpr, CtxOk, Rel, Kept, Later, Pushed, CodeAt, Steps, Ran, Left, Mid, Placement, HoistOk;
    Nested(e, c.hoisted.Keys);
    var a := Compile(e.lhs, c, pos);
    FlatExpr(e.lhs, c, pos);
    var c1 := After(c, a);
    var b := Compile(e.rhs, c1, pos + |a.code|);
    FlatExpr(e.rhs, c1, pos + |a.code|);
    Split3(w.p, pos, a.code, b.code, At(c, b.h, BinI(e.op)), exits);
    OneCell(w.p, pos + |a.code| + |b.code|, c, b.h, BinI(e.op), exits);
    n := SimInner(w, e.lhs, c, pos, exits, env, s, fuel, k);
    var oa := Meant(w, e.lhs, c, env, s.heap, fuel);
    if !oa.Norm? { return; }
    MidStart(w, c, exits, env, s);
    var s1 := MidValue(w, c, exits, s, c, env, s, 0, a, oa, pos + |a.code|, n);
    var m := SimInner(w, e.rhs, c1, pos + |a.code|, exits, oa.env, s1, fuel, k);
    var ob := Meant(w, e.rhs, c1, oa.env, oa.heap, fuel);
    if !ob.Norm? {
      MidLeft(w, c, exits, s, c1, oa.env, s1, n, ob, m);
      n := n + m;
      return;
    }
    var s2 := MidValue(w, c, exits, s, c1, oa.env, s1, n, b, ob, pos + |a.code| + |b.code|, m);
    MidResult(w, c, exits, s, After(c1, b), ob.env, s2, n + m, BinI(e.op), CompileBinary(e, c, pos),
              w.ops.bin(e.op, oa.v, ob.v, ob.heap));
    n := n + m + 1;
  }

  lemma {:induction false} SimShort(w: World, e: Expr, c: Ctx, pos: nat, exits: map<nat, int>, env: Env, s: State,
        fuel: nat, k: nat)
    returns (n: nat)
    requires e.Binary? && (e.op == And || e.op == Or) && Inner(e, c, k)
    requires Go(w, CompileShort(e, c, pos), c, pos, exits, env, s)
    ensures Sims(w, c, exits, CompileShort(e, c, pos), s, EvalBinary(w.ops, w.g, e, c.hoisted.Keys, env, s.heap, fuel),
        pos, n, fuel, k)
    decreases fuel, e, 3
  {
    hide Compile, Eval, HoistExpr, CtxOk, Rel, Kept, Later, Pushed, CodeAt, Steps, Ran, Left, Mid, Placement, HoistOk,
      Exec, CompileShort;
    Nested(e, c.hoisted.Keys);
    var a := Compile(e.lhs, c, pos);
    FlatExpr(e.lhs, c, pos);
    var c1 := After(c, a);
    var at := pos + |a.code|;
    var b := Compile(e.rhs, Drop(c1), at + 2);
    FlatExpr(e.rhs, Drop(c1), at + 2);
    var d := |b.code| + 1;
    var jump := if e.op == And then JumpIfFalse(d) else JumpIfTrue(d);
    ShortInPlace(w, e, c, pos, exits);
    n := SimInner(w, e.lhs, c, pos, exits, env, s, fuel, k);
    var oa := Meant(w, e.lhs, c, env, s.heap, fuel);
    if !oa.Norm? { return; }
    MidStart(w, c, exits, env, s);
    var s1 := MidValue(w, c, exits, s, c, env, s, 0, a, oa, at, n);
    var decided := Decides(e.op, oa.v);
    var s2 := MidGoto(w, c, exits, s, c1, oa.env, s1, n, jump);
    if decided {
      MidDone(w, c, exits, s, c1, oa.env, s2, n + 1, CompileShort(e, c, pos));
      n := n + 1;
    } else {
      var s3 := MidPop(w, c, exits, s, c1, oa.env, s2, n + 1);
      var m := SimInner(w, e.rhs, Drop(c1), at + 2, exits, oa.env, s3, fuel, k);
      var ob := Meant(w, e.rhs, Drop(c1), oa.env, oa.heap, fuel);
      MidAgrees(w, c, exits, s, Drop(c1), oa.env, s3, n + 2, b, CompileShort(e, c, pos), ob, at + 2 + |b.code|, m);
      n := n + 2 + m;
    }
  }

  lemma ShortInPlace(w: World, e: Expr, c: Ctx, pos: nat, exits: map<nat, int>)
    requires e.Binary? && CodeAt(w.p, pos, CompileShort(e, c, pos).code, exits)
    ensures var a := Compile(e.lhs, c, pos);
      var at := pos + |a.code|;
      var b := Compile(e.rhs, Drop(After(c, a)), at + 2);
      var d := |b.code| + 1;
      var r := CompileShort(e, c, pos);
      && CodeAt(w.p, pos, a.code, exits) && CodeAt(w.p, at + 2, b.code, exits) && 0 <= at && at + 1 < |w.p|
      && w.p[at].op == (if e.op == And then JumpIfFalse(d) else JumpIfTrue(d)) && w.p[at + 1].op == Pop
      && |r.code| == |a.code| + 2 + |b.code| && r.locals == b.locals && r.h == b.h
      && (r.fits ==> a.fits && b.fits)
  {
    hide Compile, CodeAt, Placement;
    var a := Compile(e.lhs, c, pos);
    var at := pos + |a.code|;
    var b := Compile(e.rhs, Drop(After(c, a)), at + 2);
    var d := |b.code| + 1;
    var jump := if e.op == And then JumpIfFalse(d) else JumpIfTrue(d);
    Split4(w.p, pos, a.code, At(c, a.h, jump), At(c, a.h, Pop), b.code, exits);
    OneCell(w.p, at, c, a.h, jump, exits);
    OneCell(w.p, at + 1, c, a.h, Pop, exits);
  }

  lemma {:induction false} SimIf(w: World, e: Expr, c: Ctx, pos: nat, exits: map<nat, int>, env: Env, s: State,
        fuel: nat, k: nat)
    returns (n: nat)
    requires e.If? && Inner(e, c, k) && Go(w, CompileIf(e, c, pos), c, pos, exits, env, s)
    ensures Sims(w, c, exits, CompileIf(e, c, pos), s, EvalIf(w.ops, w.g, e, c.hoisted.Keys, env, s.heap, fuel), pos, n,
        fuel, k)
    decreases fuel, e, 3
  {
    hide Compile, Eval, HoistExpr, CtxOk, Rel, Kept, Later, Pushed, CodeAt, Steps, Ran, Left, Mid, Placement, HoistOk,
      Exec;
    Nested(e, c.hoisted.Keys);
    var a := Compile(e.cond, c, pos);
    FlatExpr(e.cond, c, pos);
    var c1 := After(c, a);
    var at := pos + |a.code|;
    var b := Compile(e.thn, Drop(c1), at + 2);
    FlatExpr(e.thn, Drop(c1), at + 2);
    var other := at + |b.code| + 4;
    var c2 := Drop(After(c, b).(h := a.h));
    var d := Compile(e.els, c2, other);
    FlatExpr(e.els, c2, other);
    IfParts(w.p, pos, exits, c, a, b, d);
    n := SimInner(w, e.cond, c, pos, exits, env, s, fuel, k);
    var oa := Meant(w, e.cond, c, env, s.heap, fuel);
    if !oa.Norm? { return; }
    MidStart(w, c, exits, env, s);
    var s1 := MidValue(w, c, exits, s, c, env, s, 0, a, oa, at, n);
    var s2 := MidGoto(w, c, exits, s, c1, oa.env, s1, n, JumpIfFalse(|b.code| + 2));
    var s3 := MidPop(w, c, exits, s, c1, oa.env, s2, n + 1);
    if Truthy(oa.v) {
      var m := SimInner(w, e.thn, Drop(c1), at + 2, exits, oa.env, s3, fuel, k);
      var ob := Meant(w, e.thn, Drop(c1), oa.env, oa.heap, fuel);
      n := ThenBranch(w, c, exits, s, Drop(c1), oa.env, s3, n + 2, b, CompileIf(e, c, pos), ob, at + 2 + |b.code|, m,
          |d.code| + 1);
    } else {
      var m := SimInner(w, e.els, c2, other, exits, oa.env, s3, fuel, k);
      var ob := Meant(w, e.els, c2, oa.env, oa.heap, fuel);
      MidAgrees(w, c, exits, s, c2, oa.env, s3, n + 2, d, CompileIf(e, c, pos), ob, other + |d.code|, m);
      n := n + 2 + m;
    }
  }

  lemma IfParts(p: Code, pos: nat, exits: map<nat, int>, c: Ctx, a: Result, b: Result, d: Result)
    requires CodeAt(p, pos, a.code + At(c, a.h, JumpIfFalse(|b.code| + 2)) + At(c, a.h, Pop) + b.code
                              + At(c, b.h, Jump(|d.code| + 1)) + At(c, a.h, Pop) + d.code, exits)
    ensures var at := pos + |a.code|;
      && CodeAt(p, pos, a.code, exits) && CodeAt(p, at + 2, b.code, exits)
      && CodeAt(p, at + |b.code| + 4, d.code, exits)
      && at + |b.code| + 3 < |p| && p[at].op == JumpIfFalse(|b.code| + 2) && p[at + 1].op == Pop
      && p[at + |b.code| + 2].op == Jump(|d.code| + 1) && p[at + |b.code| + 3].op == Pop
  {
    hide CodeAt, Placement;
    var at := pos + |a.code|;
    var first := a.code + At(c, a.h, JumpIfFalse(|b.code| + 2)) + At(c, a.h, Pop) + b.code;
    Split4(p, pos, first, At(c, b.h, Jump(|d.code| + 1)), At(c, a.h, Pop), d.code, exits);
    Split4(p, pos, a.code, At(c, a.h, JumpIfFalse(|b.code| + 2)), At(c, a.h, Pop), b.code, exits);
    OneCell(p, at, c, a.h, JumpIfFalse(|b.code| + 2), exits);
    OneCell(p, at + 1, c, a.h, Pop, exits);
    OneCell(p, at + |b.code| + 2, c, b.h, Jump(|d.code| + 1), exits);
    OneCell(p, at + |b.code| + 3, c, a.h, Pop, exits);
  }

  /** The part before a jump to the end of the expression decides its outcome. */
  lemma ThenBranch(w: World, c: Ctx, exits: map<nat, int>, s: State, c1: Ctx, env1: Env, s1: State, n: nat, b: Result,
        r: Result, o: Outcome, at: int, m: nat, dist: int)
    returns (total: nat)
    requires Mid(w, c, exits, s, c1, env1, s1, n) && Agrees(w, c1, exits, b, s1, o, at, Ran(w, Run(s1), m))
    requires Flat(c1, b) && c1.locals == c.locals && c1.h == c.h && Flat(c, r)
    requires 0 <= at < |w.p| && w.p[at].op == Jump(dist)
    ensures Agrees(w, c, exits, r, s, o, at + 1 + dist, Ran(w, Run(s), total)) && total >= m
  {
    hide CtxOk, Rel, Kept, Later, CodeAt, Steps, Ran, Left, Mid, Placement, HoistOk, Exec, Pushed;
    total := n + m;
    if o.Norm? {
      var s2 := MidValue(w, c, exits, s, c1, env1, s1, n, b, o, at, m);
      var s3 := MidGoto(w, c, exits, s, After(c1, b), o.env, s2, n + m, Jump(dist));
      MidDone(w, c, exits, s, After(c1, b), o.env, s3, n + m + 1, r);
      total := n + m + 1;
    } else {
      MidLeft(w, c, exits, s, c1, env1, s1, n, o, m);
    }
  }

  lemma {:induction false} SimIndex(w: World, e: Expr, c: Ctx, pos: nat, exits: map<nat, int>, env: Env, s: State,
        fuel: nat, k: nat)
    returns (n: nat)
    requires e.Index? && Inner(e, c, k) && Go(w, CompileIndex(e, c, pos), c, pos, exits, env, s)
    ensures Sims(w, c, exits, CompileIndex(e, c, pos), s, EvalIndex(w.ops, w.g, e, c.hoisted.Keys, env, s.heap, fuel),
        pos, n, fuel, k)
    decreases fuel, e, 3
  {
    hide Compile, Eval, HoistExpr, CtxOk, Rel, Kept, Later, Pushed, CodeAt, Steps, Ran, Left, Mid, Placement, HoistOk;
    Nested(e, c.hoisted.Keys);
    var a := Compile(e.obj, c, pos);
    FlatExpr(e.obj, c, pos);
    var c1 := After(c, a);
    var b := Compile(e.key, c1, pos + |a.code|);
    FlatExpr(e.key, c1, pos + |a.code|);
    Split3(w.p, pos, a.code, b.code, At(c, b.h, IndexGet), exits);
    OneCell(w.p, pos + |a.code| + |b.code|, c, b.h, IndexGet, exits);
    n := SimInner(w, e.obj, c, pos, exits, env, s, fuel, k);
    var oa := Meant(w, e.obj, c, env, s.heap, fuel);
    if !oa.Norm? { return; }
    MidStart(w, c, exits, env, s);
    var s1 := MidValue(w, c, exits, s, c, env, s, 0, a, oa, pos + |a.code|, n);
    var m := SimInner(w, e.key, c1, pos + |a.code|, exits, oa.env, s1, fuel, k);
    var ob := Meant(w, e.key, c1, oa.env, oa.heap, fuel);
    if !ob.Norm? {
      MidLeft(w, c, exits, s, c1, oa.env, s1, n, ob, m);
      n := n + m;
      return;
    }
    var s2 := MidValue(w, c, exits, s, c1, oa.env, s1, n, b, ob, pos + |a.code| + |b.code|, m);
    MidResult(w, c, exits, s, After(c1, b), ob.env, s2, n + m, IndexGet, CompileIndex(e, c, pos),
              w.ops.indexGet(oa.v, ob.v, ob.heap));
    n := n + m + 1;
  }

  /** The compound operator, with both operands on top: a value or a raise. */
  lemma SimCompound(w: World, c: Ctx, exits: map<nat, int>, s: State, c1: Ctx, env1: Env, s1: State, n: nat, op: BinOp,
        x: Value, y: Value)
    returns (s2: State)
    requires Mid(w, c, exits, s, c1, env1, s1, n) && c1.locals == c.locals && |s1.stack| >= c.h + 2
    requires 0 <= s1.pc < |w.p| && w.p[s1.pc].op == CompoundInstr(op)
    requires s1.stack[|s1.stack| - 2] == x && s1.stack[|s1.stack| - 1] == y
    ensures var r := Compound(w.ops, op, x, y, s1.heap);
      && (r.Err? ==> Left(w, c, exits, s, Lift(r, env1), Ran(w, Run(s), n + 1)))
      && (r.Ok? ==> s2 == State(s1.pc + 1, s1.stack[..|s1.stack| - 2] + [r.v], s1.tries, r.heap)
                    && Mid(w, c, exits, s, Up(c1, |s1.stack| - 1), env1, s2, n + 1))
  {
    hide CtxOk, Rel, Kept, Later, CodeAt, Steps, Ran, Left, Mid, HoistOk;
    var r := Compound(w.ops, op, x, y, s1.heap);
    var below := s1.stack[..|s1.stack| - 2];
    assert below[..c.h] == s1.stack[..c.h];
    if r.Err? {
      s2 := State(s1.pc, below, s1.tries, r.heap);
      MidRaise(w, c, exits, s, c1, env1, s1, n, CompoundInstr(op), r.exn, s2);
    } else {
      s2 := State(s1.pc + 1, below + [r.v], s1.tries, r.heap);
      assert s2.stack[..c.h] == s1.stack[..c.h];
      MidFlat(w, c, exits, s, c1, env1, s1, n, CompoundInstr(op), s2);
    }
  }

  lemma {:induction false} SimAssign(w: World, e: Expr, c: Ctx, pos: nat, exits: map<nat, int>, env: Env, s: State,
        fuel: nat, k: nat)
    returns (n: nat)
    requires e.Assign? && Inner(e, c, k) && Go(w, CompileAssign(e, c, pos), c, pos, exits, env, s)
    ensures Sims(w, c, exits, CompileAssign(e, c, pos), s, EvalAssign(w.ops, w.g, e, c.hoisted.Keys, env, s.heap, fuel),
        pos, n, fuel, k)
    decreases fuel, e, 3
  {
    hide Compile, Eval, HoistExpr, CtxOk, Kept, Later, Pushed, CodeAt, Steps, Ran, Left, Mid, Placement, HoistOk, Exec,
      Newest;
    Nested(e, c.hoisted.Keys);
    SamePlace(c.locals, env, e.name);
    var i := Newest(c.locals, e.name);
    if i.None? {
      n := SimInner(w, e.rhs, c, pos, exits, env, s, fuel, k);
      var a := Compile(e.rhs, c, pos);
      var oa := Meant(w, e.rhs, c, env, s.heap, fuel);
      MidStart(w, c, exits, env, s);
      MidAgrees(w, c, exits, s, c, env, s, 0, a, CompileAssign(e, c, pos), oa, pos + |a.code|, n);
    } else if e.aop.None? {
      n := SimSimpleAssign(w, e, c, pos, exits, env, s, fuel, k, i.value);
    } else {
      n := SimCompoundAssign(w, e, c, pos, exits, env, s, fuel, k, i.value);
    }
  }

  lemma {:induction false} SimSimpleAssign(w: World, e: Expr, c: Ctx, pos: nat, exits: map<nat, int>, env: Env,
        s: State, fuel: nat, k: nat, i: nat)
    returns (n: nat)
    requires e.Assign? && e.aop.None? && Inner(e, c, k) && Go(w, CompileAssign(e, c, pos), c, pos, exits, env, s)
    requires Newest(c.locals, e.name) == Some(i) == Newest(env, e.name)
    ensures Sims(w, c, exits, CompileAssign(e, c, pos), s, EvalAssign(w.ops, w.g, e, c.hoisted.Keys, env, s.heap, fuel),
        pos, n, fuel, k)
    decreases fuel, e, 2
  {
    hide Compile, Eval, HoistExpr, CtxOk, Rel, Kept, Later, Pushed, CodeAt, Steps, Ran, Left, Mid, Placement, HoistOk,
      Exec, Newest;
    Nested(e, c.hoisted.Keys);
    var a := Compile(e.rhs, c, pos);
    FlatExpr(e.rhs, c, pos);
    SplitCode(w.p, pos, a.code, At(c, a.h, StoreLocal(c.locals[i].val)), exits);
    OneCell(w.p, pos + |a.code|, c, a.h, StoreLocal(c.locals[i].val), exits);
    n := SimInner(w, e.rhs, c, pos, exits, env, s, fuel, k);
    var oa := Meant(w, e.rhs, c, env, s.heap, fuel);
    if !oa.Norm? { return; }
    MidStart(w, c, exits, env, s);
    var s1 := MidValue(w, c, exits, s, c, env, s, 0, a, oa, pos + |a.code|, n);
    MidStore(w, c, exits, s, After(c, a), oa.env, s1, n, i, CompileAssign(e, c, pos));
    n := n + 1;
  }

  lemma CompoundInPlace(w: World, e: Expr, c: Ctx, pos: nat, exits: map<nat, int>, i: nat)
    requires e.Assign? && e.aop.Some? && Newest(c.locals, e.name) == Some(i)
    requires CodeAt(w.p, pos, CompileAssign(e, c, pos).code, exits)
    ensures var slot := c.locals[i].val;
      var a := Compile(e.rhs, Up(c, c.h + 1), pos + 1);
      var at := pos + 1 + |a.code|;
      var r := CompileAssign(e, c, pos);
      && CodeAt(w.p, pos + 1, a.code, exits) && 0 <= pos && at + 1 < |w.p| && w.p[pos].op == LoadLocal(slot)
      && w.p[at].op == CompoundInstr(e.aop.value) && w.p[at + 1].op == StoreLocal(slot)
      && |r.code| == |a.code| + 3 && r.locals == a.locals && r.h == Less(a.h, 1) && r.fits == a.fits
  {
    hide Compile, CodeAt, Placement, Newest;
    var slot := c.locals[i].val;
    var a := Compile(e.rhs, Up(c, c.h + 1), pos + 1);
    var at := pos + 1 + |a.code|;
    Split4(w.p, pos, At(c, c.h, LoadLocal(slot)), a.code, At(c, a.h, CompoundInstr(e.aop.value)),
        At(c, Less(a.h, 1), StoreLocal(slot)), exits);
    OneCell(w.p, pos, c, c.h, LoadLocal(slot), exits);
    OneCell(w.p, at, c, a.h, CompoundInstr(e.aop.value), exits);
    OneCell(w.p, at + 1, c, Less(a.h, 1), StoreLocal(slot), exits);
  }

  lemma {:induction false} SimCompoundAssign(w: World, e: Expr, c: Ctx, pos: nat, exits: map<nat, int>, env: Env,
        s: State, fuel: nat, k: nat, i: nat)
    returns (n: nat)
    requires e.Assign? && e.aop.Some? && Inner(e, c, k) && Go(w, CompileAssign(e, c, pos), c, pos, exits, env, s)
    requires Newest(c.locals, e.name) == Some(i) == Newest(env, e.name)
    requires c.locals[i].val < |s.stack| && s.stack[c.locals[i].val] == env[i].val
    ensures Sims(w, c, exits, CompileAssign(e, c, pos), s, EvalAssign(w.ops, w.g, e, c.hoisted.Keys, env, s.heap, fuel),
        pos, n, fuel, k)
    decreases fuel, e, 2
  {
    hide SlotsOk, Compile, Eval, HoistExpr, CtxOk, Rel, Kept, Later, Pushed, CodeAt, Steps, Ran, Left, Mid, Placement,
      HoistOk, Newest, CompileAssign;
    Nested(e, c.hoisted.Keys);
    var slot := c.locals[i].val;
    var c1 := Up(c, c.h + 1);
    var a := Compile(e.rhs, c1, pos + 1);
    FlatExpr(e.rhs, c1, pos + 1);
    var at := pos + 1 + |a.code|;
    CompoundInPlace(w, e, c, pos, exits, i);
    MidStart(w, c, exits, env, s);
    var s1 := MidPush(w, c, exits, s, c, env, s, 0, LoadLocal(slot), env[i].val, s.heap);
    n := SimInner(w, e.rhs, c1, pos + 1, exits, env, s1, fuel, k);
    var oa := Meant(w, e.rhs, c1, env, s.heap, fuel);
    if !oa.Norm? {
      MidLeft(w, c, exits, s, c1, env, s1, 1, oa, n);
      n := n + 1;
      return;
    }
    var s2 := MidValue(w, c, exits, s, c1, env, s1, 1, a, oa, at, n);
    var s3 := SimCompound(w, c, exits, s, After(c1, a), oa.env, s2, 1 + n, e.aop.value, env[i].val, oa.v);
    var r := Compound(w.ops, e.aop.value, env[i].val, oa.v, oa.heap);
    if r.Ok? {
      MidStore(w, c, exits, s, Up(After(c1, a), |s2.stack| - 1), oa.env, s3, 2 + n, i, CompileAssign(e, c, pos));
      n := n + 3;
    } else {
      n := n + 2;
      assert r.Err?;
    }
  }

  lemma {:induction false} SimIndexAssign(w: World, e: Expr, c: Ctx, pos: nat, exits: map<nat, int>, env: Env, s: State,
        fuel: nat, k: nat)
    returns (n: nat)
    requires e.IndexAssign? && Inner(e, c, k) && Go(w, CompileIndexAssign(e, c, pos), c, pos, exits, env, s)
    ensures Sims(w, c, exits, CompileIndexAssign(e, c, pos), s,
        EvalIndexAssign(w.ops, w.g, e, c.hoisted.Keys, env, s.heap, fuel), pos, n, fuel, k)
    decreases fuel, e, 3
  {
    hide Compile, Eval, HoistExpr, CtxOk, Rel, Kept, Later, Pushed, CodeAt, Steps, Ran, Left, Mid, Placement, HoistOk,
      Exec;
    Nested(e, c.hoisted.Keys);
    var a := Compile(e.obj, c, pos);
    FlatExpr(e.obj, c, pos);
    var c1 := After(c, a);
    var b := Compile(e.key, c1, pos + |a.code|);
    FlatExpr(e.key, c1, pos + |a.code|);
    FlatIndexAssign(e, c, pos);
    var at := pos + |a.code| + |b.code|;
    var rest := IndexAssignRest(e, c, After(c1, b), at);
    IndexAssignSplit(e, c, pos);
    Split3(w.p, pos, a.code, b.code, rest.code, exits);
    n := SimInner(w, e.obj, c, pos, exits, env, s, fuel, k);
    var oa := Meant(w, e.obj, c, env, s.heap, fuel);
    if !oa.Norm? { return; }
    MidStart(w, c, exits, env, s);
    var s1 := MidValue(w, c, exits, s, c, env, s, 0, a, oa, pos + |a.code|, n);
    var m := SimInner(w, e.key, c1, pos + |a.code|, exits, oa.env, s1, fuel, k);
    var ob := Meant(w, e.key, c1, oa.env, oa.heap, fuel);
    if !ob.Norm? {
      MidLeft(w, c, exits, s, c1, oa.env, s1, n, ob, m);
      n := n + m;
      return;
    }
    var s2 := MidValue(w, c, exits, s, c1, oa.env, s1, n, b, ob, at, m);
    n := SimIndexStore(w, e, c, exits, s, After(c1, b), ob.env, s2, n + m, fuel, k, oa.v, ob.v,
        CompileIndexAssign(e, c, pos));
  }

  /** The code of an indexed assignment after object and key. */
  function IndexAssignRest(e: Expr, c: Ctx, c2: Ctx, at: nat): Result
    requires e.IndexAssign?
  {
    var cur := if e.iop.Some? then At(c, c2.h, Dup2) + At(c, c2.h + 2, IndexGet) else [];
    var hv := c2.h + if e.iop.Some? then 1 else 0;
    var d := Compile(e.rhs, c2.(h := hv), at + |cur|);
    var op := if e.iop.Some? then At(c, d.h, CompoundInstr(e.iop.value)) else [];
    var h := Less(d.h, |op|);
    Result(cur + d.code + op + At(c, h, IndexSet), d.locals, Less(h, 2), d.ok, d.fits)
  }

  lemma IndexAssignSplit(e: Expr, c: Ctx, pos: nat)
    requires e.IndexAssign?
    ensures var a := Compile(e.obj, c, pos);
      var b := Compile(e.key, After(c, a), pos + |a.code|);
      var rest := IndexAssignRest(e, c, After(After(c, a), b), pos + |a.code| + |b.code|);
      CompileIndexAssign(e, c, pos).code == a.code + b.code + rest.code
        && (CompileIndexAssign(e, c, pos).fits ==> rest.fits)
  {
    hide Compile;
  }

  /** Evaluate the right-hand side, apply the operator if any, store. */
  lemma {:induction false} SimIndexStore(w: World, e: Expr, c: Ctx, exits: map<nat, int>, s: State, c2: Ctx, env2: Env,
        s2: State, n2: nat, fuel: nat, k: nat, o: Value, key: Value, r: Result)
    returns (n: nat)
    requires e.IndexAssign? && Inner(e, c, k) && Mid(w, c, exits, s, c2, env2, s2, n2) && c2 == Up(c, c.h + 2)
    requires |s2.stack| == c.h + 2 && s2.stack[c.h] == o && s2.stack[c.h + 1] == key && s2.pc >= 0 && Flat(c, r)
    requires CodeAt(w.p, s2.pc, IndexAssignRest(e, c, c2, s2.pc).code, exits) && IndexAssignRest(e, c, c2, s2.pc).fits
    ensures var out := EvalIndexStore(w.ops, w.g, e, c.hoisted.Keys, env2, s2.heap, fuel, o, key);
      Agrees(w, c, exits, r, s, out, s2.pc + |IndexAssignRest(e, c, c2, s2.pc).code|, Ran(w, Run(s), n))
      && n >= n2 && (out.Timeout? ==> n >= fuel) && JumpsWithin(out, k)
    decreases fuel, e, 2
  {
    if e.iop.None? {
      n := SimPlainStore(w, e, c, exits, s, c2, env2, s2, n2, fuel, k, o, key, r);
    } else {
      n := SimCompoundStore(w, e, c, exits, s, c2, env2, s2, n2, fuel, k, o, key, r);
    }
  }

  lemma {:induction false} SimPlainStore(w: World, e: Expr, c: Ctx, exits: map<nat, int>, s: State, c2: Ctx, env2: Env,
        s2: State, n2: nat, fuel: nat, k: nat, o: Value, key: Value, r: Result)
    returns (n: nat)
    requires e.IndexAssign? && e.iop.None? && Inner(e, c, k) && Mid(w, c, exits, s, c2, env2, s2, n2)
    requires c2 == Up(c, c.h + 2)
    requires |s2.stack| == c.h + 2 && s2.stack[c.h] == o && s2.stack[c.h + 1] == key && s2.pc >= 0 && Flat(c, r)
    requires CodeAt(w.p, s2.pc, IndexAssignRest(e, c, c2, s2.pc).code, exits) && IndexAssignRest(e, c, c2, s2.pc).fits
    ensures var out := EvalIndexStore(w.ops, w.g, e, c.hoisted.Keys, env2, s2.heap, fuel, o, key);
      Agrees(w, c, exits, r, s, out, s2.pc + |IndexAssignRest(e, c, c2, s2.pc).code|, Ran(w, Run(s), n))
      && n >= n2 && (out.Timeout? ==> n >= fuel) && JumpsWithin(out, k)
    decreases fuel, e, 1
  {
    hide Compile, Eval, HoistExpr, CtxOk, Rel, Kept, Later, Pushed, CodeAt, Steps, Ran, Left, Placement, HoistOk;
    Nested(e, c.hoisted.Keys);
    var d := Compile(e.rhs, c2, s2.pc);
    FlatExpr(e.rhs, c2, s2.pc);
    var end := s2.pc + |d.code|;
    assert [] + d.code + [] == d.code;
    SplitCode(w.p, s2.pc, d.code, At(c, d.h, IndexSet), exits);
    OneCell(w.p, end, c, d.h, IndexSet, exits);
    var m := SimInner(w, e.rhs, c2, s2.pc, exits, env2, s2, fuel, k);
    var od := Meant(w, e.rhs, c2, env2, s2.heap, fuel);
    n := n2 + m;
    if !od.Norm? {
      MidLeft(w, c, exits, s, c2, env2, s2, n2, od, m);
      return;
    }
    var s3 := MidValue(w, c, exits, s, c2, env2, s2, n2, d, od, end, m);
    MidResult(w, c, exits, s, After(c2, d), od.env, s3, n, IndexSet, r, w.ops.indexSet(o, key, od.v, od.heap));
    n := n + 1;
  }

  lemma {:induction false} SimCompoundStore(w: World, e: Expr, c: Ctx, exits: map<nat, int>, s: State, c2: Ctx,
        env2: Env, s2: State, n2: nat, fuel: nat, k: nat, o: Value, key: Value, r: Result)
    returns (n: nat)
    requires e.IndexAssign? && e.iop.Some? && Inner(e, c, k) && Mid(w, c, exits, s, c2, env2, s2, n2)
    requires c2 == Up(c, c.h + 2)
    requires |s2.stack| == c.h + 2 && s2.stack[c.h] == o && s2.stack[c.h + 1] == key && s2.pc >= 0 && Flat(c, r)
    requires CodeAt(w.p, s2.pc, IndexAssignRest(e, c, c2, s2.pc).code, exits) && IndexAssignRest(e, c, c2, s2.pc).fits
    ensures var out := EvalIndexStore(w.ops, w.g, e, c.hoisted.Keys, env2, s2.heap, fuel, o, key);
      Agrees(w, c, exits, r, s, out, s2.pc + |IndexAssignRest(e, c, c2, s2.pc).code|, Ran(w, Run(s), n))
      && n >= n2 && (out.Timeout? ==> n >= fuel) && JumpsWithin(out, k)
    decreases fuel, e, 1
  {
    hide Compile, Eval, HoistExpr, CtxOk, Rel, Kept, Later, Pushed, CodeAt, Steps, Ran, Left, Placement, HoistOk;
    Nested(e, c.hoisted.Keys);
    var c3 := Up(c, c.h + 3);
    var d := Compile(e.rhs, c3, s2.pc + 2);
    FlatExpr(e.rhs, c3, s2.pc + 2);
    var op := CompoundInstr(e.iop.value);
    var at := s2.pc + 2 + |d.code|;
    Split4(w.p, s2.pc, At(c, c.h + 2, Dup2) + At(c, c.h + 4, IndexGet), d.code, At(c, d.h, op),
        At(c, d.h - 1, IndexSet), exits);
    SplitCode(w.p, s2.pc, At(c, c.h + 2, Dup2), At(c, c.h + 4, IndexGet), exits);
    OneCell(w.p, s2.pc, c, c.h + 2, Dup2, exits);
    OneCell(w.p, s2.pc + 1, c, c.h + 4, IndexGet, exits);
    OneCell(w.p, at, c, d.h, op, exits);
    OneCell(w.p, at + 1, c, d.h - 1, IndexSet, exits);
    var cur := w.ops.indexGet(o, key, s2.heap);
    var s3 := SimReadCurrent(w, c, exits, s, c2, env2, s2, n2, o, key);
    if cur.Err? { n := n2 + 2; return; }
    var m := SimInner(w, e.rhs, c3, s2.pc + 2, exits, env2, s3, fuel, k);
    var od := Meant(w, e.rhs, c3, env2, cur.heap, fuel);
    n := n2 + 2 + m;
    if !od.Norm? {
      MidLeft(w, c, exits, s, c3, env2, s3, n2 + 2, od, m);
      return;
    }
    var s4 := MidValue(w, c, exits, s, c3, env2, s3, n2 + 2, d, od, at, m);
    n := SimStoreResult(w, e, c, exits, s, After(c3, d), od.env, s4, n, e.iop.value, cur.v, od.v, o, key, r);
  }

  /** Apply the operator to the old element and the new value, then store the result. */
  lemma SimStoreResult(w: World, e: Expr, c: Ctx, exits: map<nat, int>, s: State, c1: Ctx, env1: Env, s1: State,
        n1: nat, op: BinOp, x: Value, y: Value, o: Value, key: Value, r: Result)
    returns (n: nat)
    requires Mid(w, c, exits, s, c1, env1, s1, n1) && c1.locals == c.locals && |s1.stack| == c.h + 4 && Flat(c, r)
    requires s1.stack[c.h] == o && s1.stack[c.h + 1] == key && s1.stack[c.h + 2] == x && s1.stack[c.h + 3] == y
    requires 0 <= s1.pc && s1.pc + 1 < |w.p| && w.p[s1.pc].op == CompoundInstr(op) && w.p[s1.pc + 1].op == IndexSet
    ensures var v := Compound(w.ops, op, x, y, s1.heap);
      var out := if v.Err? then Lift(v, env1) else Lift(w.ops.indexSet(o, key, v.v, v.heap), env1);
      Agrees(w, c, exits, r, s, out, s1.pc + 2, Ran(w, Run(s), n)) && n >= n1
  {
    hide CtxOk, Rel, Kept, Later, Pushed, CodeAt, Steps, Ran, Left, Mid, HoistOk;
    var v := Compound(w.ops, op, x, y, s1.heap);
    var s2 := SimCompound(w, c, exits, s, c1, env1, s1, n1, op, x, y);
    n := n1 + 1;
    if v.Ok? {
      MidResult(w, c, exits, s, Up(c1, |s1.stack| - 1), env1, s2, n, IndexSet, r, w.ops.indexSet(o, key, v.v, v.heap));
      n := n + 1;
    } else {
      assert v.Err?;
    }
  }

  /** `Dup2; IndexGet`: the current element on top of object and key. */
  lemma SimReadCurrent(w: World, c: Ctx, exits: map<nat, int>, s: State, c2: Ctx, env2: Env, s2: State, n2: nat,
        o: Value, key: Value)
    returns (s3: State)
    requires Mid(w, c, exits, s, c2, env2, s2, n2) && c2 == Up(c, c.h + 2)
    requires |s2.stack| == c.h + 2 && s2.stack[c.h] == o && s2.stack[c.h + 1] == key && s2.pc >= 0
    requires s2.pc + 1 < |w.p| && w.p[s2.pc].op == Dup2 && w.p[s2.pc + 1].op == IndexGet
    ensures var r := w.ops.indexGet(o, key, s2.heap);
      && (r.Err? ==> Left(w, c, exits, s, Lift(r, env2), Ran(w, Run(s), n2 + 2)))
      && (r.Ok? ==> s3 == State(s2.pc + 2, s2.stack + [r.v], s2.tries, r.heap)
                    && Mid(w, c, exits, s, Up(c, c.h + 3), env2, s3, n2 + 2))
  {
    hide CtxOk, Rel, Kept, Later, Pushed, CodeAt, Steps, Ran, Left, Mid, HoistOk;
    var t := State(s2.pc + 1, s2.stack + [o, key], s2.tries, s2.heap);
    assert t.stack[..c.h] == s2.stack[..c.h];
    MidFlat(w, c, exits, s, c2, env2, s2, n2, Dup2, t);
    var c4 := Up(c2, |t.stack|);
    var r := w.ops.indexGet(o, key, s2.heap);
    assert t.stack[..c.h + 2] == s2.stack;
    if r.Err? {
      s3 := State(t.pc, s2.stack, t.tries, r.heap);
      MidRaise(w, c, exits, s, c4, env2, t, n2 + 1, IndexGet, r.exn, s3);
    } else {
      s3 := State(s2.pc + 2, s2.stack + [r.v], s2.tries, r.heap);
      assert s3.stack[..c.h] == t.stack[..c.h];
      MidFlat(w, c, exits, s, c4, env2, t, n2 + 1, IndexGet, s3);
    }
  }

  lemma {:induction false} SimDecl(w: World, e: Expr, c: Ctx, pos: nat, exits: map<nat, int>, env: Env, s: State,
        fuel: nat, k: nat)
    returns (n: nat)
    requires e.Decl? && Placed(e, c.hoisted.Keys) && JumpsOk(e, k) && k <= |c.loops|
    requires Go(w, CompileDecl(e, c, pos), c, pos, exits, env, s)
    ensures Sims(w, c, exits, CompileDecl(e, c, pos), s, EvalDecl(w.ops, w.g, e, c.hoisted.Keys, env, s.heap, fuel),
        pos, n, fuel, k)
    decreases fuel, e, 3
  {
    hide Compile, Eval, HoistExpr, CtxOk, Rel, Kept, Later, Pushed, CodeAt, Steps, Ran, Left, Mid, Placement, HoistOk,
      Exec;
    var a := Compile(e.init, c, pos);
    FlatExpr(e.init, c, pos);
    var at := pos + |a.code|;
    n := SimInner(w, e.init, c, pos, exits, env, s, fuel, k) by {
      DeclCode(w.p, e, c, pos, exits);
    }
    DeclCode(w.p, e, c, pos, exits);
    var oa := Meant(w, e.init, c, env, s.heap, fuel);
    if !oa.Norm? { return; }
    MidStart(w, c, exits, env, s);
    var s1 := MidValue(w, c, exits, s, c, env, s, 0, a, oa, at, n);
    if e.name in c.hoisted {
      var i := MidHoisted(w, c, exits, s, After(c, a), oa.env, s1, n, e.name);
      MidStore(w, c, exits, s, After(c, a), oa.env, s1, n, i, CompileDecl(e, c, pos));
    } else {
      MidDeclare(w, c, exits, s, After(c, a), oa.env, s1, n, e.name, CompileDecl(e, c, pos));
    }
    n := n + 1;
  }

  lemma DeclCode(p: Code, e: Expr, c: Ctx, pos: nat, exits: map<nat, int>)
    requires e.Decl? && CodeAt(p, pos, CompileDecl(e, c, pos).code, exits)
    ensures var a := Compile(e.init, c, pos);
      && CodeAt(p, pos, a.code, exits) && pos + |a.code| < |p|
      && p[pos + |a.code|].op == if e.name in c.hoisted then StoreLocal(c.hoisted[e.name]) else Dup
  {
    hide Compile, CodeAt, Placement;
    var a := Compile(e.init, c, pos);
    var op := if e.name in c.hoisted then StoreLocal(c.hoisted[e.name]) else Dup;
    SplitCode(p, pos, a.code, At(c, a.h, op), exits);
    OneCell(p, pos + |a.code|, c, a.h, op, exits);
  }

  /** `break` in state `c`: the loop it exits is the newest one not skipped. */
  lemma {:induction false} SimBreak(w: World, e: Expr, c: Ctx, pos: nat, exits: map<nat, int>, env: Env, s: State,
        fuel: nat, k: nat)
    returns (n: nat)
    requires e.Break? && Inner(e, c, k) && Go(w, CompileBreak(e, c, pos), c, pos, exits, env, s)
    ensures Sims(w, c, exits, CompileBreak(e, c, pos), s, EvalBreak(w.ops, w.g, e, c.hoisted.Keys, env, s.heap, fuel),
        pos, n, fuel, k)
    decreases fuel, e, 3
  {
    hide Compile, Eval, HoistExpr, CtxOk, Rel, Kept, Later, Pushed, CodeAt, Steps, Ran, Left, Mid, Placement, HoistOk,
      Exec;
    Nested(e, c.hoisted.Keys);
    var l := Target(c, 0);
    MidStart(w, c, exits, env, s);
    LoopsOk(w, c, exits, s, c, env, s, 0);
    if e.arg.Some? {
      n := SimBreakValue(w, e, c, pos, exits, env, s, fuel, k);
    } else {
      n := SimBareBreak(w, e, c, pos, exits, env, s);
    }
  }

  lemma SimBareBreak(w: World, e: Expr, c: Ctx, pos: nat, exits: map<nat, int>, env: Env, s: State) returns (n: nat)
    requires e.Break? && e.arg.None? && |c.loops| > 0 && Go(w, CompileBreak(e, c, pos), c, pos, exits, env, s)
    requires LoopOk(c, Target(c, 0))
    ensures Left(w, c, exits, s, Brk(0, None, env, s.heap), Ran(w, Run(s), n)) && n >= 1
  {
    hide Compile, CtxOk, Rel, Kept, Later, CodeAt, Steps, Ran, Mid, HoistOk, Exec, LoopOk;
    var l := Target(c, 0);
    MidStart(w, c, exits, env, s);
    var unwind, hole := At(c, c.h, Unwind(U8(l.base))), AfterUnwind(c, c.h, l.base, Hole(l.id));
    if l.isArray {
      assert CompileBreak(e, c, pos).code == unwind + hole;
      n := SkipOut(w, c, exits, env, s, l, Hole(l.id));
    } else {
      var fold := Fold(c, c.h + 1, false, l.resultSlot);
      assert CompileBreak(e, c, pos).code == At(c, c.h, PushNull) + fold + unwind + hole;
      n := NullOut(w, c, exits, env, s, l, Hole(l.id));
    }
  }

  /** Where the jump that ends a `break` or `continue` goes once patched. */
  function Destination(i: Instr, at: int, exits: map<nat, int>): int
    requires (i.Hole? && i.loopId in exits) || i.Loop?
  {
    if i.Hole? then exits[i.loopId] else at + 1 - i.dist
  }

  lemma JumpCell(p: Code, at: int, c: Ctx, h: nat, base: nat, i: Instr, exits: map<nat, int>) returns (j: Instr)
    requires CodeAt(p, at, AfterUnwind(c, h, base, i), exits) && ((i.Hole? && i.loopId in exits) || i.Loop?)
    ensures 0 <= at < |p| && p[at].op == j && (j.Jump? || j.Loop?) && NextPc(j, at, Null) == Destination(i, at, exits)
  {
    assert AfterUnwind(c, h, base, i)[0].op == i;
    j := p[at].op;
  }

  /** A bare exit from a collecting loop: its array is left as it is. */
  lemma SkipOut(w: World, c: Ctx, exits: map<nat, int>, env: Env, s: State, l: LoopCtx, i: Instr) returns (n: nat)
    requires Mid(w, c, exits, s, c, env, s, 0) && LoopOk(c, l) && l.base <= 255
    requires ((i.Hole? && i.loopId in exits) || i.Loop?)
    requires CodeAt(w.p, s.pc, At(c, c.h, Unwind(U8(l.base))) + AfterUnwind(c, c.h, l.base, i), exits)
    requires |s.stack| == c.h
    ensures l.resultSlot < |s.stack|
    ensures Arrived(c, l, Destination(i, s.pc + 1, exits), s, s.stack[l.resultSlot], env, s.heap, Ran(w, Run(s), n))
    ensures n >= 1
  {
    hide CtxOk, Rel, Kept, Later, CodeAt, Steps, Ran, Mid, HoistOk, Exec;
    SplitCode(w.p, s.pc, At(c, c.h, Unwind(l.base)), AfterUnwind(c, c.h, l.base, i), exits);
    OneCell(w.p, s.pc, c, c.h, Unwind(l.base), exits);
    var j := JumpCell(w.p, s.pc + 1, c, c.h, l.base, i, exits);
    StartRan(w, s);
    JumpOut(w, Run(s), 0, s, l.base, j);
    n := 2;
    assert s.stack[l.resultSlot := s.stack[l.resultSlot]] == s.stack;
    MidArrive(w, c, exits, s, c, env, s, 0, l, s.stack[l.resultSlot], s.heap, Destination(i, s.pc + 1, exits),
        Ran(w, Run(s), n));
  }

  /** A bare exit from a plain loop: its result becomes `null`. */
  lemma NullOut(w: World, c: Ctx, exits: map<nat, int>, env: Env, s: State, l: LoopCtx, i: Instr) returns (n: nat)
    requires Mid(w, c, exits, s, c, env, s, 0) && LoopOk(c, l) && l.base <= 255
    requires ((i.Hole? && i.loopId in exits) || i.Loop?)
    requires var fold := Fold(c, c.h + 1, false, l.resultSlot);
      CodeAt(w.p, s.pc, At(c, c.h, PushNull) + fold + At(c, c.h, Unwind(U8(l.base))) + AfterUnwind(c, c.h, l.base, i),
          exits)
    requires !l.isArray && |s.stack| == c.h
    ensures var at := s.pc + 2 + |Fold(c, c.h + 1, false, l.resultSlot)|;
      Arrived(c, l, Destination(i, at, exits), s, Null, env, s.heap, Ran(w, Run(s), n)) && n >= 1
  {
    hide CtxOk, Rel, Kept, Later, CodeAt, Steps, Ran, Mid, HoistOk, Exec;
    var fold := Fold(c, c.h + 1, false, l.resultSlot);
    var at := s.pc + 2 + |fold|;
    Split4(w.p, s.pc, At(c, c.h, PushNull), fold, At(c, c.h, Unwind(l.base)), AfterUnwind(c, c.h, l.base, i), exits);
    OneCell(w.p, s.pc, c, c.h, PushNull, exits);
    OneCell(w.p, at - 1, c, c.h, Unwind(l.base), exits);
    var j := JumpCell(w.p, at, c, c.h, l.base, i, exits);
    var s1 := PushNullMid(w, c, exits, s, c, env, s, 0);
    n := StoreAndGo(w, c, exits, s, Up(c, c.h + 1), env, s1, 1, l, c.h + 1, j, Destination(i, at, exits));
  }

  lemma StartRan(w: World, s: State)
    ensures Ran(w, Run(s), 0) == Run(s)
  {
  }

  lemma PushNullMid(w: World, c: Ctx, exits: map<nat, int>, s: State, c1: Ctx, env1: Env, s1: State, n: nat)
    returns (s2: State)
    requires Mid(w, c, exits, s, c1, env1, s1, n) && 0 <= s1.pc < |w.p| && w.p[s1.pc].op == PushNull
    requires c.h <= |s1.stack|
    ensures s2 == State(s1.pc + 1, s1.stack + [Null], s1.tries, s1.heap)
    ensures Mid(w, c, exits, s, Up(c1, c1.h + 1), env1, s2, n + 1)
  {
    hide Mid;
    s2 := MidPush(w, c, exits, s, c1, env1, s1, n, PushNull, Null, s1.heap);
  }

  lemma HoleCell(p: Code, at: int, c: Ctx, h: nat, base: nat, id: nat, exits: map<nat, int>)
    requires CodeAt(p, at, AfterUnwind(c, h, base, Hole(id)), exits) && id in exits
    ensures 0 <= at < |p| && p[at].op == Jump(exits[id] - at - 1)
  {
    assert AfterUnwind(c, h, base, Hole(id))[0].op == Hole(id);
  }

  lemma {:induction false} SimBreakValue(w: World, e: Expr, c: Ctx, pos: nat, exits: map<nat, int>, env: Env, s: State,
        fuel: nat, k: nat)
    returns (n: nat)
    requires e.Break? && e.arg.Some? && Inner(e, c, k) && Go(w, CompileBreak(e, c, pos), c, pos, exits, env, s)
    requires LoopOk(c, Target(c, 0))
    ensures Sims(w, c, exits, CompileBreak(e, c, pos), s, EvalBreak(w.ops, w.g, e, c.hoisted.Keys, env, s.heap, fuel),
        pos, n, fuel, k)
    decreases fuel, e, 2
  {
    hide Compile, Eval, HoistExpr, CtxOk, Rel, Kept, Later, Pushed, CodeAt, Steps, Ran, Mid, Placement, HoistOk, Exec;
    Nested(e, c.hoisted.Keys);
    var l := Target(c, 0);
    var c' := c.(loops := c.loops[..|c.loops| - 1]);
    var a := Compile(e.arg.value, c', pos);
    FlatExpr(e.arg.value, c', pos);
    var fold := Fold(c, a.h, l.isArray, l.resultSlot);
    Split4(w.p, pos, a.code, fold, At(c, a.h - 1, Unwind(l.base)), AfterUnwind(c, a.h - 1, l.base, Hole(l.id)), exits);
    OneCell(w.p, pos + |a.code| + |fold|, c, a.h - 1, Unwind(l.base), exits);
    HoleCell(w.p, pos + |a.code| + |fold| + 1, c, a.h - 1, l.base, l.id, exits);
    SkipReady(w, c, exits, env, s);
    n := SimInner(w, e.arg.value, c', pos, exits, env, s, fuel, k - 1);
    var oa := Meant(w, e.arg.value, c', env, s.heap, fuel);
    if !oa.Norm? {
      LeftSkip(w, c, exits, s, oa, Ran(w, Run(s), n));
      return;
    }
    MidStart(w, c, exits, env, s);
    PushedSame(c', c, a, s, oa.v, oa.env, oa.heap, pos + |a.code|, Ran(w, Run(s), n));
    var s1 := MidValue(w, c, exits, s, c, env, s, 0, a, oa, pos + |a.code|, n);
    n := StoreAndGo(w, c, exits, s, After(c, a), oa.env, s1, n, l, a.h, Jump(exits[l.id] - pos - |a.code| - |fold| - 2),
        exits[l.id]);
  }

  lemma SkipReady(w: World, c: Ctx, exits: map<nat, int>, env: Env, s: State)
    requires Ready(w, c, exits, env, s) && |c.loops| > 0
    ensures Ready(w, c.(loops := c.loops[..|c.loops| - 1]), exits, env, s)
  {
    var c' := c.(loops := c.loops[..|c.loops| - 1]);
    forall i | 0 <= i < |c'.loops| ensures LoopOk(c', c'.loops[i]) {
      assert LoopOk(c, c.loops[i]);
    }
    assert HoistOk(c');
  }

  lemma PushedSame(c: Ctx, c': Ctx, r: Result, s: State, v: Value, env: Env, heap: Heap, end: int, cfg: Config)
    requires Pushed(c, r, s, v, env, heap, end, cfg) && c'.locals == c.locals
    ensures Pushed(c', r, s, v, env, heap, end, cfg)
  {
  }

  lemma SimContinue(w: World, c: Ctx, pos: nat, exits: map<nat, int>, env: Env, s: State) returns (n: nat)
    requires |c.loops| > 0 && Go(w, CompileContinue(c, pos), c, pos, exits, env, s)
    ensures Left(w, c, exits, s, Cont(0, env, s.heap), Ran(w, Run(s), n)) && n >= 1
  {
    hide CtxOk, Rel, Kept, Later, CodeAt, Steps, Ran, Mid, HoistOk, Exec, LoopOk;
    var l := Target(c, 0);
    MidStart(w, c, exits, env, s);
    LoopsOk(w, c, exits, s, c, env, s, 0);
    var unwind := At(c, c.h, Unwind(U8(l.base)));
    if l.isArray {
      var jump := AfterUnwind(c, c.h, l.base, Loop(pos + 2 - l.start));
      assert CompileContinue(c, pos).code == unwind + jump;
      n := SkipOut(w, c, exits, env, s, l, Loop(pos + 2 - l.start));
    } else {
      var fold := Fold(c, c.h + 1, false, l.resultSlot);
      var back := pos + |At(c, c.h, PushNull) + fold| + 2 - l.start;
      assert CompileContinue(c, pos).code == At(c, c.h, PushNull) + fold + unwind
        + AfterUnwind(c, c.h, l.base, Loop(back));
      n := NullOut(w, c, exits, env, s, l, Loop(back));
    }
  }

  // ----- blocks and scopes -----

  lemma {:induction false} SimBlock(w: World, b: Block, c: Ctx, pos: nat, exits: map<nat, int>, env: Env, s: State,
        fuel: nat, k: nat)
    returns (n: nat)
    requires PlacedBlock(b, c.hoisted.Keys) && JumpsOkBlock(b, k) && k <= |c.loops|
    requires Go(w, CompileBlock(b, c, pos), c, pos, exits, env, s)
    ensures Sims(w, c, exits, CompileBlock(b, c, pos), s, EvalBlock(w.ops, w.g, b, c.hoisted.Keys, env, s.heap, fuel),
        pos, n, fuel, k)
    decreases fuel, b, 6
  {
    hide Compile, Eval, HoistExpr, CtxOk, Rel, Kept, Later, Pushed, CodeAt, Steps, Ran, Left, Mid, Placement, HoistOk,
      Exec;
    match b
    case End =>
      OneCell(w.p, pos, c, c.h, PushNull, exits);
      MidStart(w, c, exits, env, s);
      var s1 := PushNullMid(w, c, exits, s, c, env, s, 0);
      MidDone(w, c, exits, s, Up(c, c.h + 1), env, s1, 1, CompileBlock(b, c, pos));
      n := 1;
    case Tail(e) => n := Sim(w, e, c, pos, exits, env, s, fuel, k);
    case Then(stmt, rest) => n := SimThen(w, b, c, pos, exits, env, s, fuel, k);
  }

  lemma {:induction false} SimThen(w: World, b: Block, c: Ctx, pos: nat, exits: map<nat, int>, env: Env, s: State,
        fuel: nat, k: nat)
    returns (n: nat)
    requires b.Then? && PlacedBlock(b, c.hoisted.Keys) && JumpsOkBlock(b, k) && k <= |c.loops|
    requires Go(w, CompileBlock(b, c, pos), c, pos, exits, env, s)
    ensures Sims(w, c, exits, CompileBlock(b, c, pos), s, EvalBlock(w.ops, w.g, b, c.hoisted.Keys, env, s.heap, fuel),
        pos, n, fuel, k)
    decreases fuel, b, 5
  {
    hide Compile, Eval, HoistExpr, CtxOk, Rel, Kept, Later, Pushed, CodeAt, Steps, Ran, Left, Placement, HoistOk, Exec;
    var a := Compile(b.stmt, c, pos);
    GrowsExpr(b.stmt, c, pos);
    var at := pos + |a.code|;
    var c2 := Drop(After(c, a));
    var d := CompileBlock(b.rest, c2, at + 1);
    Split3(w.p, pos, a.code, At(c, a.h, Pop), d.code, exits);
    OneCell(w.p, at, c, a.h, Pop, exits);
    n := Sim(w, b.stmt, c, pos, exits, env, s, fuel, k);
    var oa := Meant(w, b.stmt, c, env, s.heap, fuel);
    if !oa.Norm? { return; }
    var s2 := AfterStatement(w, b.stmt, c, pos, exits, env, s, oa, n);
    var m := SimBlock(w, b.rest, c2, at + 1, exits, oa.env, s2, fuel, k);
    var ob := EvalBlock(w.ops, w.g, b.rest, c.hoisted.Keys, oa.env, oa.heap, fuel);
    MidAgrees(w, c, exits, s, c2, oa.env, s2, n + 1, d, CompileBlock(b, c, pos), ob, at + 1 + |d.code|, m);
    n := n + 1 + m;
  }

  /** The value of a statement is dropped; a local it declared stays. */
  lemma AfterStatement(w: World, stmt: Expr, c: Ctx, pos: nat, exits: map<nat, int>, env: Env, s: State, o: Outcome,
        n: nat)
    returns (s2: State)
    requires Placed(stmt, c.hoisted.Keys) && Ready(w, c, exits, env, s) && o.Norm?
    requires var a := Compile(stmt, c, pos);
      var at := pos + |a.code|;
      Pushed(c, a, s, o.v, o.env, o.heap, at, Ran(w, Run(s), n)) && a.fits && at < |w.p| && w.p[at].op == Pop
    ensures var a := Compile(stmt, c, pos);
      Mid(w, c, exits, s, Drop(After(c, a)), o.env, s2, n + 1) && s2.pc == pos + |a.code| + 1 && s2.heap == o.heap
  {
    hide Compile, Rel, Kept, Later, HoistOk, Steps, Ran, Exec, Mid;
    var a := Compile(stmt, c, pos);
    var at := pos + |a.code|;
    GrowsExpr(stmt, c, pos);
    if stmt.Decl? && stmt.name !in c.hoisted {
      DeclFits(stmt, c, pos);
      var s1 := MidDeclared(w, c, exits, s, stmt.name, a, o.v, o.env, o.heap, at, n);
      s2 := PopDeclared(w, c, exits, s, After(c, a), o.env, s1, n, o.v, o.heap, at, a);
    } else {
      MidStart(w, c, exits, env, s);
      var s1 := MidValue(w, c, exits, s, c, env, s, 0, a, o, at, n);
      s2 := MidPop(w, c, exits, s, After(c, a), o.env, s1, n);
    }
  }

  lemma DeclFits(e: Expr, c: Ctx, pos: nat)
    requires e.Decl? && Placed(e, c.hoisted.Keys) && e.name !in c.hoisted && Compile(e, c, pos).fits
    ensures U8(c.h) == c.h
  {
    FlatExpr(e.init, c, pos);
  }

  lemma PopDeclared(w: World, c: Ctx, exits: map<nat, int>, s: State, c1: Ctx, env1: Env, s1: State, n: nat, v: Value,
        heap: Heap, at: int, a: Result)
    returns (s2: State)
    requires Mid(w, c, exits, s, c1, env1, s1, n) && c1 == After(c, a) && s1 == Ran(w, Run(s), n).s
    requires Pushed(c, a, s, v, env1, heap, at, Ran(w, Run(s), n)) && 0 <= at < |w.p| && w.p[at].op == Pop
    requires a.h == c.h + 2 && (exists x :: a.locals == c.locals + [Named(x, c.h)])
    ensures Mid(w, c, exits, s, Drop(c1), env1, s2, n + 1) && s2.pc == at + 1 && s2.heap == heap
  {
    s2 := State(at + 1, s1.stack[..c.h + 1], s1.tries, s1.heap);
    MidExec(w, c, exits, s, c1, env1, s1, n, Pop, s2, c.h + 1);
  }

  /** Enter the scope and run its block. */
  lemma {:induction false} SimOpened(w: World, b: Block, names: seq<string>, c: Ctx, pos: nat, exits: map<nat, int>,
        env: Env, s: State, fuel: nat, k: nat)
    returns (n: nat)
    requires names == Dedup(HoistBlock(b)) && JumpsOkBlock(b, k) && k <= |c.loops| && Ready(w, c, exits, env, s)
    requires s.pc == pos
    requires CodeAt(w.p, pos, Prologue(c, names), exits) && c.h + |names| <= 256
    requires var r := CompileBlock(b, Enter(c, names), pos + |names|);
      CodeAt(w.p, pos + |names|, r.code, exits) && r.fits
    ensures var r := CompileBlock(b, Enter(c, names), pos + |names|);
      var o := EvalBlock(w.ops, w.g, b, ToSet(names), env + Nulls(names), s.heap, fuel);
      Agrees(w, c, exits, r, s, o, pos + |names| + |r.code|, Ran(w, Run(s), n)) && n >= 1 && (o.Timeout? ==> n >= fuel)
        && JumpsWithin(o, k)
    decreases fuel, b, 7
  {
    hide CompileBlock, EvalBlock, HoistBlock, Dedup, Prologue, Agrees, CodeAt, Steps, Ran, CtxOk, Rel, Later, Nulls,
      Enter;
    var inner := Enter(c, names);
    EnterGrows(c, names);
    HoistBlockPlaces(b, inner.hoisted.Keys);
    var r := CompileBlock(b, inner, pos + |names|);
    MidStart(w, c, exits, env, s);
    var s1 := MidEnter(w, c, exits, s, c, env, s, 0, names);
    n := SimBlock(w, b, inner, pos + |names|, exits, env + Nulls(names), s1, fuel, k);
    var o := EvalBlock(w.ops, w.g, b, ToSet(names), env + Nulls(names), s.heap, fuel);
    MidAgrees(w, c, exits, s, inner, env + Nulls(names), s1, |names|, r, r, o, pos + |names| + |r.code|, n);
    n := |names| + n;
  }

  lemma {:induction false} SimScope(w: World, b: Block, c: Ctx, pos: nat, exits: map<nat, int>, env: Env, s: State,
        fuel: nat, k: nat)
    returns (n: nat)
    requires JumpsOkBlock(b, k) && k <= |c.loops| && Go(w, CompileScope(b, c, pos), c, pos, exits, env, s)
    ensures Sims(w, c, exits, CompileScope(b, c, pos), s, EvalScope(w.ops, w.g, b, env, s.heap, fuel), pos, n, fuel, k)
    decreases fuel, b, 8
  {
    hide Compile, Eval, HoistExpr, CtxOk, Rel, Kept, Later, Pushed, CodeAt, Steps, Ran, Left, Mid, Placement, HoistOk,
      Exec, CompileBlock, EvalBlock, Prologue, Dedup, HoistBlock, Enter, CompileScope, Close, Nulls, ToSet, SlotMap,
        PrologueLocals;
    var names := Dedup(HoistBlock(b));
    var r := CompileBlock(b, Enter(c, names), pos + |names|);
    ScopeCode(w.p, b, c, pos, exits);
    ScopeShape(b, c, pos);
    n := SimOpened(w, b, names, c, pos, exits, env, s, fuel, k);
    var o := EvalBlock(w.ops, w.g, b, ToSet(names), env + Nulls(names), s.heap, fuel);
    n := LeaveTheScope(w, c, exits, s, r, o, pos + |names| + |r.code|, n, |r.locals| - |c.locals|,
        CompileScope(b, c, pos), env);
  }

  lemma EnterGrows(c: Ctx, names: seq<string>)
    ensures var inner := Enter(c, names);
      c.locals <= inner.locals && |inner.locals| == |c.locals| + |names| && inner.h == c.h + |names|
        && inner.hoisted.Keys == ToSet(names)
      && inner.loops == c.loops && inner.nloops == c.nloops && inner.globals == c.globals && inner.tries == c.tries
  {
    hide PrologueLocals, SlotMap;
  }

  lemma ScopeShape(b: Block, c: Ctx, pos: nat)
    ensures var names := Dedup(HoistBlock(b));
      var r := CompileBlock(b, Enter(c, names), pos + |names|);
      c.locals <= r.locals && r.h == c.h + |r.locals| - |c.locals| + 1 && Flat(c, CompileScope(b, c, pos))
  {
    hide CompileBlock, Dedup, HoistBlock, Prologue, Enter, CompileScope;
    var names := Dedup(HoistBlock(b));
    EnterGrows(c, names);
    HoistBlockPlaces(b, Enter(c, names).hoisted.Keys);
    GrowsBlock(b, Enter(c, names), pos + |names|);
    FlatScope(b, c, pos);
  }

  lemma ScopeCode(p: Code, b: Block, c: Ctx, pos: nat, exits: map<nat, int>)
    requires CodeAt(p, pos, CompileScope(b, c, pos).code, exits) && CompileScope(b, c, pos).fits
    ensures var names := Dedup(HoistBlock(b));
      var r := CompileBlock(b, Enter(c, names), pos + |names|);
      var count := Less(|r.locals|, |c.locals|);
      var end := pos + |names| + |r.code|;
      && CodeAt(p, pos, Prologue(c, names), exits) && CodeAt(p, pos + |names|, r.code, exits) && r.fits
      && c.h + |names| <= 256
      && |CompileScope(b, c, pos).code| == |names| + |r.code| + (if count > 0 then 1 else 0)
      && (count > 0 ==> end < |p| && p[end].op == CloseScope(count))
  {
    hide CodeAt, CompileBlock, Placement, HoistBlock, Dedup, Enter, Prologue;
    var names := Dedup(HoistBlock(b));
    var r := CompileBlock(b, Enter(c, names), pos + |names|);
    var count := Less(|r.locals|, |c.locals|);
    PrologueLength(c, names);
    if count > 0 {
      Split3(p, pos, Prologue(c, names), r.code, At(c, r.h, CloseScope(count)), exits);
      OneCell(p, pos + |names| + |r.code|, c, r.h, CloseScope(count), exits);
    } else {
      assert Prologue(c, names) + r.code + [] == Prologue(c, names) + r.code;
      SplitCode(p, pos, Prologue(c, names), r.code, exits);
    }
  }

  lemma {:induction false} PrologueLength(c: Ctx, names: seq<string>)
    ensures |Prologue(c, names)| == |names|
    decreases |names|
  {
    if names != [] {
      PrologueLength(c, names[..|names| - 1]);
    }
  }

  /** The end of a scope, whatever the outcome of its block `r`. */
  lemma LeaveTheScope(w: World, c: Ctx, exits: map<nat, int>, s: State, r: Result, o: Outcome, end: int, n: nat,
        count: nat, closed: Result, env: Env)
    returns (total: nat)
    requires Agrees(w, c, exits, r, s, o, end, Ran(w, Run(s), n)) && Ready(w, c, exits, env, s)
    requires c.locals <= r.locals && count >= |r.locals| - |c.locals| && r.h == c.h + count + 1 && Flat(c, closed)
    requires count > 0 ==> 0 <= end < |w.p| && w.p[end].op == CloseScope(count)
    ensures Agrees(w, c, exits, closed, s, LeaveScope(o, |env|), end + (if count > 0 then 1 else 0),
        Ran(w, Run(s), total)) && total >= n
  {
    hide Kept, Later, CodeAt, Steps, Ran, Mid, HoistOk, Exec;
    total := n;
    if o.Norm? {
      if count > 0 {
        CloseValue(w, c, s, r, o.v, o.env, o.heap, end, n, count, closed);
        total := n + 1;
      } else {
        assert r.locals == c.locals;
      }
    } else {
      LeftScope(w, c, exits, s, o, Ran(w, Run(s), n), |env|);
    }
  }

  // ----- try -----

  lemma {:induction false} SimTry(w: World, e: Expr, c: Ctx, pos: nat, exits: map<nat, int>, env: Env, s: State,
        fuel: nat, k: nat)
    returns (n: nat)
    requires e.Try? && Inner(e, c, k) && Go(w, CompileTry(e, c, pos), c, pos, exits, env, s)
    ensures Sims(w, c, exits, CompileTry(e, c, pos), s, EvalTry(w.ops, w.g, e, c.hoisted.Keys, env, s.heap, fuel), pos,
        n, fuel, k)
    decreases fuel, e, 3
  {
    hide Compile, Eval, HoistExpr, CtxOk, Rel, Kept, Later, Pushed, CodeAt, Steps, Ran, Mid, Placement, HoistOk, Exec,
      CompileHandler, EvalScope, Thrown;
    Nested(e, c.hoisted.Keys);
    var c' := c.(tries := c.tries + [c.h]);
    var a := Compile(e.attempt, c', pos + 1);
    FlatExpr(e.attempt, c', pos + 1);
    var c1 := After(c, a);
    var at := pos + 1 + |a.code|;
    var tail := CompileHandler(e.handler, c1, at + 2);
    FlatHandler(e.handler, c1, at + 2);
    TryCode(w.p, e, c, pos, exits);
    var f := TryFrame(at + 2, |s.stack|);
    var s1 := EnterTry(w, c, c', exits, env, s, |a.code| + 2);
    n := SimInner(w, e.attempt, c', pos + 1, exits, env, s1, fuel, 0);
    var oa := Meant(w, e.attempt, c', env, s.heap, fuel);
    if oa.Norm? {
      TryValue(w, c, c', s, s1, f, a, CompileTry(e, c, pos), oa.v, oa.env, oa.heap, at, n, |tail.code|);
      n := n + 3;
    } else if oa.Raised? {
      var s2 := TryCaught(w, c, c', exits, env, s, s1, f, oa.exn, oa.env, oa.heap, n);
      n := SimHandler(w, e, c, at + 2, exits, env, s, Shrink(oa.env, |env|), s2, n + 2, fuel, k, oa.exn,
          CompileTry(e, c, pos));
    } else {
      ThenRun(w, Run(s), 1, s1, n);
      n := 1 + n;
    }
  }

  lemma EnterTry(w: World, c: Ctx, c': Ctx, exits: map<nat, int>, env: Env, s: State, dist: int) returns (s1: State)
    requires Ready(w, c, exits, env, s) && c' == c.(tries := c'.tries) && 0 <= s.pc < |w.p|
    requires w.p[s.pc].op == PushTry(dist)
    ensures s1 == State(s.pc + 1, s.stack, s.tries + [TryFrame(s.pc + 1 + dist, |s.stack|)], s.heap)
    ensures Ran(w, Run(s), 1) == Run(s1) && Ready(w, c', exits, env, s1)
  {
    hide Rel, Steps;
    StartRan(w, s);
    ThenExec(w, Run(s), 0, s, PushTry(dist));
    s1 := Ran(w, Run(s), 1).s;
    forall i | 0 <= i < |c'.loops| ensures LoopOk(c', c'.loops[i]) {
      assert LoopOk(c, c.loops[i]);
    }
    assert HoistOk(c');
  }

  lemma TryCode(p: Code, e: Expr, c: Ctx, pos: nat, exits: map<nat, int>)
    requires e.Try? && CodeAt(p, pos, CompileTry(e, c, pos).code, exits)
    ensures var a := Compile(e.attempt, c.(tries := c.tries + [c.h]), pos + 1);
      var at := pos + 1 + |a.code|;
      var tail := CompileHandler(e.handler, After(c, a), at + 2);
      && CodeAt(p, pos + 1, a.code, exits) && CodeAt(p, at + 2, tail.code, exits) && at + 1 < |p|
      && p[pos].op == PushTry(|a.code| + 2) && p[at].op == PopTry && p[at + 1].op == Jump(|tail.code|)
      && |CompileTry(e, c, pos).code| == |a.code| + |tail.code| + 3
  {
    hide Compile, CompileHandler, CodeAt, Placement;
    var a := Compile(e.attempt, c.(tries := c.tries + [c.h]), pos + 1);
    var at := pos + 1 + |a.code|;
    var tail := CompileHandler(e.handler, After(c, a), at + 2);
    var inTry := c.(tries := c.tries + [c.h]);
    var first := At(c, c.h, PushTry(|a.code| + 2)) + a.code + At(inTry, a.h, PopTry);
    Split3(p, pos, first, At(c, a.h, Jump(|tail.code|)), tail.code, exits);
    Split3(p, pos, At(c, c.h, PushTry(|a.code| + 2)), a.code, At(inTry, a.h, PopTry), exits);
    OneCell(p, pos, c, c.h, PushTry(|a.code| + 2), exits);
    OneCell(p, at, inTry, a.h, PopTry, exits);
    OneCell(p, at + 1, c, a.h, Jump(|tail.code|), exits);
  }

  /** The handler runs with the error on top of the stack. */
  /** A `try` without `catch` turns the error into `null`. */
  lemma NoHandler(w: World, c: Ctx, pos: nat, exits: map<nat, int>, s: State, env1: Env, s1: State, n1: nat, r: Result)
    requires |s.stack| == c.h && Mid(w, c, exits, s, Up(c, c.h + 1), env1, s1, n1) && s1.pc == pos
    requires |s1.stack| == c.h + 1 && Flat(c, r)
    requires CodeAt(w.p, pos, CompileHandler(None, Up(c, c.h + 1), pos).code, exits)
    ensures |CompileHandler(None, Up(c, c.h + 1), pos).code| == 2
    ensures Agrees(w, c, exits, r, s, Norm(Null, env1, s1.heap), pos + 2, Ran(w, Run(s), n1 + 2))
  {
    hide CtxOk, Rel, Kept, Later, Pushed, CodeAt, Steps, Ran, Left, Placement, HoistOk, Exec;
    var c1 := Up(c, c.h + 1);
    SplitCode(w.p, pos, At(c1, c1.h, Pop), At(c1, c.h, PushNull), exits);
    OneCell(w.p, pos, c1, c1.h, Pop, exits);
    OneCell(w.p, pos + 1, c1, c.h, PushNull, exits);
    var s2 := MidPop(w, c, exits, s, c1, env1, s1, n1);
    var s3 := PushNullMid(w, c, exits, s, Drop(c1), env1, s2, n1 + 1);
    MidDone(w, c, exits, s, c1, env1, s3, n1 + 2, r);
  }

  lemma {:induction false} SimHandler(w: World, e: Expr, c: Ctx, pos: nat, exits: map<nat, int>, env: Env, s: State,
        env1: Env, s1: State, n1: nat, fuel: nat, k: nat, x: Value, r: Result)
    returns (n: nat)
    requires e.Try? && JumpsOk(e, k) && k <= |c.loops| && Ready(w, c, exits, env, s)
    requires Mid(w, c, exits, s, Up(c, c.h + 1), env1, s1, n1) && s1.pc == pos && |s1.stack| == c.h + 1
    requires s1.stack[c.h] == x && Flat(c, r)
    requires var tail := CompileHandler(e.handler, Up(c, c.h + 1), pos); CodeAt(w.p, pos, tail.code, exits) && tail.fits
    ensures var tail := CompileHandler(e.handler, Up(c, c.h + 1), pos);
      var o := if e.handler.None? then Norm(Null, env1, s1.heap)
               else LeaveScope(EvalScope(w.ops, w.g, e.handler.value.body, env1 + [Named(e.handler.value.param, x)],
                   s1.heap, fuel), |env|);
      Agrees(w, c, exits, r, s, o, pos + |tail.code|, Ran(w, Run(s), n)) && n >= n1 && (o.Timeout? ==> n >= fuel)
        && JumpsWithin(o, k)
    decreases fuel, e, 2
  {
    hide CtxOk, Rel, Kept, Later, Pushed, CodeAt, Steps, Ran, Left, Placement, HoistOk, Exec, CompileScope, EvalScope;
    var c1 := Up(c, c.h + 1);
    if e.handler.None? {
      NoHandler(w, c, pos, exits, s, env1, s1, n1, r);
      n := n1 + 2;
    } else {
      var h := e.handler.value;
      var c2 := c1.(locals := c.locals + [Named(h.param, U8(c.h))], hoisted := map[], scopeBase := |c.locals|);
      var d := CompileScope(h.body, c2, pos);
      FlatScope(h.body, c2, pos);
      SplitCode(w.p, pos, d.code, At(c1, d.h, CloseScope(1)), exits);
      OneCell(w.p, pos + |d.code|, c1, d.h, CloseScope(1), exits);
      MidBind(w, c, exits, s, c1, env1, s1, n1, h.param, c2);
      var env2 := env1 + [Named(h.param, x)];
      var m := SimScope(w, h.body, c2, pos, exits, env2, s1, fuel, k);
      var o := EvalScope(w.ops, w.g, h.body, env2, s1.heap, fuel);
      MidAgrees(w, c, exits, s, c2, env2, s1, n1, d, d, o, pos + |d.code|, m);
      n := LeaveTheScope(w, c, exits, s, d, o, pos + |d.code|, n1 + m, 1, r, env);
    }
  }

  // ----- while -----

  /** The code of a loop with `middle` as the loop proper: seed, prologue, middle, load, close. */
  ghost predicate Framed(p: Code, c: Ctx, pos: nat, exits: map<nat, int>, names: seq<string>, isArray: bool,
        middle: Code, count: nat)
  {
    var start := pos + 1 + |names|;
    var end := start + |middle|;
    && c.h + 1 + |names| <= 256
    && pos < |p| && p[pos].op == SeedInstr(isArray) && CodeAt(p, pos + 1, Prologue(Up(c, c.h + 1), names), exits)
    && CodeAt(p, start, middle, exits)
    && end + 1 < |p| && p[end].op == LoadLocal(c.h) && p[end + 1].op == CloseScope(count)
  }

  lemma FrameParts(p: Code, c: Ctx, pos: nat, exits: map<nat, int>, names: seq<string>, isArray: bool, middle: Code,
        hl: nat, hc: nat, count: nat)
    requires c.h + 1 + |names| <= 256
    requires CodeAt(p, pos, Seed(c, isArray) + Prologue(Up(c, c.h + 1), names) + middle + At(c, hl, LoadLocal(c.h))
      + At(c, hc, CloseScope(count)), exits)
    ensures Framed(p, c, pos, exits, names, isArray, middle, count)
  {
    hide CodeAt, Placement, Prologue;
    var end := pos + 1 + |names| + |middle|;
    PrologueLength(Up(c, c.h + 1), names);
    var body := Seed(c, isArray) + Prologue(Up(c, c.h + 1), names) + middle + At(c, hl, LoadLocal(c.h));
    SplitCode(p, pos, body, At(c, hc, CloseScope(count)), exits);
    Split4(p, pos, Seed(c, isArray), Prologue(Up(c, c.h + 1), names), middle, At(c, hl, LoadLocal(c.h)), exits);
    OneCell(p, pos, c, c.h, SeedInstr(isArray), exits);
    OneCell(p, end, c, hl, LoadLocal(c.h), exits);
    OneCell(p, end + 1, c, hc, CloseScope(count), exits);
  }

  /** The pieces of a `while`. */
  lemma WhileParts(e: Expr, c: Ctx, pos: nat, names: seq<string>, head: Ctx, loop: Result)
    requires e.While? && CompileWhile(e, c, pos) == Close(c, WhileOpen(e, c, names, head, loop), 1)
    requires |loop.locals| == |c.locals| + |names|
    ensures CompileWhile(e, c, pos).code == Seed(c, e.isArray) + Prologue(Up(c, c.h + 1), names) + loop.code
              + At(c, head.h, LoadLocal(c.h)) + At(c, loop.h + 1, CloseScope(1 + |names|))
    ensures CompileWhile(e, c, pos).fits ==> loop.fits
  {
    hide *;
    WhileOpenIs(e, c, names, head, loop);
    CloseCode(c, WhileOpen(e, c, names, head, loop), 1, |names|);
  }

  lemma WhileOpenIs(e: Expr, c: Ctx, names: seq<string>, head: Ctx, loop: Result)
    requires e.While?
    ensures var open := WhileOpen(e, c, names, head, loop);
      && open.code == Seed(c, e.isArray) + Prologue(Up(c, c.h + 1), names) + loop.code + At(c, head.h, LoadLocal(c.h))
      && open.locals == loop.locals && open.h == loop.h + 1 && (open.fits ==> loop.fits)
  {
    hide Seed, Prologue, Up, At;
  }

  lemma LoopLocalsAre(e: Expr, c: Ctx, start: nat, names: seq<string>, head: Ctx)
    requires e.While? && names == Dedup(HoistExpr(e.cond)) && head == Enter(Up(c, c.h + 1), names)
    ensures |WhileLoop(e, head, c.h, start).locals| == |c.locals| + |names|
  {
    hide WhileLoop, HoistExpr, Dedup, Enter;
    EnterGrows(Up(c, c.h + 1), names);
    WhileLocals(e, head, c.h, start);
  }

  /** The code of a `while` before its scope is closed. */
  function WhileOpen(e: Expr, c: Ctx, names: seq<string>, head: Ctx, loop: Result): Result
    requires e.While?
  {
    var code := Seed(c, e.isArray) + Prologue(Up(c, c.h + 1), names) + loop.code + At(c, head.h, LoadLocal(c.h));
    Result(code, loop.locals, loop.h + 1, loop.ok, loop.fits && c.h + |names| <= 255)
  }

  lemma WhileClosed(e: Expr, c: Ctx, pos: nat, names: seq<string>, head: Ctx, loop: Result)
    requires e.While? && names == Dedup(HoistExpr(e.cond)) && head == Enter(Up(c, c.h + 1), names)
    requires U8(c.h) == c.h && loop == WhileLoop(e, head, c.h, pos + 1 + |names|)
    ensures CompileWhile(e, c, pos) == Close(c, WhileOpen(e, c, names, head, loop), 1)
  {
    hide WhileLoop, HoistExpr, Dedup, Enter, Prologue, Close, At, Seed, U8;
  }

  lemma WhileFits(e: Expr, c: Ctx, pos: nat)
    requires e.While? && CompileWhile(e, c, pos).fits
    ensures c.h + |Dedup(HoistExpr(e.cond))| <= 255
  {
    hide WhileLoop, HoistExpr, Dedup, Enter, Prologue;
  }

  lemma {:induction false} SimWhile(w: World, e: Expr, c: Ctx, pos: nat, exits: map<nat, int>, env: Env, s: State,
        fuel: nat, k: nat)
    returns (n: nat)
    requires e.While? && Inner(e, c, k) && Go(w, CompileWhile(e, c, pos), c, pos, exits, env, s)
    ensures Sims(w, c, exits, CompileWhile(e, c, pos), s, EvalWhile(w.ops, w.g, e, env, s.heap, fuel), pos, n, fuel, k)
    decreases fuel, e, 3
  {
    hide HoistExpr, CtxOk, Rel, Kept, Later, Pushed, CodeAt, Steps, Ran, Left, Placement, HoistOk, Exec, WhileLoop,
      RepeatWhile, Prologue, Dedup, Enter, Nulls, ToSet, CompileWhile, JumpsOk, JumpsOkBlock, WhileInPlace;
    var names := Dedup(HoistExpr(e.cond));
    var head := Enter(Up(c, c.h + 1), names);
    EnterGrows(Up(c, c.h + 1), names);
    var start := pos + 1 + |names|;
    var loop := WhileLoop(e, head, c.h, start);
    var end := start + |loop.code|;
    WhileFits(e, c, pos);
    LoopLocalsAre(e, c, start, names, head);
    WhileClosed(e, c, pos, names, head, loop);
    WhileParts(e, c, pos, names, head, loop);
    FrameParts(w.p, c, pos, exits, names, e.isArray, loop.code, head.h, loop.h + 1, 1 + |names|);
    PrologueLength(Up(c, c.h + 1), names);
    var first := StartLoop(w.ops, e.isArray, s.heap);
    var s2 := OpenLoop(w, c, exits, env, s, names, e.isArray);
    var env2 := env + Nulls(names);
    WhileInside(w.p, e, head, c.h, start, exits);
    var s3;
    n, s3 := SimRepeatWhile(w, e, c, s, head, exits, env2, s2, 1 + |names|, c.h, first.0, start, end, fuel, k);
    var o := RepeatWhile(w.ops, w.g, e, ToSet(names), env2, first.1, first.0, fuel);
    FlatWhile(e, c, pos);
    LocalsOf(w, c, exits, env, s);
    if o.Norm? {
      n := FinishLoop(w, c, exits, s, head, o, s3, n, c.h, end, 1 + |names|, CompileWhile(e, c, pos), env);
    } else {
      LeftScope(w, c, exits, s, o, Ran(w, Run(s), n), |env|);
    }
  }

  lemma LocalsOf(w: World, c: Ctx, exits: map<nat, int>, env: Env, s: State)
    requires Ready(w, c, exits, env, s)
    ensures |env| == |c.locals|
  {
  }

  lemma WhileLocals(e: Expr, head: Ctx, slot: nat, start: nat)
    requires e.While? && head.hoisted.Keys == ToSet(Dedup(HoistExpr(e.cond)))
    ensures WhileLoop(e, head, slot, start).locals == head.locals && WhileLoop(e, head, slot, start).h == head.h
  {
    hide HoistExpr, Dedup, WhileLoop;
    FlatWhileLoop(e, head, slot, start);
  }

  function SeedInstr(isArray: bool): Instr {
    if isArray then MakeArray else PushNull
  }

  /** Before a loop: push its initial result, enter its scope. */
  lemma OpenLoop(w: World, c: Ctx, exits: map<nat, int>, env: Env, s: State, names: seq<string>, isArray: bool)
    returns (s2: State)
    requires Ready(w, c, exits, env, s) && 0 <= s.pc < |w.p| && w.p[s.pc].op == SeedInstr(isArray)
    requires CodeAt(w.p, s.pc + 1, Prologue(Up(c, c.h + 1), names), exits) && c.h + 1 + |names| <= 256
    requires forall i, j :: 0 <= i < j < |names| ==> names[i] != names[j]
    ensures AtHead(w, c, exits, s, Enter(Up(c, c.h + 1), names), env + Nulls(names), s2, 1 + |names|, c.h)
    ensures var first := StartLoop(w.ops, isArray, s.heap);
      s2.pc == s.pc + 1 + |names| && s2.heap == first.1 && s2.stack[c.h] == first.0
  {
    hide CtxOk, Rel, Kept, Later, CodeAt, Steps, Ran, HoistOk, Prologue, Enter, Nulls;
    var first := StartLoop(w.ops, isArray, s.heap);
    MidStart(w, c, exits, env, s);
    var c1 := Up(c, c.h + 1);
    var s1 := MidPush(w, c, exits, s, c, env, s, 0, SeedInstr(isArray), first.0, first.1);
    s2 := MidEnter(w, c, exits, s, c1, env, s1, 1, names);
    EnterGrows(c1, names);
    assert s2.stack[..|s1.stack|][c.h] == s1.stack[c.h];
    SlotFree(c1, names, c.h, c, env, s);
  }

  /** The slot of a loop's result is no variable's slot. */
  lemma SlotFree(c1: Ctx, names: seq<string>, slot: nat, c: Ctx, env: Env, s: State)
    requires c1 == Up(c, c.h + 1) && slot == c.h && CtxOk(c) && c1.h + |names| <= 256
    ensures !IsSlot(Enter(c1, names).locals, slot)
  {
    hide Enter;
    EnterSlots(c1, names);
  }

  /** After a loop: load its result and close its scope of `count` slots. */
  lemma FinishLoop(w: World, c: Ctx, exits: map<nat, int>, s: State, head: Ctx, o: Outcome, s3: State, n: nat,
        slot: nat, end: int, count: nat, r: Result, env: Env)
    returns (m: nat)
    requires o.Norm? && AtHead(w, c, exits, s, head, o.env, s3, n, slot) && s3.pc == end && s3.stack[slot] == o.v
    requires s3.heap == o.heap
    requires Ready(w, c, exits, env, s) && head.h == c.h + count && Flat(c, r) && |head.locals| <= |c.locals| + count
    requires count > 0
    requires 0 <= end && end + 1 < |w.p| && w.p[end].op == LoadLocal(slot) && w.p[end + 1].op == CloseScope(count)
    ensures Pushed(c, r, s, o.v, Shrink(o.env, |env|), o.heap, end + 2, Ran(w, Run(s), m)) && m >= n
  {
    hide CtxOk, Rel, Kept, CodeAt, Steps, Ran, HoistOk;
    var s4 := MidPush(w, c, exits, s, head, o.env, s3, n, LoadLocal(slot), o.v, o.heap);
    var top := Result([], head.locals, head.h + 1, true, true);
    MidDone(w, c, exits, s, Up(head, head.h + 1), o.env, s4, n + 1, top);
    m := LeaveTheScope(w, c, exits, s, top, o, end + 1, n + 1, count, r, env);
  }

  /** What a loop leaves behind: a value in its result slot at its exit, or an exit from the whole
      expression. */
  ghost predicate LoopOutcome(w: World, c: Ctx, exits: map<nat, int>, s: State, head: Ctx, o: Outcome, n: nat,
        s2: State, slot: nat, end: int, k: nat)
  {
    && JumpsWithin(o, k)
    && if o.Norm? then
         AtHead(w, c, exits, s, head, o.env, s2, n, slot) && s2.pc == end && s2.stack[slot] == o.v && s2.heap == o.heap
       else Left(w, c, exits, s, o, Ran(w, Run(s), n))
  }

  function WhileLoopCtx(e: Expr, head: Ctx, slot: nat, start: nat): LoopCtx
    requires e.While?
  {
    LoopCtx(head.nloops, slot, head.h, e.isArray, start, |head.locals|)
  }

  function InLoop(head: Ctx, l: LoopCtx): Ctx {
    head.(loops := head.loops + [l], nloops := head.nloops + 1)
  }

  /** The code of a `while` in place: condition `a`, body `b`, and the loop's exit at `end`. */
  ghost predicate WhileInPlace(p: Code, e: Expr, head: Ctx, slot: nat, start: nat, end: int, exits: map<nat, int>)
    requires e.While?
  {
    var inner := InLoop(head, WhileLoopCtx(e, head, slot, start));
    var a := Compile(e.cond, inner, start);
    var at := start + |a.code|;
    var b := CompileScope(e.body, inner, at + 2);
    var fold := Fold(head, head.h + 1, e.isArray, slot);
    var last := at + 2 + |b.code| + |fold|;
    var exits' := exits[head.nloops := end];
    && CodeAt(p, start, a.code, exits') && a.fits && CodeAt(p, at + 2, b.code, exits') && b.fits
    && CodeAt(p, at + 2 + |b.code|, fold, exits') && last + 1 < |p| && end == last + 2
    && p[at].op == JumpIfFalse(|b.code| + |fold| + 2) && p[at + 1].op == Pop
    && p[last].op == Loop(last + 1 - start) && p[last + 1].op == Pop
  }

  lemma WhileInside(p: Code, e: Expr, head: Ctx, slot: nat, start: nat, exits: map<nat, int>)
    requires e.While? && Hoisted(e.cond, head.hoisted.Keys)
    requires CodeAt(p, start, WhileLoop(e, head, slot, start).code, exits) && WhileLoop(e, head, slot, start).fits
    ensures WhileInPlace(p, e, head, slot, start, start + |WhileLoop(e, head, slot, start).code|, exits)
  {
    hide Compile, CompileScope, CodeAt, Placement, HoistExpr, PatchCell, Fold;
    var inner := InLoop(head, WhileLoopCtx(e, head, slot, start));
    var a := Compile(e.cond, inner, start);
    FlatExpr(e.cond, inner, start);
    var at := start + |a.code|;
    assert Drop(After(inner, a)) == inner;
    var b := CompileScope(e.body, inner, at + 2);
    FlatScope(e.body, inner, at + 2);
    var fold := Fold(head, head.h + 1, e.isArray, slot);
    var code := WhileCode(e.isArray, head, slot, start, a, b);
    var end := start + |code|;
    Unpatch(p, start, code, head.nloops, end, exits);
    var exits' := exits[head.nloops := end];
    var back := |a.code| + |b.code| + |fold| + 3;
    var last := at + 2 + |b.code| + |fold|;
    var first := a.code + At(head, a.h, JumpIfFalse(|b.code| + |fold| + 2)) + At(head, a.h, Pop) + b.code;
    Split4(p, start, first, fold, At(head, b.h - 1, Loop(back)), At(head, a.h, Pop), exits');
    Split4(p, start, a.code, At(head, a.h, JumpIfFalse(|b.code| + |fold| + 2)), At(head, a.h, Pop), b.code, exits');
    OneCell(p, at, head, a.h, JumpIfFalse(|b.code| + |fold| + 2), exits');
    OneCell(p, at + 1, head, a.h, Pop, exits');
    OneCell(p, last, head, b.h - 1, Loop(back), exits');
    OneCell(p, last + 1, head, a.h, Pop, exits');
  }

  /** From the head of a `while`, with result so far `acc` in `slot`: the rest of the loop. */
  lemma {:induction false} SimRepeatWhile(w: World, e: Expr, c: Ctx, s: State, head: Ctx, exits: map<nat, int>,
        env1: Env, s1: State, n1: nat,
                       slot: nat, acc: Value, start: nat, end: int, fuel: nat, k: nat) returns (n: nat, s2: State)
    requires e.While? && AtHead(w, c, exits, s, head, env1, s1, n1, slot) && s1.pc == start && s1.stack[slot] == acc
    requires Hoisted(e.cond, head.hoisted.Keys) && JumpsOk(e, k) && k <= |c.loops|
    requires WhileInPlace(w.p, e, head, slot, start, end, exits)
    ensures var o := RepeatWhile(w.ops, w.g, e, head.hoisted.Keys, env1, s1.heap, acc, fuel);
      LoopOutcome(w, c, exits, s, head, o, n, s2, slot, end, k) && n >= n1 && (o.Timeout? ==> n >= n1 + fuel)
    decreases fuel, e, 2
  {
    hide Compile, Eval, HoistExpr, CtxOk, Rel, Kept, Later, Pushed, CodeAt, Steps, Placement, HoistOk, Exec,
      CompileScope, EvalScope, Ready;
    n, s2 := n1, s1;
    if fuel == 0 { return; }
    var l := WhileLoopCtx(e, head, slot, start);
    var inner := InLoop(head, l);
    var exits' := exits[l.id := end];
    HeadInside(w, c, exits, s, head, env1, s1, n1, slot, inner, l, end);
    EnvLength(w, c, exits, s, head, env1, s1, n1);
    var a := Compile(e.cond, inner, start);
    var m := SimInner(w, e.cond, inner, start, exits', env1, s1, fuel, k + 1);
    var oc := Meant(w, e.cond, inner, env1, s1.heap, fuel);
    if oc.Norm? {
      n, s2 := SimWhileBody(w, e, c, s, head, exits, env1, s1, n1, slot, acc, start, end, fuel, k, oc, m);
    } else {
      s2 := ExitTurn(w, c, exits, s, head, env1, s1, n1, slot, head, env1, s1, n1, inner, l, end, oc, m);
      n := n1 + m;
      var turn := IterationEnd(w.ops, e.isArray, oc, acc, |env1|);
      if turn.Again? {
        n, s2 := SimRepeatWhile(w, e, c, s, head, exits, turn.env, s2, n, slot, turn.acc, start, end, fuel - 1, k);
      }
    }
  }

  /** The condition gave a value: the test's jump goes past the body or not, and its `Pop` leaves the stack as
      at the head. */
  lemma SimWhileTest(w: World, e: Expr, c: Ctx, s: State, head: Ctx, exits: map<nat, int>, env1: Env, s1: State,
        n1: nat,
                     slot: nat, acc: Value, start: nat, end: int, fuel: nat, k: nat, oc: Outcome, m: nat)
                       returns (s5: State)
    requires e.While? && AtHead(w, c, exits, s, head, env1, s1, n1, slot) && s1.pc == start && s1.stack[slot] == acc
    requires Hoisted(e.cond, head.hoisted.Keys) && JumpsOk(e, k) && k <= |c.loops| && fuel > 0
    requires |env1| == |head.locals|
    requires WhileInPlace(w.p, e, head, slot, start, end, exits)
    requires oc == Eval(w.ops, w.g, e.cond, head.hoisted.Keys, env1, s1.heap, fuel) && oc.Norm?
    requires var inner := InLoop(head, WhileLoopCtx(e, head, slot, start));
      var a := Compile(e.cond, inner, start);
      Pushed(inner, a, s1, oc.v, oc.env, oc.heap, start + |a.code|, Ran(w, Run(s1), m))
    ensures AtHead(w, c, exits, s, head, oc.env, s5, n1 + m + 2, slot) && s5.heap == oc.heap && |oc.env| == |env1|
    ensures s5.stack[slot] == acc
    ensures s5.pc == if Truthy(oc.v) then start + |Compile(e.cond, InLoop(head, WhileLoopCtx(e, head, slot, start)),
        start).code| + 2 else end
  {
    hide Compile, Eval, HoistExpr, CtxOk, Rel, Kept, Later, Pushed, CodeAt, Steps, Placement, HoistOk, Exec,
      CompileScope, EvalScope, Ready, Left;
    var inner := InLoop(head, WhileLoopCtx(e, head, slot, start));
    var a := Compile(e.cond, inner, start);
    FlatExpr(e.cond, inner, start);
    var at := start + |a.code|;
    var b := CompileScope(e.body, inner, at + 2);
    var fold := Fold(head, head.h + 1, e.isArray, slot);
    PushedSame(inner, head, a, s1, oc.v, oc.env, oc.heap, at, Ran(w, Run(s1), m));
    var s3 := MidValue(w, c, exits, s, head, env1, s1, n1, a, oc, at, m);
    EnvLength(w, c, exits, s, After(head, a), oc.env, s3, n1 + m);
    EnvLength(w, c, exits, s, head, env1, s1, n1);
    var s4 := MidGoto(w, c, exits, s, After(head, a), oc.env, s3, n1 + m, JumpIfFalse(|b.code| + |fold| + 2));
    s5 := PopToHead(w, c, exits, s, head, env1, s1, n1, slot, After(head, a), oc.env, s4, n1 + m + 1);
  }

  /** The condition gave a value: leave, or run the body and come back to the head. */
  lemma {:induction false} SimWhileBody(w: World, e: Expr, c: Ctx, s: State, head: Ctx, exits: map<nat, int>, env1: Env,
        s1: State, n1: nat,
                     slot: nat, acc: Value, start: nat, end: int, fuel: nat, k: nat, oc: Outcome, m: nat)
                       returns (n: nat, s2: State)
    requires e.While? && AtHead(w, c, exits, s, head, env1, s1, n1, slot) && s1.pc == start && s1.stack[slot] == acc
    requires Hoisted(e.cond, head.hoisted.Keys) && JumpsOk(e, k) && k <= |c.loops| && fuel > 0
    requires |env1| == |head.locals|
    requires WhileInPlace(w.p, e, head, slot, start, end, exits)
    requires oc == Eval(w.ops, w.g, e.cond, head.hoisted.Keys, env1, s1.heap, fuel) && oc.Norm?
    requires var inner := InLoop(head, WhileLoopCtx(e, head, slot, start));
      var a := Compile(e.cond, inner, start);
      Pushed(inner, a, s1, oc.v, oc.env, oc.heap, start + |a.code|, Ran(w, Run(s1), m))
    ensures var o := RepeatWhile(w.ops, w.g, e, head.hoisted.Keys, env1, s1.heap, acc, fuel);
      LoopOutcome(w, c, exits, s, head, o, n, s2, slot, end, k) && n >= n1 && (o.Timeout? ==> n >= n1 + fuel)
    decreases fuel, e, 1
  {
    hide Compile, Eval, HoistExpr, CtxOk, Rel, Kept, Later, Pushed, CodeAt, Steps, Placement, HoistOk, Exec,
      CompileScope, EvalScope, Ready, Left;
    var l := WhileLoopCtx(e, head, slot, start);
    var inner := InLoop(head, l);
    var at := start + |Compile(e.cond, inner, start).code|;
    var b := CompileScope(e.body, inner, at + 2);
    FlatScope(e.body, inner, at + 2);
    var s5 := SimWhileTest(w, e, c, s, head, exits, env1, s1, n1, slot, acc, start, end, fuel, k, oc, m);
    n, s2 := n1 + m + 2, s5;
    if Truthy(oc.v) {
      HeadInside(w, c, exits, s, head, oc.env, s5, n, slot, inner, l, end);
      var m2 := SimScope(w, e.body, inner, at + 2, exits[l.id := end], oc.env, s5, fuel, k + 1);
      var ob := EvalScope(w.ops, w.g, e.body, oc.env, oc.heap, fuel);
      if ob.Norm? {
        PushedSame(inner, head, b, s5, ob.v, ob.env, ob.heap, at + 2 + |b.code|, Ran(w, Run(s5), m2));
      }
      var turn := IterationEnd(w.ops, e.isArray, ob, acc, |env1|);
      n, s2 := WhileTurn(w, e, c, s, head, exits, oc.env, s5, n, slot, acc, start, end, ob, m2, b, at + 2);
      if turn.Again? {
        n, s2 := SimRepeatWhile(w, e, c, s, head, exits, turn.env, s2, n, slot, turn.acc, start, end, fuel - 1, k);
      }
    }
  }

  /** The end of an iteration: fold the body's value and jump back, or take its exit. */
  lemma WhileTurn(w: World, e: Expr, c: Ctx, s: State, head: Ctx, exits: map<nat, int>, env1: Env, s1: State, n1: nat,
                  slot: nat, acc: Value, start: nat, end: int, o: Outcome, m: nat, b: Result, at: int)
                    returns (n: nat, s2: State)
    requires e.While? && AtHead(w, c, exits, s, head, env1, s1, n1, slot) && s1.stack[slot] == acc
    requires |env1| == |head.locals|
    requires var inner := InLoop(head, WhileLoopCtx(e, head, slot, start));
      Flat(head, b) && if o.Norm? then Pushed(head, b, s1, o.v, o.env, o.heap, at + |b.code|, Ran(w, Run(s1), m))
                       else Left(w, inner, exits[head.nloops := end], s1, o, Ran(w, Run(s1), m))
    requires var fold := Fold(head, head.h + 1, e.isArray, slot);
      var last := at + |b.code| + |fold|;
      CodeAt(w.p, at + |b.code|, fold, exits[head.nloops := end]) && 0 <= last < |w.p|
        && w.p[last].op == Loop(last + 1 - start)
    ensures n >= n1 + m && match IterationEnd(w.ops, e.isArray, o, acc, |env1|)
      case Again(env', heap', acc') =>
        AtHead(w, c, exits, s, head, env', s2, n, slot) && s2.pc == start && s2.heap == heap' && s2.stack[slot] == acc'
      case Leave(o') =>
        if o'.Norm? then AtHead(w, c, exits, s, head, o'.env, s2, n, slot) && s2.pc == end && s2.heap == o'.heap
          && s2.stack[slot] == o'.v
        else Left(w, c, exits, s, o', Ran(w, Run(s), n))
  {
    hide CtxOk, Rel, Kept, Pushed, CodeAt, Steps, Placement, HoistOk, Exec, Left, Fold;
    n := n1 + m;
    if !o.Norm? {
      var l := WhileLoopCtx(e, head, slot, start);
      s2 := ExitTurn(w, c, exits, s, head, env1, s1, n1, slot, head, env1, s1, n1, InLoop(head, l), l, end, o, m);
    } else {
      var s3 := MidValue(w, c, exits, s, head, env1, s1, n1, b, o, at + |b.code|, m);
      var fold := Fold(head, head.h + 1, e.isArray, slot);
      var s4 := HeadFold(w, c, exits, s, head, env1, s1, n1, slot, After(head, b), o.env, s3, n, head, head.h + 1,
          e.isArray, exits[head.nloops := end]);
      var last := at + |b.code| + |fold|;
      n := n + |fold| + 1;
      s2 := BackToHead(w, c, exits, s, head, s4, n - 1, slot, Shrink(o.env, |head.locals|), last + 1 - start);
    }
  }

  lemma BackToHead(w: World, c: Ctx, exits: map<nat, int>, s: State, head: Ctx, s1: State, n: nat, slot: nat, env1: Env,
        back: int)
    returns (s2: State)
    requires Ran(w, Run(s), n) == Run(s1) && |s1.stack| == head.h && 0 <= s1.pc < |w.p| && w.p[s1.pc].op == Loop(back)
    requires forall t: State :: t.stack == s1.stack[..head.h] && t.tries == s1.tries ==>
      Ready(w, head, exits, env1, t) && Later(c, s, head, t)
    requires CtxOk(c) && |s.stack| == c.h && c.h <= slot < head.h && !IsSlot(head.locals, slot)
    requires head.loops == c.loops && head.nloops == c.nloops
    ensures s2 == s1.(pc := s1.pc + 1 - back) && AtHead(w, c, exits, s, head, env1, s2, n + 1, slot)
  {
    hide Rel, HoistOk, Steps, Later, Ready;
    ThenExec(w, Run(s), n, s1, Loop(back));
    s2 := s1.(pc := s1.pc + 1 - back);
    assert s2.stack == s1.stack[..head.h];
  }

  // ----- for -----

  /** The code of a `for` before its scope is closed. */
  function ForOpen(e: Expr, c: Ctx, names: seq<string>, a: Result, loop: Result): Result
    requires e.For?
  {
    var code := Seed(c, e.isArray) + Prologue(Up(c, c.h + 1), names) + a.code + At(c, a.h, MakeIter) + loop.code
      + At(c, a.h, LoadLocal(c.h));
    Result(code, a.locals, a.h + 1, a.ok && loop.ok, a.fits && loop.fits)
  }

  lemma ForClosed(e: Expr, c: Ctx, pos: nat, names: seq<string>, a: Result, loop: Result)
    requires e.For? && names == Dedup(HoistExpr(e.iter)) && U8(c.h) == c.h
    requires a == Compile(e.iter, Enter(Up(c, c.h + 1), names), pos + 1 + |names|)
    requires loop == ForLoop(e, After(Enter(Up(c, c.h + 1), names), a), c.h, pos + 2 + |names| + |a.code|)
    ensures CompileFor(e, c, pos) == Close(c, ForOpen(e, c, names, a, loop), 2)
  {
    hide ForLoop, HoistExpr, Dedup, Enter, Prologue, Compile, Seed, At, U8, Close;
  }

  /** The pieces of a `for`. */
  lemma ForParts(e: Expr, c: Ctx, pos: nat, names: seq<string>, a: Result, loop: Result)
    requires e.For? && names == Dedup(HoistExpr(e.iter)) && U8(c.h) == c.h
    requires a == Compile(e.iter, Enter(Up(c, c.h + 1), names), pos + 1 + |names|)
    requires loop == ForLoop(e, After(Enter(Up(c, c.h + 1), names), a), c.h, pos + 2 + |names| + |a.code|)
    ensures CompileFor(e, c, pos).code == Seed(c, e.isArray) + Prologue(Up(c, c.h + 1), names)
      + (a.code + At(c, a.h, MakeIter) + loop.code)
              + At(c, a.h, LoadLocal(c.h)) + At(c, a.h + 1, CloseScope(2 + |names|))
    ensures CompileFor(e, c, pos).fits ==> a.fits && loop.fits
  {
    hide *;
    ForCloses(e, c, pos, names, a, loop);
    ForOpenCode(e, c, names, a, loop);
  }

  lemma ForCloses(e: Expr, c: Ctx, pos: nat, names: seq<string>, a: Result, loop: Result)
    requires e.For? && names == Dedup(HoistExpr(e.iter)) && U8(c.h) == c.h
    requires a == Compile(e.iter, Enter(Up(c, c.h + 1), names), pos + 1 + |names|)
    requires loop == ForLoop(e, After(Enter(Up(c, c.h + 1), names), a), c.h, pos + 2 + |names| + |a.code|)
    ensures var r := ForOpen(e, c, names, a, loop);
      && CompileFor(e, c, pos).code == r.code + At(c, a.h + 1, CloseScope(2 + |names|))
      && CompileFor(e, c, pos).fits == r.fits
  {
    hide ForLoop, HoistExpr, Dedup, Enter, Prologue, Compile, Seed, At, U8, CompileFor, Close, After, Up, ForOpen;
    IterLocals(e.iter, c, pos + 1 + |names|, names);
    ForClosed(e, c, pos, names, a, loop);
    ForOpenCode(e, c, names, a, loop);
    CloseCode(c, ForOpen(e, c, names, a, loop), 2, |names|);
  }

  lemma ForOpenCode(e: Expr, c: Ctx, names: seq<string>, a: Result, loop: Result)
    requires e.For?
    ensures var r := ForOpen(e, c, names, a, loop);
      && r.code == Seed(c, e.isArray) + Prologue(Up(c, c.h + 1), names) + (a.code + At(c, a.h, MakeIter) + loop.code)
                     + At(c, a.h, LoadLocal(c.h))
      && r.h == a.h + 1 && r.locals == a.locals && r.fits == (a.fits && loop.fits)
  {
    hide Prologue, Seed, At, Up;
    Regroup(Seed(c, e.isArray) + Prologue(Up(c, c.h + 1), names), a.code, At(c, a.h, MakeIter), loop.code);
  }

  lemma IterLocals(e: Expr, c: Ctx, at: nat, names: seq<string>)
    requires names == Dedup(HoistExpr(e))
    ensures |Compile(e, Enter(Up(c, c.h + 1), names), at).locals| == |c.locals| + |names|
  {
    hide HoistExpr, Dedup, Enter, Compile;
    EnterGrows(Up(c, c.h + 1), names);
    FlatExpr(e, Enter(Up(c, c.h + 1), names), at);
  }

  lemma CloseCode(c: Ctx, r: Result, extra: nat, count: nat)
    requires |r.locals| == |c.locals| + count && extra > 0
    ensures Close(c, r, extra).code == r.code + At(c, r.h, CloseScope(extra + count))
    ensures Close(c, r, extra).fits == r.fits
  {
  }

  lemma Regroup(front: Code, a: Code, b: Code, d: Code)
    ensures front + a + b + d == front + (a + b + d)
  {
  }

  lemma ForFits(e: Expr, c: Ctx, pos: nat)
    requires e.For? && CompileFor(e, c, pos).fits
    ensures c.h + |Dedup(HoistExpr(e.iter))| <= 251
  {
    hide HoistExpr, Dedup, Enter, Prologue, Compile, ForCode, Patch, Iteration, CompileScope;
    var names := Dedup(HoistExpr(e.iter));
    EnterGrows(Up(c, c.h + 1), names);
    FlatExpr(e.iter, Enter(Up(c, c.h + 1), names), pos + 1 + |names|);
  }

  lemma {:induction false} SimFor(w: World, e: Expr, c: Ctx, pos: nat, exits: map<nat, int>, env: Env, s: State,
        fuel: nat, k: nat)
    returns (n: nat)
    requires e.For? && Inner(e, c, k) && Go(w, CompileFor(e, c, pos), c, pos, exits, env, s)
    ensures Sims(w, c, exits, CompileFor(e, c, pos), s, EvalFor(w.ops, w.g, e, env, s.heap, fuel), pos, n, fuel, k)
    decreases fuel, e, 3
  {
    hide HoistExpr, CtxOk, Rel, Kept, Later, Pushed, CodeAt, Steps, Ran, Left, Placement, HoistOk, Exec, ForLoop,
      RepeatFor, Prologue, Dedup, Enter, Nulls, ToSet, CompileFor, JumpsOkBlock, Compile, Eval;
    var names := Dedup(HoistExpr(e.iter));
    var head := Enter(Up(c, c.h + 1), names);
    EnterGrows(Up(c, c.h + 1), names);
    var at := pos + 1 + |names|;
    var a := Compile(e.iter, head, at);
    FlatExpr(e.iter, head, at);
    var loop := ForLoop(e, After(head, a), c.h, at + |a.code| + 1);
    ForFits(e, c, pos);
    ForParts(e, c, pos, names, a, loop);
    var middle := a.code + At(c, a.h, MakeIter) + loop.code;
    FrameParts(w.p, c, pos, exits, names, e.isArray, middle, a.h, a.h + 1, 2 + |names|);
    PrologueLength(Up(c, c.h + 1), names);
    var first := StartLoop(w.ops, e.isArray, s.heap);
    var s2 := OpenLoop(w, c, exits, env, s, names, e.isArray);
    var end := at + |middle|;
    var o, s3;
    n, s3 := SimForIter(w, e, c, s, head, exits, env + Nulls(names), s2, 1 + |names|, c.h, first.0, at, end, fuel, k,
        ToSet(names), loop);
    o := EvalForIter(w.ops, w.g, e, ToSet(names), env + Nulls(names), first.1, first.0, fuel);
    ForIterMeans(w.ops, w.g, e, env, s.heap, fuel);
    FlatFor(e, c, pos);
    LocalsOf(w, c, exits, env, s);
    if o.Norm? {
      n := FinishLoop(w, c, exits, s, ForHead(head), o, s3, n, c.h, end, 2 + |names|, CompileFor(e, c, pos), env);
    } else {
      LeftScope(w, c, exits, s, o, Ran(w, Run(s), n), |env|);
    }
  }

  /** The state at the head of a `for`: the iterator is in place above the scope's variables. */
  function ForHead(head: Ctx): Ctx {
    Up(head, head.h + 1)
  }

  /** A `for` from the evaluation of its iterable on. */
  function EvalForIter(ops: Ops, g: Globals, e: Expr, hoisted: set<string>, env: Env, heap: Heap, acc: Value,
        fuel: nat): Outcome
    requires e.For?
  {
    var a := Eval(ops, g, e.iter, hoisted, env, heap, fuel);
    if !a.Norm? then a
    else
      var it := ops.makeIter(a.v, a.heap);
      if it.Err? then Lift(it, a.env) else RepeatFor(ops, g, e, it.v, a.env, it.heap, acc, fuel)
  }

  lemma ForIterMeans(ops: Ops, g: Globals, e: Expr, env: Env, heap: Heap, fuel: nat)
    requires e.For?
    ensures var names := Dedup(HoistExpr(e.iter));
      var first := StartLoop(ops, e.isArray, heap);
      EvalFor(ops, g, e, env, heap, fuel)
        == LeaveScope(EvalForIter(ops, g, e, ToSet(names), env + Nulls(names), first.1, first.0, fuel), |env|)
  {
    hide Dedup, HoistExpr, Eval, RepeatFor, Nulls, ToSet;
  }

  /** Evaluate the iterable, make the iterator, run the loop. */
  lemma {:induction false} SimForIter(w: World, e: Expr, c: Ctx, s: State, head: Ctx, exits: map<nat, int>, env1: Env,
        s1: State, n1: nat,
                   slot: nat, acc: Value, at: nat, end: int, fuel: nat, k: nat, hoisted: set<string>, loop: Result)
                     returns (n: nat, s2: State)
    requires e.For? && AtHead(w, c, exits, s, head, env1, s1, n1, slot) && s1.pc == at && s1.stack[slot] == acc
    requires Hoisted(e.iter, hoisted) && hoisted == head.hoisted.Keys && JumpsOk(e, k) && k <= |c.loops|
    requires var a := Compile(e.iter, head, at);
      && loop == ForLoop(e, After(head, a), slot, at + |a.code| + 1)
      && CodeAt(w.p, at, a.code + At(c, a.h, MakeIter) + loop.code, exits) && a.fits && loop.fits
      && end == at + |a.code| + 1 + |loop.code|
    ensures var o := EvalForIter(w.ops, w.g, e, hoisted, env1, s1.heap, acc, fuel);
      LoopOutcome(w, c, exits, s, ForHead(head), o, n, s2, slot, end, k) && n >= n1 && (o.Timeout? ==> n >= fuel)
    decreases fuel, e, 2
  {
    hide Compile, Eval, HoistExpr, CtxOk, Rel, Kept, Later, Pushed, CodeAt, Steps, Placement, HoistOk, ForLoop,
      RepeatFor, Exec, Left, HasIter, ForInPlace, Rel;
    var a := Compile(e.iter, head, at);
    FlatExpr(e.iter, head, at);
    var h := ForHead(head);
    var start := at + |a.code| + 1;
    Split3(w.p, at, a.code, At(c, a.h, MakeIter), loop.code, exits);
    OneCell(w.p, start - 1, c, a.h, MakeIter, exits);
    var m := SimInner(w, e.iter, head, at, exits, env1, s1, fuel, k);
    n := n1 + m;
    s2 := s1;
    var oa := Meant(w, e.iter, head, env1, s1.heap, fuel);
    if !oa.Norm? {
      MidLeft(w, c, exits, s, head, env1, s1, n1, oa, m);
      return;
    }
    var s3 := MidValue(w, c, exits, s, head, env1, s1, n1, a, oa, start - 1, m);
    var it := w.ops.makeIter(oa.v, oa.heap);
    HeadHigh(w, c, exits, s, head, env1, s1, n1, slot);
    var s4 := MakeTheIter(w, c, exits, s, head, env1, s1, n1, slot, oa.env, s3, n, oa.v);
    n := n + 1;
    if it.Ok? {
      assert After(head, a) == h;
      ForInside(w.p, e, h, slot, start, exits);
      n, s2 := SimRepeatFor(w, e, c, s, h, exits, oa.env, s4, n, slot, acc, it.v, start, end, fuel, k);
    } else {
      assert it.Err?;
    }
  }

  lemma MakeTheIter(w: World, c: Ctx, exits: map<nat, int>, s: State, head: Ctx, env0: Env, s0: State, n0: nat,
        slot: nat,
                    env1: Env, s1: State, n: nat, v: Value) returns (s2: State)
    requires AtHead(w, c, exits, s, head, env0, s0, n0, slot) && Mid(w, c, exits, s, ForHead(head), env1, s1, n)
    requires 0 <= s1.pc < |w.p| && w.p[s1.pc].op == MakeIter && s1.stack[head.h] == v
    requires s1.stack[slot] == s0.stack[slot]
    ensures var it := w.ops.makeIter(v, s1.heap);
      if it.Err? then Left(w, c, exits, s, Lift(it, env1), Ran(w, Run(s), n + 1))
      else AtHead(w, c, exits, s, ForHead(head), env1, s2, n + 1, slot) && s2.pc == s1.pc + 1 && s2.heap == it.heap
           && s2.stack[slot] == s0.stack[slot] && HasIter(ForHead(head), s2, slot, it.v)
  {
    hide Rel, Kept, HoistOk, Steps, Left, Later;
    var it := w.ops.makeIter(v, s1.heap);
    var below := s1.stack[..head.h];
    assert below[..c.h] == s1.stack[..c.h];
    if it.Err? {
      s2 := State(s1.pc, below, s1.tries, it.heap);
      MidRaise(w, c, exits, s, ForHead(head), env1, s1, n, MakeIter, it.exn, s2);
    } else {
      s2 := State(s1.pc + 1, below + [it.v], s1.tries, it.heap);
      assert s2.stack[..head.h] == below;
      MidExec(w, c, exits, s, ForHead(head), env1, s1, n, MakeIter, s2, head.h);
      assert Up(ForHead(head), |s2.stack|) == ForHead(head);
    }
  }

  function ForLoopCtx(e: Expr, h: Ctx, slot: nat, start: nat): LoopCtx
    requires e.For?
  {
    LoopCtx(h.nloops, slot, h.h, e.isArray, start, |h.locals|)
  }

  function NextInstr(e: Expr, d: int): Instr
    requires e.For?
  {
    if e.second.None? then IterNext(d) else IterNext2(d)
  }

  /** The code of a `for` in place, with its exit at `end`. */
  ghost predicate ForInPlace(p: Code, e: Expr, h: Ctx, slot: nat, start: nat, end: int, exits: map<nat, int>)
    requires e.For?
  {
    var vars := LoopLocals(e, h.h);
    var inner := InLoop(Varied(h, vars), ForLoopCtx(e, h, slot, start));
    var b := CompileScope(e.body, inner, start + 1);
    var fold := Fold(h, inner.h + 1, e.isArray, slot);
    var last := start + 1 + |b.code| + |fold|;
    var exits' := exits[h.nloops := end];
    && h.h + 2 <= 255 && CodeAt(p, start + 1, b.code, exits') && b.fits
    && CodeAt(p, start + 1 + |b.code|, fold, exits') && last + 1 < |p| && end == last + 2
    && p[start].op == NextInstr(e, end - start - 1)
    && p[last].op == Unwind(h.h) && p[last + 1].op == Loop(last + 2 - start)
  }

  lemma ForInside(p: Code, e: Expr, h: Ctx, slot: nat, start: nat, exits: map<nat, int>)
    requires e.For? && CodeAt(p, start, ForLoop(e, h, slot, start).code, exits) && ForLoop(e, h, slot, start).fits
    ensures ForInPlace(p, e, h, slot, start, start + |ForLoop(e, h, slot, start).code|, exits)
  {
    hide CompileScope, CodeAt, Placement, PatchCell, Fold;
    var vars := LoopLocals(e, h.h);
    var inner := InLoop(Varied(h, vars), ForLoopCtx(e, h, slot, start));
    assert Iteration(e, h, slot, start) == inner;
    var b := CompileScope(e.body, inner, start + 1);
    FlatScope(e.body, inner, start + 1);
    var code := ForCode(e, h, slot, b);
    var end := start + |code|;
    Unpatch(p, start, code, h.nloops, end, exits);
    var exits' := exits[h.nloops := end];
    var fold := Fold(h, b.h, e.isArray, slot);
    var n := |b.code| + |fold| + 1;
    var last := start + n;
    var first := At(h, h.h, NextInstr(e, n + 1)) + b.code + fold;
    Split3(p, start, first, At(h, b.h - 1, Unwind(U8(h.h))), At(h, h.h, Loop(n + 2)), exits');
    Split3(p, start, At(h, h.h, NextInstr(e, n + 1)), b.code, fold, exits');
    OneCell(p, start, h, h.h, NextInstr(e, n + 1), exits');
    OneCell(p, last, h, b.h - 1, Unwind(U8(h.h)), exits');
    OneCell(p, last + 1, h, h.h, Loop(n + 2), exits');
  }

  /** The head of a `for` knows where its iterator is. */
  ghost predicate HasIter(h: Ctx, s1: State, slot: nat, it: Value) {
    0 < h.h == |s1.stack| && s1.stack[h.h - 1] == it && slot != h.h - 1 && !IsSlot(h.locals, h.h - 1)
  }

  lemma {:induction false} SimRepeatFor(w: World, e: Expr, c: Ctx, s: State, h: Ctx, exits: map<nat, int>, env1: Env,
        s1: State, n1: nat,
                     slot: nat, acc: Value, it: Value, start: nat, end: int, fuel: nat, k: nat)
                       returns (n: nat, s2: State)
    requires e.For? && AtHead(w, c, exits, s, h, env1, s1, n1, slot) && s1.pc == start && s1.stack[slot] == acc
    requires HasIter(h, s1, slot, it)
    requires JumpsOk(e, k) && k <= |c.loops| && ForInPlace(w.p, e, h, slot, start, end, exits)
    ensures var o := RepeatFor(w.ops, w.g, e, it, env1, s1.heap, acc, fuel);
      LoopOutcome(w, c, exits, s, h, o, n, s2, slot, end, k) && n >= n1 && (o.Timeout? ==> n >= n1 + fuel)
    decreases fuel, e, 1
  {
    hide CtxOk, Rel, Kept, Later, Pushed, CodeAt, Steps, Placement, HoistOk, CompileScope, EvalScope, Ready, Exec,
      HasIter;
    n, s2 := n1, s1;
    if fuel == 0 { return; }
    EnvLength(w, c, exits, s, h, env1, s1, n1);
    var p := w.ops.pull(it, s1.heap);
    s2 := PullNext(w, e, c, exits, s, h, env1, s1, n1, slot, it, end, start);
    n := n1 + 1;
    if p.Next? {
      n, s2 := SimForBody(w, e, c, s, h, exits, env1, s1, n1, slot, acc, it, start, end, fuel, k, p, s2);
    }
  }

  /** The iterator gave an element: run the body with it and come back to the head. */
  lemma {:induction false} SimForBody(w: World, e: Expr, c: Ctx, s: State, h: Ctx, exits: map<nat, int>, env1: Env,
        s1: State, n1: nat,
                   slot: nat, acc: Value, it: Value, start: nat, end: int, fuel: nat, k: nat, p: Pull, s3: State)
                     returns (n: nat, s2: State)
    requires e.For? && AtHead(w, c, exits, s, h, env1, s1, n1, slot) && s1.stack[slot] == acc
    requires HasIter(h, s1, slot, it)
    requires JumpsOk(e, k) && k <= |c.loops| && ForInPlace(w.p, e, h, slot, start, end, exits) && fuel > 0
    requires |env1| == |h.locals|
    requires p == w.ops.pull(it, s1.heap) && p.Next?
    requires Mid(w, c, exits, s, Varied(h, LoopLocals(e, h.h)), env1 + LoopVars(e, p.counter, p.item), s3, n1 + 1)
    requires s3.pc == start + 1 && s3.heap == p.heap && |s3.stack| >= h.h && s3.stack[..h.h] == s1.stack
    ensures var o := RepeatFor(w.ops, w.g, e, it, env1, s1.heap, acc, fuel);
      LoopOutcome(w, c, exits, s, h, o, n, s2, slot, end, k) && n >= n1 && (o.Timeout? ==> n >= n1 + fuel)
    decreases fuel, e, 0
  {
    hide CtxOk, Rel, Kept, Later, Pushed, CodeAt, Steps, Placement, HoistOk, CompileScope, EvalScope, Ready, Exec,
      HasIter, Left, Mid;
    var view := Varied(h, LoopLocals(e, h.h));
    var l := ForLoopCtx(e, h, slot, start);
    var inner := InLoop(view, l);
    var b := CompileScope(e.body, inner, start + 1);
    FlatScope(e.body, inner, start + 1);
    var env2 := env1 + LoopVars(e, p.counter, p.item);
    VarsInside(w, e, c, exits, s, h, env1, s1, n1, slot, env2, s3, n1 + 1, inner, l, end, it);
    var m := SimScope(w, e.body, inner, start + 1, exits[l.id := end], env2, s3, fuel, k + 1);
    var ob := EvalScope(w.ops, w.g, e.body, env2, p.heap, fuel);
    if ob.Norm? {
      PushedSame(inner, view, b, s3, ob.v, ob.env, ob.heap, start + 1 + |b.code|, Ran(w, Run(s3), m));
    }
    var turn := IterationEnd(w.ops, e.isArray, ob, acc, |env1|);
    n, s2 := ForTurn(w, e, c, s, h, exits, env1, s1, n1, env2, s3, n1 + 1, slot, acc, it, start, end, ob, m, b);
    if turn.Again? {
      n, s2 := SimRepeatFor(w, e, c, s, h, exits, turn.env, s2, n, slot, turn.acc, it, start, end, fuel - 1, k);
    }
  }

  /** One pull of the iterator on top of the stack. */
  lemma PullNext(w: World, e: Expr, c: Ctx, exits: map<nat, int>, s: State, h: Ctx, env1: Env, s1: State, n1: nat,
                 slot: nat, it: Value, end: int, start: nat) returns (s2: State)
    requires e.For? && AtHead(w, c, exits, s, h, env1, s1, n1, slot) && s1.pc == start && HasIter(h, s1, slot, it)
    requires start < |w.p| && w.p[start].op == NextInstr(e, end - start - 1) && h.h + 2 <= 255
    ensures match w.ops.pull(it, s1.heap)
      case Exhausted => AtHead(w, c, exits, s, h, env1, s2, n1 + 1, slot) && s2 == s1.(pc := end)
      case Failed(x, heap) => Left(w, c, exits, s, Raised(x, env1, heap), Ran(w, Run(s), n1 + 1))
      case Next(counter, item, heap) =>
        Mid(w, c, exits, s, Varied(h, LoopLocals(e, h.h)), env1 + LoopVars(e, counter, item), s2, n1 + 1)
        && s2.pc == start + 1 && s2.heap == heap && |s2.stack| >= h.h && s2.stack[..h.h] == s1.stack
        && SlotsOk(Varied(h, LoopLocals(e, h.h)).locals, h.h + |LoopLocals(e, h.h)|)
  {
    hide CtxOk, Rel, Kept, Later, Steps, HoistOk, Ready, Left;
    var d := end - start - 1;
    ThenExec(w, Run(s), n1, s1, NextInstr(e, d));
    match w.ops.pull(it, s1.heap)
    case Exhausted =>
      s2 := s1.(pc := end);
      HeadGoto(w, c, exits, s, h, env1, s1, n1, slot, end);
    case Failed(x, heap) =>
      s2 := s1.(heap := heap);
      MidRaise(w, c, exits, s, h, env1, s1, n1, NextInstr(e, d), x,
          s2) by { HeadHigh(w, c, exits, s, h, env1, s1, n1, slot); }
    case Next(counter, item, heap) =>
      var vals := if e.second.None? then [item] else [counter, item];
      s2 := State(start + 1, s1.stack + vals, s1.tries, heap);
      MidVars(w, c, exits, s, h, env1, s1, n1, slot, LoopLocals(e, h.h), LoopVars(e, counter, item), s2);
  }

  lemma HeadHigh(w: World, c: Ctx, exits: map<nat, int>, s: State, h: Ctx, env1: Env, s1: State, n: nat, slot: nat)
    requires AtHead(w, c, exits, s, h, env1, s1, n, slot)
    ensures c.h <= |s1.stack| == h.h
  {
  }

  lemma VarsInside(w: World, e: Expr, c: Ctx, exits: map<nat, int>, s: State, h: Ctx, env1: Env, s1: State, n1: nat,
        slot: nat,
                   env2: Env, s2: State, n2: nat, inner: Ctx, l: LoopCtx, end: int, it: Value)
    requires e.For? && AtHead(w, c, exits, s, h, env1, s1, n1, slot) && h.h + 2 <= 255 && HasIter(h, s1, slot, it)
    requires Mid(w, c, exits, s, Varied(h, LoopLocals(e, h.h)), env2, s2, n2)
    requires inner == InLoop(Varied(h, LoopLocals(e, h.h)), l)
    requires l.id == h.nloops && l.resultSlot == slot && l.base == h.h && l.visible == |h.locals|
    ensures Ready(w, inner, exits[l.id := end], env2, s2)
    ensures !IsSlot(inner.locals, slot) && !IsSlot(inner.locals, h.h - 1)
  {
    hide Rel, Kept, HoistOk, Later, Steps;
    var view := Varied(h, LoopLocals(e, h.h));
    HeadSlots(w, c, exits, s, h, env1, s1, n1);
    VarsSlots(h, LoopLocals(e, h.h));
    assert view.locals[..l.visible] == h.locals;
    InsideLoop(w, c, exits, s, view, env2, s2, n2, inner, l, end);
  }

  /** The end of an iteration: fold, drop the variables, jump back; or take the body's exit. */
  lemma ForTurn(w: World, e: Expr, c: Ctx, s: State, h: Ctx, exits: map<nat, int>, env0: Env, s0: State, n0: nat,
        env1: Env, s1: State, n1: nat,
                slot: nat, acc: Value, it: Value, start: nat, end: int, o: Outcome, m: nat, b: Result)
                  returns (n: nat, s2: State)
    requires e.For? && AtHead(w, c, exits, s, h, env0, s0, n0, slot) && s0.stack[slot] == acc
    requires HasIter(h, s0, slot, it) && |env0| == |h.locals|
    requires var view := Varied(h, LoopLocals(e, h.h));
      && Mid(w, c, exits, s, view, env1, s1, n1) && Flat(view, b) && s1.stack[..h.h] == s0.stack && |s1.stack| >= h.h
      && !IsSlot(view.locals, slot) && !IsSlot(view.locals, h.h - 1)
      && if o.Norm? then Pushed(view, b, s1, o.v, o.env, o.heap, start + 1 + |b.code|, Ran(w, Run(s1), m))
         else Left(w, InLoop(view, ForLoopCtx(e, h, slot, start)), exits[h.nloops := end], s1, o, Ran(w, Run(s1), m))
    requires ForInPlace(w.p, e, h, slot, start, end, exits)
      && b == CompileScope(e.body, InLoop(Varied(h, LoopLocals(e, h.h)), ForLoopCtx(e, h, slot, start)), start + 1)
    ensures n >= n1 + m && match IterationEnd(w.ops, e.isArray, o, acc, |env0|)
      case Again(env', heap', acc') =>
        AtHead(w, c, exits, s, h, env', s2, n, slot) && s2.pc == start && s2.heap == heap' && s2.stack[slot] == acc'
          && HasIter(h, s2, slot, it)
      case Leave(o') =>
        if o'.Norm? then AtHead(w, c, exits, s, h, o'.env, s2, n, slot) && s2.pc == end && s2.heap == o'.heap
          && s2.stack[slot] == o'.v
        else Left(w, c, exits, s, o', Ran(w, Run(s), n))
  {
    hide CtxOk, Rel, Kept, Pushed, CodeAt, Steps, Placement, HoistOk, Exec, Left, Fold, CompileScope, Later, Ready;
    n := n1 + m;
    var view := Varied(h, LoopLocals(e, h.h));
    HeadHigh(w, c, exits, s, h, env0, s0, n0, slot);
    assert s1.stack[slot] == s1.stack[..h.h][slot] && s1.stack[h.h - 1] == s1.stack[..h.h][h.h - 1];
    if !o.Norm? {
      var l := ForLoopCtx(e, h, slot, start);
      s2 := ExitTurn(w, c, exits, s, h, env0, s0, n0, slot, view, env1, s1, n1, InLoop(view, l), l, end, o, m);
      var turn := IterationEnd(w.ops, e.isArray, o, acc, |env0|);
      if turn.Again? {
        HeadHigh(w, c, exits, s, h, turn.env, s2, n, slot);
      }
    } else {
      n, s2 := ForNext(w, e, c, s, h, exits, env0, s0, n0, env1, s1, n1, slot, acc, it, start, end, o, m, b);
    }
  }

  lemma ForNext(w: World, e: Expr, c: Ctx, s: State, h: Ctx, exits: map<nat, int>, env0: Env, s0: State, n0: nat,
        env1: Env, s1: State, n1: nat,
                slot: nat, acc: Value, it: Value, start: nat, end: int, o: Outcome, m: nat, b: Result)
                  returns (n: nat, s2: State)
    requires e.For? && AtHead(w, c, exits, s, h, env0, s0, n0, slot) && HasIter(h, s0, slot, it)
    requires var view := Varied(h, LoopLocals(e, h.h));
      && Mid(w, c, exits, s, view, env1, s1, n1) && Flat(view, b) && |s1.stack| >= h.h
      && s1.stack[slot] == acc && s1.stack[h.h - 1] == it && !IsSlot(view.locals, slot) && !IsSlot(view.locals, h.h - 1)
      && o.Norm? && Pushed(view, b, s1, o.v, o.env, o.heap, start + 1 + |b.code|, Ran(w, Run(s1), m))
    requires ForInPlace(w.p, e, h, slot, start, end, exits)
      && b == CompileScope(e.body, InLoop(Varied(h, LoopLocals(e, h.h)), ForLoopCtx(e, h, slot, start)), start + 1)
    ensures n >= n1 + m
    ensures var r := Collect(w.ops, e.isArray, acc, o.v, o.heap);
      AtHead(w, c, exits, s, h, Shrink(o.env, |h.locals|), s2, n, slot) && s2.pc == start && s2.heap == r.1
        && s2.stack[slot] == r.0
      && HasIter(h, s2, slot, it)
  {
    hide Rel, Kept, Pushed, CodeAt, Steps, Placement, HoistOk, Exec, Left, Fold, CompileScope, Later, Ready;
    var view := Varied(h, LoopLocals(e, h.h));
    var inner := InLoop(view, ForLoopCtx(e, h, slot, start));
    var fold := Fold(h, inner.h + 1, e.isArray, slot);
    var s3 := MidValue(w, c, exits, s, view, env1, s1, n1, b, o, start + 1 + |b.code|, m);
    EnvLength(w, c, exits, s, After(view, b), o.env, s3, n1 + m);
    EnvLength(w, c, exits, s, h, env0, s0, n0);
    EnvLength(w, c, exits, s, view, env1, s1, n1);
    var s4 := HeadFold(w, c, exits, s, h, env0, s0, n0, slot, After(view, b), o.env, s3, n1 + m, h, inner.h + 1,
        e.isArray, exits[h.nloops := end]);
    n := n1 + m + |fold| + 2;
    JumpOut(w, Run(s), n - 2, s4, h.h, Loop(end - start));
    s2 := State(start, s4.stack[..h.h], s4.tries, s4.heap);
  }

  lemma {:induction false} SimInner(w: World, e: Expr, c: Ctx, pos: nat, exits: map<nat, int>, env: Env, s: State,
        fuel: nat, k: nat)
    returns (n: nat)
    requires Inner(e, c, k) && Go(w, Compile(e, c, pos), c, pos, exits, env, s)
    ensures Sims(w, c, exits, Compile(e, c, pos), s, Meant(w, e, c, env, s.heap, fuel), pos, n, fuel, k)
    decreases fuel, e, 5
  {
    hide Compile, Eval, Ready, CodeAt, Agrees;
    Nested(e, c.hoisted.Keys);
    n := Sim(w, e, c, pos, exits, env, s, fuel, k);
  }

  // ----- the remaining small cases -----

  lemma SimIdent(w: World, x: string, c: Ctx, pos: nat, exits: map<nat, int>, env: Env, s: State) returns (n: nat)
    requires Go(w, CompileIdent(x, c), c, pos, exits, env, s)
    ensures n == 1 && |CompileIdent(x, c).code| == 1
    ensures Pushed(c, CompileIdent(x, c), s, ReadVar(w.g, env, x), env, s.heap, pos + 1, Ran(w, Run(s), n))
  {
    hide CtxOk, Kept, Later, Pushed, CodeAt, Steps, Ran, Mid, Placement, HoistOk;
    var r := CompileIdent(x, c);
    SamePlace(c.locals, env, x);
    MidStart(w, c, exits, env, s);
    OneCell(w.p, pos, c, c.h, r.code[0].op, exits);
    var s1 := MidPush(w, c, exits, s, c, env, s, 0, r.code[0].op, ReadVar(w.g, env, x), s.heap);
    MidDone(w, c, exits, s, Up(c, c.h + 1), env, s1, 1, r);
    n := 1;
  }

  lemma SimLit(w: World, v: Value, c: Ctx, pos: nat, exits: map<nat, int>, env: Env, s: State) returns (n: nat)
    requires Go(w, Compile(Lit(v), c, pos), c, pos, exits, env, s)
    ensures n == 1 && Pushed(c, Compile(Lit(v), c, pos), s, v, env, s.heap, pos + 1, Ran(w, Run(s), n))
  {
    hide CtxOk, Kept, Later, Pushed, CodeAt, Steps, Ran, Mid, Placement, HoistOk, Rel;
    var op := if v.Null? then PushNull else LoadConst(v);
    MidStart(w, c, exits, env, s);
    OneCell(w.p, pos, c, c.h, op, exits);
    var s1 := MidPush(w, c, exits, s, c, env, s, 0, op, v, s.heap);
    MidDone(w, c, exits, s, Up(c, c.h + 1), env, s1, 1, Compile(Lit(v), c, pos));
    n := 1;
  }

  /** An operand followed by the instruction `op`. */
  lemma {:induction false} SimOperand(w: World, x: Expr, c: Ctx, pos: nat, exits: map<nat, int>, env: Env, s: State,
        fuel: nat, k: nat, op: Instr)
    returns (n: nat, s1: State)
    requires Inner(x, c, k) && Ready(w, c, exits, env, s) && s.pc == pos && !op.Hole?
    requires var a := Compile(x, c, pos); CodeAt(w.p, pos, a.code + At(c, a.h, op), exits) && a.fits
    ensures n >= 1 && var a := Compile(x, c, pos);
      var at := pos + |a.code|;
      var o := Meant(w, x, c, env, s.heap, fuel);
      && JumpsWithin(o, k) && (o.Timeout? ==> n >= fuel)
      && if o.Norm? then
           Mid(w, c, exits, s, Up(c, c.h + 1), o.env, s1, n) && s1.pc == at < |w.p| && w.p[at].op == op
           && |s1.stack| == c.h + 1 && s1.stack[c.h] == o.v && s1.heap == o.heap
         else Left(w, c, exits, s, o, Ran(w, Run(s), n))
    decreases fuel, x, 6
  {
    hide Compile, Eval, HoistExpr, CtxOk, Rel, Kept, Later, Pushed, CodeAt, Steps, Ran, Placement, HoistOk, Left, Mid;
    var a := Compile(x, c, pos);
    FlatExpr(x, c, pos);
    SplitCode(w.p, pos, a.code, At(c, a.h, op), exits);
    OneCell(w.p, pos + |a.code|, c, a.h, op, exits);
    n := SimInner(w, x, c, pos, exits, env, s, fuel, k);
    s1 := s;
    var o := Meant(w, x, c, env, s.heap, fuel);
    if o.Norm? {
      MidStart(w, c, exits, env, s);
      s1 := MidValue(w, c, exits, s, c, env, s, 0, a, o, pos + |a.code|, n);
    }
  }

  lemma {:induction false} SimUnary(w: World, e: Expr, c: Ctx, pos: nat, exits: map<nat, int>, env: Env, s: State,
        fuel: nat, k: nat)
    returns (n: nat)
    requires e.Unary? && Inner(e, c, k) && Go(w, Compile(e, c, pos), c, pos, exits, env, s)
    ensures Sims(w, c, exits, Compile(e, c, pos), s, Meant(w, e, c, env, s.heap, fuel), pos, n, fuel, k)
    decreases fuel, e, 3
  {
    hide HoistExpr, CtxOk, Rel, Kept, Later, Pushed, CodeAt, Steps, Ran, Placement, HoistOk, Mid;
    Nested(e, c.hoisted.Keys);
    FlatExpr(e.operand, c, pos);
    var s1;
    n, s1 := SimOperand(w, e.operand, c, pos, exits, env, s, fuel, k, UnI(e.uop));
    var oa := Meant(w, e.operand, c, env, s.heap, fuel);
    if oa.Norm? {
      RunUnary(w, c, exits, s, Up(c, c.h + 1), oa.env, s1, n, e.uop, Compile(e, c, pos));
      n := n + 1;
    }
  }

  lemma {:induction false} SimRaise(w: World, e: Expr, c: Ctx, pos: nat, exits: map<nat, int>, env: Env, s: State,
        fuel: nat, k: nat)
    returns (n: nat)
    requires e.Raise? && Inner(e, c, k) && Go(w, Compile(e, c, pos), c, pos, exits, env, s)
    ensures Sims(w, c, exits, Compile(e, c, pos), s, Meant(w, e, c, env, s.heap, fuel), pos, n, fuel, k)
    decreases fuel, e, 3
  {
    hide HoistExpr, CtxOk, Rel, Kept, Later, Pushed, CodeAt, Steps, Ran, Placement, HoistOk, Mid, Exec;
    Nested(e, c.hoisted.Keys);
    var s1;
    n, s1 := SimOperand(w, e.exn, c, pos, exits, env, s, fuel, k, RaiseI);
    var oa := Meant(w, e.exn, c, env, s.heap, fuel);
    if oa.Norm? {
      RunRaise(w, c, exits, s, Up(c, c.h + 1), oa.env, s1, n);
      n := n + 1;
    }
  }

  lemma {:induction false} SimReturn(w: World, e: Expr, c: Ctx, pos: nat, exits: map<nat, int>, env: Env, s: State,
        fuel: nat, k: nat)
    returns (n: nat)
    requires e.Return? && e.result.Some? && Inner(e, c, k) && Go(w, Compile(e, c, pos), c, pos, exits, env, s)
    ensures Sims(w, c, exits, Compile(e, c, pos), s, Meant(w, e, c, env, s.heap, fuel), pos, n, fuel, k)
    decreases fuel, e, 3
  {
    hide HoistExpr, CtxOk, Rel, Kept, Later, Pushed, CodeAt, Steps, Ran, Placement, HoistOk, Mid, Exec;
    Nested(e, c.hoisted.Keys);
    var s1;
    n, s1 := SimOperand(w, e.result.value, c, pos, exits, env, s, fuel, k, ReturnI);
    var oa := Meant(w, e.result.value, c, env, s.heap, fuel);
    if oa.Norm? {
      RunReturn(w, c, exits, s, Up(c, c.h + 1), oa.env, s1, n);
      n := n + 1;
    }
  }

  lemma RunUnary(w: World, c: Ctx, exits: map<nat, int>, s: State, c1: Ctx, env1: Env, s1: State, n: nat, op: UnOp,
        r: Result)
    requires Mid(w, c, exits, s, c1, env1, s1, n) && |s1.stack| == c.h + 1 && c1.locals == c.locals && Flat(c, r)
    requires 0 <= s1.pc < |w.p| && w.p[s1.pc].op == UnI(op)
    ensures Agrees(w, c, exits, r, s, Lift(w.ops.un(op, s1.stack[c.h], s1.heap), env1), s1.pc + 1,
        Ran(w, Run(s), n + 1))
  {
    hide Mid, Agrees;
    MidResult(w, c, exits, s, c1, env1, s1, n, UnI(op), r, w.ops.un(op, s1.stack[c.h], s1.heap));
  }

  lemma RunRaise(w: World, c: Ctx, exits: map<nat, int>, s: State, c1: Ctx, env1: Env, s1: State, n: nat)
    requires Mid(w, c, exits, s, c1, env1, s1, n) && |s1.stack| == c.h + 1 && 0 <= s1.pc < |w.p|
    requires w.p[s1.pc].op == RaiseI
    ensures Left(w, c, exits, s, Raised(s1.stack[c.h], env1, s1.heap), Ran(w, Run(s), n + 1))
  {
    hide Mid, Left;
    MidRaise(w, c, exits, s, c1, env1, s1, n, RaiseI, s1.stack[c.h], s1.(stack := s1.stack[..c.h]));
  }

  lemma RunReturn(w: World, c: Ctx, exits: map<nat, int>, s: State, c1: Ctx, env1: Env, s1: State, n: nat)
    requires Mid(w, c, exits, s, c1, env1, s1, n) && |s1.stack| == c.h + 1 && 0 <= s1.pc < |w.p|
    requires w.p[s1.pc].op == ReturnI
    ensures Left(w, c, exits, s, Ret(s1.stack[c.h], s1.heap), Ran(w, Run(s), n + 1))
  {
    hide CtxOk, Rel, Kept, Later, HoistOk;
    ThenExec(w, Run(s), n, s1, ReturnI);
  }

  lemma SimReturnNothing(w: World, c: Ctx, pos: nat, exits: map<nat, int>, env: Env, s: State) returns (n: nat)
    requires Go(w, Compile(Return(None), c, pos), c, pos, exits, env, s)
    ensures n == 2 && Left(w, c, exits, s, Ret(Null, s.heap), Ran(w, Run(s), n))
  {
    hide CtxOk, Rel, Kept, Later, CodeAt, Steps, Placement, HoistOk;
    SplitCode(w.p, pos, At(c, c.h, PushNull), At(c, c.h + 1, ReturnI), exits);
    OneCell(w.p, pos, c, c.h, PushNull, exits);
    OneCell(w.p, pos + 1, c, c.h + 1, ReturnI, exits);
    MidStart(w, c, exits, env, s);
    var s1 := PushNullMid(w, c, exits, s, c, env, s, 0);
    ThenExec(w, Run(s), 1, s1, ReturnI);
    n := 2;
  }

  lemma {:induction false} SimParen(w: World, b: Block, c: Ctx, pos: nat, exits: map<nat, int>, env: Env, s: State,
        fuel: nat, k: nat)
    returns (n: nat)
    requires Inner(Paren(b), c, k) && Go(w, CompileBlock(b, c, pos), c, pos, exits, env, s)
    ensures Sims(w, c, exits, CompileBlock(b, c, pos), s, EvalBlock(w.ops, w.g, b, c.hoisted.Keys, env, s.heap, fuel),
        pos, n, fuel, k)
    decreases fuel, b, 7
  {
    hide CtxOk, CodeAt, Steps, Ran, Agrees, CompileBlock, EvalBlock, Compile, Eval;
    assert HoistExpr(Paren(b)) == HoistParen(b);
    ParenPlaces(b, c.hoisted.Keys);
    n := SimBlock(w, b, c, pos, exits, env, s, fuel, k);
  }

  lemma {:induction false} ParenPlaces(b: Block, hoisted: set<string>)
    requires forall x :: x in HoistParen(b) ==> x in hoisted
    ensures PlacedBlock(b, hoisted)
  {
    match b
    case End =>
    case Tail(e) => Nested(e, hoisted);
    case Then(s, rest) =>
      Nested(s, hoisted);
      ParenPlaces(rest, hoisted);
  }

  /** The simulation, for every expression: compiled code, run from a stack that holds the
      environment in its slots, does exactly what the expression means. */
  lemma {:induction false} Sim(w: World, e: Expr, c: Ctx, pos: nat, exits: map<nat, int>, env: Env, s: State, fuel: nat,
        k: nat)
    returns (n: nat)
    requires Placed(e, c.hoisted.Keys) && JumpsOk(e, k) && k <= |c.loops|
    requires Go(w, Compile(e, c, pos), c, pos, exits, env, s)
    ensures Sims(w, c, exits, Compile(e, c, pos), s, Meant(w, e, c, env, s.heap, fuel), pos, n, fuel, k)
    decreases fuel, e, 4
  {
    hide Go, Left, Pushed, HoistExpr, CompileIdent, CompileShort, CompileBinary, CompileIf, CompileBreak,
      CompileContinue, CompileDecl, CompileAssign, CompileIndex, CompileIndexAssign, CompileTry, CompileReturn,
        CompileBlock, CompileScope, CompileWhile, CompileFor, EvalBinary, EvalIf, EvalBreak, EvalDecl, EvalAssign,
          EvalIndex, EvalIndexAssign, EvalTry, EvalBlock, EvalScope, EvalWhile, EvalFor;
    match e
    case Lit(v) => n := SimLit(w, v, c, pos, exits, env, s);
    case Ident(x) => n := SimIdent(w, x, c, pos, exits, env, s);
    case Binary(op, _, _) =>
      if op == And || op == Or { n := SimShort(w, e, c, pos, exits, env, s, fuel, k); }
      else { n := SimBinary(w, e, c, pos, exits, env, s, fuel, k); }
    case Unary(_, _) => n := SimUnary(w, e, c, pos, exits, env, s, fuel, k);
    case Paren(b) => n := SimParen(w, b, c, pos, exits, env, s, fuel, k);
    case Scope(b) => n := SimScope(w, b, c, pos, exits, env, s, fuel, k);
    case If(_, _, _) => n := SimIf(w, e, c, pos, exits, env, s, fuel, k);
    case While(_, _, _) => n := SimWhile(w, e, c, pos, exits, env, s, fuel, k);
    case For(_, _, _, _, _) => n := SimFor(w, e, c, pos, exits, env, s, fuel, k);
    case Break(_) => n := SimBreak(w, e, c, pos, exits, env, s, fuel, k);
    case Continue => n := SimContinue(w, c, pos, exits, env, s);
    case Decl(_, _) => n := SimDecl(w, e, c, pos, exits, env, s, fuel, k);
    case Assign(_, _, _) => n := SimAssign(w, e, c, pos, exits, env, s, fuel, k);
    case Index(_, _) => n := SimIndex(w, e, c, pos, exits, env, s, fuel, k);
    case IndexAssign(_, _, _, _) => n := SimIndexAssign(w, e, c, pos, exits, env, s, fuel, k);
    case Try(_, _) => n := SimTry(w, e, c, pos, exits, env, s, fuel, k);
    case Raise(_) => n := SimRaise(w, e, c, pos, exits, env, s, fuel, k);
    case Return(r) =>
      if r.Some? { n := SimReturn(w, e, c, pos, exits, env, s, fuel, k); }
      else { n := SimReturnNothing(w, c, pos, exits, env, s); }
  }
}
