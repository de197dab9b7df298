/** How machine states and source states correspond, and the facts every case of the simulation
    proof uses. */
module SimulationBase {
  import opened Ast
  import opened Wrappers
  import opened Meaning
  import opened Machine
  import opened Lowering
  import opened LoweringShape

  datatype World = World(ops: Ops, g: Globals, p: Code)

  function Ran(w: World, c: Config, n: nat): Config {
    Steps(w.ops, w.g, w.p, c, n)
  }

  // ----- code in place -----

  /** The instruction a cell becomes once the loops in `exits` are patched. */
  function Placement(c: Cell, at: int, exits: map<nat, int>): Instr {
    if c.op.Hole? && c.op.loopId in exits then Jump(exits[c.op.loopId] - at - 1) else c.op
  }

  /** `code`, patched for `exits`, stands at `at` in the program. */
  ghost predicate CodeAt(p: Code, at: int, code: Code, exits: map<nat, int>) {
    && 0 <= at && at + |code| <= |p|
    && forall i {:trigger code[i]} {:trigger p[at + i]} :: 0 <= i < |code| ==>
       p[at + i].op == Placement(code[i], at + i, exits)
  }

  lemma SplitCode(p: Code, at: int, a: Code, b: Code, exits: map<nat, int>)
    requires CodeAt(p, at, a + b, exits)
    ensures CodeAt(p, at, a, exits) && CodeAt(p, at + |a|, b, exits)
  {
    forall i | 0 <= i < |a| ensures p[at + i].op == Placement(a[i], at + i, exits) {
      assert (a + b)[i] == a[i];
    }
    forall i | 0 <= i < |b| ensures p[at + |a| + i].op == Placement(b[i], at + |a| + i, exits) {
      assert (a + b)[|a| + i] == b[i];
      assert p[at + (|a| + i)].op == Placement((a + b)[|a| + i], at + (|a| + i), exits);
    }
  }

  lemma Split3(p: Code, at: int, a: Code, b: Code, c: Code, exits: map<nat, int>)
    requires CodeAt(p, at, a + b + c, exits)
    ensures CodeAt(p, at, a, exits) && CodeAt(p, at + |a|, b, exits) && CodeAt(p, at + |a| + |b|, c, exits)
  {
    SplitCode(p, at, a + b, c, exits);
    SplitCode(p, at, a, b, exits);
  }

  lemma Split4(p: Code, at: int, a: Code, b: Code, c: Code, d: Code, exits: map<nat, int>)
    requires CodeAt(p, at, a + b + c + d, exits)
    ensures CodeAt(p, at, a, exits) && CodeAt(p, at + |a|, b, exits) && CodeAt(p, at + |a| + |b|, c, exits)
    ensures CodeAt(p, at + |a| + |b| + |c|, d, exits)
  {
    SplitCode(p, at, a + b + c, d, exits);
    Split3(p, at, a, b, c, exits);
  }

  /** Code whose loop `id` was patched by the compiler stands in place with that loop's exit known. */
  lemma Unpatch(p: Code, at: int, code: Code, id: nat, exit: int, exits: map<nat, int>)
    requires CodeAt(p, at, Patch(code, at, id, exit), exits)
    ensures CodeAt(p, at, code, exits[id := exit])
  {
    var patched := Patch(code, at, id, exit);
    forall i | 0 <= i < |code| ensures p[at + i].op == Placement(code[i], at + i, exits[id := exit]) {
      assert patched[i] == PatchCell(code[i], at + i, id, exit);
    }
  }

  lemma OneCell(p: Code, at: int, c: Ctx, h: nat, op: Instr, exits: map<nat, int>)
    requires CodeAt(p, at, At(c, h, op), exits) && !op.Hole?
    ensures 0 <= at < |p| && p[at].op == op
  {
    assert At(c, h, op)[0].op == op;
  }

  // ----- running -----

  lemma ThenExec(w: World, c: Config, n: nat, s: State, i: Instr)
    requires Ran(w, c, n) == Run(s) && 0 <= s.pc < |w.p| && w.p[s.pc].op == i
    ensures Ran(w, c, n + 1) == Exec(w.ops, w.g, i, s)
  {
    StepsAdd(w.ops, w.g, w.p, c, n, 1);
    assert Steps(w.ops, w.g, w.p, Run(s), 1) == Steps(w.ops, w.g, w.p, Step(w.ops, w.g, w.p, Run(s)), 0);
  }

  lemma ThenRun(w: World, c: Config, n: nat, s: State, m: nat)
    requires Ran(w, c, n) == Run(s)
    ensures Ran(w, c, n + m) == Ran(w, Run(s), m)
  {
    StepsAdd(w.ops, w.g, w.p, c, n, m);
  }

  // ----- environments on the stack -----

  ghost predicate SlotsOk(locals: seq<Local>, h: nat) {
    && (forall i, j :: 0 <= i < j < |locals| ==> locals[i].val < locals[j].val)
    && (forall i :: 0 <= i < |locals| ==> locals[i].val < h)
  }

  ghost predicate IsSlot(locals: seq<Local>, k: int) {
    exists i :: 0 <= i < |locals| && locals[i].val == k
  }

  /** Every visible variable sits in its slot. */
  ghost predicate Rel(locals: seq<Local>, env: Env, stack: seq<Value>) {
    && |env| == |locals|
    && forall i :: 0 <= i < |locals| ==>
      locals[i].name == env[i].name && locals[i].val < |stack| && stack[locals[i].val] == env[i].val
  }

  /** Below height `n`, only slots of named locals may differ. */
  ghost predicate Kept(locals: seq<Local>, s: seq<Value>, t: seq<Value>, n: nat) {
    && n <= |s| && n <= |t|
    && forall i :: 0 <= i < n && !IsSlot(locals, i) ==> t[i] == s[i]
  }

  ghost predicate LoopOk(c: Ctx, l: LoopCtx) {
    && l.id < c.nloops && l.resultSlot < l.base <= c.h && !IsSlot(c.locals, l.resultSlot)
    && l.visible <= |c.locals| && SlotsOk(c.locals[..l.visible], l.base)
  }

  ghost predicate HoistOk(c: Ctx) {
    forall x :: x in c.hoisted ==>
      Newest(c.locals, x).Some? && c.locals[Newest(c.locals, x).value].val == c.hoisted[x]
  }

  ghost predicate CtxOk(c: Ctx) {
    SlotsOk(c.locals, c.h) && HoistOk(c) && forall i :: 0 <= i < |c.loops| ==> LoopOk(c, c.loops[i])
  }

  ghost predicate ExitsOk(c: Ctx, exits: map<nat, int>) {
    forall i :: 0 <= i < |c.loops| ==> c.loops[i].id in exits
  }

  /** The machine stands before the code of an expression compiled in state `c`. */
  ghost predicate Ready(w: World, c: Ctx, exits: map<nat, int>, env: Env, s: State) {
    CtxOk(c) && ExitsOk(c, exits) && c.globals == w.g.names && |s.stack| == c.h && Rel(c.locals, env, s.stack)
  }

  // ----- what each outcome looks like on the machine -----

  /** The value is on top, everything else is in place. */
  ghost predicate Pushed(c: Ctx, r: Result, s: State, v: Value, env: Env, heap: Heap, end: int, cfg: Config) {
    && cfg.Run? && cfg.s.pc == end && r.h >= 1 && |cfg.s.stack| == r.h && cfg.s.stack[r.h - 1] == v
    && Rel(r.locals, env, cfg.s.stack) && Kept(c.locals, s.stack, cfg.s.stack, |s.stack|)
    && cfg.s.tries == s.tries && cfg.s.heap == heap
  }

  /** Arrived at `pc` of loop `l`: cut to its base height, its result slot holding `acc`. */
  ghost predicate Arrived(c: Ctx, l: LoopCtx, pc: int, s: State, acc: Value, env: Env, heap: Heap, cfg: Config) {
    && l.resultSlot < |s.stack|
    && cfg.Run? && cfg.s.pc == pc && |cfg.s.stack| == l.base
    && l.visible <= |c.locals| && Rel(c.locals[..l.visible], Shrink(env, l.visible), cfg.s.stack)
    && Kept(c.locals, s.stack[l.resultSlot := acc], cfg.s.stack, l.base)
    && cfg.s.tries == s.tries && cfg.s.heap == heap
  }

  ghost predicate Thrown(c: Ctx, s: State, x: Value, env: Env, heap: Heap, cfg: Config) {
    && cfg.Raising? && cfg.exn == x && |s.stack| <= |cfg.s.stack|
    && Rel(c.locals, Shrink(env, |c.locals|), cfg.s.stack) && Kept(c.locals, s.stack, cfg.s.stack, |s.stack|)
    && cfg.s.tries == s.tries && cfg.s.heap == heap
  }

  /** The `n`-th enclosing loop, counted outward. */
  function Target(c: Ctx, n: nat): LoopCtx
    requires n < |c.loops|
  {
    c.loops[|c.loops| - 1 - n]
  }

  ghost predicate Agrees(w: World, c: Ctx, exits: map<nat, int>, r: Result, s: State, o: Outcome, end: int, cfg: Config)
  {
    match o
    case Norm(v, env, heap) => Pushed(c, r, s, v, env, heap, end, cfg)
    case _ => Left(w, c, exits, s, o, cfg)
  }

  /** Every outcome but a value. */
  ghost predicate Left(w: World, c: Ctx, exits: map<nat, int>, s: State, o: Outcome, cfg: Config) {
    match o
    case Norm(_, _, _) => false
    case Brk(n, arg, env, heap) =>
      && n < |c.loops| && Target(c, n).id in exits && Target(c, n).resultSlot < |s.stack|
      && var l := Target(c, n);
      var acc := CollectBreak(w.ops, l.isArray, s.stack[l.resultSlot], arg, heap);
      Arrived(c, l, exits[l.id], s, acc.0, env, acc.1, cfg)
    case Cont(n, env, heap) =>
      && n < |c.loops| && Target(c, n).resultSlot < |s.stack|
      && var l := Target(c, n);
      Arrived(c, l, l.start, s, if l.isArray then s.stack[l.resultSlot] else Null, env, heap, cfg)
    case Raised(x, env, heap) => Thrown(c, s, x, env, heap, cfg)
    case Ret(v, heap) => cfg == Done(v, heap)
    case Timeout => !Halted(cfg)
  }

  lemma KeptTrans(locals: seq<Local>, locals': seq<Local>, a: seq<Value>, b: seq<Value>, t: seq<Value>, n: nat, m: nat)
    requires Kept(locals, a, b, n) && Kept(locals', b, t, m) && n <= m
    requires locals <= locals' && forall i :: |locals| <= i < |locals'| ==> locals'[i].val >= n
    ensures Kept(locals, a, t, n)
  {
    forall i | 0 <= i < n && !IsSlot(locals, i) ensures t[i] == a[i] {
      assert !IsSlot(locals', i);
    }
  }

  /** `c1`/`s1` come later in the same expression than `c`/`s`: more locals, same loops. */
  ghost predicate Later(c: Ctx, s: State, c1: Ctx, s1: State) {
    && c.locals <= c1.locals && c1.loops == c.loops && s1.tries == s.tries
    && (forall i :: |c.locals| <= i < |c1.locals| ==> c1.locals[i].val >= |s.stack|)
    && Kept(c.locals, s.stack, s1.stack, |s.stack|)
  }

  lemma ShrinkTwice(env: Env, m: nat, n: nat)
    requires n <= m
    ensures |Shrink(env, m)| >= n ==> Shrink(Shrink(env, m), n) == Shrink(env, n)
  {
  }

  lemma RelPrefix(locals: seq<Local>, env: Env, stack: seq<Value>, n: nat)
    requires Rel(locals, env, stack) && n <= |locals|
    ensures Rel(locals[..n], Shrink(env, n), stack)
  {
  }

  /** An exit taken later in an expression is an exit of the whole expression. */
  lemma BrokenEarlier(w: World, c: Ctx, exits: map<nat, int>, s: State, c1: Ctx, s1: State, o: Outcome, cfg: Config)
    requires CtxOk(c) && CtxOk(c1) && |s.stack| == c.h && Later(c, s, c1, s1)
    requires o.Brk? && Left(w, c1, exits, s1, o, cfg)
    ensures Left(w, c, exits, s, o, cfg)
  {
    var l := Target(c, o.n);
    var acc := CollectBreak(w.ops, l.isArray, s1.stack[l.resultSlot], o.arg, o.heap);
    ArrivedEarlier(c, l, exits[l.id], s, c1, s1, acc.0, o.env, acc.1, cfg);
  }

  lemma ContinuedEarlier(w: World, c: Ctx, exits: map<nat, int>, s: State, c1: Ctx, s1: State, o: Outcome, cfg: Config)
    requires CtxOk(c) && CtxOk(c1) && |s.stack| == c.h && Later(c, s, c1, s1)
    requires o.Cont? && Left(w, c1, exits, s1, o, cfg)
    ensures Left(w, c, exits, s, o, cfg)
  {
    var l := Target(c, o.n);
    ArrivedEarlier(c, l, l.start, s, c1, s1, if l.isArray then s1.stack[l.resultSlot] else Null, o.env, o.heap, cfg);
  }

  lemma LeftEarlier(w: World, c: Ctx, exits: map<nat, int>, s: State, c1: Ctx, s1: State, o: Outcome, cfg: Config)
    requires CtxOk(c) && CtxOk(c1) && |s.stack| == c.h && Later(c, s, c1, s1)
    requires Left(w, c1, exits, s1, o, cfg)
    ensures Left(w, c, exits, s, o, cfg)
  {
    match o
    case Brk(_, _, _, _) => BrokenEarlier(w, c, exits, s, c1, s1, o, cfg);
    case Cont(_, _, _) => ContinuedEarlier(w, c, exits, s, c1, s1, o, cfg);
    case Raised(x, env, heap) =>
      KeptTrans(c.locals, c1.locals, s.stack, s1.stack, cfg.s.stack, |s.stack|, |s1.stack|);
      RelPrefix(c1.locals, Shrink(env, |c1.locals|), cfg.s.stack, |c.locals|);
      ShrinkTwice(env, |c1.locals|, |c.locals|);
      assert c1.locals[..|c.locals|] == c.locals;
    case _ =>
  }

  lemma ArrivedEarlier(c: Ctx, l: LoopCtx, pc: int, s: State, c1: Ctx, s1: State, acc: Value, env: Env, heap: Heap,
        cfg: Config)
    requires LoopOk(c, l) && |s.stack| == c.h && Later(c, s, c1, s1)
    requires Arrived(c1, l, pc, s1, acc, env, heap, cfg)
    ensures Arrived(c, l, pc, s, acc, env, heap, cfg) && s1.stack[l.resultSlot] == s.stack[l.resultSlot]
  {
    assert c1.locals[..l.visible] == c.locals[..l.visible];
    var a, b := s.stack[l.resultSlot := acc], s1.stack[l.resultSlot := acc];
    assert Kept(c.locals, a, b, |s.stack|);
    forall i | 0 <= i < l.base && !IsSlot(c.locals, i) ensures cfg.s.stack[i] == a[i] {
      assert !IsSlot(c1.locals, i);
    }
  }

  /** The newest binding is found at the same place in the environment and in the locals. */
  lemma {:induction false} SamePlace(locals: seq<Local>, env: Env, x: string)
    requires |env| == |locals| && forall i :: 0 <= i < |locals| ==> locals[i].name == env[i].name
    ensures Newest(locals, x) == Newest(env, x)
  {
  }

  lemma NewestAppend<T>(bs: seq<Named<T>>, b: Named<T>, x: string)
    ensures Newest(bs + [b], x) == if b.name == x then Some(|bs|) else Newest(bs, x)
  {
    assert (bs + [b])[..|bs|] == bs;
  }

  /** Storing to the slot of the `i`-th local is an update of the `i`-th variable. */
  lemma RelUpdate(locals: seq<Local>, h: nat, env: Env, stack: seq<Value>, i: nat, v: Value)
    requires Rel(locals, env, stack) && SlotsOk(locals, h) && i < |locals|
    ensures Rel(locals, SetVar(env, i, v), stack[locals[i].val := v])
  {
  }

  // ----- half-way through an expression -----

  /** `n` steps into an expression that was compiled in `c` and entered at `s`, the machine is at
      `s1`, ready for code compiled in `c1`. */
  ghost predicate Mid(w: World, c: Ctx, exits: map<nat, int>, s: State, c1: Ctx, env1: Env, s1: State, n: nat) {
    && CtxOk(c) && |s.stack| == c.h && Ran(w, Run(s), n) == Run(s1)
    && Ready(w, c1, exits, env1, s1) && Later(c, s, c1, s1)
  }

  lemma MidStart(w: World, c: Ctx, exits: map<nat, int>, env: Env, s: State)
    requires Ready(w, c, exits, env, s)
    ensures Mid(w, c, exits, s, c, env, s, 0)
  {
  }

  /** A part of the expression produced a value. */
  lemma MidValue(w: World, c: Ctx, exits: map<nat, int>, s: State, c1: Ctx, env1: Env, s1: State, n: nat, r: Result,
        o: Outcome, end: int, m: nat)
    returns (s2: State)
    requires Mid(w, c, exits, s, c1, env1, s1, n) && o.Norm? && Flat(c1, r)
    requires Pushed(c1, r, s1, o.v, o.env, o.heap, end, Ran(w, Run(s1), m))
    ensures Mid(w, c, exits, s, After(c1, r), o.env, s2, n + m)
    ensures s2.pc == end && s2.heap == o.heap && |s2.stack| == |s1.stack| + 1 && s2.stack[|s1.stack|] == o.v
    ensures forall i :: 0 <= i < |s1.stack| && !IsSlot(c1.locals, i) ==> s2.stack[i] == s1.stack[i]
    ensures c1.locals == c.locals ==> forall i :: c.h <= i < |s1.stack| ==> s2.stack[i] == s1.stack[i]
  {
    ThenRun(w, Run(s), n, s1, m);
    s2 := Ran(w, Run(s1), m).s;
    KeptTrans(c.locals, c1.locals, s.stack, s1.stack, s2.stack, |s.stack|, |s1.stack|);
    assert HoistOk(After(c1, r));
    forall i | 0 <= i < |c1.loops| ensures LoopOk(After(c1, r), c1.loops[i]) {
      assert LoopOk(c1, c1.loops[i]);
    }
    if c1.locals == c.locals {
      forall i | c.h <= i < |s1.stack| ensures s2.stack[i] == s1.stack[i] {
        assert !IsSlot(c.locals, i);
      }
    }
  }

  /** A part of the expression was left some other way. */
  lemma MidLeft(w: World, c: Ctx, exits: map<nat, int>, s: State, c1: Ctx, env1: Env, s1: State, n: nat, o: Outcome,
        m: nat)
    requires Mid(w, c, exits, s, c1, env1, s1, n) && Left(w, c1, exits, s1, o, Ran(w, Run(s1), m))
    ensures Left(w, c, exits, s, o, Ran(w, Run(s), n + m))
  {
    ThenRun(w, Run(s), n, s1, m);
    LeftEarlier(w, c, exits, s, c1, s1, o, Ran(w, Run(s1), m));
  }

  /** One instruction that touches only the stack above height `k`, above every slot. */
  lemma MidExec(w: World, c: Ctx, exits: map<nat, int>, s: State, c1: Ctx, env1: Env, s1: State, n: nat, i: Instr,
        s2: State, k: nat)
    requires Mid(w, c, exits, s, c1, env1, s1, n)
    requires 0 <= s1.pc < |w.p| && w.p[s1.pc].op == i && Exec(w.ops, w.g, i, s1) == Run(s2)
    requires SlotsOk(c1.locals, k) && c.h <= k <= |s1.stack| && k <= |s2.stack| && s2.stack[..k] == s1.stack[..k]
    requires s2.tries == s1.tries
    ensures Mid(w, c, exits, s, Up(c1, |s2.stack|), env1, s2, n + 1)
  {
    ThenExec(w, Run(s), n, s1, i);
    assert forall i :: 0 <= i < k ==> s2.stack[i] == s1.stack[i] by {
      forall i | 0 <= i < k ensures s2.stack[i] == s1.stack[i] {
        assert s2.stack[..k][i] == s1.stack[..k][i];
      }
    }
    var c2 := Up(c1, |s2.stack|);
    assert HoistOk(c2);
    forall i | 0 <= i < |c2.loops| ensures LoopOk(c2, c2.loops[i]) {
      assert LoopOk(c1, c1.loops[i]) && LoopOk(c, c.loops[i]);
    }
  }

  /** The last instruction computes the expression's result from the values above `c.h`. */
  lemma MidResult(w: World, c: Ctx, exits: map<nat, int>, s: State, c1: Ctx, env1: Env, s1: State, n: nat, i: Instr,
        r: Result, res: Res)
    requires Mid(w, c, exits, s, c1, env1, s1, n) && c1.locals == c.locals && Flat(c, r) && |s1.stack| >= c.h
    requires 0 <= s1.pc < |w.p| && w.p[s1.pc].op == i && Exec(w.ops, w.g, i, s1) == PushRes(s1, s1.stack[..c.h], res)
    ensures Agrees(w, c, exits, r, s, Lift(res, env1), s1.pc + 1, Ran(w, Run(s), n + 1))
  {
    ThenExec(w, Run(s), n, s1, i);
  }

  /** The expression's value has just been left on top. */
  lemma MidDone(w: World, c: Ctx, exits: map<nat, int>, s: State, c1: Ctx, env1: Env, s1: State, n: nat, r: Result)
    requires Mid(w, c, exits, s, c1, env1, s1, n)
    requires r.locals == c1.locals && r.h == c1.h >= 1
    ensures Pushed(c, r, s, s1.stack[r.h - 1], env1, s1.heap, s1.pc, Ran(w, Run(s), n))
  {
  }

  /** As `MidExec`, for an instruction that leaves everything below `c.h` alone. */
  lemma MidFlat(w: World, c: Ctx, exits: map<nat, int>, s: State, c1: Ctx, env1: Env, s1: State, n: nat, i: Instr,
        s2: State)
    requires Mid(w, c, exits, s, c1, env1, s1, n) && c1.locals == c.locals
    requires 0 <= s1.pc < |w.p| && w.p[s1.pc].op == i && Exec(w.ops, w.g, i, s1) == Run(s2)
    requires c.h <= |s1.stack| && c.h <= |s2.stack| && s2.stack[..c.h] == s1.stack[..c.h] && s2.tries == s1.tries
    ensures Mid(w, c, exits, s, Up(c1, |s2.stack|), env1, s2, n + 1)
  {
    MidExec(w, c, exits, s, c1, env1, s1, n, i, s2, c.h);
  }

  /** Where a jump goes when `top` is on top of the stack. */
  function NextPc(i: Instr, pc: int, top: Value): int
    requires i.Jump? || i.Loop? || i.JumpIfFalse? || i.JumpIfTrue?
  {
    match i
    case Jump(d) => pc + 1 + d
    case Loop(d) => pc + 1 - d
    case JumpIfFalse(d) => if Truthy(top) then pc + 1 else pc + 1 + d
    case JumpIfTrue(d) => if Truthy(top) then pc + 1 + d else pc + 1
  }

  lemma MidGoto(w: World, c: Ctx, exits: map<nat, int>, s: State, c1: Ctx, env1: Env, s1: State, n: nat, i: Instr)
    returns (s2: State)
    requires Mid(w, c, exits, s, c1, env1, s1, n) && 0 <= s1.pc < |w.p| && w.p[s1.pc].op == i && |s1.stack| > 0
    requires i.Jump? || i.Loop? || i.JumpIfFalse? || i.JumpIfTrue?
    ensures s2 == s1.(pc := NextPc(i, s1.pc, s1.stack[|s1.stack| - 1])) && Mid(w, c, exits, s, c1, env1, s2, n + 1)
  {
    ThenExec(w, Run(s), n, s1, i);
    s2 := s1.(pc := NextPc(i, s1.pc, s1.stack[|s1.stack| - 1]));
  }

  lemma MidPop(w: World, c: Ctx, exits: map<nat, int>, s: State, c1: Ctx, env1: Env, s1: State, n: nat)
    returns (s2: State)
    requires Mid(w, c, exits, s, c1, env1, s1, n) && 0 <= s1.pc < |w.p| && w.p[s1.pc].op == Pop
    requires c1.locals == c.locals && |s1.stack| > c.h
    ensures s2 == State(s1.pc + 1, s1.stack[..|s1.stack| - 1], s1.tries, s1.heap)
    ensures Mid(w, c, exits, s, Drop(c1), env1, s2, n + 1)
  {
    s2 := State(s1.pc + 1, s1.stack[..|s1.stack| - 1], s1.tries, s1.heap);
    MidFlat(w, c, exits, s, c1, env1, s1, n, Pop, s2);
  }

  /** An instruction that pushes `v`, whatever it is. */
  lemma MidPush(w: World, c: Ctx, exits: map<nat, int>, s: State, c1: Ctx, env1: Env, s1: State, n: nat, i: Instr,
        v: Value, heap: Heap)
    returns (s2: State)
    requires Mid(w, c, exits, s, c1, env1, s1, n) && 0 <= s1.pc < |w.p| && w.p[s1.pc].op == i && c.h <= |s1.stack|
    requires Exec(w.ops, w.g, i, s1) == Run(State(s1.pc + 1, s1.stack + [v], s1.tries, heap))
    ensures s2 == State(s1.pc + 1, s1.stack + [v], s1.tries, heap)
    ensures Mid(w, c, exits, s, Up(c1, c1.h + 1), env1, s2, n + 1)
  {
    s2 := State(s1.pc + 1, s1.stack + [v], s1.tries, heap);
    MidExec(w, c, exits, s, c1, env1, s1, n, i, s2, c1.h);
  }

  /** The last part of an expression decides its outcome. */
  lemma MidAgrees(w: World, c: Ctx, exits: map<nat, int>, s: State, c1: Ctx, env1: Env, s1: State, n: nat, part: Result,
        r: Result, o: Outcome, end: int, m: nat)
    requires Mid(w, c, exits, s, c1, env1, s1, n) && Agrees(w, c1, exits, part, s1, o, end, Ran(w, Run(s1), m))
    requires r.locals == part.locals && r.h == part.h
    ensures Agrees(w, c, exits, r, s, o, end, Ran(w, Run(s), n + m))
  {
    if o.Norm? {
      ThenRun(w, Run(s), n, s1, m);
      KeptTrans(c.locals, c1.locals, s.stack, s1.stack, Ran(w, Run(s1), m).s.stack, |s.stack|, |s1.stack|);
    } else {
      MidLeft(w, c, exits, s, c1, env1, s1, n, o, m);
    }
  }

  /** An instruction raises; everything below `c.h` is still there. */
  lemma MidRaise(w: World, c: Ctx, exits: map<nat, int>, s: State, c1: Ctx, env1: Env, s1: State, n: nat, i: Instr,
        x: Value, s2: State)
    requires Mid(w, c, exits, s, c1, env1, s1, n)
    requires 0 <= s1.pc < |w.p| && w.p[s1.pc].op == i && Exec(w.ops, w.g, i, s1) == Raising(x, s2)
    requires c.h <= |s1.stack| && c.h <= |s2.stack| && s2.stack[..c.h] == s1.stack[..c.h] && s2.tries == s1.tries
    ensures Left(w, c, exits, s, Raised(x, env1, s2.heap), Ran(w, Run(s), n + 1))
  {
    ThenExec(w, Run(s), n, s1, i);
    assert forall k :: 0 <= k < c.h ==> s2.stack[k] == s1.stack[k] by {
      forall k | 0 <= k < c.h ensures s2.stack[k] == s1.stack[k] {
        assert s2.stack[..c.h][k] == s1.stack[..c.h][k];
      }
    }
    RelPrefix(c1.locals, env1, s1.stack, |c.locals|);
    assert c1.locals[..|c.locals|] == c.locals;
  }

  /** Storing the value on top into the slot of the `i`-th variable. */
  lemma MidStore(w: World, c: Ctx, exits: map<nat, int>, s: State, c1: Ctx, env1: Env, s1: State, n: nat, i: nat,
        r: Result)
    requires Mid(w, c, exits, s, c1, env1, s1, n) && c1.locals == c.locals && |s1.stack| == c.h + 1 && i < |c.locals|
    requires 0 <= s1.pc < |w.p| && w.p[s1.pc].op == StoreLocal(c.locals[i].val) && Flat(c, r)
    ensures i < |env1|
    ensures Pushed(c, r, s, s1.stack[c.h], SetVar(env1, i, s1.stack[c.h]), s1.heap, s1.pc + 1, Ran(w, Run(s), n + 1))
  {
    ThenExec(w, Run(s), n, s1, StoreLocal(c.locals[i].val));
    RelUpdate(c.locals, c.h, env1, s1.stack, i, s1.stack[c.h]);
    assert IsSlot(c.locals, c.locals[i].val);
  }

  /** A hoisted name has one slot, found the same way in the environment. */
  lemma MidHoisted(w: World, c: Ctx, exits: map<nat, int>, s: State, c1: Ctx, env1: Env, s1: State, n: nat, x: string)
    returns (i: nat)
    requires Mid(w, c, exits, s, c1, env1, s1, n) && c1.locals == c.locals && x in c.hoisted
    ensures i < |c.locals| && Newest(c.locals, x) == Some(i) == Newest(env1, x) && c.hoisted[x] == c.locals[i].val
  {
    SamePlace(c.locals, env1, x);
    i := Newest(c.locals, x).value;
  }

  /** A declaration at statement level: the value becomes the next local, a copy of it the result. */
  lemma MidDeclare(w: World, c: Ctx, exits: map<nat, int>, s: State, c1: Ctx, env1: Env, s1: State, n: nat, x: string,
        r: Result)
    requires Mid(w, c, exits, s, c1, env1, s1, n) && c1.locals == c.locals && |s1.stack| == c.h + 1
    requires 0 <= s1.pc < |w.p| && w.p[s1.pc].op == Dup
    requires r.locals == c.locals + [Named(x, c.h)] && r.h == c.h + 2
    ensures Pushed(c, r, s, s1.stack[c.h], env1 + [Named(x, s1.stack[c.h])], s1.heap, s1.pc + 1, Ran(w, Run(s), n + 1))
  {
    ThenExec(w, Run(s), n, s1, Dup);
  }

  /** After a declaration at statement level the next statement sees the new local. */
  lemma MidDeclared(w: World, c: Ctx, exits: map<nat, int>, s: State, x: string, r: Result, v: Value, env1: Env,
        heap: Heap, end: int, n: nat)
    returns (s1: State)
    requires CtxOk(c) && |s.stack| == c.h && ExitsOk(c, exits) && c.globals == w.g.names
    requires Pushed(c, r, s, v, env1, heap, end, Ran(w, Run(s), n))
    requires x !in c.hoisted && r.locals == c.locals + [Named(x, c.h)] && r.h == c.h + 2
    ensures Mid(w, c, exits, s, After(c, r), env1, s1, n) && s1 == Ran(w, Run(s), n).s
  {
    s1 := Ran(w, Run(s), n).s;
    var c1 := After(c, r);
    forall y | y in c1.hoisted
      ensures Newest(c1.locals, y).Some? && c1.locals[Newest(c1.locals, y).value].val == c1.hoisted[y]
    {
      NewestAppend(c.locals, Named(x, c.h), y);
    }
    forall i | 0 <= i < |c.loops| ensures LoopOk(c1, c.loops[i]) {
      assert LoopOk(c, c.loops[i]);
      assert c1.locals[..c.loops[i].visible] == c.locals[..c.loops[i].visible];
    }
  }

  /** Leaving a scope: the instruction discards exactly the slots opened since `c`. */
  lemma CloseValue(w: World, c: Ctx, s: State, r: Result, v: Value, env1: Env, heap: Heap, end: int, n: nat, count: nat,
        closed: Result)
    requires Pushed(c, r, s, v, env1, heap, end, Ran(w, Run(s), n)) && SlotsOk(c.locals, c.h) && |s.stack| == c.h
    requires c.locals <= r.locals && r.h == c.h + count + 1 && Flat(c, closed)
    requires 0 <= end < |w.p| && w.p[end].op == CloseScope(count)
    ensures Pushed(c, closed, s, v, Shrink(env1, |c.locals|), heap, end + 1, Ran(w, Run(s), n + 1))
  {
    var s1 := Ran(w, Run(s), n).s;
    ThenExec(w, Run(s), n, s1, CloseScope(count));
    RelPrefix(r.locals, env1, s1.stack, |c.locals|);
    assert r.locals[..|c.locals|] == c.locals;
  }

  /** Leaving a scope any other way: the inner bindings no longer matter. */
  lemma LeftScope(w: World, c: Ctx, exits: map<nat, int>, s: State, o: Outcome, cfg: Config, n: nat)
    requires Left(w, c, exits, s, o, cfg) && n >= |c.locals|
    ensures Left(w, c, exits, s, LeaveScope(o, n), cfg)
  {
  }

  /** An exit from the value of a `break` is an exit one loop further out. */
  lemma LeftSkip(w: World, c: Ctx, exits: map<nat, int>, s: State, o: Outcome, cfg: Config)
    requires |c.loops| > 0 && Left(w, c.(loops := c.loops[..|c.loops| - 1]), exits, s, o, cfg)
    ensures Left(w, c, exits, s, PassOne(o), cfg)
  {
  }

  /** The state after a jump to loop `l`, reached from half-way through an expression. */
  lemma MidArrive(w: World, c: Ctx, exits: map<nat, int>, s: State, c1: Ctx, env1: Env, s1: State, n: nat, l: LoopCtx,
        acc: Value, heap: Heap, pc: int, cfg: Config)
    requires Mid(w, c, exits, s, c1, env1, s1, n) && c1.locals == c.locals && c.h <= |s1.stack| && LoopOk(c, l)
    requires cfg == Run(State(pc, s1.stack[l.resultSlot := acc][..l.base], s1.tries, heap))
    ensures Arrived(c, l, pc, s, acc, env1, heap, cfg) && s1.stack[l.resultSlot] == s.stack[l.resultSlot]
  {
    var t := cfg.s.stack;
    forall i | 0 <= i < l.base && !IsSlot(c.locals, i) ensures t[i] == s.stack[l.resultSlot := acc][i] {
    }
    RelPrefix(c.locals, env1, s1.stack, l.visible);
    forall i | 0 <= i < l.visible ensures c.locals[i].val < l.base && t[c.locals[i].val] == env1[i].val {
      assert c.locals[..l.visible][i] == c.locals[i];
      assert IsSlot(c.locals, c.locals[i].val);
    }
  }

  // ----- scopes and loops -----

  function NullValues(n: nat): (r: seq<Value>)
    ensures |r| == n && forall i :: 0 <= i < n ==> r[i] == Null
  {
    seq(n, _ => Null)
  }

  lemma {:induction false} RunPrologue(w: World, cfg: Config, n: nat, s: State, c: Ctx, names: seq<string>,
        exits: map<nat, int>)
    requires Ran(w, cfg, n) == Run(s) && CodeAt(w.p, s.pc, Prologue(c, names), exits)
    ensures |Prologue(c, names)| == |names|
    ensures Ran(w, cfg, n + |names|) == Run(State(s.pc + |names|, s.stack + NullValues(|names|), s.tries, s.heap))
    decreases |names|
  {
    if names == [] {
      assert s.stack + NullValues(0) == s.stack;
    } else {
      var k := |names| - 1;
      var last := At(c, c.h + k, PushNull);
      SplitCode(w.p, s.pc, Prologue(c, names[..k]), last, exits);
      RunPrologue(w, cfg, n, s, c, names[..k], exits);
      var s1 := State(s.pc + k, s.stack + NullValues(k), s.tries, s.heap);
      OneCell(w.p, s.pc + k, c, c.h + k, PushNull, exits);
      ThenExec(w, cfg, n + k, s1, PushNull);
      assert s1.stack + [Null] == s.stack + NullValues(|names|);
    }
  }

  lemma {:induction false} NewestDistinct(locals: seq<Local>, h: nat, names: seq<string>, i: nat)
    requires i < |names| && forall j, k :: 0 <= j < k < |names| ==> names[j] != names[k]
    ensures Newest(locals + PrologueLocals(h, names), names[i]) == Some(|locals| + i)
  {
    var all := locals + PrologueLocals(h, names);
    assert all[|locals| + i].name == names[i];
  }

  /** Entering a scope: the prologue gives each hoisted name its slot. */
  lemma MidEnter(w: World, c: Ctx, exits: map<nat, int>, s: State, c1: Ctx, env1: Env, s1: State, n: nat,
        names: seq<string>)
    returns (s2: State)
    requires Mid(w, c, exits, s, c1, env1, s1, n) && CodeAt(w.p, s1.pc, Prologue(c1, names), exits)
    requires (forall j, k :: 0 <= j < k < |names| ==> names[j] != names[k]) && c.h <= c1.h && c1.h + |names| <= 256
    ensures Mid(w, c, exits, s, Enter(c1, names), env1 + Nulls(names), s2, n + |names|)
    ensures s2.pc == s1.pc + |names| && s2.heap == s1.heap && s2.stack[..|s1.stack|] == s1.stack
  {
    hide Later;
    RunPrologue(w, Run(s), n, s1, c1, names, exits);
    s2 := State(s1.pc + |names|, s1.stack + NullValues(|names|), s1.tries, s1.heap);
    EnterOk(w, c, exits, s, c1, env1, s1, names, s2);
  }

  lemma {:induction false} SlotMapAt(h: nat, names: seq<string>, i: nat)
    requires i < |names| && forall j, k :: 0 <= j < k < |names| ==> names[j] != names[k]
    ensures SlotMap(h, names)[names[i]] == U8(h + i)
    decreases |names|
  {
    var n := |names| - 1;
    if i < n {
      SlotMapAt(h, names[..n], i);
      assert names[..n][i] == names[i];
    }
  }

  lemma EnterHoists(c1: Ctx, names: seq<string>)
    requires (forall j, k :: 0 <= j < k < |names| ==> names[j] != names[k]) && c1.h + |names| <= 256
    ensures HoistOk(Enter(c1, names))
  {
    hide Prologue, SlotMap, PrologueLocals, Newest;
    var c2 := Enter(c1, names);
    forall x | x in c2.hoisted
      ensures Newest(c2.locals, x).Some? && c2.locals[Newest(c2.locals, x).value].val == c2.hoisted[x]
    {
      var i :| 0 <= i < |names| && names[i] == x;
      NewestDistinct(c1.locals, c1.h, names, i);
      SlotMapAt(c1.h, names, i);
    }
  }

  lemma EnterSlots(c1: Ctx, names: seq<string>)
    requires SlotsOk(c1.locals, c1.h) && c1.h + |names| <= 256
    ensures SlotsOk(Enter(c1, names).locals, Enter(c1, names).h)
    ensures forall k :: k < c1.h && !IsSlot(c1.locals, k) ==> !IsSlot(Enter(c1, names).locals, k)
  {
    hide PrologueLocals, SlotMap, Newest;
    var locals := Enter(c1, names).locals;
    forall i | 0 <= i < |locals|
      ensures i < |c1.locals| ==> locals[i].val == c1.locals[i].val
      ensures i >= |c1.locals| ==> locals[i].val == c1.h + i - |c1.locals|
    {
    }
  }

  lemma RelAppend(locals: seq<Local>, env: Env, stack: seq<Value>, locals': seq<Local>, env': Env, top: seq<Value>)
    requires Rel(locals, env, stack) && |locals'| == |env'|
    requires forall k :: 0 <= k < |locals'| ==>
      locals'[k].name == env'[k].name && |stack| <= locals'[k].val < |stack| + |top|
        && top[locals'[k].val - |stack|] == env'[k].val
    ensures Rel(locals + locals', env + env', stack + top)
  {
    forall i | 0 <= i < |locals + locals'|
      ensures (locals + locals')[i].name == (env + env')[i].name
      ensures (locals + locals')[i].val < |stack + top|
      ensures (stack + top)[(locals + locals')[i].val] == (env + env')[i].val
    {
      if i >= |locals| {
        var k := i - |locals|;
        assert (locals + locals')[i] == locals'[k] && (env + env')[i] == env'[k];
      }
    }
  }

  lemma PrologueSlots(h: nat, names: seq<string>, k: nat)
    requires k < |names| && h + |names| <= 256
    ensures PrologueLocals(h, names)[k].name == Nulls(names)[k].name
    ensures PrologueLocals(h, names)[k].val == h + k && Nulls(names)[k].val == Null
  {
    hide PrologueLocals, Nulls;
  }

  lemma EnterRel(c1: Ctx, env1: Env, stack: seq<Value>, names: seq<string>)
    requires Rel(c1.locals, env1, stack) && |stack| == c1.h && c1.h + |names| <= 256
    ensures Rel(Enter(c1, names).locals, env1 + Nulls(names), stack + NullValues(|names|))
  {
    hide PrologueLocals, SlotMap, Newest, Nulls, NullValues, Rel, U8;
    forall k | 0 <= k < |names|
      ensures PrologueLocals(c1.h, names)[k].name == Nulls(names)[k].name
      ensures PrologueLocals(c1.h, names)[k].val == c1.h + k && Nulls(names)[k].val == Null
    {
      PrologueSlots(c1.h, names, k);
    }
    RelAppend(c1.locals, env1, stack, PrologueLocals(c1.h, names), Nulls(names), NullValues(|names|));
  }

  lemma EnterOk(w: World, c: Ctx, exits: map<nat, int>, s: State, c1: Ctx, env1: Env, s1: State, names: seq<string>,
        s2: State)
    requires CtxOk(c) && |s.stack| == c.h && Ready(w, c1, exits, env1, s1) && Later(c, s, c1, s1) && c.h <= c1.h
    requires (forall j, k :: 0 <= j < k < |names| ==> names[j] != names[k]) && c1.h + |names| <= 256
    requires s2 == State(s1.pc + |names|, s1.stack + NullValues(|names|), s1.tries, s1.heap)
    ensures Ready(w, Enter(c1, names), exits, env1 + Nulls(names), s2) && Later(c, s, Enter(c1, names), s2)
  {
    hide PrologueLocals, SlotMap, Newest, HoistOk, Nulls, NullValues, Rel, SlotsOk, Kept, LoopOk, U8;
    var c2 := Enter(c1, names);
    EnterHoists(c1, names);
    EnterSlots(c1, names);
    EnterRel(c1, env1, s1.stack, names);
    forall i | 0 <= i < |c2.loops| ensures LoopOk(c2, c2.loops[i]) {
      EnterLoop(c1, names, c2.loops[i]);
    }
    EnterLater(c, s, c1, s1, names, s2);
  }

  lemma EnterLoop(c1: Ctx, names: seq<string>, l: LoopCtx)
    requires SlotsOk(c1.locals, c1.h) && c1.h + |names| <= 256 && LoopOk(c1, l)
    ensures LoopOk(Enter(c1, names), l)
  {
    hide PrologueLocals, SlotMap;
    EnterSlots(c1, names);
    assert Enter(c1, names).locals[..l.visible] == c1.locals[..l.visible];
  }

  lemma EnterLater(c: Ctx, s: State, c1: Ctx, s1: State, names: seq<string>, s2: State)
    requires Later(c, s, c1, s1) && c1.h + |names| <= 256 && |s.stack| <= c1.h
    requires s2 == State(s1.pc + |names|, s1.stack + NullValues(|names|), s1.tries, s1.heap)
    ensures Later(c, s, Enter(c1, names), s2)
  {
    hide PrologueLocals, SlotMap, NullValues;
    var locals := Enter(c1, names).locals;
    forall i | |c.locals| <= i < |locals| ensures locals[i].val >= |s.stack| {
      if i < |c1.locals| {
        assert locals[i] == c1.locals[i];
      }
    }
  }

  /** The code that folds a value into the loop's result. */
  lemma RunFold(w: World, cfg: Config, n: nat, s: State, c: Ctx, h: nat, isArray: bool, slot: nat, exits: map<nat, int>)
    returns (s2: State)
    requires Ran(w, cfg, n) == Run(s) && CodeAt(w.p, s.pc, Fold(c, h, isArray, slot), exits) && slot + 1 < |s.stack|
    ensures Ran(w, cfg, n + |Fold(c, h, isArray, slot)|) == Run(s2) && s2.tries == s.tries
    ensures s2.pc == s.pc + |Fold(c, h, isArray, slot)|
    ensures var r := Collect(w.ops, isArray, s.stack[slot], s.stack[|s.stack| - 1], s.heap);
            s2.stack == s.stack[..|s.stack| - 1][slot := r.0] && s2.heap == r.1
  {
    var top := |s.stack| - 1;
    if isArray {
      OneCell(w.p, s.pc, c, h, IterAppend(slot), exits);
      ThenExec(w, cfg, n, s, IterAppend(slot));
      s2 := Ran(w, cfg, n + 1).s;
    } else {
      SplitCode(w.p, s.pc, At(c, h, StoreLocal(slot)), At(c, h, Pop), exits);
      OneCell(w.p, s.pc, c, h, StoreLocal(slot), exits);
      OneCell(w.p, s.pc + 1, c, h, Pop, exits);
      ThenExec(w, cfg, n, s, StoreLocal(slot));
      var s1 := State(s.pc + 1, s.stack[slot := s.stack[top]], s.tries, s.heap);
      ThenExec(w, cfg, n + 1, s1, Pop);
      s2 := Ran(w, cfg, n + 2).s;
      assert s1.stack[..top] == s.stack[..top][slot := s.stack[top]];
    }
  }

  /** A state at the head of a loop, with everything the loop knows about its result slot. */
  ghost predicate AtHead(w: World, c: Ctx, exits: map<nat, int>, s: State, head: Ctx, env1: Env, s1: State, n: nat,
        slot: nat)
  {
    && Mid(w, c, exits, s, head, env1, s1, n) && c.h <= slot < head.h && !IsSlot(head.locals, slot)
    && head.loops == c.loops && head.nloops == c.nloops
  }

  /** The end of a normal iteration. */
  lemma HeadFold(w: World, c: Ctx, exits: map<nat, int>, s: State, head: Ctx, env0: Env, s0: State, n0: nat, slot: nat,
                 c1: Ctx, env1: Env, s1: State, n: nat, cc: Ctx, h: nat, isArray: bool, exits': map<nat, int>)
                   returns (s2: State)
    requires AtHead(w, c, exits, s, head, env0, s0, n0, slot) && Mid(w, c, exits, s, c1, env1, s1, n)
    requires head.locals <= c1.locals && |s1.stack| > head.h
    requires CodeAt(w.p, s1.pc, Fold(cc, h, isArray, slot), exits')
    ensures Ran(w, Run(s), n + |Fold(cc, h, isArray, slot)|) == Run(s2) && s2.pc == s1.pc + |Fold(cc, h, isArray, slot)|
    ensures s2.tries == s1.tries && |s2.stack| == |s1.stack| - 1
    ensures var r := Collect(w.ops, isArray, s1.stack[slot], s1.stack[|s1.stack| - 1], s1.heap);
            s2.stack[slot] == r.0 && s2.heap == r.1
    ensures forall i :: 0 <= i < |s2.stack| && i != slot ==> s2.stack[i] == s1.stack[i]
    ensures forall s3: State :: s3.stack == s2.stack[..head.h] && s3.tries == s2.tries ==>
              Ready(w, head, exits, Shrink(env1, |head.locals|), s3) && Later(c, s, head, s3)
  {
    s2 := RunFold(w, Run(s), n, s1, cc, h, isArray, slot, exits');
    forall s3: State | s3.stack == s2.stack[..head.h] && s3.tries == s2.tries
      ensures Ready(w, head, exits, Shrink(env1, |head.locals|), s3) && Later(c, s, head, s3)
    {
      HeadReady(w, c, exits, s, head, env0, s0, c1, env1, s1, slot, s3);
    }
  }

  lemma HeadReady(w: World, c: Ctx, exits: map<nat, int>, s: State, head: Ctx, env0: Env, s0: State,
                  c1: Ctx, env1: Env, s1: State, slot: nat, s3: State)
    requires CtxOk(c) && |s.stack| == c.h && Ready(w, head, exits, env0, s0) && Later(c, s, head, s0)
    requires Ready(w, c1, exits, env1, s1) && Later(c, s, c1, s1) && head.locals <= c1.locals
    requires c.h <= slot < head.h && !IsSlot(head.locals, slot) && |s1.stack| >= head.h == |s3.stack|
    requires s3.tries == s1.tries
    requires forall i :: 0 <= i < head.h && i != slot ==> s3.stack[i] == s1.stack[i]
    ensures Ready(w, head, exits, Shrink(env1, |head.locals|), s3) && Later(c, s, head, s3)
  {
    forall i | 0 <= i < |head.locals| ensures s3.stack[head.locals[i].val] == env1[i].val
      && head.locals[i].name == env1[i].name {
      assert head.locals[i] == c1.locals[i];
      assert IsSlot(head.locals, head.locals[i].val);
    }
  }

  /** `break` or `continue` of the loop itself, seen from its head. */
  lemma HeadArrived(w: World, c: Ctx, exits: map<nat, int>, s: State, head: Ctx, env0: Env, s0: State, n0: nat,
        slot: nat,
                    c1: Ctx, env1: Env, s1: State, n: nat, inner: Ctx, l: LoopCtx, pc: int, acc: Value, env2: Env,
                      heap: Heap, m: nat) returns (s2: State)
    requires AtHead(w, c, exits, s, head, env0, s0, n0, slot) && Mid(w, c, exits, s, c1, env1, s1, n)
    requires inner.locals == c1.locals && head.locals <= c1.locals && head.h <= |s1.stack|
    requires forall i :: |head.locals| <= i < |c1.locals| ==> c1.locals[i].val >= head.h
    requires l.resultSlot == slot && l.base == head.h && l.visible == |head.locals|
    requires Arrived(inner, l, pc, s1, acc, env2, heap, Ran(w, Run(s1), m))
    ensures AtHead(w, c, exits, s, head, Shrink(env2, |head.locals|), s2, n + m, slot)
    ensures s2.pc == pc && s2.heap == heap && s2.stack[slot] == acc
    ensures forall i :: 0 <= i < head.h && i != slot && !IsSlot(c1.locals, i) ==> s2.stack[i] == s1.stack[i]
  {
    ThenRun(w, Run(s), n, s1, m);
    s2 := Ran(w, Run(s1), m).s;
    assert c1.locals[..l.visible] == head.locals;
    assert !IsSlot(c1.locals, slot);
    forall i | 0 <= i < |s.stack| && !IsSlot(c.locals, i) ensures s2.stack[i] == s.stack[i] {
      assert !IsSlot(c1.locals, i);
    }
  }

  /** Any other exit from inside a loop, seen from outside it. */
  lemma Unloop(w: World, c1: Ctx, exits: map<nat, int>, s1: State, inner: Ctx, l: LoopCtx, end: int, o: Outcome,
        cfg: Config)
    requires inner.locals == c1.locals && inner.loops == c1.loops + [l] && l.id == c1.nloops
    requires forall i :: 0 <= i < |c1.loops| ==> LoopOk(c1, c1.loops[i])
    requires Left(w, inner, exits[l.id := end], s1, o, cfg) && !((o.Brk? || o.Cont?) && o.n == 0)
    ensures Left(w, c1, exits, s1, OneLess(o), cfg)
  {
    if o.Brk? {
      assert Target(inner, o.n) == Target(c1, o.n - 1);
      assert LoopOk(c1, Target(c1, o.n - 1));
    }
    if o.Cont? {
      assert Target(inner, o.n) == Target(c1, o.n - 1);
    }
  }

  /** What an exit from inside the loop's condition or body, entered at `s1`, leads to: the next
      iteration, the end of the loop, or an exit from the whole expression. */
  lemma ExitTurn(w: World, c: Ctx, exits: map<nat, int>, s: State, head: Ctx, env0: Env, s0: State, n0: nat, slot: nat,
                 c1: Ctx, env1: Env, s1: State, n: nat, inner: Ctx, l: LoopCtx, end: int, o: Outcome, m: nat)
                   returns (s2: State)
    requires AtHead(w, c, exits, s, head, env0, s0, n0, slot) && Mid(w, c, exits, s, c1, env1, s1, n)
    requires inner.locals == c1.locals && head.locals <= c1.locals && head.h <= |s1.stack|
    requires inner.loops == c1.loops + [l] && l.id == c1.nloops
    requires forall i :: |head.locals| <= i < |c1.locals| ==> c1.locals[i].val >= head.h
    requires l.resultSlot == slot && l.base == head.h && l.visible == |head.locals|
    requires Left(w, inner, exits[l.id := end], s1, o, Ran(w, Run(s1), m))
    ensures match IterationEnd(w.ops, l.isArray, o, s1.stack[slot], |head.locals|)
      case Again(env', heap', acc') =>
        AtHead(w, c, exits, s, head, env', s2, n + m, slot) && s2.pc == l.start && s2.heap == heap'
          && s2.stack[slot] == acc'
        && forall i :: 0 <= i < head.h && i != slot && !IsSlot(c1.locals, i) ==> s2.stack[i] == s1.stack[i]
      case Leave(o') =>
        if o'.Norm? then
          AtHead(w, c, exits, s, head, o'.env, s2, n + m, slot) && s2.pc == end && s2.heap == o'.heap
            && s2.stack[slot] == o'.v
        else Left(w, c, exits, s, o', Ran(w, Run(s), n + m))
  {
    hide Steps, Ran, Rel, Kept, Pushed, Thrown, Later, CtxOk, Arrived;
    s2 := s1;
    if o.Brk? && o.n == 0 {
      var r := CollectBreak(w.ops, l.isArray, s1.stack[slot], o.arg, o.heap);
      assert Target(inner, 0) == l;
      s2 := HeadArrived(w, c, exits, s, head, env0, s0, n0, slot, c1, env1, s1, n, inner, l, end, r.0, o.env, r.1, m);
    } else if o.Cont? && o.n == 0 {
      assert Target(inner, 0) == l;
      s2 := HeadArrived(w, c, exits, s, head, env0, s0, n0, slot, c1, env1, s1, n, inner, l, l.start,
                        if l.isArray then s1.stack[slot] else Null, o.env, o.heap, m);
    } else {
      LoopsOk(w, c, exits, s, c1, env1, s1, n);
      Unloop(w, c1, exits, s1, inner, l, end, o, Ran(w, Run(s1), m));
      MidLeft(w, c, exits, s, c1, env1, s1, n, OneLess(o), m);
      HeadLocals(w, c, exits, s, head, env0, s0, n0);
      LeftScope(w, c, exits, s, OneLess(o), Ran(w, Run(s), n + m), |head.locals|);
    }
  }

  lemma LoopsOk(w: World, c: Ctx, exits: map<nat, int>, s: State, c1: Ctx, env1: Env, s1: State, n: nat)
    requires Mid(w, c, exits, s, c1, env1, s1, n)
    ensures forall i :: 0 <= i < |c1.loops| ==> LoopOk(c1, c1.loops[i])
  {
  }

  lemma HeadLocals(w: World, c: Ctx, exits: map<nat, int>, s: State, head: Ctx, env0: Env, s0: State, n0: nat)
    requires Mid(w, c, exits, s, head, env0, s0, n0)
    ensures |c.locals| <= |head.locals|
  {
  }

  /** Inside a loop: the state of the loop body, with the loop's exit known. */
  lemma InsideLoop(w: World, c: Ctx, exits: map<nat, int>, s: State, c1: Ctx, env1: Env, s1: State, n: nat, inner: Ctx,
        l: LoopCtx, end: int)
    requires Mid(w, c, exits, s, c1, env1, s1, n) && inner == c1.(loops := c1.loops + [l], nloops := c1.nloops + 1)
    requires l.id == c1.nloops && l.resultSlot < l.base <= c1.h && !IsSlot(c1.locals, l.resultSlot)
    requires l.visible <= |c1.locals| && SlotsOk(c1.locals[..l.visible], l.base)
    ensures Ready(w, inner, exits[l.id := end], env1, s1)
  {
    forall i | 0 <= i < |inner.loops| ensures LoopOk(inner, inner.loops[i]) {
      if i < |c1.loops| {
        assert LoopOk(c1, c1.loops[i]);
      }
    }
    assert HoistOk(inner);
  }

  /** `Unwind` and a jump: the stack is cut and control moves. */
  lemma JumpOut(w: World, cfg: Config, n: nat, s1: State, base: nat, i: Instr)
    requires Ran(w, cfg, n) == Run(s1) && 0 <= s1.pc && s1.pc + 1 < |w.p| && 0 < base <= |s1.stack|
    requires w.p[s1.pc].op == Unwind(base) && w.p[s1.pc + 1].op == i && (i.Jump? || i.Loop?)
    ensures Ran(w, cfg, n + 2) == Run(State(NextPc(i, s1.pc + 1, Null), s1.stack[..base], s1.tries, s1.heap))
  {
    ThenExec(w, cfg, n, s1, Unwind(base));
    ThenExec(w, cfg, n + 1, State(s1.pc + 1, s1.stack[..base], s1.tries, s1.heap), i);
  }

  /** Store the value on top into the result of loop `l`, unwind, and jump to `pc`. */
  lemma StoreAndGo(w: World, c: Ctx, exits: map<nat, int>, s: State, c1: Ctx, env1: Env, s1: State, n: nat, l: LoopCtx,
        h: nat, i: Instr, pc: int)
    returns (m: nat)
    requires Mid(w, c, exits, s, c1, env1, s1, n) && c1.locals == c.locals && |s1.stack| == c.h + 1 && LoopOk(c, l)
    requires CodeAt(w.p, s1.pc, Fold(c, h, l.isArray, l.resultSlot), exits)
    requires var at := s1.pc + |Fold(c, h, l.isArray, l.resultSlot)|;
      0 <= at && at + 1 < |w.p| && w.p[at].op == Unwind(l.base) && w.p[at + 1].op == i && (i.Jump? || i.Loop?)
      && NextPc(i, at + 1, Null) == pc
    ensures l.resultSlot < |s.stack|
      && var r := Collect(w.ops, l.isArray, s.stack[l.resultSlot], s1.stack[c.h], s1.heap);
      Arrived(c, l, pc, s, r.0, env1, r.1, Ran(w, Run(s), m)) && m > n
  {
    hide Later, Kept, Rel, HoistOk, Steps, Ran;
    var s2 := RunFold(w, Run(s), n, s1, c, h, l.isArray, l.resultSlot, exits);
    var k := |Fold(c, h, l.isArray, l.resultSlot)|;
    JumpOut(w, Run(s), n + k, s2, l.base, i);
    m := n + k + 2;
    var r := Collect(w.ops, l.isArray, s1.stack[l.resultSlot], s1.stack[c.h], s1.heap);
    assert s2.stack[..l.base] == s1.stack[l.resultSlot := r.0][..l.base];
    MidArrive(w, c, exits, s, c1, env1, s1, n, l, r.0, r.1, pc, Ran(w, Run(s), m));
  }

  // ----- try -----

  /** The body of a `try` gave a value: the frame is popped and control skips the handler. */
  lemma TryValue(w: World, c: Ctx, c': Ctx, s: State, s1: State, f: TryFrame, a: Result, r: Result, v: Value, env: Env,
        heap: Heap, at: int, m: nat, dist: int)
    requires Ran(w, Run(s), 1) == Run(s1) && s1 == State(s.pc + 1, s.stack, s.tries + [f], s.heap)
    requires c'.locals == c.locals
    requires Pushed(c', a, s1, v, env, heap, at, Ran(w, Run(s1), m)) && r.locals == a.locals && r.h == a.h
    requires 0 <= at && at + 1 < |w.p| && w.p[at].op == PopTry && w.p[at + 1].op == Jump(dist)
    ensures Pushed(c, r, s, v, env, heap, at + 2 + dist, Ran(w, Run(s), m + 3))
  {
    hide Rel, Kept;
    ThenRun(w, Run(s), 1, s1, m);
    var t := Ran(w, Run(s1), m).s;
    ThenExec(w, Run(s), 1 + m, t, PopTry);
    assert t.tries[..|t.tries| - 1] == s.tries;
    ThenExec(w, Run(s), 2 + m, State(at + 1, t.stack, s.tries, t.heap), Jump(dist));
  }

  /** The body of a `try` raised: the machine is at the handler with the error on top. */
  lemma TryCaught(w: World, c: Ctx, c': Ctx, exits: map<nat, int>, env: Env, s: State, s1: State, f: TryFrame, x: Value,
        env1: Env, heap: Heap, m: nat)
    returns (s2: State)
    requires Ready(w, c, exits, env, s) && c' == c.(tries := c'.tries)
    requires Ran(w, Run(s), 1) == Run(s1) && s1 == State(s.pc + 1, s.stack, s.tries + [f], s.heap) && f.len == |s.stack|
    requires Thrown(c', s1, x, env1, heap, Ran(w, Run(s1), m))
    ensures s2.pc == f.catchPc && s2.heap == heap && |s2.stack| == c.h + 1 && s2.stack[c.h] == x
    ensures Mid(w, c, exits, s, Up(c, c.h + 1), Shrink(env1, |env|), s2, m + 2)
  {
    hide Later, HoistOk;
    ThenRun(w, Run(s), 1, s1, m);
    var t := Ran(w, Run(s1), m);
    s2 := State(f.catchPc, t.s.stack[..c.h] + [x], s.tries, heap);
    assert t.s.tries[..|t.s.tries| - 1] == s.tries;
    assert Step(w.ops, w.g, w.p, t) == Run(s2);
    StepsAdd(w.ops, w.g, w.p, Run(s), 1 + m, 1);
    assert Steps(w.ops, w.g, w.p, t, 1) == Steps(w.ops, w.g, w.p, Run(s2), 0);
    CaughtReady(w, c, exits, env, s, Shrink(env1, |env|), t.s.stack, s2);
  }

  lemma CaughtReady(w: World, c: Ctx, exits: map<nat, int>, env: Env, s: State, env1: Env, stack: seq<Value>, s2: State)
    requires Ready(w, c, exits, env, s) && c.h <= |stack| && Rel(c.locals, env1, stack)
    requires Kept(c.locals, s.stack, stack, c.h)
    requires |s2.stack| == c.h + 1 && s2.stack[..c.h] == stack[..c.h] && s2.tries == s.tries
    ensures Ready(w, Up(c, c.h + 1), exits, env1, s2) && Later(c, s, Up(c, c.h + 1), s2)
  {
    var c2 := Up(c, c.h + 1);
    forall i | 0 <= i < c.h ensures s2.stack[i] == stack[i] {
      assert s2.stack[..c.h][i] == stack[..c.h][i];
    }
    forall i | 0 <= i < |c2.loops| ensures LoopOk(c2, c2.loops[i]) {
      assert LoopOk(c, c.loops[i]);
    }
    assert HoistOk(c2);
  }

  /** The value on top becomes a named local. */
  lemma MidBind(w: World, c: Ctx, exits: map<nat, int>, s: State, c1: Ctx, env1: Env, s1: State, n: nat, x: string,
        c2: Ctx)
    requires Mid(w, c, exits, s, c1, env1, s1, n) && c1.locals == c.locals && c1.h == c.h + 1
    requires c2.locals == c.locals + [Named(x, c.h)] && c2.h == c1.h && c2.hoisted == map[]
    requires c2.loops == c1.loops && c2.nloops == c1.nloops && c2.globals == c1.globals
    ensures Mid(w, c, exits, s, c2, env1 + [Named(x, s1.stack[c.h])], s1, n)
  {
    forall i | 0 <= i < |c2.loops| ensures LoopOk(c2, c2.loops[i]) {
      assert LoopOk(c, c.loops[i]);
      assert c2.locals[..c.loops[i].visible] == c.locals[..c.loops[i].visible];
    }
  }

  /** Dropping the value above the height of a loop's head. */
  lemma PopToHead(w: World, c: Ctx, exits: map<nat, int>, s: State, head: Ctx, env0: Env, s0: State, n0: nat, slot: nat,
        c1: Ctx, env1: Env, s1: State, n: nat)
    returns (s2: State)
    requires AtHead(w, c, exits, s, head, env0, s0, n0, slot)
    requires Mid(w, c, exits, s, c1, env1, s1, n) && c1 == Up(head, head.h + 1)
    requires 0 <= s1.pc < |w.p| && w.p[s1.pc].op == Pop
    ensures s2 == State(s1.pc + 1, s1.stack[..head.h], s1.tries, s1.heap)
    ensures AtHead(w, c, exits, s, head, env1, s2, n + 1, slot) && s2.stack[slot] == s1.stack[slot]
  {
    s2 := State(s1.pc + 1, s1.stack[..head.h], s1.tries, s1.heap);
    MidExec(w, c, exits, s, c1, env1, s1, n, Pop, s2, head.h);
    assert Up(c1, |s2.stack|) == head;
  }

  lemma EnvLength(w: World, c: Ctx, exits: map<nat, int>, s: State, c1: Ctx, env1: Env, s1: State, n: nat)
    requires Mid(w, c, exits, s, c1, env1, s1, n)
    ensures |env1| == |c1.locals| && |s1.stack| == c1.h
  {
  }

  /** Inside the loop whose head this is. */
  lemma HeadInside(w: World, c: Ctx, exits: map<nat, int>, s: State, head: Ctx, env1: Env, s1: State, n: nat, slot: nat,
        inner: Ctx, l: LoopCtx, end: int)
    requires AtHead(w, c, exits, s, head, env1, s1, n, slot)
    requires inner == head.(loops := head.loops + [l], nloops := head.nloops + 1)
    requires l.id == head.nloops && l.resultSlot == slot && l.base == head.h && l.visible == |head.locals|
    ensures Ready(w, inner, exits[l.id := end], env1, s1)
  {
    hide HoistOk, Rel, Later, Kept, Ready;
    HeadSlots(w, c, exits, s, head, env1, s1, n);
    assert head.locals[..|head.locals|] == head.locals;
    InsideLoop(w, c, exits, s, head, env1, s1, n, inner, l, end);
  }

  lemma HeadSlots(w: World, c: Ctx, exits: map<nat, int>, s: State, head: Ctx, env1: Env, s1: State, n: nat)
    requires Mid(w, c, exits, s, head, env1, s1, n)
    ensures SlotsOk(head.locals, head.h)
  {
  }

  /** Only the pc changes at the head of a loop. */
  lemma HeadGoto(w: World, c: Ctx, exits: map<nat, int>, s: State, head: Ctx, env1: Env, s1: State, n: nat, slot: nat,
        pc: int)
    requires AtHead(w, c, exits, s, head, env1, s1, n, slot) && Ran(w, Run(s), n + 1) == Run(s1.(pc := pc))
    ensures AtHead(w, c, exits, s, head, env1, s1.(pc := pc), n + 1, slot)
  {
    hide Rel, Kept, HoistOk;
  }

  /** The state outside the loop, with the iteration variables in place. */
  function Varied(head: Ctx, vars: seq<Local>): Ctx {
    head.(locals := head.locals + vars, h := head.h + |vars|, hoisted := map[], scopeBase := |head.locals|)
  }

  /** Fresh iteration variables on top of the stack. */
  lemma MidVars(w: World, c: Ctx, exits: map<nat, int>, s: State, head: Ctx, env1: Env, s1: State, n: nat, slot: nat,
                vars: seq<Local>, vals: Env, s2: State)
    requires AtHead(w, c, exits, s, head, env1, s1, n, slot) && Ran(w, Run(s), n + 1) == Run(s2)
    requires |vars| == |vals| && s2.tries == s1.tries && |s2.stack| == head.h + |vars| && s2.stack[..head.h] == s1.stack
    requires forall i :: 0 <= i < |vars| ==>
      vars[i].name == vals[i].name && vars[i].val == head.h + i && s2.stack[head.h + i] == vals[i].val
    ensures Mid(w, c, exits, s, Varied(head, vars), env1 + vals, s2, n + 1)
    ensures SlotsOk(Varied(head, vars).locals, head.h + |vars|)
  {
    hide HoistOk;
    var v := Varied(head, vars);
    forall i | 0 <= i < head.h ensures s2.stack[i] == s1.stack[i] {
      assert s2.stack[..head.h][i] == s1.stack[i];
    }
    VarsSlots(head, vars);
    VarsRel(head, env1, s1, vars, vals, s2);
    VarsHoist(v);
    forall i | 0 <= i < |v.loops| ensures LoopOk(v, v.loops[i]) {
      assert LoopOk(head, head.loops[i]);
      assert v.locals[..v.loops[i].visible] == head.locals[..v.loops[i].visible];
    }
  }

  lemma VarsHoist(v: Ctx)
    requires v.hoisted == map[]
    ensures HoistOk(v)
  {
  }

  lemma VarsSlots(head: Ctx, vars: seq<Local>)
    requires SlotsOk(head.locals, head.h) && forall i :: 0 <= i < |vars| ==> vars[i].val == head.h + i
    ensures SlotsOk(head.locals + vars, head.h + |vars|)
    ensures forall k :: k < head.h && !IsSlot(head.locals, k) ==> !IsSlot(head.locals + vars, k)
  {
    var all := head.locals + vars;
    forall i | 0 <= i < |all|
      ensures i < |head.locals| ==> all[i].val == head.locals[i].val
      ensures i >= |head.locals| ==> all[i].val == head.h + i - |head.locals|
    {
    }
  }

  lemma VarsRel(head: Ctx, env1: Env, s1: State, vars: seq<Local>, vals: Env, s2: State)
    requires Rel(head.locals, env1, s1.stack) && |s1.stack| == head.h && |vars| == |vals|
    requires |s2.stack| == head.h + |vars| && s2.stack[..head.h] == s1.stack
    requires forall i :: 0 <= i < |vars| ==>
      vars[i].name == vals[i].name && vars[i].val == head.h + i && s2.stack[head.h + i] == vals[i].val
    ensures Rel(head.locals + vars, env1 + vals, s2.stack)
  {
    hide Rel;
    RelAppend(head.locals, env1, s1.stack, vars, vals, s2.stack[head.h..]);
    assert s1.stack + s2.stack[head.h..] == s2.stack;
  }
}
