/** Three programs and the code they become: the tracker lagging behind the stack at a `break`, a `continue`
    out of a `try` that goes wrong, and a `break` out of a `try` that does no harm. */
module Samples {
  import opened Ast
  import opened Wrappers
  import opened Meaning
  import opened Machine
  import opened Lowering
  import opened SimulationBase
  import opened Correctness

  // ----- code as instructions with their tracked heights -----

  type Mark = (Instr, nat)

  function Marks(code: Code): (r: seq<Mark>)
    ensures |r| == |code| && forall i :: 0 <= i < |r| ==> r[i] == (code[i].op, code[i].h)
  {
    seq(|code|, i requires 0 <= i < |code| => (code[i].op, code[i].h))
  }

  lemma Joined(a: Code, b: Code)
    ensures Marks(a + b) == Marks(a) + Marks(b)
  {
  }

  lemma OneMark(c: Ctx, h: nat, op: Instr)
    ensures Marks(At(c, h, op)) == [(op, h)] && Marks([]) == []
  {
  }

  /** The exits of loop `id` patched, where the loop's code ends `n` instructions from here. */
  function Retarget(ms: seq<Mark>, id: nat, n: int): (r: seq<Mark>)
    ensures |r| == |ms|
    ensures forall i :: 0 <= i < |r| ==> r[i] == if ms[i].0 == Hole(id) then (Jump(n - i - 1), ms[i].1) else ms[i]
  {
    seq(|ms|, i requires 0 <= i < |ms| => if ms[i].0 == Hole(id) then (Jump(n - i - 1), ms[i].1) else ms[i])
  }

  function Patched(ms: seq<Mark>, id: nat): seq<Mark> {
    Retarget(ms, id, |ms|)
  }

  lemma RetargetParts(a: seq<Mark>, b: seq<Mark>, id: nat, n: int)
    ensures Retarget(a + b, id, n) == Retarget(a, id, n) + Retarget(b, id, n - |a|)
  {
  }

  /** A list without exits of `id`. */
  lemma Same(ms: seq<Mark>, id: nat, n: int)
    requires forall i :: 0 <= i < |ms| ==> ms[i].0 != Hole(id)
    ensures Retarget(ms, id, n) == ms
  {
  }

  lemma PatchMarks(code: Code, pos: nat, id: nat)
    ensures Marks(Patch(code, pos, id, pos + |code|)) == Patched(Marks(code), id)
  {
  }

  /** The code `p` has these instructions at `at`. */
  ghost predicate Has(p: Code, at: nat, ms: seq<Mark>) {
    at + |ms| <= |p| && forall k :: 0 <= k < |ms| ==> (p[at + k].op, p[at + k].h) == ms[k]
  }

  lemma WholeHas(p: Code)
    ensures Has(p, 0, Marks(p))
  {
  }

  lemma Parts(p: Code, at: nat, a: seq<Mark>, b: seq<Mark>)
    requires Has(p, at, a + b)
    ensures Has(p, at, a) && Has(p, at + |a|, b)
  {
    assert forall k :: 0 <= k < |a| ==> (a + b)[k] == a[k];
    forall k | 0 <= k < |b| ensures (p[at + |a| + k].op, p[at + |a| + k].h) == b[k] {
      assert (a + b)[|a| + k] == b[k];
      assert (p[at + (|a| + k)].op, p[at + (|a| + k)].h) == (a + b)[|a| + k];
    }
  }

  lemma HasAt(p: Code, at: nat, ms: seq<Mark>, k: nat)
    requires Has(p, at, ms) && k < |ms|
    ensures at + k < |p| && p[at + k].op == ms[k].0 && p[at + k].h == ms[k].1
  {
  }

  /** Where the parts of a loop stand. */
  lemma LoopHas(p: Code, at: nat, a: seq<Mark>, b: seq<Mark>, h: nat, result: nat, id: nat)
    requires Has(p, at, Patched(LoopMarks(a, b, h, result), id))
    ensures Has(p, at, Retarget(a, id, |a| + |b| + 6))
    ensures Has(p, at + |a|, [(JumpIfFalse(|b| + 4), h + 1), (Pop, h + 1)])
    ensures Has(p, at + |a| + 2, Retarget(b, id, |b| + 4))
    ensures Has(p, at + |a| + 2 + |b|, [(StoreLocal(result), h + 1), (Pop, h + 1), (Loop(|a| + |b| + 5), h),
        (Pop, h + 1)])
  {
    hide Has, Retarget;
    var n := |a| + |b| + 6;
    var test := [(JumpIfFalse(|b| + 4), h + 1), (Pop, h + 1)];
    var back := [(StoreLocal(result), h + 1), (Pop, h + 1), (Loop(|a| + |b| + 5), h), (Pop, h + 1)];
    RetargetParts(a + test + b, back, id, n);
    RetargetParts(a + test, b, id, n);
    RetargetParts(a, test, id, n);
    Same(test, id, n - |a|);
    Same(back, id, n - |a| - 2 - |b|);
    Parts(p, at, Retarget(a, id, n) + test + Retarget(b, id, |b| + 4), back);
    Parts(p, at, Retarget(a, id, n) + test, Retarget(b, id, |b| + 4));
    Parts(p, at, Retarget(a, id, n), test);
  }

  /** A plain loop with condition `a` and body `b`, before its exits are patched. */
  function LoopMarks(a: seq<Mark>, b: seq<Mark>, h: nat, result: nat): seq<Mark> {
    a + [(JumpIfFalse(|b| + 4), h + 1), (Pop, h + 1)] + b
      + [(StoreLocal(result), h + 1), (Pop, h + 1), (Loop(|a| + |b| + 5), h), (Pop, h + 1)]
  }

  function InnerCtx(head: Ctx, result: nat, start: nat): Ctx {
    head.(loops := head.loops + [LoopCtx(head.nloops, result, head.h, false, start, |head.locals|)],
               nloops := head.nloops + 1)
  }

  lemma CodeOfLoop(head: Ctx, result: nat, start: nat, a: Result, b: Result)
    requires a.h == b.h == head.h + 1
    ensures Marks(WhileCode(false, head, result, start, a, b)) ==
      LoopMarks(Marks(a.code), Marks(b.code), head.h, result)
  {
    var test, pop := At(head, a.h, JumpIfFalse(|b.code| + 4)), At(head, a.h, Pop);
    var store, back := At(head, a.h, StoreLocal(result)), At(head, head.h, Loop(|a.code| + |b.code| + 5));
    assert WhileCode(false, head, result, start, a, b) == a.code + (test + pop) + b.code + (store + pop + back + pop);
    assert Marks(test + pop) == [(JumpIfFalse(|b.code| + 4), head.h + 1), (Pop, head.h + 1)];
    assert Marks(store + pop + back + pop)
        == [(StoreLocal(result), head.h + 1), (Pop, head.h + 1), (Loop(|a.code| + |b.code| + 5), head.h),
            (Pop, head.h + 1)];
    Joined(a.code + (test + pop) + b.code, store + pop + back + pop);
    Joined(a.code + (test + pop), b.code);
    Joined(a.code, test + pop);
  }

  lemma LoopIs(e: Expr, head: Ctx, result: nat, start: nat)
    requires e.While? && !e.isArray
    requires var inner := InnerCtx(head, result, start);
      var a := Compile(e.cond, inner, start);
      && a.h == head.h + 1 && a.locals == head.locals
      && CompileScope(e.body, inner, start + |a.code| + 2).h == head.h + 1
    ensures var inner := InnerCtx(head, result, start);
      var a := Compile(e.cond, inner, start);
      var b := CompileScope(e.body, inner, start + |a.code| + 2);
      var r := WhileLoop(e, head, result, start);
      && Marks(r.code) == Patched(LoopMarks(Marks(a.code), Marks(b.code), head.h, result), head.nloops)
      && r.h == head.h && r.locals == b.locals && r.ok == (a.ok && b.ok)
      && r.fits == (a.fits && b.fits && head.h <= 255)
  {
    hide Compile, CompileScope, WhileCode, LoopMarks, Marks, Retarget, Patch;
    var inner := InnerCtx(head, result, start);
    var a := Compile(e.cond, inner, start);
    assert Drop(After(inner, a)) == inner;
    var b := CompileScope(e.body, inner, start + |a.code| + 2);
    CodeOfLoop(head, result, start, a, b);
    PatchMarks(WhileCode(false, head, result, start, a, b), start, head.nloops);
  }

  function HeadCtx(c: Ctx): Ctx {
    c.(h := c.h + 1, hoisted := map[], scopeBase := |c.locals|)
  }

  /** A plain `while` whose condition hoists nothing. */
  lemma WhileIs(e: Expr, c: Ctx, pos: nat)
    requires e.While? && !e.isArray && HoistExpr(e.cond) == [] && c.h < 255
    requires var r := WhileLoop(e, HeadCtx(c), c.h, pos + 1); r.locals == c.locals && r.h == c.h + 1
    ensures var r := WhileLoop(e, HeadCtx(c), c.h, pos + 1);
      var w := Compile(e, c, pos);
      && Marks(w.code) == [(PushNull, c.h)] + Marks(r.code) + [(LoadLocal(c.h), c.h + 1), (CloseScope(1), c.h + 2)]
      && w.locals == c.locals && w.h == c.h + 1 && w.ok == r.ok && w.fits == r.fits
  {
    hide WhileLoop, HoistExpr, Marks;
    assert Enter(Up(c, c.h + 1), []) == HeadCtx(c) by {
      assert c.locals + PrologueLocals(c.h + 1, []) == c.locals;
    }
    assert Prologue(Up(c, c.h + 1), []) == [];
    var r := WhileLoop(e, HeadCtx(c), c.h, pos + 1);
    var seed, load, close := At(c, c.h, PushNull), At(c, c.h + 1, LoadLocal(c.h)), At(c, c.h + 2, CloseScope(1));
    assert Dedup([]) == [];
    assert Compile(e, c, pos).code == seed + r.code + (load + close) by {
      assert seed + [] + r.code + load + close == seed + r.code + (load + close);
    }
    OneMark(c, c.h, PushNull);
    OneMark(c, c.h + 1, LoadLocal(c.h));
    OneMark(c, c.h + 2, CloseScope(1));
    Joined(load, close);
    Joined(seed + r.code, load + close);
    Joined(seed, r.code);
  }

  // ----- running a list of instructions -----

  /** One instruction of a listing. */
  lemma Takes(w: World, c: Config, n: nat, s: State, at: nat, ms: seq<Mark>, k: nat, s2: State)
    requires Ran(w, c, n) == Run(s) && Has(w.p, at, ms) && k < |ms| && s.pc == at + k
    requires Exec(w.ops, w.g, ms[k].0, s) == Run(s2)
    ensures Ran(w, c, n + 1) == Run(s2)
  {
    hide Exec, Steps, Has;
    HasAt(w.p, at, ms, k);
    ThenExec(w, c, n, s, ms[k].0);
  }

  lemma StartHere(w: World, c: Config)
    ensures Ran(w, c, 0) == c
  {
  }

  // ----- the tracker at a break -----

  /** `while true { x := 1; break }` */
  const LAG: Block := Tail(While(false, Lit(Bool(true)), LAG_BODY))

  const LAG_BODY: Block := Then(Decl("x", Lit(Int(1))), Tail(Break(None)))

  function LagBody(): seq<Mark> {
    [(LoadConst(Int(1)), 2), (Dup, 3), (Pop, 4), (PushNull, 3), (StoreLocal(1), 4), (Pop, 4), (Unwind(2), 3),
        (Hole(0), 3),
     (CloseScope(1), 4)]
  }

  function Plain0(globals: seq<string>): Ctx {
    Ctx([], 2, map[], 0, [LoopCtx(0, 1, 2, false, 1, 0)], 1, [], globals)
  }

  lemma LagBlock(globals: seq<string>)
    ensures var r := CompileBlock(LAG_BODY, Plain0(globals), 4);
      && Marks(r.code) == LagBody()[..8] && r.h == 4 && r.locals == [Named("x", 2)] && r.ok && r.fits
  {
    hide Compile;
    var c := Plain0(globals);
    LagDecl(globals);
    var a := Compile(Decl("x", Lit(Int(1))), c, 4);
    var c1 := Drop(After(c, a));
    var out := Compile(Break(None), c1, 7);
    BareBreak(c1, 7);
    assert CompileBlock(Tail(Break(None)), c1, 7) == out;
  }

  lemma LagDecl(globals: seq<string>)
    ensures var c := Plain0(globals);
      var a := Compile(Decl("x", Lit(Int(1))), c, 4);
      && a.code == At(c, 2, LoadConst(Int(1))) + At(c, 3, Dup) && a.locals == [Named("x", 2)] && a.h == 4
      && a.ok && a.fits
  {
    assert Compile(Lit(Int(1)), Plain0(globals), 4).code == At(Plain0(globals), 2, LoadConst(Int(1)));
  }

  lemma BareBreak(c: Ctx, pos: nat)
    ensures Compile(Break(None), c, pos) == CompileBreak(Break(None), c, pos)
  {
  }

  lemma LagScope(globals: seq<string>)
    ensures var r := CompileScope(LAG_BODY, Plain0(globals), 4);
      Marks(r.code) == LagBody() && r.h == 3 && r.locals == [] && r.ok && r.fits
  {
    hide CompileBlock, Marks;
    var c := Plain0(globals);
    LagHoists();
    assert Enter(c, []) == c;
    LagBlock(globals);
    var r := CompileBlock(LAG_BODY, c, 4);
    OneMark(c, 4, CloseScope(1));
    assert CompileScope(LAG_BODY, c, 4).code == r.code + At(c, 4, CloseScope(1)) by {
      assert Prologue(c, []) + r.code == r.code;
    }
    Joined(r.code, At(c, 4, CloseScope(1)));
  }

  lemma LagHoists()
    ensures HoistBlock(LAG_BODY) == [] && HoistBlock(LAG) == []
  {
    assert HoistStmt(Decl("x", Lit(Int(1)))) == []
      && HoistBlock(Tail(Break(None))) == HoistExpr(Break(None)) == HoistOption(None) == [];
    assert HoistBlock(LAG) == HoistStmt(LAG.e) == [];
  }

  function LagCode(): seq<Mark> {
    [(PushNull, 1)] + Patched(LoopMarks([(LoadConst(Bool(true)), 2)], LagBody(), 2, 1), 0)
      + [(LoadLocal(1), 2), (CloseScope(1), 3)] + [(ReturnI, 2)]
  }

  lemma LagLoop(globals: seq<string>)
    ensures var r := WhileLoop(LAG.e, HeadCtx(Initial(globals)), 1, 1);
      && Marks(r.code) == Patched(LoopMarks([(LoadConst(Bool(true)), 2)], LagBody(), 2, 1), 0)
      && r.h == 2 && r.locals == [] && r.ok && r.fits
  {
    hide CompileScope, WhileLoop, Marks;
    var head := HeadCtx(Initial(globals));
    var inner := InnerCtx(head, 1, 1);
    assert inner == Plain0(globals) by {
      assert [] + [LoopCtx(0, 1, 2, false, 1, 0)] == [LoopCtx(0, 1, 2, false, 1, 0)];
    }
    OneMark(inner, 2, LoadConst(Bool(true)));
    LagScope(globals);
    LoopIs(LAG.e, head, 1, 1);
  }

  lemma LagProgram(globals: seq<string>)
    ensures var r := CompileProgram(LAG, globals); Marks(r.code) == LagCode() && r.ok && r.fits
  {
    hide WhileLoop, Marks, CompileWhile;
    var c := Initial(globals);
    LagLoop(globals);
    assert HoistExpr(LAG.e.cond) == [];
    WhileIs(LAG.e, c, 0);
    LagHoists();
    assert Enter(c, []) == c;
    var a := Compile(LAG.e, c, 0);
    assert CompileProgram(LAG, globals).code == a.code + At(c, 2, ReturnI) by {
      assert Prologue(c, []) == [] && [] + a.code == a.code;
    }
    OneMark(c, 2, ReturnI);
    Joined(a.code, At(c, 2, ReturnI));
  }

  /** The body with its `break` patched. */
  function LagPatched(): seq<Mark> {
    [(LoadConst(Int(1)), 2), (Dup, 3), (Pop, 4), (PushNull, 3), (StoreLocal(1), 4), (Pop, 4), (Unwind(2), 3),
        (Jump(5), 3),
     (CloseScope(1), 4)]
  }

  ghost predicate LagOps(p: Code) {
    Has(p, 0, [(PushNull, 1)]) && Has(p, 1, [(LoadConst(Bool(true)), 2)]) && Has(p, 2, [(JumpIfFalse(13), 3), (Pop, 3)])
    && Has(p, 4, LagPatched())
  }

  lemma LagPrefix(p: Code)
    requires Marks(p) == LagCode()
    ensures LagOps(p)
  {
    hide Marks, Retarget, LoopMarks, Has, LagBody, LagPatched;
    LagRetargeted();
    var cond := [(LoadConst(Bool(true)), 2)];
    var loop := Patched(LoopMarks(cond, LagBody(), 2, 1), 0);
    WholeHas(p);
    Parts(p, 0, [(PushNull, 1)] + loop + [(LoadLocal(1), 2), (CloseScope(1), 3)], [(ReturnI, 2)]);
    Parts(p, 0, [(PushNull, 1)] + loop, [(LoadLocal(1), 2), (CloseScope(1), 3)]);
    Parts(p, 0, [(PushNull, 1)], loop);
    LoopHas(p, 1, cond, LagBody(), 2, 1, 0);
    Same(cond, 0, 16);
  }

  lemma LagRetargeted()
    ensures |LagBody()| == 9 && Retarget(LagBody(), 0, 13) == LagPatched()
  {
  }

  lemma LagRuns(w: World, c: Config, a: Value, h: Heap)
    requires LagOps(w.p) && c == Run(State(0, [a], [], h))
    ensures Ran(w, c, 4) == Run(State(4, [a, Null], [], h))
  {
    hide Steps, Ran, Has, LagPatched;
    var t, test := Bool(true), [(JumpIfFalse(13), 3), (Pop, 3)];
    StartHere(w, c);
    Takes(w, c, 0, State(0, [a], [], h), 0, [(PushNull, 1)], 0, State(1, [a, Null], [], h));
    Takes(w, c, 1, State(1, [a, Null], [], h), 1, [(LoadConst(t), 2)], 0, State(2, [a, Null, t], [], h));
    Takes(w, c, 2, State(2, [a, Null, t], [], h), 2, test, 0, State(3, [a, Null, t], [], h));
    Takes(w, c, 3, State(3, [a, Null, t], [], h), 2, test, 1, State(4, [a, Null], [], h));
  }

  lemma LagRunsOn(w: World, c: Config, a: Value, h: Heap)
    requires LagOps(w.p) && Ran(w, c, 4) == Run(State(4, [a, Null], [], h))
    ensures Ran(w, c, 8) == Run(State(8, [a, Null, Int(1), Null], [], h))
  {
    hide Steps, Ran, Has;
    var one := Int(1);
    Takes(w, c, 4, State(4, [a, Null], [], h), 4, LagPatched(), 0, State(5, [a, Null, one], [], h));
    Takes(w, c, 5, State(5, [a, Null, one], [], h), 4, LagPatched(), 1, State(6, [a, Null, one, one], [], h));
    Takes(w, c, 6, State(6, [a, Null, one, one], [], h), 4, LagPatched(), 2, State(7, [a, Null, one], [], h));
    Takes(w, c, 7, State(7, [a, Null, one], [], h), 4, LagPatched(), 3, State(8, [a, Null, one, Null], [], h));
  }

  lemma LagBreaks(w: World, c: Config, a: Value, h: Heap)
    requires LagOps(w.p) && Ran(w, c, 8) == Run(State(8, [a, Null, Int(1), Null], [], h))
    ensures Ran(w, c, 11) == Run(State(11, [a, Null], [], h))
    ensures |w.p| > 11 && w.p[11].op.Jump? && w.p[11].h == 3
  {
    hide Steps, Ran, Has;
    var one := Int(1);
    Takes(w, c, 8, State(8, [a, Null, one, Null], [], h), 4, LagPatched(), 4, State(9, [a, Null, one, Null], [], h));
    Takes(w, c, 9, State(9, [a, Null, one, Null], [], h), 4, LagPatched(), 5, State(10, [a, Null, one], [], h));
    Takes(w, c, 10, State(10, [a, Null, one], [], h), 4, LagPatched(), 6, State(11, [a, Null], [], h));
    HasAt(w.p, 4, LagPatched(), 7);
  }

  /** Where the tracker is wrong: this program reaches the jump of its `break` with a stack of two values, where
      the compiler has tracked three. */
  lemma TrackerLags(w: World, closure: Value, heap: Heap)
    requires w.p == CompileProgram(LAG, w.g.names).code
    ensures Compilable(LAG, w.g)
    ensures Ran(w, Run(Start(closure, heap)), 11) == Run(State(11, [closure, Null], [], heap))
    ensures |w.p| > 11 && w.p[11].op.Jump? && w.p[11].h == 3
  {
    hide CompileProgram, Marks, Ran, LagCode, LagOps, JumpsOkBlock;
    LagProgram(w.g.names);
    LagPrefix(w.p);
    var c := Run(Start(closure, heap));
    LagRuns(w, c, closure, heap);
    LagRunsOn(w, c, closure, heap);
    LagBreaks(w, c, closure, heap);
    LagJumps();
  }

  lemma LagJumps()
    ensures JumpsOkBlock(LAG, 0)
  {
  }

  // ----- a continue out of a try -----

  /** `x := true; while x { x = false; try continue }; raise 1` */
  const SKIP: Block := Then(Decl("x", Lit(Bool(true))), Then(SKIP_LOOP, Tail(Raise(Lit(Int(1))))))

  const SKIP_LOOP: Expr := While(false, Ident("x"), SKIP_BODY)

  const SKIP_BODY: Block := Then(Assign("x", None, Lit(Bool(false))), Tail(SKIP_TRY))

  const SKIP_TRY: Expr := Try(Continue, None)

  const SKIP_SLOT: seq<Local> := [Named("x", 1)]

  /** The compiler's state before the loop, in its head and in its body. */
  function Before(globals: seq<string>): Ctx {
    Ctx(SKIP_SLOT, 2, map[], 0, [], 0, [], globals)
  }

  function InBody(globals: seq<string>, tries: seq<nat>): Ctx {
    Ctx(SKIP_SLOT, 3, map[], 1, [LoopCtx(0, 2, 3, false, 4, 1)], 1, tries, globals)
  }

  function SkipTry(): seq<Mark> {
    [(PushTry(7), 3), (PushNull, 3), (StoreLocal(2), 4), (Pop, 4), (Unwind(3), 3), (Loop(12), 3), (PopTry, 4),
        (Jump(2), 4),
     (Pop, 4), (PushNull, 3)]
  }

  function SkipBody(): seq<Mark> {
    [(LoadConst(Bool(false)), 3), (StoreLocal(1), 4), (Pop, 4)] + SkipTry()
  }

  lemma ContinueCode(globals: seq<string>)
    ensures var r := Compile(Continue, InBody(globals, [3]), 11);
      && Marks(r.code) == [(PushNull, 3), (StoreLocal(2), 4), (Pop, 4), (Unwind(3), 3), (Loop(12), 3)]
      && r.h == 4 && r.locals == SKIP_SLOT && r.ok && r.fits
  {
    assert Compile(Continue, InBody(globals, [3]), 11) == CompileContinue(InBody(globals, [3]), 11);
  }

  lemma SkipTryIs(globals: seq<string>)
    ensures var c := InBody(globals, []);
      var a := Compile(Continue, InBody(globals, [3]), 11);
      && |a.code| == 5
      && Compile(SKIP_TRY, c, 10) == Result(At(c, 3, PushTry(7)) + a.code + TryBack(c), SKIP_SLOT, 4, true, true)
  {
    hide Marks, CompileContinue;
    ContinueCode(globals);
    var c := InBody(globals, []);
    var a := Compile(Continue, InBody(globals, [3]), 11);
    assert c.(tries := c.tries + [c.h]) == InBody(globals, [3]) by {
      assert [] + [3] == [3];
    }
    var tail := At(c, 4, Pop) + At(c, 3, PushNull);
    assert CompileHandler(None, After(c, a), 18) == Result(tail, SKIP_SLOT, 4, true, true);
    assert Compile(SKIP_TRY, c, 10) == CompileTry(SKIP_TRY, c, 10);
    var front, shut, jump := At(c, 3, PushTry(7)), [Cell(PopTry, 4, [3])], At(c, 4, Jump(2));
    assert front + a.code + shut + jump + tail == front + a.code + (shut + jump + tail);
  }

  function TryBack(c: Ctx): Code {
    [Cell(PopTry, 4, [3])] + At(c, 4, Jump(2)) + (At(c, 4, Pop) + At(c, 3, PushNull))
  }

  lemma TryBackMarks(c: Ctx)
    ensures Marks(TryBack(c)) == [(PopTry, 4), (Jump(2), 4), (Pop, 4), (PushNull, 3)]
  {
  }

  lemma SkipTryCode(globals: seq<string>)
    ensures var r := Compile(SKIP_TRY, InBody(globals, []), 10);
      Marks(r.code) == SkipTry() && r.h == 4 && r.locals == SKIP_SLOT && r.ok && r.fits
  {
    hide Marks, Compile, TryBack;
    var c := InBody(globals, []);
    SkipTryIs(globals);
    ContinueCode(globals);
    var a := Compile(Continue, InBody(globals, [3]), 11);
    TryBackMarks(c);
    OneMark(c, 3, PushTry(7));
    Joined(At(c, 3, PushTry(7)) + a.code, TryBack(c));
    Joined(At(c, 3, PushTry(7)), a.code);
  }

  lemma SkipAssign(globals: seq<string>)
    ensures var c := InBody(globals, []);
      Compile(SKIP_BODY.stmt, c, 7) ==
        Result(At(c, 3, LoadConst(Bool(false))) + At(c, 4, StoreLocal(1)), SKIP_SLOT, 4, true, true)
  {
    var c := InBody(globals, []);
    assert Newest(c.locals, "x") == Some(0);
    assert Compile(Lit(Bool(false)), c, 7) == Result(At(c, 3, LoadConst(Bool(false))), SKIP_SLOT, 4, true, true);
    assert Compile(SKIP_BODY.stmt, c, 7) == CompileAssign(SKIP_BODY.stmt, c, 7);
  }

  lemma SkipHoists()
    ensures HoistBlock(SKIP_BODY) == [] && HoistBlock(SKIP) == [] && HoistExpr(SKIP_LOOP.cond) == []
  {
    assert HoistExpr(Lit(Bool(false))) == [] && HoistExpr(Lit(Int(1))) == [] && HoistExpr(Continue) == [];
    assert HoistStmt(SKIP_TRY) == [] && HoistBlock(Tail(SKIP_TRY)) == [];
    assert HoistBlock(SKIP_BODY) == HoistStmt(SKIP_BODY.stmt) + HoistBlock(Tail(SKIP_TRY)) == [];
    assert HoistBlock(SKIP.rest.rest) == HoistStmt(Raise(Lit(Int(1)))) == [];
    assert HoistStmt(SKIP_LOOP) == [] && HoistBlock(SKIP.rest) == [];
  }

  lemma SkipScopeIs(globals: seq<string>)
    ensures var c := InBody(globals, []);
      var a, t := Compile(SKIP_BODY.stmt, c, 7), Compile(SKIP_TRY, c, 10);
      CompileScope(SKIP_BODY, c, 7) == Result(a.code + At(c, 4, Pop) + t.code, SKIP_SLOT, 4, true, true)
  {
    hide Marks, Compile, SkipTry, CompileBlock;
    var c := InBody(globals, []);
    SkipHoists();
    assert Dedup([]) == [];
    assert Enter(c, []) == c;
    var a, t := Compile(SKIP_BODY.stmt, c, 7), Compile(SKIP_TRY, c, 10);
    var code := a.code + At(c, 4, Pop) + t.code;
    SkipBlockIs(globals);
    assert Prologue(c, []) + code + [] == code;
  }

  lemma SkipBlockIs(globals: seq<string>)
    ensures var c := InBody(globals, []);
      var a, t := Compile(SKIP_BODY.stmt, c, 7), Compile(SKIP_TRY, c, 10);
      CompileBlock(SKIP_BODY, c, 7) == Result(a.code + At(c, 4, Pop) + t.code, SKIP_SLOT, 4, true, true)
  {
    hide Marks, Compile, SkipTry;
    var c := InBody(globals, []);
    SkipAssign(globals);
    SkipTryCode(globals);
    var a, t := Compile(SKIP_BODY.stmt, c, 7), Compile(SKIP_TRY, c, 10);
    assert Drop(After(c, a)) == c;
    assert CompileBlock(SKIP_BODY.rest, c, 10) == t;
  }

  lemma SkipScope(globals: seq<string>)
    ensures var r := CompileScope(SKIP_BODY, InBody(globals, []), 7);
      Marks(r.code) == SkipBody() && r.h == 4 && r.locals == SKIP_SLOT && r.ok && r.fits
  {
    hide Marks, Compile, CompileScope, SkipTry;
    var c := InBody(globals, []);
    SkipAssign(globals);
    SkipTryCode(globals);
    SkipScopeIs(globals);
    var a, t := Compile(SKIP_BODY.stmt, c, 7), Compile(SKIP_TRY, c, 10);
    OneMark(c, 3, LoadConst(Bool(false)));
    OneMark(c, 4, StoreLocal(1));
    OneMark(c, 4, Pop);
    Joined(a.code + At(c, 4, Pop), t.code);
    Joined(a.code, At(c, 4, Pop));
    Joined(At(c, 3, LoadConst(Bool(false))), At(c, 4, StoreLocal(1)));
  }

  function SkipLoop(): seq<Mark> {
    Patched(LoopMarks([(LoadLocal(1), 3)], SkipBody(), 3, 2), 0)
  }

  lemma SkipLoopCode(globals: seq<string>)
    ensures var r := WhileLoop(SKIP_LOOP, HeadCtx(Before(globals)), 2, 4);
      Marks(r.code) == SkipLoop() && r.h == 3 && r.locals == SKIP_SLOT && r.ok && r.fits
  {
    hide CompileScope, WhileLoop, Marks;
    var head := HeadCtx(Before(globals));
    var inner := InnerCtx(head, 2, 4);
    assert inner == InBody(globals, []) by {
      assert [] + [LoopCtx(0, 2, 3, false, 4, 1)] == [LoopCtx(0, 2, 3, false, 4, 1)];
    }
    assert Newest(inner.locals, "x") == Some(0);
    assert Compile(Ident("x"), inner, 4) == Result(At(inner, 3, LoadLocal(1)), SKIP_SLOT, 4, true, true);
    OneMark(inner, 3, LoadLocal(1));
    SkipScope(globals);
    LoopIs(SKIP_LOOP, head, 2, 4);
  }

  /** The loop as a statement. */
  lemma SkipWhile(globals: seq<string>)
    ensures var r := Compile(SKIP_LOOP, Before(globals), 3);
      && Marks(r.code) == [(PushNull, 2)] + SkipLoop() + [(LoadLocal(2), 3), (CloseScope(1), 4)]
      && r.h == 3 && r.locals == SKIP_SLOT && r.ok && r.fits
  {
    hide WhileLoop, Marks, Compile, SkipLoop;
    SkipLoopCode(globals);
    SkipHoists();
    WhileIs(SKIP_LOOP, Before(globals), 3);
  }

  lemma SkipSizes()
    ensures |SkipBody()| == 13 && |SkipLoop()| == 20
  {
  }

  lemma SkipFirst(globals: seq<string>)
    ensures var c := Initial(globals);
      && Compile(SKIP.stmt, c, 0) == Result(At(c, 1, LoadConst(Bool(true))) + At(c, 2, Dup), SKIP_SLOT, 3, true, true)
      && Drop(After(c, Compile(SKIP.stmt, c, 0))) == Before(globals)
  {
    var c := Initial(globals);
    assert Compile(Lit(Bool(true)), c, 0) == Result(At(c, 1, LoadConst(Bool(true))), [], 2, true, true);
    assert Compile(SKIP.stmt, c, 0) == CompileDecl(SKIP.stmt, c, 0);
    assert [] + SKIP_SLOT == SKIP_SLOT;
  }

  lemma SkipLast(globals: seq<string>)
    ensures var c := Before(globals);
      CompileBlock(SKIP.rest.rest, c, 27) ==
        Result(At(c, 2, LoadConst(Int(1))) + At(c, 3, RaiseI), SKIP_SLOT, 3, true, true)
  {
    var c := Before(globals);
    assert Compile(Lit(Int(1)), c, 27) == Result(At(c, 2, LoadConst(Int(1))), SKIP_SLOT, 3, true, true);
    assert CompileBlock(SKIP.rest.rest, c, 27) == Compile(Raise(Lit(Int(1))), c, 27);
  }

  lemma SkipIs(globals: seq<string>)
    ensures var c, b := Initial(globals), Before(globals);
      var first := At(c, 1, LoadConst(Bool(true))) + At(c, 2, Dup) + At(c, 3, Pop);
      var last := At(b, 3, Pop) + (At(b, 2, LoadConst(Int(1))) + At(b, 3, RaiseI));
      var r := CompileProgram(SKIP, globals);
      r.code == first + (Compile(SKIP_LOOP, b, 3).code + last) + At(c, 3, ReturnI) && r.ok && r.fits
  {
    hide Marks, Compile, SkipLoop;
    var c, b := Initial(globals), Before(globals);
    SkipHoists();
    SkipFirst(globals);
    SkipWhile(globals);
    SkipLast(globals);
    SkipSizes();
    assert Dedup([]) == [];
    assert Enter(c, []) == c;
    var a, w, d := Compile(SKIP.stmt, c, 0), Compile(SKIP_LOOP, b, 3), CompileBlock(SKIP.rest.rest, b, 27);
    assert |w.code| == 23 && Drop(After(b, w)) == b;
    assert CompileBlock(SKIP.rest, b, 3).code == w.code + At(b, 3, Pop) + d.code;
    assert CompileBlock(SKIP, c, 0).code == a.code + At(c, 3, Pop) + CompileBlock(SKIP.rest, b, 3).code;
    assert Prologue(c, []) == [];
    assert w.code + At(b, 3, Pop) + d.code == w.code + (At(b, 3, Pop) + d.code);
  }

  /** The three stretches of the program's code: before, in and after the loop. */
  ghost predicate SkipOps(p: Code) {
    && Has(p, 0, [(LoadConst(Bool(true)), 1), (Dup, 2), (Pop, 3), (PushNull, 2)])
    && Has(p, 4, [(LoadLocal(1), 3)]) && Has(p, 5, [(JumpIfFalse(17), 4), (Pop, 4)])
    && Has(p, 7, SkipBody())
    && Has(p, 20, [(StoreLocal(2), 4), (Pop, 4), (Loop(19), 3), (Pop, 4)])
    && Has(p, 24, [(LoadLocal(2), 3), (CloseScope(1), 4), (Pop, 3), (LoadConst(Int(1)), 2), (RaiseI, 3)])
  }

  lemma SkipMarks(globals: seq<string>)
    ensures var last := [(LoadLocal(2), 3), (CloseScope(1), 4), (Pop, 3), (LoadConst(Int(1)), 2), (RaiseI, 3)];
      Marks(CompileProgram(SKIP, globals).code)
        == [(LoadConst(Bool(true)), 1), (Dup, 2), (Pop, 3), (PushNull, 2)] + SkipLoop() + last + [(ReturnI, 3)]
  {
    hide Marks, Compile, SkipLoop, CompileProgram;
    var c, b := Initial(globals), Before(globals);
    SkipIs(globals);
    SkipWhile(globals);
    var w := Compile(SKIP_LOOP, b, 3).code;
    var first := At(c, 1, LoadConst(Bool(true))) + At(c, 2, Dup) + At(c, 3, Pop);
    var last := At(b, 3, Pop) + (At(b, 2, LoadConst(Int(1))) + At(b, 3, RaiseI));
    FirstAndLast(c, b);
    OneMark(c, 3, ReturnI);
    Joined(first + (w + last), At(c, 3, ReturnI));
    Joined(first, w + last);
    Joined(w, last);
    var m := SkipLoop();
    assert [(LoadConst(Bool(true)), 1), (Dup, 2), (Pop, 3)]
         + ([(PushNull, 2)] + m + [(LoadLocal(2), 3), (CloseScope(1), 4)]
           + [(Pop, 3), (LoadConst(Int(1)), 2), (RaiseI, 3)])
        == [(LoadConst(Bool(true)), 1), (Dup, 2), (Pop, 3), (PushNull, 2)] + m
         + [(LoadLocal(2), 3), (CloseScope(1), 4), (Pop, 3), (LoadConst(Int(1)), 2), (RaiseI, 3)];
  }

  lemma FirstAndLast(c: Ctx, b: Ctx)
    ensures Marks(At(c, 1, LoadConst(Bool(true))) + At(c, 2, Dup) + At(c, 3, Pop)) ==
      [(LoadConst(Bool(true)), 1), (Dup, 2), (Pop, 3)]
    ensures Marks(At(b, 3, Pop) + (At(b, 2, LoadConst(Int(1))) + At(b, 3, RaiseI))) ==
      [(Pop, 3), (LoadConst(Int(1)), 2), (RaiseI, 3)]
  {
  }

  lemma SkipCode(p: Code, globals: seq<string>)
    requires p == CompileProgram(SKIP, globals).code
    ensures SkipOps(p)
  {
    hide Marks, CompileProgram, SkipLoop, SkipBody, LoopMarks, Retarget, Has;
    SkipMarks(globals);
    SkipSizes();
    WholeHas(p);
    var first := [(LoadConst(Bool(true)), 1), (Dup, 2), (Pop, 3), (PushNull, 2)];
    var last := [(LoadLocal(2), 3), (CloseScope(1), 4), (Pop, 3), (LoadConst(Int(1)), 2), (RaiseI, 3)];
    Parts(p, 0, first + SkipLoop() + last, [(ReturnI, 3)]);
    Parts(p, 0, first + SkipLoop(), last);
    Parts(p, 0, first, SkipLoop());
    SkipLoopHas(p);
  }

  lemma SkipLoopHas(p: Code)
    requires Has(p, 4, SkipLoop())
    ensures Has(p, 4, [(LoadLocal(1), 3)]) && Has(p, 5, [(JumpIfFalse(17), 4), (Pop, 4)]) && Has(p, 7, SkipBody())
    ensures Has(p, 20, [(StoreLocal(2), 4), (Pop, 4), (Loop(19), 3), (Pop, 4)])
  {
    hide Has, Retarget, LoopMarks;
    LoopHas(p, 4, [(LoadLocal(1), 3)], SkipBody(), 3, 2, 0);
    Same([(LoadLocal(1), 3)], 0, 20);
    SkipBodyClosed();
  }

  lemma SkipBodyClosed()
    ensures |SkipBody()| == 13 && Retarget(SkipBody(), 0, 17) == SkipBody()
  {
    Same(SkipBody(), 0, 17);
  }

  /** From the start to the head of the loop, `x` being true. */
  lemma SkipStarts(w: World, c: Config, a: Value, h: Heap)
    requires SkipOps(w.p) && c == Run(State(0, [a], [], h))
    ensures Ran(w, c, 4) == Run(State(4, [a, Bool(true), Null], [], h))
  {
    hide Steps, Ran, Has, SkipBody;
    var ms := [(LoadConst(Bool(true)), 1), (Dup, 2), (Pop, 3), (PushNull, 2)];
    var t := Bool(true);
    StartHere(w, c);
    Takes(w, c, 0, State(0, [a], [], h), 0, ms, 0, State(1, [a, t], [], h));
    Takes(w, c, 1, State(1, [a, t], [], h), 0, ms, 1, State(2, [a, t, t], [], h));
    Takes(w, c, 2, State(2, [a, t, t], [], h), 0, ms, 2, State(3, [a, t], [], h));
    Takes(w, c, 3, State(3, [a, t], [], h), 0, ms, 3, State(4, [a, t, Null], [], h));
  }

  /** Into the body: `x` becomes false and the `try` opens its frame. */
  lemma SkipEnters(w: World, c: Config, a: Value, h: Heap)
    requires SkipOps(w.p) && Ran(w, c, 4) == Run(State(4, [a, Bool(true), Null], [], h))
    ensures Ran(w, c, 11) == Run(State(11, [a, Bool(false), Null], [TryFrame(18, 3)], h))
  {
    hide Steps, Ran, Has;
    var t := Bool(true);
    var test := [(JumpIfFalse(17), 4), (Pop, 4)];
    Takes(w, c, 4, State(4, [a, t, Null], [], h), 4, [(LoadLocal(1), 3)], 0, State(5, [a, t, Null, t], [], h));
    Takes(w, c, 5, State(5, [a, t, Null, t], [], h), 5, test, 0, State(6, [a, t, Null, t], [], h));
    Takes(w, c, 6, State(6, [a, t, Null, t], [], h), 5, test, 1, State(7, [a, t, Null], [], h));
    SkipIntoTry(w, c, a, h);
  }

  lemma SkipIntoTry(w: World, c: Config, a: Value, h: Heap)
    requires SkipOps(w.p) && Ran(w, c, 7) == Run(State(7, [a, Bool(true), Null], [], h))
    ensures Ran(w, c, 11) == Run(State(11, [a, Bool(false), Null], [TryFrame(18, 3)], h))
  {
    hide Steps, Ran, Has;
    var t, f := Bool(true), Bool(false);
    Takes(w, c, 7, State(7, [a, t, Null], [], h), 7, SkipBody(), 0, State(8, [a, t, Null, f], [], h));
    Takes(w, c, 8, State(8, [a, t, Null, f], [], h), 7, SkipBody(), 1, State(9, [a, f, Null, f], [], h));
    Takes(w, c, 9, State(9, [a, f, Null, f], [], h), 7, SkipBody(), 2, State(10, [a, f, Null], [], h));
    Takes(w, c, 10, State(10, [a, f, Null], [], h), 7, SkipBody(), 3, State(11, [a, f, Null], [TryFrame(18, 3)], h));
  }

  /** The `continue`: back to the head, the frame still open. */
  lemma SkipContinues(w: World, c: Config, a: Value, h: Heap)
    requires SkipOps(w.p) && Ran(w, c, 11) == Run(State(11, [a, Bool(false), Null], [TryFrame(18, 3)], h))
    ensures Ran(w, c, 16) == Run(State(4, [a, Bool(false), Null], [TryFrame(18, 3)], h))
  {
    hide Steps, Ran, Has;
    var f, ts := Bool(false), [TryFrame(18, 3)];
    Takes(w, c, 11, State(11, [a, f, Null], ts, h), 7, SkipBody(), 4, State(12, [a, f, Null, Null], ts, h));
    Takes(w, c, 12, State(12, [a, f, Null, Null], ts, h), 7, SkipBody(), 5, State(13, [a, f, Null, Null], ts, h));
    Takes(w, c, 13, State(13, [a, f, Null, Null], ts, h), 7, SkipBody(), 6, State(14, [a, f, Null], ts, h));
    Takes(w, c, 14, State(14, [a, f, Null], ts, h), 7, SkipBody(), 7, State(15, [a, f, Null], ts, h));
    Takes(w, c, 15, State(15, [a, f, Null], ts, h), 7, SkipBody(), 8, State(4, [a, f, Null], ts, h));
  }

  /** The condition is false: out of the loop, with whatever frames are open. */
  lemma SkipExits(w: World, c: Config, n: nat, s: seq<Value>, ts: seq<TryFrame>, h: Heap)
    requires SkipOps(w.p) && Ran(w, c, n) == Run(State(4, s, ts, h)) && |s| > 1 && s[1] == Bool(false)
    ensures Ran(w, c, n + 3) == Run(State(24, s, ts, h))
  {
    hide Steps, Ran, Has, SkipBody;
    var f := Bool(false);
    Takes(w, c, n, State(4, s, ts, h), 4, [(LoadLocal(1), 3)], 0, State(5, s + [f], ts, h));
    Takes(w, c, n + 1, State(5, s + [f], ts, h), 5, [(JumpIfFalse(17), 4), (Pop, 4)], 0, State(23, s + [f], ts, h));
    Takes(w, c, n + 2, State(23, s + [f], ts, h), 20, [(StoreLocal(2), 4), (Pop, 4), (Loop(19), 3), (Pop, 4)], 3,
        State(24, s, ts, h));
  }

  /** The raise lands in the handler of the `try` that was left, with the loop's result gone. */
  lemma SkipRaises(w: World, c: Config, a: Value, h: Heap)
    requires SkipOps(w.p) && Ran(w, c, 19) == Run(State(24, [a, Bool(false), Null], [TryFrame(18, 3)], h))
    ensures Ran(w, c, 25) == Run(State(18, [a, Bool(false), Int(1)], [], h))
  {
    hide Steps, Ran, Has, SkipBody;
    var f, ts := Bool(false), [TryFrame(18, 3)];
    var last := [(LoadLocal(2), 3), (CloseScope(1), 4), (Pop, 3), (LoadConst(Int(1)), 2), (RaiseI, 3)];
    Takes(w, c, 19, State(24, [a, f, Null], ts, h), 24, last, 0, State(25, [a, f, Null, Null], ts, h));
    Takes(w, c, 20, State(25, [a, f, Null, Null], ts, h), 24, last, 1, State(26, [a, f, Null], ts, h));
    Takes(w, c, 21, State(26, [a, f, Null], ts, h), 24, last, 2, State(27, [a, f], ts, h));
    Takes(w, c, 22, State(27, [a, f], ts, h), 24, last, 3, State(28, [a, f, Int(1)], ts, h));
    HasAt(w.p, 24, last, 4);
    ThenExec(w, c, 23, State(28, [a, f, Int(1)], ts, h), RaiseI);
    Caught(w, c, 24, Int(1), State(28, [a, f], ts, h), State(18, [a, f, Int(1)], [], h));
  }

  lemma Caught(w: World, start: Config, n: nat, x: Value, s: State, s2: State)
    requires Ran(w, start, n) == Raising(x, s) && Machine.Catch(x, s) == Run(s2)
    ensures Ran(w, start, n + 1) == Run(s2)
  {
    StepsAdd(w.ops, w.g, w.p, start, n, 1);
    assert Steps(w.ops, w.g, w.p, Raising(x, s), 1) == Steps(w.ops, w.g, w.p, Step(w.ops, w.g, w.p, Raising(x, s)), 0);
  }

  /** The handler ends the iteration and goes back to the head. */
  lemma SkipHandles(w: World, c: Config, a: Value, h: Heap)
    requires SkipOps(w.p) && Ran(w, c, 25) == Run(State(18, [a, Bool(false), Int(1)], [], h))
    ensures Ran(w, c, 30) == Run(State(4, [a, Bool(false)], [], h))
  {
    hide Steps, Ran, Has;
    var f := Bool(false);
    var ends := [(StoreLocal(2), 4), (Pop, 4), (Loop(19), 3), (Pop, 4)];
    Takes(w, c, 25, State(18, [a, f, Int(1)], [], h), 7, SkipBody(), 11, State(19, [a, f], [], h));
    Takes(w, c, 26, State(19, [a, f], [], h), 7, SkipBody(), 12, State(20, [a, f, Null], [], h));
    Takes(w, c, 27, State(20, [a, f, Null], [], h), 20, ends, 0, State(21, [a, f, Null], [], h));
    Takes(w, c, 28, State(21, [a, f, Null], [], h), 20, ends, 1, State(22, [a, f], [], h));
    Takes(w, c, 29, State(22, [a, f], [], h), 20, ends, 2, State(4, [a, f], [], h));
  }

  /** `continue` out of a `try`: the program raises 1; its code lands in the handler that was left, goes round the
      loop again and reads a slot that is no longer there. */
  lemma ContinueOutOfTryIsWrong(w: World, closure: Value, heap: Heap)
    requires w.p == CompileProgram(SKIP, w.g.names).code
    ensures CompileProgram(SKIP, w.g.names).ok && CompileProgram(SKIP, w.g.names).fits
    ensures EvalProgram(w.ops, w.g, SKIP, heap, 2) == Raised(Int(1), [Named("x", Bool(false))], heap)
    ensures exists n: nat :: Ran(w, Run(Start(closure, heap)), n) == Stuck
  {
    hide CompileProgram, EvalProgram, Steps, Ran, SkipOps, Compile;
    SkipIs(w.g.names);
    SkipCode(w.p, w.g.names);
    SkipMeans(w.ops, w.g, heap);
    var a, f, c := closure, Bool(false), Run(Start(closure, heap));
    SkipStarts(w, c, a, heap);
    SkipEnters(w, c, a, heap);
    SkipContinues(w, c, a, heap);
    SkipExits(w, c, 16, [a, f, Null], [TryFrame(18, 3)], heap);
    SkipRaises(w, c, a, heap);
    SkipHandles(w, c, a, heap);
    SkipExits(w, c, 30, [a, f], [], heap);
    SkipStuck(w, c, a, heap);
  }

  lemma SkipStuck(w: World, c: Config, a: Value, h: Heap)
    requires SkipOps(w.p) && Ran(w, c, 33) == Run(State(24, [a, Bool(false)], [], h))
    ensures Ran(w, c, 34) == Stuck
  {
    hide Steps, Ran, Has, SkipBody;
    var last := [(LoadLocal(2), 3), (CloseScope(1), 4), (Pop, 3), (LoadConst(Int(1)), 2), (RaiseI, 3)];
    HasAt(w.p, 24, last, 0);
    ThenExec(w, c, 33, State(24, [a, Bool(false)], [], h), LoadLocal(2));
  }

  // ----- what it means -----

  lemma SkipStmtMeans(ops: Ops, g: Globals, heap: Heap)
    ensures Eval(ops, g, SKIP_BODY.stmt, {}, [Named("x", Bool(true))], heap, 2) ==
      Norm(Bool(false), [Named("x", Bool(false))], heap)
  {
    var before, after := [Named("x", Bool(true))], [Named("x", Bool(false))];
    assert Newest(before, "x") == Some(0) && SetVar(before, 0, Bool(false)) == after;
    assert Eval(ops, g, Lit(Bool(false)), {}, before, heap, 2) == Norm(Bool(false), before, heap);
  }

  lemma SkipTryMeans(ops: Ops, g: Globals, heap: Heap)
    ensures var after := [Named("x", Bool(false))]; Eval(ops, g, SKIP_TRY, {}, after, heap, 2) == Cont(0, after, heap)
  {
    var after := [Named("x", Bool(false))];
    assert Eval(ops, g, Continue, {}, after, heap, 2) == Cont(0, after, heap);
  }

  lemma SkipBodyMeans(ops: Ops, g: Globals, heap: Heap)
    ensures EvalScope(ops, g, SKIP_BODY, [Named("x", Bool(true))], heap, 2) == Cont(0, [Named("x", Bool(false))], heap)
  {
    hide Eval;
    var before, after := [Named("x", Bool(true))], [Named("x", Bool(false))];
    SkipHoists();
    assert before + Nulls([]) == before && Dedup([]) == [] && ToSet([]) == {};
    SkipStmtMeans(ops, g, heap);
    SkipTryMeans(ops, g, heap);
    assert EvalBlock(ops, g, SKIP_BODY.rest, {}, after, heap, 2) == Cont(0, after, heap);
    assert Shrink(after, 1) == after;
  }

  lemma SkipLoopMeans(ops: Ops, g: Globals, heap: Heap)
    ensures Eval(ops, g, SKIP_LOOP, {}, [Named("x", Bool(true))], heap, 2) ==
      Norm(Null, [Named("x", Bool(false))], heap)
  {
    hide EvalScope;
    var before, after := [Named("x", Bool(true))], [Named("x", Bool(false))];
    SkipBodyMeans(ops, g, heap);
    SkipHoists();
    assert before + Nulls([]) == before && Dedup([]) == [] && ToSet([]) == {};
    assert Newest(before, "x") == Some(0) && Newest(after, "x") == Some(0);
    assert Eval(ops, g, Ident("x"), {}, before, heap, 2) == Norm(Bool(true), before, heap);
    assert Eval(ops, g, Ident("x"), {}, after, heap, 1) == Norm(Bool(false), after, heap);
    assert Shrink(after, 1) == after;
    assert RepeatWhile(ops, g, SKIP_LOOP, {}, after, heap, Null, 1) == Norm(Null, after, heap);
    assert RepeatWhile(ops, g, SKIP_LOOP, {}, before, heap, Null, 2) == Norm(Null, after, heap);
  }

  lemma SkipMeans(ops: Ops, g: Globals, heap: Heap)
    ensures EvalProgram(ops, g, SKIP, heap, 2) == Raised(Int(1), [Named("x", Bool(false))], heap)
  {
    hide EvalScope, EvalWhile;
    var before, after := [Named("x", Bool(true))], [Named("x", Bool(false))];
    SkipHoists();
    SkipLoopMeans(ops, g, heap);
    assert [] + Nulls([]) == [] && Dedup([]) == [] && ToSet([]) == {};
    assert Eval(ops, g, SKIP.stmt, {}, [], heap, 2) == Norm(Bool(true), before, heap) by {
      assert Eval(ops, g, Lit(Bool(true)), {}, [], heap, 2) == Norm(Bool(true), [], heap);
      assert [] + before == before;
    }
    assert EvalBlock(ops, g, SKIP.rest.rest, {}, after, heap, 2) == Raised(Int(1), after, heap) by {
      assert Eval(ops, g, Lit(Int(1)), {}, after, heap, 2) == Norm(Int(1), after, heap);
    }
    assert EvalBlock(ops, g, SKIP.rest, {}, before, heap, 2) == Raised(Int(1), after, heap);
  }
}
