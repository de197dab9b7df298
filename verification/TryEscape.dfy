/** Why the theorems exclude a `break` out of a `try`: the compiler emits no `PopTry` on that path
    and `Unwind` does not trim the try-frames (src/vm/compiler.rs:2210-2273, src/vm/vm.rs:2196-2201),
    so the frame outlives its `try`. A later `raise` is then caught by a handler in code that was
    left long ago. */
module TryEscape {
  import opened Ast
  import opened Wrappers
  import opened Meaning
  import opened Machine
  import opened Lowering
  import opened SimulationBase

  /** `while true { try break }; raise 1` */
  const LEAK: Block := Then(While(false, Lit(Bool(true)), Tail(Try(Break(None), None))), Tail(Raise(Lit(Int(1)))))

  const LOOP: LoopCtx := LoopCtx(0, 1, 2, false, 1, 0)

  /** The compiler's state inside the loop. */
  function Inside(globals: seq<string>, tries: seq<nat>): Ctx {
    Ctx([], 2, map[], 0, [LOOP], 1, tries, globals)
  }

  /** The code of the `try` in the loop's body, whose `break` still has to be patched. */
  function TryCodeOf(): seq<Instr> {
    [PushTry(7), PushNull, StoreLocal(1), Pop, Unwind(2), Hole(0), PopTry, Jump(2), Pop, PushNull]
  }

  function Instrs(code: Code): (r: seq<Instr>)
    ensures |r| == |code| && forall i :: 0 <= i < |r| ==> r[i] == code[i].op
  {
    seq(|code|, i requires 0 <= i < |code| => code[i].op)
  }

  lemma BreakCode(globals: seq<string>)
    ensures var r := Compile(Break(None), Inside(globals, [2]), 5);
      Instrs(r.code) == [PushNull, StoreLocal(1), Pop, Unwind(2), Hole(0)] && r.h == 3 && r.locals == [] && r.ok
        && r.fits
  {
    assert CompileBreak(Break(None), Inside(globals, [2]), 5).fits;
  }

  lemma TryCode(globals: seq<string>)
    ensures var r := Compile(Try(Break(None), None), Inside(globals, []), 4);
      Instrs(r.code) == TryCodeOf() && r.h == 3 && r.locals == [] && r.ok && r.fits
  {
    BreakCode(globals);
    var c := Inside(globals, []);
    assert c.(tries := c.tries + [c.h]) == Inside(globals, [2]);
    var a := Compile(Break(None), Inside(globals, [2]), 5);
    TryAround(c, a);
  }

  lemma TryAround(c: Ctx, a: Result)
    requires c == Inside(c.globals, []) && a == Compile(Break(None), Inside(c.globals, [2]), 5)
    requires Instrs(a.code) == [PushNull, StoreLocal(1), Pop, Unwind(2), Hole(0)] && a.h == 3 && a.locals == [] && a.ok
    requires a.fits
    ensures var r := Compile(Try(Break(None), None), c, 4);
      Instrs(r.code) == TryCodeOf() && r.h == 3 && r.locals == [] && r.ok && r.fits
  {
    hide CompileTry, Compile, Instrs;
    var front, back := At(c, 2, PushTry(7)), TryBack(c);
    TryIs(c);
    TryShape(c, a);
    Joined(front, a.code, back);
    OneInstr(c, 2, PushTry(7));
    BackInstrs(c);
  }

  function TryBack(c: Ctx): Code {
    [Cell(PopTry, 3, [2])] + At(c, 3, Jump(2)) + (At(c, 3, Pop) + At(c, 2, PushNull))
  }

  lemma BackInstrs(c: Ctx)
    ensures Instrs(TryBack(c)) == [PopTry, Jump(2), Pop, PushNull]
  {
  }

  lemma TryShape(c: Ctx, a: Result)
    requires c == Inside(c.globals, []) && a == Compile(Break(None), Inside(c.globals, [2]), 5)
    requires |a.code| == 5 && a.h == 3 && a.locals == [] && a.ok && a.fits
    ensures CompileTry(Try(Break(None), None), c, 4) ==
      Result(At(c, 2, PushTry(7)) + a.code + TryBack(c), [], 3, true, true)
  {
    hide Compile;
    assert c.(tries := c.tries + [c.h]) == Inside(c.globals, [2]);
    var tail := At(c, 3, Pop) + At(c, 2, PushNull);
    assert CompileHandler(None, After(c, a), 12) == Result(tail, [], 3, true, true);
    var front, shut, jump := At(c, 2, PushTry(7)), [Cell(PopTry, 3, [2])], At(c, 3, Jump(2));
    assert front + a.code + shut + jump + tail == front + a.code + (shut + jump + tail);
  }

  lemma TryIs(c: Ctx)
    ensures Compile(Try(Break(None), None), c, 4) == CompileTry(Try(Break(None), None), c, 4)
  {
  }

  function LoopOps(): seq<Instr> {
    [LoadConst(Bool(true)), JumpIfFalse(14), Pop] + TryCodeOf()[5 := Jump(8)] + [StoreLocal(1), Pop, Loop(16), Pop]
  }

  lemma CondCode(globals: seq<string>)
    ensures var a := Compile(Lit(Bool(true)), Inside(globals, []), 1);
      a.code == At(Inside(globals, []), 2, LoadConst(Bool(true))) && a.h == 3 && a.locals == [] && a.ok && a.fits
  {
  }

  lemma LoopOpsOf(head: Ctx, a: Result, b: Result)
    requires Instrs(a.code) == [LoadConst(Bool(true))] && Instrs(b.code) == TryCodeOf()
    ensures var code := WhileCode(false, head, 1, 1, a, b);
      |code| == 17 && Instrs(Patch(code, 1, 0, 18)) == LoopOps()
  {
    Unpatched(head, a, b);
    var code := WhileCode(false, head, 1, 1, a, b);
    hide WhileCode;
    var ops := Instrs(Patch(code, 1, 0, 18));
    forall i | 0 <= i < 17 ensures ops[i] == LoopOps()[i] {
      assert code[i].op == Instrs(code)[i];
    }
  }

  lemma Unpatched(head: Ctx, a: Result, b: Result)
    requires Instrs(a.code) == [LoadConst(Bool(true))] && Instrs(b.code) == TryCodeOf()
    ensures Instrs(WhileCode(false, head, 1, 1, a, b)) == LoopOps()[8 := Hole(0)]
  {
    var front := a.code + At(head, a.h, JumpIfFalse(14)) + At(head, a.h, Pop);
    var back := Fold(head, b.h, false, 1) + At(head, Less(b.h, 1), Loop(16)) + At(head, a.h, Pop);
    assert Instrs(front) == [LoadConst(Bool(true)), JumpIfFalse(14), Pop];
    assert Instrs(back) == [StoreLocal(1), Pop, Loop(16), Pop];
    Joined(front, b.code, back);
    assert WhileCode(false, head, 1, 1, a, b) == front + b.code + back;
  }

  lemma Joined(a: Code, b: Code, c: Code)
    ensures Instrs(a + b + c) == Instrs(a) + Instrs(b) + Instrs(c)
  {
  }

  lemma LoopCode(globals: seq<string>)
    ensures var r := WhileLoop(LEAK.stmt, Ctx([], 2, map[], 0, [], 0, [], globals), 1, 1);
      Instrs(r.code) == LoopOps() && r.h == 2 && r.locals == [] && r.ok && r.fits
  {
    hide Compile, CompileScope, WhileCode, LoopOps;
    var e := LEAK.stmt;
    var head := Ctx([], 2, map[], 0, [], 0, [], globals);
    var inner := Inside(globals, []);
    CondCode(globals);
    var a := Compile(e.cond, inner, 1);
    BodyCode(globals);
    var b := CompileScope(e.body, inner, 4);
    assert Drop(After(inner, a)) == inner;
    var code := WhileCode(false, head, 1, 1, a, b);
    LoopOpsOf(head, a, b);
    assert head.(loops := head.loops + [LOOP], nloops := 1) == inner by {
      assert [] + [LOOP] == [LOOP];
    }
    assert WhileLoop(e, head, 1, 1).code == Patch(code, 1, 0, 18);
  }

  /** What a `while` whose condition hoists nothing becomes at the start of a program. */
  lemma WhileShape(e: Expr, globals: seq<string>)
    requires e.While? && !e.isArray && HoistExpr(e.cond) == []
    requires WhileLoop(e, Ctx([], 2, map[], 0, [], 0, [], globals), 1, 1).locals == []
    ensures var r := WhileLoop(e, Ctx([], 2, map[], 0, [], 0, [], globals), 1, 1);
      var w := Compile(e, Initial(globals), 0);
      && Instrs(w.code) == [PushNull] + Instrs(r.code) + [LoadLocal(1), CloseScope(1)]
      && w.locals == [] && w.h == Less(r.h + 1, 1) && w.ok == r.ok && w.fits == r.fits
  {
    hide WhileLoop, HoistExpr, Close, Instrs;
    var c := Initial(globals);
    assert Enter(Up(c, 2), []) == Ctx([], 2, map[], 0, [], 0, [], globals);
    var loop := WhileLoop(e, Enter(Up(c, 2), []), 1, 1);
    var open := Result(Seed(c, false) + loop.code + At(c, 2, LoadLocal(1)), [], loop.h + 1, loop.ok, loop.fits);
    assert Compile(e, c, 0) == CompileWhile(e, c, 0) == Close(c, open, 1) by {
      assert Prologue(Up(c, 2), []) == [];
      assert Seed(c, false) + [] == Seed(c, false);
    }
    ClosedOne(c, open);
    Joined(Seed(c, false), loop.code, At(c, 2, LoadLocal(1)));
    Joined(open.code, At(c, loop.h + 1, CloseScope(1)), []);
    OneInstr(c, 1, PushNull);
    OneInstr(c, 2, LoadLocal(1));
    OneInstr(c, loop.h + 1, CloseScope(1));
  }

  lemma ClosedOne(c: Ctx, r: Result)
    requires r.locals == c.locals == []
    ensures Close(c, r, 1) == Result(r.code + At(c, r.h, CloseScope(1)) + [], [], Less(r.h, 1), r.ok, r.fits)
  {
  }

  lemma WhileWhole(globals: seq<string>)
    ensures var r := Compile(LEAK.stmt, Initial(globals), 0);
      Instrs(r.code) == [PushNull] + LoopOps() + [LoadLocal(1), CloseScope(1)] && r.h == 2 && r.locals == [] && r.ok
        && r.fits
  {
    hide WhileLoop, LoopOps, Compile, Instrs;
    LoopCode(globals);
    WhileShape(LEAK.stmt, globals);
  }

  /** The loop and what follows it. */
  lemma ProgramCode(rest: Block, globals: seq<string>)
    requires HoistBlock(rest) == []
    ensures var r := CompileProgram(Then(LEAK.stmt, rest), globals);
      var d := CompileBlock(rest, Initial(globals), 21);
      Instrs(r.code) == Opening() + Instrs(d.code) + [ReturnI] && r.ok == d.ok && r.fits == d.fits
  {
    hide CompileProgram, CompileBlock, Instrs, Compile, HoistBlock, LoopOps;
    var c := Initial(globals);
    WhileWhole(globals);
    LoopOpsSize();
    var a := Compile(LEAK.stmt, c, 0);
    var d := CompileBlock(rest, c, 21);
    ProgramIs(rest, c, a);
    Joined(a.code, At(c, 2, Pop), d.code);
    Joined(a.code + At(c, 2, Pop) + d.code, At(c, d.h, ReturnI), []);
    OneInstr(c, 2, Pop);
    OneInstr(c, d.h, ReturnI);
  }

  lemma ProgramIs(rest: Block, c: Ctx, a: Result)
    requires HoistBlock(rest) == [] && c == Initial(c.globals) && a == Compile(LEAK.stmt, c, 0)
    requires |a.code| == 20 && a.h == 2 && a.locals == [] && a.ok && a.fits
    ensures var r := CompileProgram(Then(LEAK.stmt, rest), c.globals);
      var d := CompileBlock(rest, c, 21);
      r.code == a.code + At(c, 2, Pop) + d.code + At(c, d.h, ReturnI) && r.ok == d.ok && r.fits == d.fits
  {
    hide Compile;
    var program := Then(LEAK.stmt, rest);
    assert HoistBlock(program) == [] by {
      assert HoistStmt(LEAK.stmt) == [];
    }
    assert Dedup([]) == [];
    assert Enter(c, []) == c;
    assert Drop(After(c, a)) == c;
    var d := CompileBlock(rest, c, 21);
    assert CompileBlock(program, c, 0).code == a.code + At(c, 2, Pop) + d.code;
    assert Prologue(c, []) == [];
  }

  lemma OneInstr(c: Ctx, h: nat, i: Instr)
    ensures Instrs(At(c, h, i)) == [i] && Instrs([]) == []
  {
  }

  lemma LeakCode(p: Code, globals: seq<string>)
    requires p == CompileProgram(LEAK, globals).code
    ensures StartsSo(p) && Raises(p) && CompileProgram(LEAK, globals).ok && CompileProgram(LEAK, globals).fits
  {
    hide CompileProgram, Opening;
    assert HoistBlock(LEAK.rest) == [] by {
      assert HoistStmt(Raise(Lit(Int(1)))) == HoistExpr(Lit(Int(1)));
    }
    var c := Initial(globals);
    assert Compile(Lit(Int(1)), c, 21).code == At(c, 1, LoadConst(Int(1)));
    var d := CompileBlock(LEAK.rest, c, 21);
    assert d == Compile(Raise(Lit(Int(1))), c, 21);
    ProgramCode(LEAK.rest, globals);
    OpeningSize();
    assert Instrs(d.code) == [LoadConst(Int(1)), RaiseI];
    assert Instrs(p)[21] == LoadConst(Int(1)) && Instrs(p)[22] == RaiseI;
  }

  lemma LoopOpsSize()
    ensures |LoopOps()| == 17
  {
  }

  lemma OpeningSize()
    ensures |Opening()| == 21
  {
  }

  lemma BodyCode(globals: seq<string>)
    ensures var b := CompileScope(LEAK.stmt.body, Inside(globals, []), 4);
      Instrs(b.code) == TryCodeOf() && b.h == 3 && b.locals == [] && b.ok && b.fits
  {
    var inner := Inside(globals, []);
    var t := Try(Break(None), None);
    assert HoistBlock(Tail(t)) == [] by {
      assert HoistStmt(t) == HoistExpr(t) == HoistExpr(Break(None)) == HoistOption(None) == [];
    }
    assert Enter(inner, []) == inner;
    TryCode(globals);
    var r := Compile(t, inner, 4);
    assert CompileBlock(Tail(t), inner, 4) == r;
    assert CompileScope(Tail(t), inner, 4).code == Prologue(inner, []) + r.code + [];
  }

  /** The loop's body breaks, and the loop is `null`. */
  lemma BodyMeans(ops: Ops, g: Globals, heap: Heap)
    ensures EvalScope(ops, g, LEAK.stmt.body, [], heap, 1) == Brk(0, None, [], heap)
  {
    var t := Try(Break(None), None);
    assert Eval(ops, g, t, {}, [], heap, 1) == Brk(0, None, [], heap) by {
      assert Eval(ops, g, Break(None), {}, [], heap, 1) == Brk(0, None, [], heap);
    }
    assert HoistBlock(Tail(t)) == [] by {
      assert HoistStmt(t) == HoistExpr(t) == HoistExpr(Break(None)) == HoistOption(None) == [];
    }
    assert [] + Nulls([]) == [];
    assert EvalBlock(ops, g, Tail(t), {}, [], heap, 1) == Brk(0, None, [], heap);
  }

  lemma LoopMeans(ops: Ops, g: Globals, heap: Heap)
    requires EvalScope(ops, g, LEAK.stmt.body, [], heap, 1) == Brk(0, None, [], heap)
    ensures Eval(ops, g, LEAK.stmt, {}, [], heap, 1) == Norm(Null, [], heap)
  {
    hide EvalScope;
    var e := LEAK.stmt;
    assert HoistExpr(e.cond) == [] && Dedup([]) == [];
    assert ToSet([]) == {};
    assert [] + Nulls([]) == [];
    assert RepeatWhile(ops, g, e, {}, [], heap, Null, 1) == Norm(Null, [], heap);
    assert EvalWhile(ops, g, e, [], heap, 1) == Norm(Null, [], heap);
  }

  /** The source program raises 1 and nothing catches it. */
  lemma LeakMeans(ops: Ops, g: Globals, heap: Heap)
    ensures EvalProgram(ops, g, LEAK, heap, 1) == Raised(Int(1), [], heap)
  {
    hide EvalScope, EvalWhile;
    var e := LEAK.stmt;
    BodyMeans(ops, g, heap);
    LoopMeans(ops, g, heap);
    assert HoistBlock(LEAK) == [] by {
      assert HoistStmt(e) == [] && HoistBlock(LEAK.rest) == HoistStmt(Raise(Lit(Int(1)))) == HoistExpr(Lit(Int(1)));
    }
    assert Dedup([]) == [] && ToSet([]) == {} && [] + Nulls([]) == [];
    assert EvalBlock(ops, g, LEAK.rest, {}, [], heap, 1) == Raised(Int(1), [], heap);
  }

  /** Code that begins with the loop. */
  ghost predicate StartsSo(p: Code) {
    |p| > 22 && Instrs(p)[..21] == Opening()
  }

  /** The loop and the `Pop` of its value. */
  function Opening(): seq<Instr> {
    [PushNull] + LoopOps() + [LoadLocal(1), CloseScope(1), Pop]
  }

  lemma Goes(w: World, c: Config, n: nat, s: State, i: Instr, s2: State)
    requires Ran(w, c, n) == Run(s) && StartsSo(w.p) && 0 <= s.pc < |w.p| && Instrs(w.p)[s.pc] == i
    requires Exec(w.ops, w.g, i, s) == Run(s2)
    ensures Ran(w, c, n + 1) == Run(s2)
  {
    hide Exec, Steps, StartsSo;
    ThenExec(w, c, n, s, i);
  }

  /** The condition holds: from the loop's head into the `try`. */
  lemma IntoTry(w: World, c: Config, n: nat, s: State)
    requires Ran(w, c, n) == Run(s) && StartsSo(w.p) && s.pc == 1
    ensures Ran(w, c, n + 4) == Run(State(5, s.stack, s.tries + [TryFrame(12, |s.stack|)], s.heap))
  {
    hide Steps, Ran;
    var a := s.stack;
    var t := Bool(true);
    Goes(w, c, n, s, LoadConst(t), State(2, a + [t], s.tries, s.heap));
    Goes(w, c, n + 1, State(2, a + [t], s.tries, s.heap), JumpIfFalse(14), State(3, a + [t], s.tries, s.heap));
    Goes(w, c, n + 2, State(3, a + [t], s.tries, s.heap), Pop, State(4, a, s.tries, s.heap));
    Goes(w, c, n + 3, State(4, a, s.tries, s.heap), PushTry(7), State(5, a, s.tries + [TryFrame(12, |a|)], s.heap));
  }

  /** The `break`: its result is stored, the stack cut, and control is past the loop. The frame stays. */
  lemma OutOfTry(w: World, c: Config, n: nat, s: State)
    requires Ran(w, c, n) == Run(s) && StartsSo(w.p) && s.pc == 5 && 1 <= |s.stack| <= 2
    ensures Ran(w, c, n + 5) == Run(State(18, if |s.stack| == 1 then s.stack else s.stack[1 := Null], s.tries, s.heap))
  {
    hide Steps, Ran, StartsSo;
    var b := if |s.stack| == 1 then s.stack else s.stack[1 := Null];
    StoreBreak(w, c, n, s, b);
    LeaveLoop(w, c, n + 2, State(7, b + [Null], s.tries, s.heap), b);
  }

  lemma StoreBreak(w: World, c: Config, n: nat, s: State, b: seq<Value>)
    requires Ran(w, c, n) == Run(s) && StartsSo(w.p) && s.pc == 5 && 1 <= |s.stack| <= 2
    requires b == if |s.stack| == 1 then s.stack else s.stack[1 := Null]
    ensures Ran(w, c, n + 2) == Run(State(7, b + [Null], s.tries, s.heap))
  {
    hide Steps, Ran;
    Goes(w, c, n, s, PushNull, State(6, s.stack + [Null], s.tries, s.heap));
    Goes(w, c, n + 1, State(6, s.stack + [Null], s.tries, s.heap), StoreLocal(1),
        State(7, b + [Null], s.tries, s.heap));
  }

  lemma LeaveLoop(w: World, c: Config, n: nat, s: State, b: seq<Value>)
    requires Ran(w, c, n) == Run(s) && StartsSo(w.p) && s.pc == 7 && s.stack == b + [Null] && 1 <= |b| <= 2
    ensures Ran(w, c, n + 3) == Run(State(18, b, s.tries, s.heap))
  {
    hide Steps, Ran;
    Goes(w, c, n, s, Pop, State(8, b, s.tries, s.heap));
    Goes(w, c, n + 1, State(8, b, s.tries, s.heap), Unwind(2), State(9, b, s.tries, s.heap));
    Goes(w, c, n + 2, State(9, b, s.tries, s.heap), Jump(8), State(18, b, s.tries, s.heap));
  }

  /** After the loop: its value is dropped. */
  lemma PastLoop(w: World, c: Config, n: nat, a: Value, f: seq<TryFrame>, h: Heap)
    requires Ran(w, c, n) == Run(State(18, [a, Null], f, h)) && StartsSo(w.p)
    ensures Ran(w, c, n + 3) == Run(State(21, [a], f, h))
  {
    hide Steps, Ran;
    Goes(w, c, n, State(18, [a, Null], f, h), LoadLocal(1), State(19, [a, Null, Null], f, h));
    Goes(w, c, n + 1, State(19, [a, Null, Null], f, h), CloseScope(1), State(20, [a, Null], f, h));
    Goes(w, c, n + 2, State(20, [a, Null], f, h), Pop, State(21, [a], f, h));
  }

  /** 1 is raised. */
  lemma ToRaise(w: World, c: Config, n: nat, a: Value, f: seq<TryFrame>, h: Heap)
    requires Ran(w, c, n) == Run(State(21, [a], f, h)) && Raises(w.p)
    ensures Ran(w, c, n + 2) == Raising(Int(1), State(22, [a], f, h))
  {
    hide Steps, Ran;
    ThenExec(w, c, n, State(21, [a], f, h), LoadConst(Int(1)));
    ThenExec(w, c, n + 1, State(22, [a, Int(1)], f, h), RaiseI);
  }

  ghost predicate Raises(p: Code) {
    |p| > 22 && p[21].op == LoadConst(Int(1)) && p[22].op == RaiseI
  }

  /** The stale handler runs and leads back to the head of the loop, without the loop's result. */
  lemma BackToLoop(w: World, c: Config, n: nat, a: Value, h: Heap)
    requires Ran(w, c, n) == Run(State(12, [a, Int(1)], [], h)) && StartsSo(w.p)
    ensures Ran(w, c, n + 5) == Run(State(1, [a], [], h))
  {
    hide Steps, Ran;
    Goes(w, c, n, State(12, [a, Int(1)], [], h), Pop, State(13, [a], [], h));
    Goes(w, c, n + 1, State(13, [a], [], h), PushNull, State(14, [a, Null], [], h));
    Goes(w, c, n + 2, State(14, [a, Null], [], h), StoreLocal(1), State(15, [a, Null], [], h));
    Goes(w, c, n + 3, State(15, [a, Null], [], h), Pop, State(16, [a], [], h));
    Goes(w, c, n + 4, State(16, [a], [], h), Loop(16), State(1, [a], [], h));
  }

  /** The program raises 1; the compiled program runs a handler it has left, re-enters the loop and
      reads a slot that is no longer there: the machine stops with an internal failure. */
  lemma BreakOutOfTryIsWrong(w: World, closure: Value, heap: Heap)
    requires w.p == CompileProgram(LEAK, w.g.names).code
    ensures CompileProgram(LEAK, w.g.names).ok && CompileProgram(LEAK, w.g.names).fits
    ensures EvalProgram(w.ops, w.g, LEAK, heap, 1) == Raised(Int(1), [], heap)
    ensures exists n: nat :: Ran(w, Run(State(0, [closure], [], heap)), n) == Stuck
  {
    hide CompileProgram, EvalProgram, StartsSo, Raises;
    LeakCode(w.p, w.g.names);
    LeakMeans(w.ops, w.g, heap);
    var n := StuckAfter(w, closure, heap);
  }

  lemma StuckAfter(w: World, a: Value, h: Heap) returns (n: nat)
    requires StartsSo(w.p) && Raises(w.p)
    ensures Ran(w, Run(State(0, [a], [], h)), n) == Stuck
  {
    hide Steps, Ran, Raises;
    var c := Run(State(0, [a], [], h));
    CaughtInLoop(w, a, h);
    BackToLoop(w, c, 16, a, h);
    IntoTry(w, c, 21, State(1, [a], [], h));
    OutOfTry(w, c, 25, State(5, [a], [TryFrame(12, 1)], h));
    assert Instrs(w.p)[18] == LoadLocal(1);
    ThenExec(w, c, 30, State(18, [a], [TryFrame(12, 1)], h), LoadLocal(1));
    n := 31;
  }

  /** The raise after the loop lands in the loop's handler. */
  lemma CaughtInLoop(w: World, a: Value, h: Heap)
    requires StartsSo(w.p) && Raises(w.p)
    ensures Ran(w, Run(State(0, [a], [], h)), 16) == Run(State(12, [a, Int(1)], [], h))
  {
    hide Steps;
    var s := State(0, [a], [], h);
    var c := Run(s);
    StartHere(w, c);
    Goes(w, c, 0, s, PushNull, State(1, [a, Null], [], h));
    IntoTry(w, c, 1, State(1, [a, Null], [], h));
    OutOfTry(w, c, 5, State(5, [a, Null], [TryFrame(12, 2)], h));
    PastLoop(w, c, 10, a, [TryFrame(12, 2)], h);
    ToRaise(w, c, 13, a, [TryFrame(12, 2)], h);
    CatchStale(w, c, 15, State(22, [a], [TryFrame(12, 2)], h), State(12, [a, Int(1)], [], h));
  }

  lemma StartHere(w: World, c: Config)
    ensures Ran(w, c, 0) == c
  {
  }

  lemma CatchStale(w: World, start: Config, n: nat, s: State, s2: State)
    requires Ran(w, start, n) == Raising(Int(1), s) && Machine.Catch(Int(1), s) == Run(s2)
    ensures Ran(w, start, n + 1) == Run(s2)
  {
    StepsAdd(w.ops, w.g, w.p, start, n, 1);
    assert Steps(w.ops, w.g, w.p, Raising(Int(1), s), 1) == Steps(w.ops, w.g, w.p, Run(s2), 0);
  }

  // ----- the same loop doing no harm -----

  /** `while true { try break }; 5` */
  const FINE: Block := Then(LEAK.stmt, Tail(Lit(Int(5))))

  lemma FineCode(p: Code, globals: seq<string>)
    requires p == CompileProgram(FINE, globals).code
    ensures StartsSo(p) && |p| > 22 && p[21].op == LoadConst(Int(5)) && p[22].op == ReturnI
  {
    hide CompileProgram, Opening;
    assert HoistBlock(FINE.rest) == [] by {
      assert HoistStmt(Lit(Int(5))) == [];
    }
    var c := Initial(globals);
    var d := CompileBlock(FINE.rest, c, 21);
    assert d == Compile(Lit(Int(5)), c, 21) && d.code == At(c, 1, LoadConst(Int(5)));
    ProgramCode(FINE.rest, globals);
    OpeningSize();
    assert Instrs(d.code) == [LoadConst(Int(5))];
    assert Instrs(p)[21] == LoadConst(Int(5)) && Instrs(p)[22] == ReturnI;
  }

  lemma FineMeans(ops: Ops, g: Globals, heap: Heap)
    ensures EvalProgram(ops, g, FINE, heap, 1) == Norm(Int(5), [], heap)
  {
    hide EvalScope, EvalWhile;
    var e := LEAK.stmt;
    BodyMeans(ops, g, heap);
    LoopMeans(ops, g, heap);
    assert HoistBlock(FINE) == [] by {
      assert HoistStmt(e) == [] && HoistBlock(FINE.rest) == HoistStmt(Lit(Int(5))) == [];
    }
    assert Dedup([]) == [] && ToSet([]) == {} && [] + Nulls([]) == [];
  }

  /** `break` out of a `try` is not always wrong: this program returns 5, and so does its code, although the
      handler is left behind. Nothing is raised while it is. */
  lemma BreakOutOfTryMayDoNoHarm(w: World, closure: Value, heap: Heap)
    requires w.p == CompileProgram(FINE, w.g.names).code
    ensures !JumpsOkBlock(FINE, 0)
    ensures EvalProgram(w.ops, w.g, FINE, heap, 1) == Norm(Int(5), [], heap)
    ensures exists n: nat :: Ran(w, Run(State(0, [closure], [], heap)), n) == Done(Int(5), heap)
  {
    hide CompileProgram, EvalProgram, StartsSo, Steps, Ran;
    FineCode(w.p, w.g.names);
    FineMeans(w.ops, w.g, heap);
    var a := closure;
    var c := Run(State(0, [a], [], heap));
    LoopLeft(w, a, heap);
    ThenExec(w, c, 13, State(21, [a], [TryFrame(12, 2)], heap), LoadConst(Int(5)));
    ThenExec(w, c, 14, State(22, [a, Int(5)], [TryFrame(12, 2)], heap), ReturnI);
    assert !JumpsOkBlock(FINE, 0) by {
      assert !JumpsOk(Try(Break(None), None), 1);
    }
  }

  /** The loop is left with its frame still open. */
  lemma LoopLeft(w: World, a: Value, h: Heap)
    requires StartsSo(w.p)
    ensures Ran(w, Run(State(0, [a], [], h)), 13) == Run(State(21, [a], [TryFrame(12, 2)], h))
  {
    hide Steps;
    var s := State(0, [a], [], h);
    var c := Run(s);
    StartHere(w, c);
    Goes(w, c, 0, s, PushNull, State(1, [a, Null], [], h));
    IntoTry(w, c, 1, State(1, [a, Null], [], h));
    OutOfTry(w, c, 5, State(5, [a, Null], [TryFrame(12, 2)], h));
    PastLoop(w, c, 10, a, [TryFrame(12, 2)], h);
  }
}
