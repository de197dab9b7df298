/** Whole programs: the compiled code returns, fails or runs on exactly as the program means. */
module Correctness {
  import opened Ast
  import opened Meaning
  import opened Machine
  import opened Lowering
  import opened SimulationBase
  import opened Simulation

  /** The machine at the start of a program: only the closure is on the stack. */
  function Start(closure: Value, heap: Heap): State {
    State(0, [closure], [], heap)
  }

  /** How a program that ends has ended. */
  datatype Ending = Returns(v: Value, heap: Heap) | Fails(exn: Value, heap: Heap)

  ghost predicate SourceEnds(ops: Ops, g: Globals, program: Block, heap: Heap, e: Ending) {
    exists fuel: nat :: Ends(EvalProgram(ops, g, program, heap, fuel), e)
  }

  predicate Ends(o: Outcome, e: Ending) {
    match o
    case Norm(v, _, h) => e == Returns(v, h)
    case Ret(v, h) => e == Returns(v, h)
    case Raised(x, _, h) => e == Fails(x, h)
    case _ => false
  }

  function Final(e: Ending): Config {
    match e
    case Returns(v, h) => Done(v, h)
    case Fails(x, h) => Fail(x, h)
  }

  ghost predicate MachineEnds(w: World, s: State, e: Ending) {
    exists n: nat :: Ran(w, Run(s), n) == Final(e)
  }

  /** A program the theorems speak about: its byte operands fit, and its jumps find their loops
      without leaving a `try`. */
  ghost predicate Compilable(program: Block, g: Globals) {
    CompileProgram(program, g.names).fits && JumpsOkBlock(program, 0)
  }

  lemma ProgramParts(program: Block, w: World)
    requires w.p == CompileProgram(program, w.g.names).code && CompileProgram(program, w.g.names).fits
    ensures var c := Initial(w.g.names);
      var names := Dedup(HoistBlock(program));
      var r := CompileBlock(program, Enter(c, names), |names|);
      && CodeAt(w.p, 0, Prologue(c, names), map[]) && CodeAt(w.p, |names|, r.code, map[]) && r.fits
      && 1 + |names| <= 256
      && |names| + |r.code| < |w.p| && w.p[|names| + |r.code|].op == ReturnI
  {
    hide CompileBlock, Prologue, Dedup, HoistBlock, Enter, CodeAt, Placement;
    var c := Initial(w.g.names);
    var names := Dedup(HoistBlock(program));
    var r := CompileBlock(program, Enter(c, names), |names|);
    PrologueLength(c, names);
    WholeCode(w.p);
    Split3(w.p, 0, Prologue(c, names), r.code, At(c, r.h, ReturnI), map[]);
    OneCell(w.p, |names| + |r.code|, c, r.h, ReturnI, map[]);
  }

  lemma WholeCode(p: Code)
    ensures CodeAt(p, 0, p, map[])
  {
  }

  /** One evaluation, one run: the run ends the same way, or is still going after `fuel` steps. */
  lemma ProgramRuns(program: Block, w: World, closure: Value, heap: Heap, fuel: nat) returns (n: nat)
    requires w.p == CompileProgram(program, w.g.names).code && Compilable(program, w.g)
    ensures var o := EvalProgram(w.ops, w.g, program, heap, fuel);
      var end := Ran(w, Run(Start(closure, heap)), n);
      && (o.Norm? ==> end == Done(o.v, o.heap)) && (o.Ret? ==> end == Done(o.v, o.heap))
      && (o.Raised? ==> end == Fail(o.exn, o.heap)) && (o.Timeout? ==> n >= fuel && !Halted(end)) && !o.Brk? && !o.Cont?
  {
    hide CompileBlock, EvalBlock, Prologue, Dedup, HoistBlock, Enter, CodeAt, Steps, CtxOk, Rel, Kept, Later, Pushed,
      Nulls, CompileProgram;
    var c := Initial(w.g.names);
    var s := Start(closure, heap);
    var names := Dedup(HoistBlock(program));
    var r := CompileBlock(program, Enter(c, names), |names|);
    ProgramParts(program, w);
    StartReady(w, closure, heap);
    n := SimOpened(w, program, names, c, 0, map[], [], s, fuel, 0);
    var o := EvalProgram(w.ops, w.g, program, heap, fuel);
    assert [] + Nulls(names) == Nulls(names);
    if o.Norm? {
      FinishProgram(w, c, r, s, o.v, o.env, o.heap, |names| + |r.code|, n);
      n := n + 1;
    } else if o.Raised? {
      Uncaught(w, c, s, o.exn, o.env, o.heap, n);
      n := n + 1;
    }
  }

  lemma StartReady(w: World, closure: Value, heap: Heap)
    ensures Ready(w, Initial(w.g.names), map[], [], Start(closure, heap))
  {
  }

  lemma FinishProgram(w: World, c: Ctx, r: Result, s: State, v: Value, env: Env, heap: Heap, end: int, n: nat)
    requires Pushed(c, r, s, v, env, heap, end, Ran(w, Run(s), n)) && 0 <= end < |w.p| && w.p[end].op == ReturnI
    ensures Ran(w, Run(s), n + 1) == Done(v, heap)
  {
    ThenExec(w, Run(s), n, Ran(w, Run(s), n).s, ReturnI);
  }

  lemma Uncaught(w: World, c: Ctx, s: State, x: Value, env: Env, heap: Heap, n: nat)
    requires Thrown(c, s, x, env, heap, Ran(w, Run(s), n)) && s.tries == []
    ensures Ran(w, Run(s), n + 1) == Fail(x, heap)
  {
    var t := Ran(w, Run(s), n);
    StepsAdd(w.ops, w.g, w.p, Run(s), n, 1);
    assert Steps(w.ops, w.g, w.p, t, 1) == Steps(w.ops, w.g, w.p, Step(w.ops, w.g, w.p, t), 0);
  }

  /** Once halted, always halted: two halting runs from one state end alike. */
  lemma OneEnding(w: World, s: State, n: nat, m: nat)
    requires Halted(Ran(w, Run(s), n)) && Halted(Ran(w, Run(s), m))
    ensures Ran(w, Run(s), n) == Ran(w, Run(s), m)
  {
    if n <= m {
      StepsAdd(w.ops, w.g, w.p, Run(s), n, m - n);
      HaltedStays(w.ops, w.g, w.p, Ran(w, Run(s), n), m - n);
    } else {
      StepsAdd(w.ops, w.g, w.p, Run(s), m, n - m);
      HaltedStays(w.ops, w.g, w.p, Ran(w, Run(s), m), n - m);
    }
  }

  lemma NotHaltedBefore(w: World, s: State, n: nat, m: nat)
    requires n <= m && !Halted(Ran(w, Run(s), m))
    ensures !Halted(Ran(w, Run(s), n))
  {
    if Halted(Ran(w, Run(s), n)) {
      StepsAdd(w.ops, w.g, w.p, Run(s), n, m - n);
      HaltedStays(w.ops, w.g, w.p, Ran(w, Run(s), n), m - n);
    }
  }

  /** Compilation preserves meaning: the compiled program ends with a value or an error exactly when
      the source program does, with the same value or error and the same heap. A program that runs
      for ever therefore compiles to code that runs for ever. */
  lemma CompilePreservesMeaning(program: Block, w: World, closure: Value, heap: Heap, e: Ending)
    requires w.p == CompileProgram(program, w.g.names).code && Compilable(program, w.g)
    ensures SourceEnds(w.ops, w.g, program, heap, e) <==> MachineEnds(w, Start(closure, heap), e)
  {
    hide CompileProgram, EvalProgram, JumpsOkBlock, Steps;
    var s := Start(closure, heap);
    if SourceEnds(w.ops, w.g, program, heap, e) {
      var fuel: nat :| Ends(EvalProgram(w.ops, w.g, program, heap, fuel), e);
      var n := ProgramRuns(program, w, closure, heap, fuel);
      assert Ran(w, Run(s), n) == Final(e);
    }
    if MachineEnds(w, s, e) {
      var m: nat :| Ran(w, Run(s), m) == Final(e);
      var n := ProgramRuns(program, w, closure, heap, m);
      var o := EvalProgram(w.ops, w.g, program, heap, m);
      if o.Timeout? {
        NotHaltedBefore(w, s, m, n);
      } else {
        OneEnding(w, s, m, n);
        assert Ends(o, e);
      }
    }
  }

  /** A compiled program never underflows its stack, reads a missing slot or leaves its code. */
  lemma NeverStuck(program: Block, w: World, closure: Value, heap: Heap, m: nat)
    requires w.p == CompileProgram(program, w.g.names).code && Compilable(program, w.g)
    ensures !Ran(w, Run(Start(closure, heap)), m).Stuck?
  {
    hide CompileProgram, EvalProgram, JumpsOkBlock, Steps;
    var s := Start(closure, heap);
    var n := ProgramRuns(program, w, closure, heap, m);
    if Ran(w, Run(s), m).Stuck? {
      if EvalProgram(w.ops, w.g, program, heap, m).Timeout? {
        NotHaltedBefore(w, s, m, n);
      } else {
        OneEnding(w, s, m, n);
      }
    }
  }
}
