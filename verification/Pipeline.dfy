/** From a parsed program to the instructions the machine runs (`run_source_inner` of src/vm/mod.rs): fold,
    compile, run. What the compiler object returns means what the program as written means. */
module Pipeline {
  import opened Ast
  import opened Wrappers
  import opened Meaning
  import opened Machine
  import opened Lowering
  import opened SimulationBase
  import opened Correctness
  import opened Folding
  import opened Emission
  import opened StackDiscipline
  import opened Tracker

  // ----- bare instructions -----

  /** Instructions as the machine holds them, without what the compiler tracked. */
  function Bare(code: seq<Instr>): (p: Code)
    ensures |p| == |code| && forall i :: 0 <= i < |code| ==> p[i].op == code[i]
  {
    seq(|code|, i requires 0 <= i < |code| => Cell(code[i], 0, []))
  }

  predicate SameInstructions(p: Code, q: Code) {
    |p| == |q| && forall i :: 0 <= i < |p| ==> p[i].op == q[i].op
  }

  lemma {:induction false} SameSteps(ops: Ops, g: Globals, p: Code, q: Code, c: Config, n: nat)
    requires SameInstructions(p, q)
    ensures Steps(ops, g, p, c, n) == Steps(ops, g, q, c, n)
    decreases n
  {
    hide Exec, Machine.Catch;
    if n > 0 {
      SameSteps(ops, g, p, q, Step(ops, g, p, c), n - 1);
    }
  }

  lemma SameEnds(w: World, p: Code, s: State, e: Ending)
    requires SameInstructions(w.p, p)
    ensures MachineEnds(w, s, e) <==> MachineEnds(w.(p := p), s, e)
  {
    hide Steps, Final;
    forall n: nat ensures Ran(w, Run(s), n) == Ran(w.(p := p), Run(s), n) {
      SameSteps(w.ops, w.g, w.p, p, Run(s), n);
    }
  }

  // ----- folding leaves the jumps where they are -----

  lemma {:induction false} FoldKeepsJumps(fl: Floats, e: Expr, loops: nat)
    ensures JumpsOk(FoldExpr(fl, e), loops) == JumpsOk(e, loops)
    decreases e, 1
  {
    hide FoldBinop, FoldUnop;
    match e
    case Lit(_) =>
    case Ident(_) =>
    case Continue =>
    case Binary(op, l, r) =>
      FoldKeepsJumps(fl, l, loops);
      FoldKeepsJumps(fl, r, loops);
      FoldBinopIsLit(fl, op, FoldExpr(fl, l), FoldExpr(fl, r));
    case Unary(op, x) =>
      FoldKeepsJumps(fl, x, loops);
      FoldUnopIsLit(fl, op, FoldExpr(fl, x));
    case Paren(b) => FoldKeepsJumpsBlock(fl, b, loops);
    case Scope(b) => FoldKeepsJumpsBlock(fl, b, loops);
    case Decl(_, v) => FoldKeepsJumps(fl, v, loops);
    case Assign(_, _, v) => FoldKeepsJumps(fl, v, loops);
    case Index(o, k) =>
      FoldKeepsJumps(fl, o, loops);
      FoldKeepsJumps(fl, k, loops);
    case IndexAssign(o, k, _, v) =>
      FoldKeepsJumps(fl, o, loops);
      FoldKeepsJumps(fl, k, loops);
      FoldKeepsJumps(fl, v, loops);
    case Raise(x) => FoldKeepsJumps(fl, x, loops);
    case _ => FoldKeepsJumpsWithin(fl, e, loops);
  }

  lemma {:induction false} FoldKeepsJumpsWithin(fl: Floats, e: Expr, loops: nat)
    requires e.If? || e.While? || e.For? || e.Break? || e.Return? || e.Try?
    ensures JumpsOk(FoldExpr(fl, e), loops) == JumpsOk(e, loops)
    decreases e, 0
  {
    hide FoldBinop, FoldUnop;
    match e
    case If(c, t, f) =>
      FoldKeepsJumps(fl, c, loops);
      FoldKeepsJumps(fl, t, loops);
      FoldKeepsJumps(fl, f, loops);
    case While(_, c, b) =>
      FoldKeepsJumps(fl, c, loops + 1);
      FoldKeepsJumpsBlock(fl, b, loops + 1);
    case For(_, _, _, it, b) =>
      FoldKeepsJumps(fl, it, loops);
      FoldKeepsJumpsBlock(fl, b, loops + 1);
    case Break(arg) => if arg.Some? && loops > 0 { FoldKeepsJumps(fl, arg.value, loops - 1); }
    case Return(arg) => if arg.Some? { FoldKeepsJumps(fl, arg.value, loops); }
    case Try(x, h) =>
      FoldKeepsJumps(fl, x, 0);
      if h.Some? {
        FoldKeepsJumpsBlock(fl, h.value.body, loops);
      }
  }

  lemma {:induction false} FoldKeepsJumpsBlock(fl: Floats, b: Block, loops: nat)
    ensures JumpsOkBlock(FoldBlock(fl, b), loops) == JumpsOkBlock(b, loops)
    decreases b
  {
    match b
    case End =>
    case Tail(e) => FoldKeepsJumps(fl, e, loops);
    case Then(s, rest) =>
      FoldKeepsJumps(fl, s, loops);
      FoldKeepsJumpsBlock(fl, rest, loops);
  }

  // ----- what the code returned does -----

  /** Run on any operations that do arithmetic as the machine does, the instructions end as the program as
      written does, and only then, with the same value or error and the same heap. */
  ghost predicate EndsAsWritten(code: seq<Instr>, fl: Floats, program: Block, globals: seq<string>) {
    forall er: Errors, w: World, closure: Value, heap: Heap, e: Ending ::
      w.g.names == globals && w.p == Bare(code) && VmArithmetic(w.ops, fl, er) ==>
        (SourceEnds(w.ops, w.g, program, heap, e) <==> MachineEnds(w, Correctness.Start(closure, heap), e))
  }

  /** On any operations whatever, no step finds an operand or a slot missing or leaves the code, and the stack
      has the height the compiler tracked in `cells`, but for the jumps of `break` and `continue`. */
  ghost predicate RunsSafely(code: seq<Instr>, cells: Code, globals: seq<string>) {
    forall w: World, closure: Value, heap: Heap, n: nat ::
      w.g.names == globals && w.p == Bare(code) ==> SafeAfter(w, cells, closure, heap, n)
  }

  ghost predicate SafeAfter(w: World, cells: Code, closure: Value, heap: Heap, n: nat) {
    var c := Ran(w, Run(Correctness.Start(closure, heap)), n);
    && !c.Stuck?
    && (c.Run? ==>
          0 <= c.s.pc < |cells| && FramesOk(cells, c.s.tries, cells[c.s.pc].tries)
          && (|c.s.stack| == cells[c.s.pc].h <==> !Untold(cells, c.s.pc)))
  }

  lemma CodeEndsAsWritten(code: seq<Instr>, fl: Floats, er: Errors, program: Block, w: World, closure: Value,
        heap: Heap, e: Ending)
    requires Compilable(FoldBlock(fl, program), w.g) && VmArithmetic(w.ops, fl, er) && w.p == Bare(code)
    requires SameInstructions(w.p, CompileProgram(FoldBlock(fl, program), w.g.names).code)
    ensures SourceEnds(w.ops, w.g, program, heap, e) <==> MachineEnds(w, Correctness.Start(closure, heap), e)
  {
    hide FoldBlock, CompileProgram, Compilable, SourceEnds, MachineEnds, VmArithmetic;
    var cells := CompileProgram(FoldBlock(fl, program), w.g.names).code;
    FoldThenCompile(fl, er, program, w.(p := cells), closure, heap, e);
    SameEnds(w, cells, Correctness.Start(closure, heap), e);
  }

  lemma CodeRunsSafely(code: seq<Instr>, program: Block, w: World, closure: Value, heap: Heap, n: nat)
    requires Compilable(program, w.g) && w.p == Bare(code)
    requires SameInstructions(w.p, CompileProgram(program, w.g.names).code)
    ensures SafeAfter(w, CompileProgram(program, w.g.names).code, closure, heap, n)
  {
    hide CompileProgram, Compilable, FramesOk, Untold, Steps;
    var cells := CompileProgram(program, w.g.names).code;
    var s := Correctness.Start(closure, heap);
    SameSteps(w.ops, w.g, w.p, cells, Run(s), n);
    NeverStuck(program, w.(p := cells), closure, heap, n);
    if Ran(w.(p := cells), Run(s), n).Run? {
      TrackerIsExact(program, w.(p := cells), closure, heap, n);
    }
  }

  /** Fold and compile. Code comes back unless an error was recorded; and if the byte operands of the folded
      program fit and the jumps of the program as written stay inside their `try`, that code runs safely and
      ends as the program as written means. */
  method FoldAndCompile(fl: Floats, program: Block, globals: seq<string>) returns (compiled: Option<seq<Instr>>)
    ensures compiled.Some? <==> CompileProgram(FoldBlock(fl, program), globals).ok
    ensures compiled.Some? && CompileProgram(FoldBlock(fl, program), globals).fits && JumpsOkBlock(program, 0) ==>
      && EndsAsWritten(compiled.value, fl, program, globals)
      && RunsSafely(compiled.value, CompileProgram(FoldBlock(fl, program), globals).code, globals)
  {
    hide CompileProgram, FoldBlock, JumpsOkBlock, EndsAsWritten, RunsSafely;
    var folded := FoldBlock(fl, program);
    compiled := CompileSource(folded, globals);
    if compiled.Some? && CompileProgram(folded, globals).fits && JumpsOkBlock(program, 0) {
      FoldKeepsJumpsBlock(fl, program, 0);
      CodeIsRight(compiled.value, fl, program, globals);
    }
  }

  lemma CodeIsRight(code: seq<Instr>, fl: Floats, program: Block, globals: seq<string>)
    requires CompileProgram(FoldBlock(fl, program), globals).fits && JumpsOkBlock(FoldBlock(fl, program), 0)
    requires SameInstructions(Bare(code), CompileProgram(FoldBlock(fl, program), globals).code)
    ensures EndsAsWritten(code, fl, program, globals)
    ensures RunsSafely(code, CompileProgram(FoldBlock(fl, program), globals).code, globals)
  {
    hide CompileProgram, FoldBlock, JumpsOkBlock, SourceEnds, MachineEnds, VmArithmetic, SafeAfter, Bare;
    forall er: Errors, w: World, closure: Value, heap: Heap, e: Ending |
      w.g.names == globals && w.p == Bare(code) && VmArithmetic(w.ops, fl, er)
      ensures SourceEnds(w.ops, w.g, program, heap, e) <==> MachineEnds(w, Correctness.Start(closure, heap), e)
    {
      CodeEndsAsWritten(code, fl, er, program, w, closure, heap, e);
    }
    forall w: World, closure: Value, heap: Heap, n: nat | w.g.names == globals && w.p == Bare(code)
      ensures SafeAfter(w, CompileProgram(FoldBlock(fl, program), globals).code, closure, heap, n)
    {
      CodeRunsSafely(code, FoldBlock(fl, program), w, closure, heap, n);
    }
  }
}
