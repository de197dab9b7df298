/** The compiler in its own form: one pass that appends to the chunk, tracks the stack height, keeps a
    stack of scopes and loops, and back-patches jumps in place (src/vm/compiler.rs). Each method is
    proved to leave exactly the code and the state that `Lowering` defines. */
module Emission {
  import opened Ast
  import opened Wrappers
  import opened Machine
  import opened Lowering
  import opened LoweringShape
  import Meaning
  import Simulation
  import SimulationBase
  import StackFlow

  /** The distance written before a jump is patched. */
  const PENDING: int := 0xffff_ffff

  /** Names no source identifier can be (`""`, `$while_result`, `$for_iter`) are `Hidden`. */
  datatype LocalName = User(x: string) | Hidden

  datatype LocalVar = LocalVar(name: LocalName, depth: nat, slot: nat)

  datatype LoopState = LoopState(resultSlot: nat, base: nat, isArray: bool, exitJumps: seq<nat>, skip: bool, start: nat)

  datatype CompileError =
    | UndeclaredVariable(x: string) | UndeclaredAssign(x: string) | AssignToBuiltin(x: string)
    | DuplicateDeclaration(x: string) | BreakOutsideLoop | ContinueOutsideLoop | TooManyLocals

  // ----- the chunk against the cells it stands for -----

  function Written(op: Instr): Instr {
    if op.Hole? then Jump(PENDING) else op
  }

  /** The chunk's instructions: an open `break` is a jump with a pending distance. */
  function Lay(cells: Code): (r: seq<Instr>)
    ensures |r| == |cells| && forall i :: 0 <= i < |r| ==> r[i] == Written(cells[i].op)
  {
    seq(|cells|, i requires 0 <= i < |cells| => Written(cells[i].op))
  }

  /** Positions of the jumps still open for loop `id`, in order. */
  function Holes(cells: Code, id: nat): (r: seq<nat>)
    ensures forall k :: 0 <= k < |r| ==> r[k] < |cells| && cells[r[k]].op == Hole(id)
    ensures forall i :: 0 <= i < |cells| && cells[i].op == Hole(id) ==> i in r
    ensures forall j, k :: 0 <= j < k < |r| ==> r[j] < r[k]
    decreases |cells|
  {
    if cells == [] then []
    else
      var n := |cells| - 1;
      var before := Holes(cells[..n], id);
      assert forall i :: 0 <= i < n ==> cells[..n][i] == cells[i];
      if cells[n].op == Hole(id) then before + [n] else before
  }

  lemma HolesAppend(cells: Code, c: Cell, id: nat)
    ensures Holes(cells + [c], id) == if c.op == Hole(id) then Holes(cells, id) + [|cells|] else Holes(cells, id)
  {
    assert (cells + [c])[..|cells|] == cells;
  }

  /** Rewriting cells that are not holes of loop `id`, before and after, moves none of its holes. */
  lemma {:induction false} HolesKept(a: Code, b: Code, id: nat)
    requires |a| == |b| && forall i :: 0 <= i < |a| ==> (a[i].op == Hole(id) <==> b[i].op == Hole(id))
    ensures Holes(a, id) == Holes(b, id)
    decreases |a|
  {
    if a != [] {
      var n := |a| - 1;
      HolesKept(a[..n], b[..n], id);
    }
  }

  /** Every open jump belongs to one of the first `n` loops. */
  predicate Closed(cells: Code, n: nat) {
    forall i :: 0 <= i < |cells| && cells[i].op.Hole? ==> cells[i].op.loopId < n
  }

  /** Every loop remembers exactly the jumps left open for it. */
  ghost predicate ExitsListed(loops: seq<LoopState>, cells: Code) {
    forall i :: 0 <= i < |loops| ==> loops[i].exitJumps == Holes(cells, i)
  }

  lemma InnermostExits(loops: seq<LoopState>, cells: Code)
    requires ExitsListed(loops, cells) && loops != []
    ensures loops[|loops| - 1].exitJumps == Holes(cells, |loops| - 1) && ExitsListed(loops[..|loops| - 1], cells)
  {
  }

  /** One more instruction, no hole. */
  lemma Grow(loops: seq<LoopState>, cells: Code, c: Cell, n: nat)
    requires ExitsListed(loops, cells) && Closed(cells, n) && !c.op.Hole?
    ensures ExitsListed(loops, cells + [c]) && Closed(cells + [c], n) && Lay(cells + [c]) == Lay(cells) + [c.op]
  {
    forall i | 0 <= i < |loops| ensures loops[i].exitJumps == Holes(cells + [c], i) {
      HolesAppend(cells, c, i);
    }
  }

  /** One more open jump. */
  lemma GrowHole(loops: seq<LoopState>, cells: Code, c: Cell, t: nat)
    requires ExitsListed(loops, cells) && Closed(cells, |loops|) && t < |loops| && c.op == Hole(t)
    ensures var ls := loops[t := loops[t].(exitJumps := loops[t].exitJumps + [|cells|])];
      ExitsListed(ls, cells + [c]) && SameLoops(ls, loops)
    ensures Closed(cells + [c], |loops|) && Lay(cells + [c]) == Lay(cells) + [Jump(PENDING)]
  {
    hide Holes;
    var ls := loops[t := loops[t].(exitJumps := loops[t].exitJumps + [|cells|])];
    assert ls[t].exitJumps == loops[t].exitJumps + [|cells|];
    forall i | 0 <= i < |ls| ensures ls[i].exitJumps == Holes(cells + [c], i) {
      HolesAppend(cells, c, i);
      if i != t {
        assert ls[i] == loops[i];
      }
    }
  }

  /** A new loop starts without exits. */
  lemma PushedLoop(loops: seq<LoopState>, visible: seq<nat>, cells: Code, l: LoopState, v: nat)
    requires ExitsListed(loops, cells) && Closed(cells, |loops|) && |visible| == |loops| && l.exitJumps == [] && !l.skip
    ensures ExitsListed(loops + [l], cells) && Closed(cells, |loops| + 1)
    ensures Active(loops + [l], visible + [v]) == Active(loops, visible) + [AsCtx(l, |loops|, v)]
  {
    hide Holes;
    NoHoles(cells, |loops|);
    forall i | 0 <= i < |loops + [l]| ensures (loops + [l])[i].exitJumps == Holes(cells, i) {
      if i < |loops| {
        assert (loops + [l])[i] == loops[i];
      }
    }
    assert (loops + [l])[..|loops|] == loops && (visible + [v])[..|loops|] == visible;
  }

  /** The first `k` of the jumps in `exits` have been patched to the end of the code. */
  ghost predicate PatchedTo(before: Code, after: Code, exits: seq<nat>, k: nat, id: nat) {
    && |after| == |before| && k <= |exits|
    && forall i :: 0 <= i < |after| ==> after[i] == if i in exits[..k] then PatchCell(before[i], i, id, |before|)
       else before[i]
  }

  lemma NonePatched(cells: Code, exits: seq<nat>, id: nat)
    ensures PatchedTo(cells, cells, exits, 0, id)
  {
  }

  lemma PatchNext(before: Code, after: Code, exits: seq<nat>, k: nat, id: nat)
    requires exits == Holes(before, id) && PatchedTo(before, after, exits, k, id) && k < |exits|
    ensures exits[k] < |after| && after[exits[k]].op == Hole(id)
    ensures PatchedTo(before, after[exits[k] := after[exits[k]].(op := Jump(|after| - exits[k] - 1))], exits, k + 1, id)
  {
    assert exits[k] !in exits[..k];
    assert exits[..k + 1] == exits[..k] + [exits[k]];
  }

  lemma PatchedAll(before: Code, after: Code, exits: seq<nat>, id: nat)
    requires exits == Holes(before, id) && PatchedTo(before, after, exits, |exits|, id) && Closed(before, id + 1)
    ensures after == Patch(before, 0, id, |before|) && Closed(after, id)
  {
    assert exits[..|exits|] == exits;
    forall i | 0 <= i < |after| ensures after[i] == PatchCell(before[i], i, id, |before|) {
    }
  }

  /** A jump patched: open jumps of the remaining loops stay where they are. */
  lemma Patched(loops: seq<LoopState>, cells: Code, at: nat, op: Instr)
    requires ExitsListed(loops, cells) && at < |cells| && !op.Hole?
    requires cells[at].op.Hole? ==> cells[at].op.loopId >= |loops|
    ensures var cs := cells[at := cells[at].(op := op)];
      ExitsListed(loops, cs) && (Closed(cells, |loops|) ==> Closed(cs, |loops|)) && Lay(cs) == Lay(cells)[at := op]
  {
    var cs := cells[at := cells[at].(op := op)];
    forall i | 0 <= i < |loops| ensures loops[i].exitJumps == Holes(cs, i) {
      HolesKept(cells, cs, i);
    }
  }

  lemma {:induction false} NoHoles(cells: Code, id: nat)
    requires Closed(cells, id)
    ensures Holes(cells, id) == []
    decreases |cells|
  {
    if cells != [] {
      NoHoles(cells[..|cells| - 1], id);
    }
  }

  // ----- locals and loops against the spec's context -----

  function Users(ls: seq<LocalVar>): seq<Local>
    decreases |ls|
  {
    if ls == [] then []
    else
      var n := |ls| - 1;
      Users(ls[..n]) + if ls[n].name.User? then [Named(ls[n].name.x, ls[n].slot)] else []
  }

  lemma {:induction false} UsersAppend(a: seq<LocalVar>, b: seq<LocalVar>)
    ensures Users(a + b) == Users(a) + Users(b)
    decreases |b|
  {
    if b == [] {
      assert a + b == a;
    } else {
      var n := |b| - 1;
      assert (a + b)[..|a| + n] == a + b[..n];
      UsersAppend(a, b[..n]);
    }
  }

  /** Locals of inner scopes come after those of outer ones, and none is deeper than `depth`. */
  predicate Layered(ls: seq<LocalVar>, depth: nat) {
    && (forall i :: 0 <= i < |ls| ==> ls[i].depth <= depth)
    && (forall i, j :: 0 <= i < j < |ls| ==> ls[i].depth <= ls[j].depth)
  }

  /** Number of locals below the scope at `depth`. */
  function Outer(ls: seq<LocalVar>, depth: nat): (n: nat)
    ensures n <= |ls| && (n > 0 ==> ls[n - 1].depth < depth) && forall i :: n <= i < |ls| ==> ls[i].depth >= depth
    decreases |ls|
  {
    if ls == [] || ls[|ls| - 1].depth < depth then |ls| else Outer(ls[..|ls| - 1], depth)
  }

  lemma {:induction false} OuterAppend(a: seq<LocalVar>, b: seq<LocalVar>, depth: nat)
    requires forall i :: 0 <= i < |b| ==> b[i].depth >= depth
    ensures Outer(a + b, depth) == Outer(a, depth)
    decreases |b|
  {
    if b == [] {
      assert a + b == a;
    } else {
      assert (a + b)[..|a + b| - 1] == a + b[..|b| - 1];
      OuterAppend(a, b[..|b| - 1], depth);
    }
  }

  /** Loops a `break` may target, outermost first. */
  function Active(ls: seq<LoopState>, visible: seq<nat>): seq<LoopCtx>
    requires |ls| == |visible|
    decreases |ls|
  {
    if ls == [] then []
    else
      var n := |ls| - 1;
      Active(ls[..n], visible[..n]) + if ls[n].skip then [] else [AsCtx(ls[n], n, visible[n])]
  }

  function AsCtx(l: LoopState, id: nat, visible: nat): LoopCtx {
    LoopCtx(id, l.resultSlot, l.base, l.isArray, l.start, visible)
  }

  function Skipped(ls: seq<LoopState>, t: nat): seq<LoopState>
    requires t < |ls|
  {
    ls[t := ls[t].(skip := true)]
  }

  /** Skipping the innermost active loop takes it off the end. */
  lemma {:induction false} SkipInnermost(ls: seq<LoopState>, visible: seq<nat>, t: nat)
    requires |ls| == |visible| && t < |ls| && !ls[t].skip && forall j :: t < j < |ls| ==> ls[j].skip
    ensures Active(ls, visible) == Active(Skipped(ls, t), visible) + [AsCtx(ls[t], t, visible[t])]
    decreases |ls|
  {
    var n := |ls| - 1;
    var ms := ls[t := ls[t].(skip := true)];
    if t < n {
      assert ms[..n] == ls[..n][t := ls[t].(skip := true)];
      SkipInnermost(ls[..n], visible[..n], t);
    } else {
      assert ms[..n] == ls[..n];
    }
  }

  lemma {:induction false} AllSkipped(ls: seq<LoopState>, visible: seq<nat>)
    requires |ls| == |visible| && forall j :: 0 <= j < |ls| ==> ls[j].skip
    ensures Active(ls, visible) == []
    decreases |ls|
  {
    if ls != [] {
      AllSkipped(ls[..|ls| - 1], visible[..|ls| - 1]);
    }
  }

  /** The pending exits are not part of what the spec sees. */
  predicate SameLoops(a: seq<LoopState>, b: seq<LoopState>) {
    |a| == |b| && forall i :: 0 <= i < |a| ==> a[i].(exitJumps := []) == b[i].(exitJumps := [])
  }

  lemma SameUnskipped(a: seq<LoopState>, b: seq<LoopState>, t: nat)
    requires t < |a| && !a[t].skip && SameLoops(b, Skipped(a, t))
    ensures SameLoops(b[t := b[t].(skip := false)], a)
  {
    var d, m := b[t := b[t].(skip := false)], Skipped(a, t);
    forall i | 0 <= i < |a| ensures d[i].(exitJumps := []) == a[i].(exitJumps := []) {
      assert b[i].(exitJumps := []) == m[i].(exitJumps := []);
    }
  }

  lemma {:induction false} SameActive(a: seq<LoopState>, b: seq<LoopState>, visible: seq<nat>)
    requires SameLoops(a, b) && |a| == |visible|
    ensures Active(a, visible) == Active(b, visible)
    decreases |a|
  {
    if a != [] {
      var n := |a| - 1;
      assert a[n].(exitJumps := []) == b[n].(exitJumps := []);
      SameActive(a[..n], b[..n], visible[..n]);
    }
  }

  /** The tracker's change at each instruction; operand-dependent effects are applied by the caller. */
  function Delta(op: Instr): int {
    match op
    case LoadConst(_) => 1
    case LoadLocal(_) => 1
    case LoadGlobal(_) => 1
    case PushNull => 1
    case Dup => 1
    case Dup2 => 2
    case Pop => -1
    case RaiseI => -1
    case BinI(_) => -1
    case AddAssign => -1
    case IndexGet => -1
    case IterAppend(_) => -1
    case IndexSet => -2
    case _ => 0
  }

  predicate Patchable(op: Instr) {
    op.Jump? || op.JumpIfFalse? || op.JumpIfTrue? || op.IterNext? || op.IterNext2? || op.PushTry?
  }

  function WithDist(op: Instr, d: int): Instr
    requires Patchable(op)
  {
    match op
    case Jump(_) => Jump(d)
    case JumpIfFalse(_) => JumpIfFalse(d)
    case JumpIfTrue(_) => JumpIfTrue(d)
    case IterNext(_) => IterNext(d)
    case IterNext2(_) => IterNext2(d)
    case PushTry(_) => PushTry(d)
  }

  /** All the locals in `ls` are named. */
  predicate AllUsers(ls: seq<LocalVar>) {
    forall i :: 0 <= i < |ls| ==> ls[i].name.User?
  }

  lemma {:induction false} UsersCount(ls: seq<LocalVar>)
    requires AllUsers(ls)
    ensures |Users(ls)| == |ls| && forall i :: 0 <= i < |ls| ==> Users(ls)[i] == Named(ls[i].name.x, ls[i].slot)
    decreases |ls|
  {
    if ls != [] {
      UsersCount(ls[..|ls| - 1]);
    }
  }

  /** Some local in `ls` is the user name `x`. */
  predicate Occurs(ls: seq<LocalVar>, x: string) {
    exists i :: 0 <= i < |ls| && ls[i].name == User(x)
  }

  lemma {:induction false} UsersOccur(ls: seq<LocalVar>, x: string)
    ensures Occurs(ls, x) <==> exists i :: 0 <= i < |Users(ls)| && Users(ls)[i].name == x
    decreases |ls|
  {
    if ls != [] {
      var n := |ls| - 1;
      UsersOccur(ls[..n], x);
      assert Occurs(ls, x) <==> Occurs(ls[..n], x) || ls[n].name == User(x);
      var us, vs := Users(ls[..n]), Users(ls);
      if ls[n].name == User(x) {
        assert vs[|us|].name == x;
      }
      assert (exists i :: 0 <= i < |us| && us[i].name == x) ==> exists i :: 0 <= i < |vs| && vs[i].name == x by {
        if i :| 0 <= i < |us| && us[i].name == x {
          assert vs[i] == us[i];
        }
      }
    }
  }

  /** The slot of the newest local called `x`. */
  function SlotOf(ls: seq<LocalVar>, x: string): Option<nat>
    decreases |ls|
  {
    if ls == [] then None
    else if ls[|ls| - 1].name == User(x) then Some(ls[|ls| - 1].slot)
    else SlotOf(ls[..|ls| - 1], x)
  }

  lemma {:induction false} SlotIsNewest(ls: seq<LocalVar>, x: string)
    ensures match Newest(Users(ls), x)
      case Some(i) => SlotOf(ls, x) == Some(Users(ls)[i].val)
      case None => SlotOf(ls, x) == None
    decreases |ls|
  {
    if ls != [] {
      var n := |ls| - 1;
      SlotIsNewest(ls[..n], x);
      var us := Users(ls[..n]);
      if ls[n].name.User? {
        SimulationBase.NewestAppend(us, Named(ls[n].name.x, ls[n].slot), x);
      } else {
        assert Users(ls) == us;
      }
    }
  }

  /** A local of the innermost scope is called `x`. */
  predicate FoundAt(ls: seq<LocalVar>, depth: nat, x: string) {
    exists i :: 0 <= i < |ls| && ls[i].name == User(x) && ls[i].depth == depth
  }

  /** The spec's `Declared` is a search among the locals of the current depth. */
  lemma DeclaredHere(ls: seq<LocalVar>, depth: nat, x: string)
    requires Layered(ls, depth)
    ensures FoundAt(ls, depth, x) <==>
      exists i :: |Users(ls[..Outer(ls, depth)])| <= i < |Users(ls)| && Users(ls)[i].name == x
  {
    hide Users, Layered, Outer, FoundAt, Occurs;
    var n := Outer(ls, depth);
    var a, b := ls[..n], ls[n..];
    assert a + b == ls;
    UsersAppend(a, b);
    UsersOccur(b, x);
    InnermostLocals(ls, depth, x);
    NamesAfter(Users(a), Users(b), x);
  }

  lemma NamesAfter(a: seq<Local>, b: seq<Local>, x: string)
    ensures (exists i :: |a| <= i < |a + b| && (a + b)[i].name == x) <==> exists i :: 0 <= i < |b| && b[i].name == x
  {
    if i :| |a| <= i < |a + b| && (a + b)[i].name == x {
      assert b[i - |a|].name == x;
    }
    if i :| 0 <= i < |b| && b[i].name == x {
      assert (a + b)[|a| + i].name == x;
    }
  }

  /** The innermost scope's locals begin where the depth does. */
  lemma OuterCuts(ls: seq<LocalVar>, depth: nat)
    requires Layered(ls, depth)
    ensures forall i :: 0 <= i < |ls| ==> (ls[i].depth == depth <==> i >= Outer(ls, depth))
  {
    var n := Outer(ls, depth);
    forall i | 0 <= i < |ls| ensures ls[i].depth == depth <==> i >= n {
      if i < n {
        assert ls[i].depth <= ls[n - 1].depth;
      }
    }
  }

  lemma InnermostLocals(ls: seq<LocalVar>, depth: nat, x: string)
    requires Layered(ls, depth)
    ensures FoundAt(ls, depth, x) <==> Occurs(ls[Outer(ls, depth)..], x)
  {
    hide Users, Outer;
    var n := Outer(ls, depth);
    OuterCuts(ls, depth);
    if i :| 0 <= i < |ls| && ls[i].name == User(x) && ls[i].depth == depth {
      assert ls[n..][i - n] == ls[i];
    }
    if j :| 0 <= j < |ls| - n && ls[n..][j].name == User(x) {
      assert ls[n + j] == ls[n..][j];
    }
  }

  lemma AddLocal(ls: seq<LocalVar>, v: LocalVar, depth: nat)
    requires Layered(ls, depth) && v.depth == depth
    ensures Layered(ls + [v], depth) && Outer(ls + [v], depth) == Outer(ls, depth)
    ensures (ls + [v])[..Outer(ls, depth)] == ls[..Outer(ls, depth)]
    ensures Users(ls + [v]) == Users(ls) + if v.name.User? then [Named(v.name.x, v.slot)] else []
  {
    assert (ls + [v])[..|ls|] == ls;
  }

  lemma DropScope(ls: seq<LocalVar>, depth: nat)
    requires Layered(ls, depth) && depth > 0
    ensures Layered(ls[..Outer(ls, depth)], depth - 1)
  {
  }

  datatype Snap = Snap(
    locals: seq<LocalVar>, depth: nat, hoisted: seq<map<string, nat>>, loops: seq<LoopState>, visible: seq<nat>,
    tries: seq<nat>, errors: seq<CompileError>)

  /** Only pending exits changed; errors and named locals of the current scope were added. */
  ghost predicate Kept(a: Snap, b: Snap) {
    && b.depth == a.depth && b.hoisted == a.hoisted && SameLoops(b.loops, a.loops) && b.visible == a.visible
    && b.tries == a.tries && a.errors <= b.errors && a.locals <= b.locals
    && forall i :: |a.locals| <= i < |b.locals| ==> b.locals[i].depth == a.depth && b.locals[i].name.User?
  }

  lemma KeptTrans(a: Snap, b: Snap, c: Snap)
    requires Kept(a, b) && Kept(b, c)
    ensures Kept(a, c)
  {
    forall i | 0 <= i < |a.loops| ensures c.loops[i].(exitJumps := []) == a.loops[i].(exitJumps := []) {
      assert c.loops[i].(exitJumps := []) == b.loops[i].(exitJumps := []);
    }
  }

  lemma KeptSelf(a: Snap)
    ensures Kept(a, a)
  {
  }

  /** `b` is inside a scope opened in state `a`; the scope's locals come last, `hidden` of them unnamed. */
  ghost predicate Inside(a: Snap, b: Snap, hidden: nat) {
    && b.depth == a.depth + 1 && |b.hoisted| == |a.hoisted| + 1 && b.hoisted[..|a.hoisted|] == a.hoisted
    && SameLoops(b.loops, a.loops) && b.visible == a.visible && b.tries == a.tries && a.errors <= b.errors
    && a.locals <= b.locals && (forall i :: |a.locals| <= i < |b.locals| ==> b.locals[i].depth == b.depth)
    && |b.locals| - |a.locals| == hidden + |Users(b.locals)| - |Users(a.locals)|
  }

  lemma InsideKept(a: Snap, b: Snap, c: Snap, hidden: nat)
    requires Inside(a, b, hidden) && Kept(b, c)
    ensures Inside(a, c, hidden)
  {
    forall i | 0 <= i < |a.loops| ensures c.loops[i].(exitJumps := []) == a.loops[i].(exitJumps := []) {
      assert c.loops[i].(exitJumps := []) == b.loops[i].(exitJumps := []);
    }
    KeptCount(b, c);
  }

  lemma InsideHidden(a: Snap, b: Snap, c: Snap, hidden: nat, slot: nat)
    requires Inside(a, b, hidden) && c == b.(locals := b.locals + [LocalVar(Hidden, b.depth, slot)])
    ensures Inside(a, c, hidden + 1)
  {
    assert c.locals[..|b.locals|] == b.locals;
  }

  lemma InsideOpened(a: Snap, b: Snap, c: Snap, hidden: nat)
    requires Inside(a, b, hidden) && Opened(b, c)
    ensures Inside(a, c, hidden)
  {
    assert c.hoisted[..|a.hoisted|] == a.hoisted;
    KeptCount(b, c.(hoisted := b.hoisted));
  }

  /** Where a scope's locals begin. */
  lemma InsideOuter(a: Snap, b: Snap, hidden: nat)
    requires Inside(a, b, hidden) && Layered(a.locals, a.depth)
    ensures Outer(b.locals, b.depth) == |a.locals|
  {
    var added := b.locals[|a.locals|..];
    assert a.locals + added == b.locals;
    OuterAppend(a.locals, added, b.depth);
  }

  /** The parts of the spec's state that the rest determines. */
  ghost predicate Stands(c: Ctx, s: Snap) {
    && Layered(s.locals, s.depth) && c.locals == Users(s.locals) && s.hoisted != []
    && s.hoisted[|s.hoisted| - 1] == c.hoisted
    && c.scopeBase == |Users(s.locals[..Outer(s.locals, s.depth)])|
    && |s.loops| == |s.visible| == c.nloops && c.loops == Active(s.loops, s.visible) && c.tries == s.tries
  }

  /** Named locals are counted by the spec. */
  lemma KeptCount(a: Snap, b: Snap)
    requires Kept(a, b)
    ensures |b.locals| - |a.locals| == |Users(b.locals)| - |Users(a.locals)|
  {
    var added := b.locals[|a.locals|..];
    assert a.locals + added == b.locals;
    UsersAppend(a.locals, added);
    UsersCount(added);
  }

  /** `b` is `a` after (part of) a prologue: named locals and slots were added to the current scope. */
  ghost predicate Opened(a: Snap, b: Snap) {
    && b.depth == a.depth && |b.hoisted| == |a.hoisted| > 0
    && b.hoisted[..|b.hoisted| - 1] == a.hoisted[..|a.hoisted| - 1]
    && b.loops == a.loops && b.visible == a.visible && b.tries == a.tries && b.errors == a.errors
    && a.locals <= b.locals && forall i :: |a.locals| <= i < |b.locals| ==>
       b.locals[i].depth == a.depth && b.locals[i].name.User?
  }

  lemma OpenedMore(a: Snap, b: Snap, c: Snap)
    requires Opened(a, b) && |c.hoisted| == |b.hoisted| && c.hoisted[..|c.hoisted| - 1] == b.hoisted[..|b.hoisted| - 1]
    requires |c.locals| == |b.locals| + 1 && b.locals <= c.locals
    requires c.locals[|b.locals|].depth == b.depth && c.locals[|b.locals|].name.User?
    requires c == b.(locals := c.locals, hoisted := c.hoisted)
    ensures Opened(a, c)
  {
  }

  /** Entering a scope step by step: first its bookkeeping, then its prologue. */
  lemma {:induction false} SamePrologue(c: Ctx, names: seq<string>)
    ensures Prologue(c.(hoisted := map[], scopeBase := |c.locals|), names) == Prologue(c, names)
    decreases |names|
  {
    if names != [] {
      SamePrologue(c, names[..|names| - 1]);
    }
  }

  lemma SameEntry(c: Ctx, names: seq<string>)
    ensures Enter(c.(hoisted := map[], scopeBase := |c.locals|), names) == Enter(c, names)
    ensures Prologue(c.(hoisted := map[], scopeBase := |c.locals|), names) == Prologue(c, names)
    ensures var e := Enter(c, names);
      && e.hoisted == SlotMap(c.h, names) && e.loops == c.loops && e.nloops == c.nloops
      && e.tries == c.tries && e.globals == c.globals && |e.locals| == |c.locals| + |names| && e.h == c.h + |names|
  {
    hide Prologue, SlotMap;
    SamePrologue(c, names);
  }

  lemma EnterSnoc(c: Ctx, d: seq<string>, x: string)
    ensures var e := Enter(c, d);
      && Enter(c, d + [x]) == e.(locals := e.locals + [Named(x, U8(e.h))], h := e.h + 1,
                                        hoisted := e.hoisted[x := U8(e.h)])
      && Prologue(c, d + [x]) == Prologue(c, d) + At(c, e.h, PushNull) && e.tries == c.tries
      && (x in e.hoisted <==> x in d)
  {
    assert (d + [x])[..|d|] == d;
  }

  lemma NotDeclared(c: Ctx, d: seq<string>, x: string, h: nat)
    requires x !in d
    ensures !Declared(Up(Enter(c, d), h), x)
  {
  }

  class FuncCompiler {
    const globals: seq<string>
    var code: seq<Instr>
    var locals: seq<LocalVar>
    var scopeDepth: nat
    var loopStack: seq<LoopState>
    var stackHeight: nat
    var hoistedScopes: seq<map<string, nat>>
    var errors: seq<CompileError>

    // what the proofs remember beside the real fields
    ghost var cells: Code
    ghost var tries: seq<nat>
    ghost var visible: seq<nat>

    ghost predicate Laid()
      reads this
    {
      && code == Lay(cells) && |visible| == |loopStack| && |hoistedScopes| > 0
      && ExitsListed(loopStack, cells) && Layered(locals, scopeDepth)
    }

    /** No jump is left open for a loop that has ended. */
    ghost predicate Valid()
      reads this
    {
      Laid() && Closed(cells, |loopStack|)
    }

    /** The compiler's state as the spec sees it. */
    ghost function View(): Ctx
      reads this
      requires Laid()
    {
      Ctx(Users(locals), stackHeight, hoistedScopes[|hoistedScopes| - 1], |Users(locals[..Outer(locals, scopeDepth)])|,
          Active(loopStack, visible), |loopStack|, tries, globals)
    }

    /** The rest of the state: what the spec's view does not show in full. */
    ghost function Rest(): Snap
      reads this
    {
      Snap(locals, scopeDepth, hoistedScopes, loopStack, visible, tries, errors)
    }

    /** What every compile method does: it appends `r`'s code, ends in `r`'s state, and records an
        error exactly when `r` is not ok. */
    twostate predicate Did(r: Result)
      reads this
    {
      && old(Laid()) && Valid() && Kept(old(Rest()), Rest()) && cells == old(cells) + r.code
      && View() == After(old(View()), r) && |errors| >= |old(errors)| && (|errors| == |old(errors)| <==> r.ok)
    }

    constructor (globals: seq<string>)
      ensures Valid() && this.globals == globals && View() == Initial(globals) && cells == [] && errors == []
    {
      this.globals := globals;
      code, loopStack, errors := [], [], [];
      scopeDepth, stackHeight := 0, 1;
      locals := [LocalVar(Hidden, 0, 0)];
      hoistedScopes := [map[]];
      cells, tries, visible := [], [], [];
    }

    // ----- emit helpers -----

    /** Emits an opcode and applies its fixed effect to the tracker. */
    method EmitOp(op: Instr)
      requires Valid() && View().h + Delta(op) >= 0 && !op.Hole?
      modifies this`code, this`stackHeight, this`cells
      ensures Valid() && cells == old(cells) + At(old(View()), old(View().h), op)
      ensures View() == Up(old(View()), old(View().h) + Delta(op))
      ensures Rest() == old(Rest())
    {
      hide Holes, Lay, ExitsListed, Closed, Layered, Users, Outer, Active;
      Grow(loopStack, cells, Cell(op, stackHeight, tries), |loopStack|);
      code := code + [op];
      cells := cells + [Cell(op, stackHeight, tries)];
      stackHeight := stackHeight + Delta(op);
    }

    /** Operand-dependent effects, and the tracker's value where paths meet. */
    method SetStackHeight(h: nat)
      requires Valid()
      modifies this`stackHeight
      ensures Valid() && View() == Up(old(View()), h)
      ensures Rest() == old(Rest())
    {
      stackHeight := h;
    }

    /** A jump whose distance is not known yet; answers where to patch it. */
    method EmitJump(op: Instr) returns (offset: nat)
      requires Valid() && Patchable(op) && WithDist(op, PENDING) == op
      modifies this`code, this`stackHeight, this`cells
      ensures Valid() && cells == old(cells) + At(old(View()), old(View().h), op) && View() == old(View())
      ensures offset == |old(cells)|
      ensures Rest() == old(Rest())
    {
      offset := |code|;
      EmitOp(op);
    }

    /** Writes the distance from the instruction at `offset` to here. */
    method PatchJump(offset: nat)
      requires Laid() && offset < |cells| && Patchable(Written(cells[offset].op))
      requires cells[offset].op.Hole? ==> cells[offset].op.loopId >= |loopStack|
      modifies this`code, this`cells
      ensures Laid() && |cells| == |old(cells)| && View() == old(View())
      ensures var dist := |cells| - offset - 1;
        cells == old(cells)[offset := old(cells)[offset].(op := WithDist(Written(old(cells)[offset].op), dist))]
      ensures old(Valid()) ==> Valid()
      ensures Rest() == old(Rest())
    {
      hide Holes, ExitsListed, Closed, Layered, Users, Outer, Active;
      var dist := |code| - offset - 1;
      Patched(loopStack, cells, offset, WithDist(code[offset], dist));
      code := code[offset := WithDist(code[offset], dist)];
      cells := cells[offset := cells[offset].(op := WithDist(Written(cells[offset].op), dist))];
    }

    /** A backward jump; `live` is the height of the stack there. */
    method EmitLoop(target: nat, ghost live: nat)
      requires Valid()
      modifies this`code, this`stackHeight, this`cells
      ensures Valid() && View() == old(View())
      ensures cells == old(cells) + AfterUnwind(old(View()), old(View().h), live, Loop(|old(cells)| + 1 - target))
      ensures live == old(View().h) ==> cells == old(cells) + At(old(View()), live, Loop(|old(cells)| + 1 - target))
      ensures Rest() == old(Rest())
    {
      hide Holes, Lay, ExitsListed, Closed, Layered, Users, Outer, Active;
      var op := Loop(|code| + 1 - target);
      Grow(loopStack, cells, Cell(op, stackHeight, tries, live), |loopStack|);
      code := code + [op];
      cells := cells + [Cell(op, stackHeight, tries, live)];
    }

    /** The jump of a `break` out of loop `target`, remembered among that loop's exits. */
    method EmitExit(target: nat, ghost live: nat)
      requires Valid() && target < |loopStack|
      modifies this`code, this`cells, this`loopStack
      ensures Valid() && Kept(old(Rest()), Rest()) && View() == old(View())
      ensures cells == old(cells) + AfterUnwind(old(View()), old(View().h), live, Hole(target))
    {
      hide Holes, ExitsListed, Closed, Layered, Users, Outer, Active, SameLoops;
      var offset := |code|;
      GrowHole(loopStack, cells, Cell(Hole(target), stackHeight, tries, live), target);
      code := code + [Jump(PENDING)];
      cells := cells + [Cell(Hole(target), stackHeight, tries, live)];
      loopStack := loopStack[target := loopStack[target].(exitJumps := loopStack[target].exitJumps + [offset])];
      SameActive(loopStack, old(loopStack), visible);
    }

    /** Enters a loop whose head is here. */
    method PushLoop(resultSlot: nat, isArray: bool)
      requires Valid()
      modifies this`loopStack, this`visible
      ensures Valid() && |loopStack| == |old(loopStack)| + 1 && loopStack[..|old(loopStack)|] == old(loopStack)
      ensures visible[..|old(visible)|] == old(visible)
      ensures Looped(old(Rest()), Rest())
      ensures var c := old(View());
        var l := LoopCtx(c.nloops, resultSlot, c.h, isArray, |cells|, |c.locals|);
        View() == c.(loops := c.loops + [l], nloops := c.nloops + 1)
      ensures Rest() == old(Rest()).(loops := loopStack, visible := visible)
    {
      hide ExitsListed, Layered, Users, Outer, Active, Lay, Holes, Closed;
      PushedLoop(loopStack, visible, cells, LoopState(resultSlot, stackHeight, isArray, [], false, |code|),
          |Users(locals)|);
      loopStack := loopStack + [LoopState(resultSlot, stackHeight, isArray, [], false, |code|)];
      visible := visible + [|Users(locals)|];
      assert loopStack[..|old(loopStack)|] == old(loopStack) && visible[..|old(visible)|] == old(visible);
    }

    /** Leaves the innermost loop and patches every jump left open for it to here. */
    method PopLoop()
      requires Valid() && |loopStack| > 0
      modifies this`code, this`cells, this`loopStack, this`visible
      ensures Valid() && loopStack == old(loopStack)[..|old(loopStack)| - 1] && visible == old(visible)[..|loopStack|]
      ensures cells == Patch(old(cells), 0, |loopStack|, |old(cells)|)
      ensures Rest() == old(Rest()).(loops := loopStack, visible := visible)
    {
      hide ExitsListed, Layered, Users, Outer, Active, Lay, Holes, Closed, PatchedTo, Patch;
      var id := |loopStack| - 1;
      var exits := loopStack[id].exitJumps;
      InnermostExits(loopStack, cells);
      loopStack := loopStack[..id];
      visible := visible[..id];
      var k := 0;
      NonePatched(cells, exits, id);
      while k < |exits|
        invariant k <= |exits| && Laid() && loopStack == old(loopStack)[..id] && visible == old(visible)[..id]
        invariant PatchedTo(old(cells), cells, exits, k, id)
      {
        PatchNext(old(cells), cells, exits, k, id);
        PatchJump(exits[k]);
        k := k + 1;
      }
      PatchedAll(old(cells), cells, exits, id);
    }

    // ----- scopes and names -----

    method BeginScope()
      requires Valid()
      modifies this`scopeDepth, this`hoistedScopes
      ensures Valid() && scopeDepth == old(scopeDepth) + 1 && hoistedScopes == old(hoistedScopes) + [map[]]
      ensures View() == old(View()).(hoisted := map[], scopeBase := |old(View()).locals|)
      ensures Inside(old(Rest()), Rest(), 0) && errors == old(errors) && locals == old(locals)
    {
      scopeDepth := scopeDepth + 1;
      hoistedScopes := hoistedScopes + [map[]];
      assert locals[..|locals|] == locals;
    }

    /** The current scope's locals and names are forgotten. */
    method DropLocals() returns (count: nat)
      requires Valid() && scopeDepth > 0 && |hoistedScopes| > 1
      modifies this`locals, this`scopeDepth, this`hoistedScopes
      ensures Valid() && scopeDepth == old(scopeDepth) - 1
      ensures hoistedScopes == old(hoistedScopes)[..|old(hoistedScopes)| - 1]
      ensures locals == old(locals)[..Outer(old(locals), old(scopeDepth))] && count == |old(locals)| - |locals|
    {
      hide Layered, Users, Active, Lay, ExitsListed, Closed, Outer;
      DropScope(locals, scopeDepth);
      count := PopLocals();
      scopeDepth := scopeDepth - 1;
      hoistedScopes := hoistedScopes[..|hoistedScopes| - 1];
    }

    /** Closes the current scope: its locals go, from under the value on top. */
    method EndScope()
      requires Valid() && scopeDepth > 0 && |hoistedScopes| > 1
      requires |locals| - Outer(locals, scopeDepth) < View().h
      modifies this`locals, this`code, this`cells, this`stackHeight, this`scopeDepth, this`hoistedScopes, this`errors
      ensures Valid() && scopeDepth == old(scopeDepth) - 1
      ensures hoistedScopes == old(hoistedScopes)[..|old(hoistedScopes)| - 1]
      ensures var n := old(Outer(locals, scopeDepth));
        var count := |old(locals)| - n;
        && locals == old(locals)[..n] && stackHeight == old(stackHeight) - count
        && cells == old(cells) + (if count > 0 then [Cell(CloseScope(count), old(stackHeight), tries)] else [])
        && old(errors) <= errors && (errors == old(errors) <==> count <= 255)
    {
      hide Layered, Users, Active, Lay, ExitsListed, Closed, Outer;
      var count := DropLocals();
      if count > 255 {
        errors := errors + [TooManyLocals];
      }
      if count > 0 {
        EmitOp(CloseScope(count));
        SetStackHeight(stackHeight - count);
      }
    }

    /** Closes the scope opened in state `s0`, whose spec state was `c`. */
    method LeaveScope(ghost s0: Snap, ghost c: Ctx, ghost hidden: nat)
      requires Valid() && Inside(s0, Rest(), hidden) && Stands(c, s0)
      requires hidden + |View().locals| - |c.locals| < View().h
      requires View().loops == c.loops && View().nloops == c.nloops && View().tries == c.tries
      requires View().globals == c.globals
      modifies this
      ensures var count := hidden + |old(View()).locals| - |c.locals|;
        && Valid() && Kept(s0, Rest()) && View() == Up(c, old(View()).h - count)
        && cells == old(cells) + (if count > 0 then At(c, old(View()).h, CloseScope(count)) else [])
        && |errors| >= |old(errors)| && (|errors| == |old(errors)| <==> count <= 255)
    {
      hide Layered, Users, Active, Lay, ExitsListed, Closed;
      InsideOuter(s0, Rest(), hidden);
      EndScope();
      assert locals == s0.locals && hoistedScopes == s0.hoisted;
    }

    /** The spec's state `c` and the rest `s` were taken at the same moment. */
    lemma TakenTogether()
      requires Valid()
      ensures Stands(View(), Rest())
    {
    }

    method PopLocals() returns (count: nat)
      modifies this`locals
      ensures locals == old(locals)[..Outer(old(locals), scopeDepth)] && count == |old(locals)| - |locals|
    {
      count := 0;
      while |locals| > 0 && locals[|locals| - 1].depth >= scopeDepth
        invariant |locals| <= |old(locals)| && locals == old(locals)[..|locals|] && count == |old(locals)| - |locals|
        invariant Outer(locals, scopeDepth) == Outer(old(locals), scopeDepth)
      {
        locals := locals[..|locals| - 1];
        count := count + 1;
      }
    }

    /** The value on top becomes a local; a second declaration in one scope is an error but still
        gets its slot. */
    method DeclareLocalAt(name: LocalName, slot: nat)
      requires Valid()
      modifies this`locals, this`errors
      ensures Valid() && locals == old(locals) + [LocalVar(name, scopeDepth, slot)] && old(errors) <= errors
      ensures var c := old(View());
        && View() == (if name.User? then c.(locals := c.locals + [Named(name.x, slot)]) else c)
        && (errors == old(errors) <==> !(name.User? && Declared(c, name.x)))
      ensures Rest() == old(Rest()).(locals := locals, errors := errors) && (name.User? ==> Kept(old(Rest()), Rest()))
    {
      hide Layered, Users, Outer, Active, Lay, ExitsListed, Closed;
      ghost var c := View();
      if name.User? {
        DeclaredHere(locals, scopeDepth, name.x);
        assert Declared(c, name.x) <==> FoundAt(locals, scopeDepth, name.x);
        var duplicate := HasLocal(name.x);
        if duplicate {
          errors := errors + [DuplicateDeclaration(name.x)];
        }
      }
      AddLocal(locals, LocalVar(name, scopeDepth, slot), scopeDepth);
      locals := locals + [LocalVar(name, scopeDepth, slot)];
    }

    method HasLocal(x: string) returns (found: bool)
      ensures found <==> FoundAt(locals, scopeDepth, x)
    {
      for i := 0 to |locals|
        invariant forall j :: 0 <= j < i ==> !(locals[j].name == User(x) && locals[j].depth == scopeDepth)
      {
        if locals[i].name == User(x) && locals[i].depth == scopeDepth {
          return true;
        }
      }
      return false;
    }

    method DeclareLocal(name: LocalName)
      requires Valid() && View().h > 0
      modifies this`locals, this`errors
      ensures Valid() && locals == old(locals) + [LocalVar(name, scopeDepth, U8(old(View()).h - 1))]
      ensures old(errors) <= errors
      ensures var c := old(View());
        && View() == (if name.User? then c.(locals := c.locals + [Named(name.x, U8(c.h - 1))]) else c)
        && (errors == old(errors) <==> !(name.User? && Declared(c, name.x)))
      ensures Rest() == old(Rest()).(locals := locals, errors := errors) && (name.User? ==> Kept(old(Rest()), Rest()))
    {
      DeclareLocalAt(name, U8(stackHeight - 1));
    }

    /** Newest local first, then the globals. */
    method Resolve(x: string) returns (r: Resolved)
      requires Valid()
      ensures r == Lowering.Resolve(View(), x)
    {
      hide Users, Layered, Active, ExitsListed, Closed, Lay;
      SlotIsNewest(locals, x);
      var i := |locals|;
      assert locals[..i] == locals;
      while i > 0
        invariant i <= |locals| && SlotOf(locals, x) == SlotOf(locals[..i], x)
      {
        assert locals[..i][..i - 1] == locals[..i - 1];
        if locals[i - 1].name == User(x) {
          return AtSlot(locals[i - 1].slot);
        }
        i := i - 1;
      }
      match Meaning.IndexOf(globals, x) {
        case Some(j) => return AtGlobal(j);
        case None => return Unknown;
      }
    }

    // ----- expressions -----

    method CompileExpr(e: Expr)
      requires Valid() && Placed(e, View().hoisted.Keys)
      modifies this
      ensures Did(old(Compile(e, View(), |cells|)))
      decreases e, 5
    {
      hide View, Laid, Closed, Rest, Kept, HoistExpr, Hoisted, Lowering.CompileBinary, Lowering.CompileShort,
        Lowering.CompileIf, Lowering.CompileWhile, Lowering.CompileFor,
        Lowering.CompileBreak, Lowering.CompileContinue, Lowering.CompileDecl, Lowering.CompileAssign,
          Lowering.CompileIndex,
        Lowering.CompileIndexAssign, Lowering.CompileTry, Lowering.CompileReturn;
      if !e.Decl? {
        StackFlow.HoistedParts(e, View().hoisted.Keys);
      }
      match e
      case Lit(v) => EmitLit(v);
      case Ident(x) => CompileIdent(x);
      case Binary(op, _, _) =>
        if op == And || op == Or {
          CompileShort(e);
        } else {
          CompileBinary(e);
        }
      case Unary(_, _) => CompileUnary(e);
      case Paren(b) => CompileParen(b);
      case Scope(b) => CompileScope(b);
      case If(_, _, _) => CompileIf(e);
      case While(_, _, _) => CompileWhile(e);
      case For(_, _, _, _, _) => CompileFor(e);
      case Break(_) => CompileBreak(e);
      case Continue => CompileContinue();
      case Decl(_, _) => CompileDecl(e);
      case Assign(_, _, _) => CompileAssign(e);
      case Index(_, _) => CompileIndex(e);
      case IndexAssign(_, _, _, _) => CompileIndexAssign(e);
      case Try(_, _) => CompileTry(e);
      case Raise(_) => CompileUnary(e);
      case Return(_) => CompileReturn(e);
    }

    method EmitLit(v: Value)
      requires Valid()
      modifies this
      ensures Did(old(Compile(Lit(v), View(), |cells|)))
    {
      hide View, Laid, Closed, Rest, Kept, Lowering.Resolve;
      KeptSelf(Rest());
      EmitOp(if v.Null? then PushNull else LoadConst(v));
    }

    method CompileIdent(x: string)
      requires Valid()
      modifies this
      ensures Did(old(Lowering.CompileIdent(x, View())))
    {
      hide View, Laid, Closed, Rest, Kept, Lowering.Resolve;
      KeptSelf(Rest());
      var r := Resolve(x);
      match r {
        case AtSlot(s) => EmitOp(LoadLocal(s));
        case AtGlobal(i) => EmitOp(LoadGlobal(i));
        case Unknown =>
          Record(UndeclaredVariable(x));
          EmitOp(PushNull);
      }
    }

    lemma TrackerIsH()
      requires Laid()
      ensures View().h == stackHeight && |cells| == |code|
    {
    }

    /** A recoverable error: noted, and compilation goes on. */
    method Record(e: CompileError)
      requires Valid()
      modifies this`errors
      ensures Valid() && errors == old(errors) + [e] && View() == old(View()) && Kept(old(Rest()), Rest())
    {
      errors := errors + [e];
    }

    /** A nested expression: its declarations have been hoisted, so it leaves one value and no local. */
    method CompileOperand(e: Expr)
      requires Valid() && Hoisted(e, View().hoisted.Keys)
      modifies this
      ensures Did(old(Compile(e, View(), |cells|))) && Flat(old(View()), old(Compile(e, View(), |cells|)))
      decreases e, 6
    {
      hide View, Laid, Closed, Rest, Kept, Compile, HoistExpr, Hoisted, Placed;
      HoistedIsPlaced(e, View().hoisted.Keys);
      FlatExpr(e, View(), |cells|);
      CompileExpr(e);
    }

    method CompileUnary(e: Expr)
      requires Valid() && (e.Unary? || e.Raise?) && Hoisted(e, View().hoisted.Keys)
      modifies this
      ensures Did(old(Compile(e, View(), |cells|)))
      decreases e, 4
    {
      hide View, Laid, Closed, Rest, Kept, Lowering.CompileScope, Lowering.CompileBlock, HoistExpr, Hoisted;
      var x := if e.Unary? then e.operand else e.exn;
      StackFlow.HoistedParts(e, View().hoisted.Keys);
      var entryHeight := stackHeight;
      TrackerIsH();
      CompileOperand(x);
      if e.Unary? {
        EmitOp(UnI(e.uop));
      } else {
        EmitOp(RaiseI);
        SetStackHeight(entryHeight + 1);
      }
    }

    /** `and`, `or`: the jump past the right operand is patched once that is emitted. */
    method CompileShort(e: Expr)
      requires Valid() && e.Binary? && Hoisted(e, View().hoisted.Keys)
      modifies this
      ensures Did(old(Lowering.CompileShort(e, View(), |cells|)))
      decreases e, 4
    {
      hide View, Laid, Closed, Rest, Kept, Compile, Users, Layered, Lowering.CompileScope, Lowering.CompileBlock,
        HoistExpr, Hoisted, Lowering.CompileShort;
      StackFlow.HoistedParts(e, View().hoisted.Keys);
      ghost var c, pre, s0 := View(), cells, Rest();
      StackFlow.ShortShape(e, c, |pre|);
      var endJump := CompileLeft(e);
      ghost var s1, first := Rest(), cells[..endJump];
      ghost var jump := cells[endJump];
      EmitOp(Pop);
      ghost var b := Compile(e.rhs, c, |cells|);
      CompileOperand(e.rhs);
      KeptTrans(s0, s1, Rest());
      assert cells == first + [jump] + (At(c, c.h + 1, Pop) + b.code);
      PatchJump(endJump);
      Splice(first, jump, At(c, c.h + 1, Pop) + b.code, cells[endJump]);
      assert cells == pre + Lowering.CompileShort(e, c, |pre|).code;
    }

    /** The left operand and the jump that keeps its value. */
    method CompileLeft(e: Expr) returns (endJump: nat)
      requires Valid() && e.Binary? && Hoisted(e, View().hoisted.Keys)
      modifies this
      ensures Valid() && Kept(old(Rest()), Rest()) && View() == Up(old(View()), old(View()).h + 1)
      ensures var c, pre := old(View()), old(cells);
        var a := Compile(e.lhs, c, |pre|);
        && endJump == |pre| + |a.code|
        && cells == pre + a.code + At(c, c.h + 1, if e.op == And then JumpIfFalse(PENDING) else JumpIfTrue(PENDING))
        && |errors| >= |old(errors)| && (|errors| == |old(errors)| <==> a.ok)
      decreases e, 3
    {
      hide View, Laid, Closed, Rest, Kept, Compile, HoistExpr, Hoisted;
      StackFlow.HoistedParts(e, View().hoisted.Keys);
      CompileOperand(e.lhs);
      endJump := EmitJump(if e.op == And then JumpIfFalse(PENDING) else JumpIfTrue(PENDING));
    }

    method CompileBinary(e: Expr)
      requires Valid() && e.Binary? && Hoisted(e, View().hoisted.Keys)
      modifies this
      ensures Did(old(Lowering.CompileBinary(e, View(), |cells|)))
      decreases e, 4
    {
      hide View, Laid, Closed, Rest, Kept, Compile, Lowering.CompileScope, Lowering.CompileBlock, HoistExpr, Hoisted;
      StackFlow.HoistedParts(e, View().hoisted.Keys);
      ghost var c, pre, s0 := View(), cells, Rest();
      CompileOperand(e.lhs);
      ghost var s1 := Rest();
      CompileOperand(e.rhs);
      KeptTrans(s0, s1, Rest());
      EmitOp(BinI(e.op));
      assert cells == pre + Lowering.CompileBinary(e, c, |pre|).code;
    }

    method CompileIndex(e: Expr)
      requires Valid() && e.Index? && Hoisted(e, View().hoisted.Keys)
      modifies this
      ensures Did(old(Lowering.CompileIndex(e, View(), |cells|)))
      decreases e, 4
    {
      hide View, Laid, Closed, Rest, Kept, Compile, Lowering.CompileScope, Lowering.CompileBlock, HoistExpr, Hoisted;
      ghost var c, pre := View(), cells;
      CompilePair(e);
      EmitOp(IndexGet);
      assert cells == pre + Lowering.CompileIndex(e, c, |pre|).code;
    }

    method CompileIf(e: Expr)
      requires Valid() && e.If? && Hoisted(e, View().hoisted.Keys)
      modifies this
      ensures Did(old(Lowering.CompileIf(e, View(), |cells|)))
      decreases e, 4
    {
      hide View, Laid, Closed, Rest, Kept, Compile, Lowering.CompileScope, Lowering.CompileBlock, HoistExpr, Hoisted,
        Lowering.CompileIf;
      StackFlow.HoistedParts(e, View().hoisted.Keys);
      ghost var c, pre, s0 := View(), cells, Rest();
      StackFlow.IfShape(e, c, |pre|);
      var toEnd := CompileThen(e);
      ghost var s1, thn := Rest(), cells;
      ghost var first, jump := thn[..toEnd], thn[toEnd];
      assert thn == first + [jump];
      ghost var d := CompileElse(e);
      KeptTrans(s0, s1, Rest());
      JoinTwo(thn, At(c, c.h + 1, Pop), d.code);
      PatchJump(toEnd);
      Splice(first, jump, At(c, c.h + 1, Pop) + d.code, cells[toEnd]);
      assert cells == pre + Lowering.CompileIf(e, c, |pre|).code;
    }

    /** The other branch, behind the jump over it. */
    method CompileElse(e: Expr) returns (ghost d: Result)
      requires Valid() && e.If? && Hoisted(e.els, View().hoisted.Keys) && View().h > 0
      modifies this
      ensures var c := old(View()).(h := old(View()).h - 1);
        && Valid() && d == Compile(e.els, c, |old(cells)| + 1) && Flat(c, d) && View() == Up(c, c.h + 1)
        && Kept(old(Rest()), Rest()) && cells == old(cells) + At(old(View()), c.h + 1, Pop) + d.code
        && |errors| >= |old(errors)| && (|errors| == |old(errors)| <==> d.ok)
      decreases e, 3
    {
      hide View, Laid, Closed, Rest, Kept, Compile, HoistExpr, Hoisted;
      EmitOp(Pop);
      d := Compile(e.els, View(), |cells|);
      CompileOperand(e.els);
    }

    /** The test, the first branch and the jump over the second, which starts with the test on top. */
    method CompileThen(e: Expr) returns (toEnd: nat)
      requires Valid() && e.If? && Hoisted(e, View().hoisted.Keys)
      modifies this
      ensures Valid() && Kept(old(Rest()), Rest()) && View() == Up(old(View()), old(View()).h + 1)
      ensures var c, pre := old(View()), old(cells);
        var a := Compile(e.cond, c, |pre|);
        var b := Compile(e.thn, c, |pre| + |a.code| + 2);
        && toEnd == |pre| + |a.code| + 2 + |b.code|
        && cells == pre + a.code + At(c, c.h + 1, JumpIfFalse(|b.code| + 2)) + At(c, c.h + 1, Pop) + b.code
                    + At(c, c.h + 1, Jump(PENDING))
        && |errors| >= |old(errors)| && (|errors| == |old(errors)| <==> a.ok && b.ok)
      decreases e, 3
    {
      hide View, Laid, Closed, Rest, Kept, Compile, Lowering.CompileScope, Lowering.CompileBlock, HoistExpr, Hoisted;
      StackFlow.HoistedParts(e, View().hoisted.Keys);
      ghost var c, pre, s0 := View(), cells, Rest();
      CompileOperand(e.cond);
      ghost var a := Compile(e.cond, c, |pre|);
      var condHeight := stackHeight;
      TrackerIsH();
      var toElse := EmitJump(JumpIfFalse(PENDING));
      EmitOp(Pop);
      ghost var s1 := Rest();
      assert View() == c;
      ghost var b := Compile(e.thn, c, |cells|);
      CompileOperand(e.thn);
      KeptTrans(s0, s1, Rest());
      toEnd := EmitJump(Jump(PENDING));
      SetStackHeight(condHeight);
      ghost var test, rest := cells[toElse], At(c, c.h + 1, Pop) + b.code + At(c, c.h + 1, Jump(PENDING));
      assert cells == (pre + a.code) + [test] + rest;
      PatchJump(toElse);
      Splice(pre + a.code, test, rest, cells[toElse]);
    }

    method CompileReturn(e: Expr)
      requires Valid() && e.Return? && Hoisted(e, View().hoisted.Keys)
      modifies this
      ensures Did(old(Lowering.CompileReturn(e, View(), |cells|)))
      decreases e, 4
    {
      hide View, Laid, Closed, Rest, Kept, Compile, Lowering.CompileScope, Lowering.CompileBlock, HoistExpr, Hoisted;
      StackFlow.HoistedParts(e, View().hoisted.Keys);
      KeptSelf(Rest());
      ghost var c, pre := View(), cells;
      if e.result.Some? {
        CompileOperand(e.result.value);
      } else {
        EmitOp(PushNull);
      }
      EmitOp(ReturnI);
      assert cells == pre + Lowering.CompileReturn(e, c, |pre|).code;
    }

    /** A hoisted name is stored to its slot; any other becomes a local under a copy of its value. */
    method CompileDecl(e: Expr)
      requires Valid() && e.Decl? && Hoisted(e.init, View().hoisted.Keys)
      modifies this
      ensures Did(old(Lowering.CompileDecl(e, View(), |cells|)))
      decreases e, 4
    {
      hide View, Laid, Closed, Rest, Kept, Compile, Lowering.CompileScope, Lowering.CompileBlock, HoistExpr, Hoisted,
        Declared;
      ghost var c, pre, s0 := View(), cells, Rest();
      var slot := LookupHoisted(e.name);
      CompileOperand(e.init);
      if slot.Some? {
        EmitOp(StoreLocal(slot.value));
      } else {
        ghost var s1 := Rest();
        DeclareLocal(User(e.name));
        EmitOp(Dup);
        KeptTrans(s0, s1, Rest());
      }
      assert cells == pre + Lowering.CompileDecl(e, c, |pre|).code;
    }

    method LookupHoisted(x: string) returns (slot: Option<nat>)
      requires Laid()
      ensures slot == if x in View().hoisted then Some(View().hoisted[x]) else None
    {
      var m := hoistedScopes[|hoistedScopes| - 1];
      slot := if x in m then Some(m[x]) else None;
    }

    /** The variable's value and the operand, combined. */
    method CompoundAssigned(e: Expr, slot: nat)
      requires Valid() && e.Assign? && e.aop.Some? && Hoisted(e.rhs, View().hoisted.Keys)
      modifies this
      ensures var c := old(View());
        var a := Compile(e.rhs, Up(c, c.h + 1), |old(cells)| + 1);
        && Valid() && Kept(old(Rest()), Rest()) && Flat(Up(c, c.h + 1), a) && View() == Up(c, c.h + 1)
        && cells == old(cells) + At(c, c.h, LoadLocal(slot)) + a.code + At(c, a.h, CompoundInstr(e.aop.value))
        && |errors| >= |old(errors)| && (|errors| == |old(errors)| <==> a.ok)
      decreases e, 3
    {
      hide View, Laid, Closed, Rest, Kept, Compile, HoistExpr, Hoisted, CompoundInstr;
      CompoundPops(e.aop.value);
      EmitOp(LoadLocal(slot));
      CompileOperand(e.rhs);
      EmitOp(CompoundInstr(e.aop.value));
    }

    method CompileAssign(e: Expr)
      requires Valid() && e.Assign? && Hoisted(e, View().hoisted.Keys)
      modifies this
      ensures Did(old(Lowering.CompileAssign(e, View(), |cells|)))
      decreases e, 4
    {
      hide View, Laid, Closed, Rest, Kept, Compile, Lowering.CompileScope, Lowering.CompileBlock, HoistExpr, Hoisted,
        Lowering.Resolve;
      StackFlow.HoistedParts(e, View().hoisted.Keys);
      ghost var c, pre, s0 := View(), cells, Rest();
      var r := Resolve(e.name);
      if r.AtSlot? {
        if e.aop.Some? {
          CompoundAssigned(e, r.slot);
        } else {
          CompileOperand(e.rhs);
        }
        EmitOp(StoreLocal(r.slot));
      } else {
        Record(if r.Unknown? then UndeclaredAssign(e.name) else AssignToBuiltin(e.name));
        ghost var s1 := Rest();
        CompileOperand(e.rhs);
        KeptTrans(s0, s1, Rest());
      }
      assert cells == pre + Lowering.CompileAssign(e, c, |pre|).code;
    }

    /** The compound form duplicates object and key, so that they are evaluated once. */
    method CompileIndexAssign(e: Expr)
      requires Valid() && e.IndexAssign? && Hoisted(e, View().hoisted.Keys)
      modifies this
      ensures Did(old(Lowering.CompileIndexAssign(e, View(), |cells|)))
      decreases e, 4
    {
      hide View, Laid, Closed, Rest, Kept, Compile, Lowering.CompileScope, Lowering.CompileBlock, HoistExpr, Hoisted,
        Lowering.CompileIndexAssign;
      if e.iop.Some? {
        CompileCompoundSet(e);
      } else {
        CompilePlainSet(e);
      }
    }

    method CompileCompoundSet(e: Expr)
      requires Valid() && e.IndexAssign? && e.iop.Some? && Hoisted(e, View().hoisted.Keys)
      modifies this
      ensures Did(old(Lowering.CompileIndexAssign(e, View(), |cells|)))
      decreases e, 3
    {
      hide View, Laid, Closed, Rest, Kept, Compile, Lowering.CompileScope, Lowering.CompileBlock, HoistExpr, Hoisted,
        Lowering.CompileIndexAssign,
        CompoundInstr;
      CompoundPops(e.iop.value);
      StackFlow.HoistedParts(e, View().hoisted.Keys);
      ghost var c, pre, s0 := View(), cells, Rest();
      StackFlow.CompoundShape(e, c, |pre|);
      CompileTarget(e);
      ghost var s1, target := Rest(), cells;
      ghost var d := Compile(e.rhs, Up(c, c.h + 3), |cells|);
      CompileOperand(e.rhs);
      KeptTrans(s0, s1, Rest());
      EmitOp(CompoundInstr(e.iop.value));
      EmitOp(IndexSet);
      JoinThree(target, d.code, At(c, c.h + 4, CompoundInstr(e.iop.value)), At(c, c.h + 3, IndexSet));
      JoinTwo(d.code, At(c, c.h + 4, CompoundInstr(e.iop.value)), At(c, c.h + 3, IndexSet));
      assert cells == pre + Lowering.CompileIndexAssign(e, c, |pre|).code;
    }

    /** The object and key of a compound assignment, kept below the element's current value. */
    method CompileTarget(e: Expr)
      requires Valid() && e.IndexAssign? && e.iop.Some? && Hoisted(e, View().hoisted.Keys)
      modifies this
      ensures var c, pre := old(View()), old(cells);
        var a := Compile(e.obj, c, |pre|);
        var b := Compile(e.key, Up(c, c.h + 1), |pre| + |a.code|);
        && Valid() && Kept(old(Rest()), Rest()) && View() == Up(c, c.h + 3)
        && cells == pre + (a.code + b.code + (At(c, c.h + 2, Dup2) + At(c, c.h + 4, IndexGet)))
        && |errors| >= |old(errors)| && (|errors| == |old(errors)| <==> a.ok && b.ok)
      decreases e, 2
    {
      hide View, Laid, Closed, Rest, Kept, Compile, Lowering.CompileScope, Lowering.CompileBlock, HoistExpr, Hoisted,
        Lowering.CompileIndexAssign;
      CompilePair(e);
      EmitOp(Dup2);
      EmitOp(IndexGet);
    }

    method CompilePlainSet(e: Expr)
      requires Valid() && e.IndexAssign? && e.iop.None? && Hoisted(e, View().hoisted.Keys)
      modifies this
      ensures Did(old(Lowering.CompileIndexAssign(e, View(), |cells|)))
      decreases e, 3
    {
      hide View, Laid, Closed, Rest, Kept, Compile, Lowering.CompileScope, Lowering.CompileBlock, HoistExpr, Hoisted,
        Lowering.CompileIndexAssign;
      StackFlow.HoistedParts(e, View().hoisted.Keys);
      ghost var c, pre, s0 := View(), cells, Rest();
      StackFlow.PlainSetShape(e, c, |pre|);
      CompilePair(e);
      ghost var s1 := Rest();
      CompileOperand(e.rhs);
      KeptTrans(s0, s1, Rest());
      EmitOp(IndexSet);
      assert cells == pre + Lowering.CompileIndexAssign(e, c, |pre|).code;
    }

    /** An object and a key, one above the other. */
    method CompilePair(e: Expr)
      requires Valid() && (e.Index? || e.IndexAssign?) && Hoisted(e, View().hoisted.Keys)
      modifies this
      ensures var c, pre := old(View()), old(cells);
        var a := Compile(e.obj, c, |pre|);
        var b := Compile(e.key, Up(c, c.h + 1), |pre| + |a.code|);
        && Valid() && Kept(old(Rest()), Rest()) && cells == pre + a.code + b.code
        && View() == After(After(c, a), b) == Up(c, c.h + 2) && Flat(c, a)
        && |errors| >= |old(errors)| && (|errors| == |old(errors)| <==> a.ok && b.ok)
      decreases e, 1
    {
      hide View, Laid, Closed, Rest, Kept, Compile, Lowering.CompileScope, Lowering.CompileBlock, HoistExpr, Hoisted;
      StackFlow.HoistedParts(e, View().hoisted.Keys);
      ghost var s0 := Rest();
      CompileOperand(e.obj);
      ghost var s1 := Rest();
      CompileOperand(e.key);
      KeptTrans(s0, s1, Rest());
    }

    // ----- blocks and scopes -----

    /** `(a; b; c)`: every declaration inside was hoisted. */
    method CompileParen(b: Block)
      requires Valid() && forall x :: x in HoistParen(b) ==> x in View().hoisted.Keys
      modifies this
      ensures Did(old(Lowering.CompileBlock(b, View(), |cells|)))
      decreases b, 4
    {
      hide View, Laid, Closed, Rest, Kept, Compile, HoistExpr;
      ParenPlaced(b, View().hoisted.Keys);
      CompileBlock(b);
    }

    method CompileBlock(b: Block)
      requires Valid() && PlacedBlock(b, View().hoisted.Keys)
      modifies this
      ensures Did(old(Lowering.CompileBlock(b, View(), |cells|)))
      decreases b, 3
    {
      hide View, Laid, Closed, Rest, Kept, Compile, HoistExpr, Hoisted, Placed;
      KeptSelf(Rest());
      ghost var c, pre, s0 := View(), cells, Rest();
      match b
      case End => EmitOp(PushNull);
      case Tail(e) => CompileExpr(e);
      case Then(stmt, rest) =>
        GrowsExpr(stmt, c, |pre|);
        CompileExpr(stmt);
        EmitOp(Pop);
        ghost var s1 := Rest();
        CompileBlock(rest);
        KeptTrans(s0, s1, Rest());
        assert cells == pre + Lowering.CompileBlock(b, c, |pre|).code;
    }

    /** One `null` per name hoisted into the scope just opened; a repeated name shares its slot. */
    method EmitHoistPrologue(names: seq<string>)
      requires Valid() && View().hoisted == map[] && View().scopeBase == |View().locals|
      modifies this
      ensures Valid() && View() == Enter(old(View()), Dedup(names)) && errors == old(errors)
      ensures cells == old(cells) + Prologue(old(View()), Dedup(names)) && Opened(old(Rest()), Rest())
    {
      ghost var c, pre, s0 := View(), cells, Rest();
      assert names[..0] == [];
      for k := 0 to |names|
        invariant Valid() && View() == Enter(c, Dedup(names[..k])) && Opened(s0, Rest()) && errors == s0.errors
        invariant cells == pre + Prologue(c, Dedup(names[..k]))
      {
        HoistOne(names[k], names, k, c, pre, s0);
      }
      assert names[..|names|] == names;
    }

    /** One name of the prologue. */
    method HoistOne(x: string, ghost names: seq<string>, ghost k: nat, ghost c: Ctx, ghost pre: Code, ghost s0: Snap)
      requires k < |names| && x == names[k] && c.hoisted == map[] && c.scopeBase == |c.locals|
      requires Valid() && View() == Enter(c, Dedup(names[..k])) && Opened(s0, Rest()) && errors == s0.errors
      requires cells == pre + Prologue(c, Dedup(names[..k]))
      modifies this
      ensures Valid() && View() == Enter(c, Dedup(names[..k + 1])) && Opened(s0, Rest()) && errors == s0.errors
      ensures cells == pre + Prologue(c, Dedup(names[..k + 1]))
    {
      hide View, Laid, Closed, Opened, Enter, Dedup, Prologue;
      ghost var d := Dedup(names[..k]);
      assert names[..k + 1] == names[..k] + [x];
      DedupSnoc(names[..k], x, {});
      EnterSnoc(c, d, x);
      assert d + [] == d;
      var slot := LookupHoisted(x);
      if slot.None? {
        ghost var s1 := Rest();
        EmitOp(PushNull);
        NotDeclared(c, d, x, View().h);
        DeclareLocal(User(x));
        RememberSlot(x);
        OpenedMore(s0, s1, Rest());
      }
    }

    /** Notes the newest local's slot as the place of the hoisted name `x`. */
    method RememberSlot(x: string)
      requires Valid() && |locals| > 0
      modifies this`hoistedScopes
      ensures Valid() && View() == old(View()).(hoisted := old(View()).hoisted[x := locals[|locals| - 1].slot])
      ensures |hoistedScopes| == |old(hoistedScopes)| && Rest() == old(Rest()).(hoisted := hoistedScopes)
      ensures hoistedScopes[..|hoistedScopes| - 1] == old(hoistedScopes)[..|hoistedScopes| - 1]
    {
      var n := |hoistedScopes| - 1;
      hoistedScopes := hoistedScopes[n := hoistedScopes[n][x := locals[|locals| - 1].slot]];
    }

    method CompileScope(b: Block)
      requires Valid()
      modifies this
      ensures Did(old(Lowering.CompileScope(b, View(), |cells|)))
      decreases b, 4
    {
      hide View, Laid, Closed, Rest, Kept, Inside, Opened, Stands, Lowering.CompileBlock, HoistBlock, Dedup, Enter,
        Prologue, SlotMap, Lowering.CompileScope;
      ghost var c, pre, s0 := View(), cells, Rest();
      TakenTogether();
      StackFlow.ScopeShape(b, c, |pre|);
      SameEntry(c, Dedup(HoistBlock(b)));
      OpenScope(b, s0);
      ghost var s1 := Rest();
      CompileBlock(b);
      InsideKept(s0, s1, Rest(), 0);
      LeaveScope(s0, c, 0);
    }

    /** A scope's opening: the names hoisted in it are in their slots. */
    method OpenScope(b: Block, ghost s0: Snap)
      requires Valid() && s0 == Rest()
      modifies this
      ensures var c, names := old(View()), Dedup(HoistBlock(b));
        && Valid() && View() == Enter(c, names) && cells == old(cells) + Prologue(c, names) && Inside(s0, Rest(), 0)
        && errors == old(errors) && PlacedBlock(b, View().hoisted.Keys)
    {
      hide View, Laid, Closed, Inside, Opened, HoistBlock, Dedup, Enter, Prologue;
      ghost var c, names := View(), Dedup(HoistBlock(b));
      HoistBlockPlaces(b, SlotMap(c.h, names).Keys);
      SameEntry(c, names);
      BeginScope();
      ghost var s1 := Rest();
      EmitHoistPrologue(HoistBlock(b));
      InsideOpened(s0, s1, Rest(), 0);
    }

    // ----- try -----

    method CompileTry(e: Expr)
      requires Valid() && e.Try? && Hoisted(e, View().hoisted.Keys)
      modifies this
      ensures Did(old(Lowering.CompileTry(e, View(), |cells|)))
      decreases e, 4
    {
      hide View, Laid, Closed, Rest, Kept, Compile, Lowering.CompileScope, Lowering.CompileBlock, HoistExpr, Hoisted,
        Lowering.CompileHandler;
      ghost var c, pre, s0 := View(), cells, Rest();
      var endJump := CompileProtected(e);
      ghost var s1, first := Rest(), cells[..endJump];
      ghost var jump := cells[endJump];
      ghost var tail := Lowering.CompileHandler(e.handler, View(), |cells|);
      FlatHandler(e.handler, View(), |cells|);
      CompileHandler(e.handler);
      KeptTrans(s0, s1, Rest());
      assert cells == first + [jump] + tail.code;
      PatchJump(endJump);
      Splice(first, jump, tail.code, cells[endJump]);
      assert cells == pre + Lowering.CompileTry(e, c, |pre|).code;
    }

    /** The protected expression and the jump over its handler, which starts with the error on top. */
    method CompileProtected(e: Expr) returns (endJump: nat)
      requires Valid() && e.Try? && Hoisted(e, View().hoisted.Keys)
      modifies this
      ensures var c, pre := old(View()), old(cells);
        var a := Compile(e.attempt, c.(tries := c.tries + [c.h]), |pre| + 1);
        && Valid() && Kept(old(Rest()), Rest()) && View() == Up(c, c.h + 1) && Flat(c, a)
        && endJump == |pre| + |a.code| + 2
        && cells == pre + At(c, c.h, PushTry(|a.code| + 2)) + a.code + [Cell(PopTry, a.h, c.tries + [c.h])]
           + At(c, a.h, Jump(PENDING))
        && |errors| >= |old(errors)| && (|errors| == |old(errors)| <==> a.ok)
      decreases e, 3
    {
      hide View, Laid, Closed, Kept, Rest, Compile, HoistExpr, Hoisted;
      ghost var c, pre := View(), cells;
      ghost var a := Compile(e.attempt, c.(tries := c.tries + [c.h]), |pre| + 1);
      var pushTry := CompileAttempt(e);
      endJump := EmitJump(Jump(PENDING));
      ghost var open, rest := cells[pushTry], a.code + [Cell(PopTry, a.h, c.tries + [c.h])] + At(c, a.h, Jump(PENDING));
      JoinThree(pre + [open], a.code, [Cell(PopTry, a.h, c.tries + [c.h])], At(c, a.h, Jump(PENDING)));
      PatchJump(pushTry);
      Splice(pre, open, rest, cells[pushTry]);
      JoinThree(pre + [cells[pushTry]], a.code, [Cell(PopTry, a.h, c.tries + [c.h])], At(c, a.h, Jump(PENDING)));
    }

    /** The expression between its `PushTry`, whose distance is pending, and its `PopTry`. */
    method CompileAttempt(e: Expr) returns (pushTry: nat)
      requires Valid() && e.Try? && Hoisted(e, View().hoisted.Keys)
      modifies this
      ensures var c, pre := old(View()), old(cells);
        var a := Compile(e.attempt, c.(tries := c.tries + [c.h]), |pre| + 1);
        && Valid() && Kept(old(Rest()), Rest()) && View() == Up(c, c.h + 1) && Flat(c, a) && pushTry == |pre|
        && cells == pre + At(c, c.h, PushTry(PENDING)) + a.code + [Cell(PopTry, a.h, c.tries + [c.h])]
        && |errors| >= |old(errors)| && (|errors| == |old(errors)| <==> a.ok)
      decreases e, 2
    {
      hide View, Laid, Closed, Kept, Stands, Compile, Lowering.CompileScope, Lowering.CompileBlock, HoistExpr, Hoisted;
      StackFlow.HoistedParts(e, View().hoisted.Keys);
      ghost var c, s0 := View(), Rest();
      TakenTogether();
      pushTry := EmitJump(PushTry(PENDING));
      OpenTry();
      ghost var s1 := Rest();
      CompileOperand(e.attempt);
      EmitOp(PopTry);
      CloseTry(s0, s1, c);
    }

    /** From here on a try-frame is open at this height. */
    ghost method OpenTry()
      requires Valid()
      modifies this`tries
      ensures Valid() && View() == old(View()).(tries := old(View()).tries + [old(View()).h])
      ensures Rest() == old(Rest()).(tries := tries) && tries == old(tries) + [old(View()).h]
    {
      tries := tries + [stackHeight];
    }

    ghost method CloseTry(s0: Snap, s1: Snap, c: Ctx)
      requires Valid() && s1.tries != [] && s1 == s0.(tries := s1.tries) && s0.tries == s1.tries[..|s1.tries| - 1]
      requires Kept(s1, Rest())
      requires Stands(c, s0)
      modifies this`tries
      ensures Valid() && Kept(s0, Rest()) && View() == old(View()).(tries := c.tries)
    {
      tries := s0.tries;
    }

    method CompileHandler(handler: Option<Catch>)
      requires Valid() && View().h >= 1
      modifies this
      ensures Did(old(Lowering.CompileHandler(handler, View(), |cells|)))
      decreases handler, 5
    {
      hide View, Laid, Closed, Rest, Kept, Inside, Stands, Lowering.CompileScope;
      KeptSelf(Rest());
      ghost var c, pre, s0 := View(), cells, Rest();
      match handler
      case None =>
        EmitOp(Pop);
        EmitOp(PushNull);
        assert cells == pre + Lowering.CompileHandler(handler, c, |pre|).code;
      case Some(k) =>
        TakenTogether();
        BeginScope();
        ghost var s1 := Rest();
        FreshScope();
        DeclareLocal(User(k.param));
        ghost var s2 := Rest();
        InsideKept(s0, s1, s2, 0);
        FlatScope(k.body, View(), |cells|);
        CompileScope(k.body);
        InsideKept(s0, s2, Rest(), 0);
        LeaveScope(s0, c, 0);
        assert cells == pre + Lowering.CompileHandler(handler, c, |pre|).code;
    }

    /** Nothing is declared yet in a scope without locals. */
    lemma FreshScope()
      requires Laid() && View().scopeBase == |View().locals|
      ensures forall x :: !Declared(View(), x)
    {
    }

    // ----- break and continue -----

    /** The innermost loop that is not skipped. */
    method FindLoop() returns (t: Option<nat>)
      requires Valid()
      ensures t.None? <==> View().loops == []
      ensures t.Some? ==> t.value < |loopStack| && !loopStack[t.value].skip && forall j :: t.value < j < |loopStack| ==>
        loopStack[j].skip
      ensures t.Some? ==> View().loops[|View().loops| - 1] == AsCtx(loopStack[t.value], t.value, visible[t.value])
    {
      hide Layered, Users, Outer, Active, Lay, ExitsListed, Closed;
      var i := |loopStack|;
      while i > 0
        invariant 0 <= i <= |loopStack| && forall j :: i <= j < |loopStack| ==> loopStack[j].skip
      {
        if !loopStack[i - 1].skip {
          SkipInnermost(loopStack, visible, i - 1);
          return Some(i - 1);
        }
        i := i - 1;
      }
      AllSkipped(loopStack, visible);
      return None;
    }

    /** While a `break`'s value is compiled its loop is no target. */
    method SkipLoop(t: nat)
      requires Valid() && t < |loopStack| && !loopStack[t].skip && forall j :: t < j < |loopStack| ==> loopStack[j].skip
      requires View().loops != []
      modifies this`loopStack
      ensures Valid() && Rest() == old(Rest()).(loops := Skipped(old(loopStack), t))
      ensures View() == old(View()).(loops := old(View()).loops[..|old(View()).loops| - 1])
    {
      hide Layered, Users, Outer, Active, Lay, Closed, Holes;
      SkipInnermost(loopStack, visible, t);
      loopStack := loopStack[t := loopStack[t].(skip := true)];
    }

    method UnskipLoop(t: nat, ghost s0: Snap, ghost c: Ctx)
      requires Valid() && t < |s0.loops| && !s0.loops[t].skip && Kept(s0.(loops := Skipped(s0.loops, t)), Rest())
      requires Stands(c, s0)
      modifies this`loopStack
      ensures Valid() && Kept(s0, Rest()) && View() == old(View()).(loops := c.loops)
    {
      hide Layered, Users, Outer, Active, Lay, Closed, Holes;
      SameUnskipped(s0.loops, loopStack, t);
      loopStack := loopStack[t := loopStack[t].(skip := false)];
      SameActive(loopStack, s0.loops, visible);
    }

    /** Stores or appends the value on top to a loop's result. */
    method EmitFold(isArray: bool, slot: nat)
      requires Valid() && View().h >= 1
      modifies this`code, this`stackHeight, this`cells
      ensures Valid() && cells == old(cells) + Lowering.Fold(old(View()), old(View()).h, isArray, slot)
      ensures View() == Up(old(View()), old(View()).h - 1) && Rest() == old(Rest())
    {
      hide View, Laid, Closed, Rest;
      if isArray {
        EmitOp(IterAppend(slot));
      } else {
        EmitOp(StoreLocal(slot));
        EmitOp(Pop);
      }
    }

    method CompileBreak(e: Expr)
      requires Valid() && e.Break? && Hoisted(e, View().hoisted.Keys)
      modifies this
      ensures Did(old(Lowering.CompileBreak(e, View(), |cells|)))
      decreases e, 4
    {
      hide View, Laid, Closed, Rest, Kept, Compile, Lowering.CompileScope, Lowering.CompileBlock, HoistExpr, Hoisted,
        Stands;
      KeptSelf(Rest());
      var target := FindLoop();
      if target.None? {
        Record(BreakOutsideLoop);
        EmitOp(PushNull);
      } else {
        BreakOut(e, target.value);
      }
    }

    method BreakOut(e: Expr, t: nat)
      requires Valid() && e.Break? && Hoisted(e, View().hoisted.Keys)
      requires t < |loopStack| && !loopStack[t].skip && forall j :: t < j < |loopStack| ==> loopStack[j].skip
      requires View().loops != [] && View().loops[|View().loops| - 1] == AsCtx(loopStack[t], t, visible[t])
      modifies this
      ensures Did(old(Lowering.CompileBreak(e, View(), |cells|)))
      decreases e, 3
    {
      hide View, Laid, Closed, Kept, Compile, Lowering.CompileScope, Lowering.CompileBlock, HoistExpr, Hoisted, Stands,
        Lowering.CompileBreak, BreakResult;
      ghost var c, pre, s0 := View(), cells, Rest();
      TrackerIsH();
      var entryHeight, isArray, resultSlot, base :=
        stackHeight, loopStack[t].isArray, loopStack[t].resultSlot, loopStack[t].base;
      BreakParts(e, c, |pre|);
      BreakValue(e, t);
      ghost var s1 := Rest();
      ghost var value := BreakResult(e, c, |pre|);
      if !isArray || e.arg.Some? {
        EmitFold(isArray, resultSlot);
      }
      StillThere(s0);
      JumpOut(t, base, entryHeight);
      KeptTrans(s0, s1, Rest());
      assert cells == pre + Lowering.CompileBreak(e, c, |pre|).code;
    }

    /** The stack cut to the loop's base, and the pending jump to its exit; only afterwards is the tracker set. */
    method JumpOut(t: nat, base: nat, entryHeight: nat)
      requires Valid() && t < |loopStack|
      modifies this`code, this`cells, this`stackHeight, this`loopStack
      ensures var c := old(View());
        && Valid() && Kept(old(Rest()), Rest()) && View() == Up(c, entryHeight + 1)
        && cells == old(cells) + At(c, c.h, Unwind(U8(base))) + AfterUnwind(c, c.h, base, Hole(t))
      ensures errors == old(errors)
    {
      hide View, Laid, Closed, Kept, Rest, AfterUnwind;
      EmitOp(Unwind(U8(base)));
      EmitExit(t, base);
      SetStackHeight(entryHeight + 1);
    }

    /** No loop ended meanwhile. */
    lemma StillThere(s0: Snap)
      requires Valid() && Kept(s0, Rest())
      ensures |loopStack| == |s0.loops|
    {
    }

    /** What a `break` out of loop `t` leaves on the stack: its value, `null`, or nothing. */
    method BreakValue(e: Expr, t: nat)
      requires Valid() && e.Break? && Hoisted(e, View().hoisted.Keys)
      requires t < |loopStack| && !loopStack[t].skip && forall j :: t < j < |loopStack| ==> loopStack[j].skip
      requires View().loops != [] && View().loops[|View().loops| - 1] == AsCtx(loopStack[t], t, visible[t])
      modifies this
      ensures var c, pre := old(View()), old(cells);
        var a := BreakResult(e, c, |pre|);
        && Valid() && Kept(old(Rest()), Rest()) && cells == pre + a.code && View() == After(c, a)
        && a.locals == c.locals
        && (a.h == if e.arg.None? && old(loopStack[t].isArray) then c.h else c.h + 1) && |errors| >= |old(errors)|
             && (|errors| == |old(errors)| <==> a.ok)
      decreases e, 2
    {
      hide View, Laid, Closed, Kept, Compile, Lowering.CompileScope, Lowering.CompileBlock, HoistExpr, Hoisted, Stands;
      StackFlow.HoistedParts(e, View().hoisted.Keys);
      KeptSelf(Rest());
      ghost var c, s0 := View(), Rest();
      if e.arg.Some? {
        TakenTogether();
        SkipLoop(t);
        CompileOperand(e.arg.value);
        UnskipLoop(t, s0, c);
      } else if !loopStack[t].isArray {
        EmitOp(PushNull);
      }
    }

    method CompileContinue()
      requires Valid()
      modifies this
      ensures Did(old(Lowering.CompileContinue(View(), |cells|)))
    {
      hide View, Laid, Closed, Rest, Kept, AfterUnwind, Lowering.Fold;
      KeptSelf(Rest());
      var target := FindLoop();
      if target.None? {
        Record(ContinueOutsideLoop);
        EmitOp(PushNull);
      } else {
        NextIteration(target.value);
      }
    }

    method NextIteration(t: nat)
      requires Valid() && t < |loopStack|
      requires View().loops != [] && View().loops[|View().loops| - 1] == AsCtx(loopStack[t], t, visible[t])
      modifies this
      ensures Did(old(Lowering.CompileContinue(View(), |cells|)))
    {
      hide View, Laid, Closed, Rest, Kept, AfterUnwind, Lowering.CompileContinue;
      KeptSelf(Rest());
      ghost var c, pre := View(), cells;
      TrackerIsH();
      var entryHeight, base, start := stackHeight, loopStack[t].base, loopStack[t].start;
      ContinueParts(c, |pre|);
      NoValue(t);
      EmitOp(Unwind(U8(base)));
      EmitLoop(start, base);
      SetStackHeight(entryHeight + 1);
    }

    /** A plain loop's result becomes `null`; an array stays as it is. */
    method NoValue(t: nat)
      requires Valid() && t < |loopStack|
      modifies this`code, this`stackHeight, this`cells
      ensures Valid() && View() == old(View()) && Rest() == old(Rest())
      ensures cells == old(cells) + ContinueStore(old(View()), loopStack[t].isArray, loopStack[t].resultSlot)
    {
      hide View, Laid, Closed, Rest;
      if !loopStack[t].isArray {
        EmitOp(PushNull);
        EmitFold(false, loopStack[t].resultSlot);
      }
    }

    // ----- loops -----

    /** The loop's result, `null` or a fresh array, becomes an unnamed local. */
    method EmitResult(isArray: bool) returns (resultSlot: nat)
      requires Valid()
      modifies this`code, this`cells, this`stackHeight, this`locals, this`errors
      ensures Valid() && cells == old(cells) + Seed(old(View()), isArray)
      ensures View() == Up(old(View()), old(View()).h + 1)
      ensures resultSlot == U8(old(View()).h) && errors == old(errors)
      ensures Rest() == old(Rest()).(locals := old(locals) + [LocalVar(Hidden, scopeDepth, resultSlot)])
    {
      hide View, Laid, Closed;
      if isArray {
        EmitOp(MakeArray);
        TrackerIsH();
        SetStackHeight(stackHeight + 1);
      } else {
        EmitOp(PushNull);
      }
      DeclareLocal(Hidden);
      resultSlot := locals[|locals| - 1].slot;
    }

    /** Opens a loop's scope: its result, then the names hoisted out of its head. */
    method OpenLoop(isArray: bool, names: seq<string>, ghost s0: Snap) returns (resultSlot: nat)
      requires Valid() && s0 == Rest()
      modifies this
      ensures var c := old(View());
        && Valid() && View() == Enter(Up(c, c.h + 1), Dedup(names)) && resultSlot == U8(c.h)
        && cells == old(cells) + Seed(c, isArray) + Prologue(Up(c, c.h + 1), Dedup(names))
        && Inside(s0, Rest(), 1) && errors == old(errors)
    {
      hide View, Laid, Closed, Inside, Opened, Dedup, Enter, Prologue, Seed;
      ghost var c := View();
      SameEntry(Up(c, c.h + 1), Dedup(names));
      SameSeed(c, isArray);
      BeginScope();
      ghost var s1 := Rest();
      resultSlot := EmitResult(isArray);
      ghost var s2 := Rest();
      InsideHidden(s0, s1, s2, 0, resultSlot);
      EmitHoistPrologue(names);
      InsideOpened(s0, s2, Rest(), 1);
    }

    method CompileWhile(e: Expr)
      requires Valid() && e.While?
      modifies this
      ensures Did(old(Lowering.CompileWhile(e, View(), |cells|)))
      decreases e, 4
    {
      hide U8, View, Laid, Closed, Rest, Kept, Inside, Stands, HoistExpr, Hoisted, Dedup, Enter, Prologue,
        Lowering.CompileWhile, WhileLoop;
      ghost var c, pre, s0 := View(), cells, Rest();
      TakenTogether();
      StackFlow.WhileShape(e, c, |pre|);
      SameEntry(Up(c, c.h + 1), Dedup(HoistExpr(e.cond)));
      var resultSlot := OpenLoop(e.isArray, HoistExpr(e.cond), s0);
      ghost var s1 := Rest();
      WhileLoopProper(e, resultSlot);
      EmitOp(LoadLocal(resultSlot));
      InsideKept(s0, s1, Rest(), 1);
      LeaveScope(s0, c, 1);
      assert cells == pre + Lowering.CompileWhile(e, c, |pre|).code;
    }

    /** From the loop's head to its exit. */
    method WhileLoopProper(e: Expr, resultSlot: nat)
      requires Valid() && e.While? && Hoisted(e.cond, View().hoisted.Keys)
      modifies this
      ensures Did(old(WhileLoop(e, View(), resultSlot, |cells|)))
      decreases e, 3
    {
      hide View, Laid, Closed, Rest, Kept, Compile, Lowering.CompileScope, Lowering.CompileBlock, HoistExpr, Hoisted,
        Looped, Stands, Patch, WhileCode;
      ghost var head, pre, s1 := View(), cells, Rest();
      TakenTogether();
      NothingOpen();
      var loopStart := |code|;
      TrackerIsH();
      PushLoop(resultSlot, e.isArray);
      ghost var s2, c := Rest(), View();
      ghost var a := Compile(e.cond, c, |pre|);
      CompileOperand(e.cond);
      ghost var s3 := Rest();
      LoopedKept(s1, s2, s3);
      ghost var b := Lowering.CompileScope(e.body, c, |pre| + |a.code| + 2);
      WhileTurn(e, resultSlot, loopStart, a, c);
      LoopedKept(s1, s3, Rest());
      ghost var code := WhileCode(e.isArray, head, resultSlot, |pre|, a, b);
      WhileCodeSplit(e.isArray, head, c, resultSlot, |pre|, a, b);
      assert cells == pre + code;
      LeaveLoop(s1, head);
      PatchSplit(pre, code, head.nloops, |pre| + |code|);
    }

    /** The test on top: leave if it is falsy, else run the body and go back. */
    method WhileTurn(e: Expr, resultSlot: nat, loopStart: nat, ghost a: Result, ghost c: Ctx)
      requires Valid() && e.While? && View() == Up(c, c.h + 1) && a.h == c.h + 1 && |cells| == loopStart + |a.code|
      modifies this
      ensures var b := Lowering.CompileScope(e.body, c, loopStart + |a.code| + 2);
        && Valid() && Kept(old(Rest()), Rest()) && View() == c && Flat(c, b)
        && cells == old(cells) + WhileRest(e.isArray, c, resultSlot, |a.code|, b)
        && |errors| >= |old(errors)| && (|errors| == |old(errors)| <==> b.ok)
      decreases e, 2
    {
      hide View, Laid, Closed, Rest, Kept, Compile, Lowering.CompileScope, Lowering.CompileBlock, HoistExpr, Hoisted,
        WhileBack;
      ghost var pre := cells;
      var condHeight := stackHeight;
      TrackerIsH();
      var exitJump := EmitJump(JumpIfFalse(PENDING));
      ghost var b := Lowering.CompileScope(e.body, c, |pre| + 2);
      WhileBody(e, resultSlot, loopStart, c);
      SetStackHeight(condHeight);
      ghost var test, rest := cells[exitJump], WhileBack(e.isArray, c, resultSlot, |a.code|, b);
      assert cells == pre + [test] + rest;
      PatchJump(exitJump);
      Splice(pre, test, rest, cells[exitJump]);
      EmitOp(Pop);
      WhileBackLength(e.isArray, c, resultSlot, |a.code|, b);
    }

    /** The body, its value folded into the loop's result, and the jump back. */
    method WhileBody(e: Expr, resultSlot: nat, loopStart: nat, ghost c: Ctx)
      requires Valid() && e.While? && View() == Up(c, c.h + 1) && |cells| > loopStart
      modifies this
      ensures var b := Lowering.CompileScope(e.body, c, |old(cells)| + 1);
        && Valid() && Kept(old(Rest()), Rest()) && View() == c && Flat(c, b)
        && cells == old(cells) + WhileBack(e.isArray, c, resultSlot, |old(cells)| - 1 - loopStart, b)
        && |errors| >= |old(errors)| && (|errors| == |old(errors)| <==> b.ok)
      decreases e, 1
    {
      hide View, Laid, Closed, Rest, Kept, Lowering.CompileScope;
      EmitOp(Pop);
      assert View() == c;
      FlatScope(e.body, c, |cells|);
      CompileScope(e.body);
      EmitFold(e.isArray, resultSlot);
      EmitLoop(loopStart, View().h);
    }

    /** Ends the innermost loop, entered in state `c1`: its exits are patched to here. */
    method LeaveLoop(ghost s1: Snap, ghost c1: Ctx)
      requires Valid() && Looped(s1, Rest()) && Stands(c1, s1)
      modifies this
      ensures Valid() && Kept(s1, Rest()) && View() == old(View()).(loops := c1.loops, nloops := c1.nloops)
      ensures cells == Patch(old(cells), 0, c1.nloops, |old(cells)|) && |errors| == |old(errors)|
    {
      hide Layered, Users, Outer, Active, Lay, Closed, Holes, ExitsListed, Patch;
      PopLoop();
      SameActive(loopStack, s1.loops, visible);
    }

    lemma NothingOpen()
      requires Valid()
      ensures Closed(cells, View().nloops)
    {
    }

    method CompileFor(e: Expr)
      requires Valid() && e.For?
      modifies this
      ensures Did(old(Lowering.CompileFor(e, View(), |cells|)))
      decreases e, 4
    {
      hide View, Laid, Closed, Rest, Kept, Inside, Stands, Lowering.CompileFor, ForOpen, Enter, Dedup, HoistExpr;
      SameEntry(Up(View(), View().h + 1), Dedup(HoistExpr(e.iter)));
      ghost var c, pre, s0 := View(), cells, Rest();
      TakenTogether();
      ghost var count := ForClosed(e, c, |pre|);
      ForToExit(e, s0);
      LeaveScope(s0, c, 2);
      assert pre + ForOpen(e, c, |pre|).code + At(c, c.h + count + 1, CloseScope(count)) ==
        pre + Lowering.CompileFor(e, c, |pre|).code;
    }

    /** Everything but the closing of the scope. */
    method ForToExit(e: Expr, ghost s0: Snap)
      requires Valid() && e.For? && s0 == Rest()
      modifies this
      ensures var r := ForOpen(e, old(View()), |old(cells)|);
        && Valid() && cells == old(cells) + r.code && Inside(s0, Rest(), 2) && |errors| >= |old(errors)|
        && (|errors| == |old(errors)| <==> r.ok)
        && View() == Enter(Up(old(View()), old(View()).h + 1), Dedup(HoistExpr(e.iter))).(locals := r.locals, h := r.h)
      decreases e, 4, 0
    {
      hide View, Laid, Closed, Rest, Kept, Inside, Stands, Compile, HoistExpr, Hoisted, Dedup, Enter, Prologue, ForLoop;
      ghost var c, pre := View(), cells;
      StackFlow.ForShape(e, c, |pre|);
      var resultSlot := OpenLoop(e.isArray, HoistExpr(e.iter), s0);
      Iterate(e, resultSlot, s0);
      assert cells == pre + ForOpen(e, c, |pre|).code;
    }

    /** The iterator, the loop, and its result on top. */
    method Iterate(e: Expr, resultSlot: nat, ghost s0: Snap)
      requires Valid() && e.For? && Hoisted(e.iter, View().hoisted.Keys) && Inside(s0, Rest(), 1)
      modifies this
      ensures var head, pre := old(View()), old(cells);
        var a := Compile(e.iter, head, |pre|);
        var r := ForLoop(e, After(head, a), resultSlot, |pre| + |a.code| + 1);
        && Valid() && Inside(s0, Rest(), 2) && View() == Up(After(After(head, a), r), r.h + 1)
        && cells == pre + (a.code + At(head, a.h, MakeIter) + r.code + At(head, r.h, LoadLocal(resultSlot)))
        && |errors| >= |old(errors)| && (|errors| == |old(errors)| <==> a.ok && r.ok)
      decreases e, 3
    {
      hide View, Laid, Closed, Rest, Kept, Inside, Compile, HoistExpr, Hoisted, ForLoop;
      CompileIterator(e, s0);
      ghost var s1 := Rest();
      ForLoopProper(e, resultSlot);
      EmitOp(LoadLocal(resultSlot));
      InsideKept(s0, s1, Rest(), 2);
    }

    /** The iterated value becomes an iterator, an unnamed local. */
    method CompileIterator(e: Expr, ghost s0: Snap)
      requires Valid() && e.For? && Hoisted(e.iter, View().hoisted.Keys) && Inside(s0, Rest(), 1)
      modifies this
      ensures var c, pre := old(View()), old(cells);
        var a := Compile(e.iter, c, |pre|);
        && Valid() && cells == pre + a.code + At(c, a.h, MakeIter) && View() == After(c, a) && Inside(s0, Rest(), 2)
        && |errors| >= |old(errors)| && (|errors| == |old(errors)| <==> a.ok)
      decreases e, 2
    {
      hide View, Laid, Closed, Kept, Inside, Compile, HoistExpr, Hoisted;
      ghost var s1 := Rest();
      CompileOperand(e.iter);
      EmitOp(MakeIter);
      ghost var s2 := Rest();
      InsideKept(s0, s1, s2, 1);
      DeclareLocal(Hidden);
      InsideHidden(s0, s2, Rest(), 1, locals[|locals| - 1].slot);
    }

    /** From the pull of the iterator to the loop's exit. */
    method ForLoopProper(e: Expr, resultSlot: nat)
      requires Valid() && e.For?
      modifies this
      ensures Did(old(ForLoop(e, View(), resultSlot, |cells|)))
      decreases e, 2
    {
      hide View, Laid, Closed, Rest, Kept, Compile, Lowering.CompileScope, Lowering.CompileBlock, HoistExpr, Hoisted,
        Looped, Stands, Patch, ForCode, Iteration;
      ghost var head, pre, s1 := View(), cells, Rest();
      TakenTogether();
      NothingOpen();
      var loopStart := |code|;
      TrackerIsH();
      PushLoop(resultSlot, e.isArray);
      ghost var s2 := Rest();
      ghost var c := Iteration(e, head, resultSlot, |pre|);
      ghost var b := Lowering.CompileScope(e.body, c, |pre| + 1);
      IterationIs(e, head, resultSlot, |pre|);
      ForTurn(e, resultSlot, loopStart, head);
      LoopedKept(s1, s2, Rest());
      assert cells == pre + ForCode(e, head, resultSlot, b);
      LeaveLoop(s1, head);
      PatchSplit(pre, ForCode(e, head, resultSlot, b), head.nloops, |cells|);
    }

    /** One iteration: pull the next values or leave, then the body. */
    method ForTurn(e: Expr, resultSlot: nat, loopStart: nat, ghost head: Ctx)
      requires Valid() && e.For? && |cells| == loopStart
      requires View() == head.(loops := head.loops
        + [LoopCtx(head.nloops, resultSlot, head.h, e.isArray, loopStart, |head.locals|)],
        nloops := head.nloops + 1)
      modifies this
      ensures var b := Lowering.CompileScope(e.body, Iteration(e, head, resultSlot, loopStart), loopStart + 1);
        && Valid() && Kept(old(Rest()), Rest()) && View() == old(View())
        && cells == old(cells) + ForCode(e, head, resultSlot, b)
        && |errors| >= |old(errors)| && (|errors| == |old(errors)| <==> b.ok && Some(e.first) != e.second)
      decreases e, 1
    {
      hide View, Laid, Closed, Rest, Kept, Inside, Stands, Lowering.CompileScope, Iteration, ForRest;
      ghost var pre := cells;
      var exitJump := EmitJump(if e.second.None? then IterNext(PENDING) else IterNext2(PENDING));
      ghost var b := Lowering.CompileScope(e.body, Iteration(e, head, resultSlot, loopStart), loopStart + 1);
      ForBody(e, resultSlot, loopStart, head);
      ghost var pull, rest := cells[exitJump], ForRest(e, head, resultSlot, b);
      assert cells == pre + [pull] + rest;
      PatchJump(exitJump);
      Splice(pre, pull, rest, cells[exitJump]);
      ForCodeSplit(e, head, resultSlot, b);
    }

    /** Declare the variables, run the body, fold its value, cut the stack and go back. */
    method ForBody(e: Expr, resultSlot: nat, loopStart: nat, ghost head: Ctx)
      requires Valid() && e.For? && |cells| == loopStart + 1
      requires View() == head.(loops := head.loops
        + [LoopCtx(head.nloops, resultSlot, head.h, e.isArray, loopStart, |head.locals|)],
        nloops := head.nloops + 1)
      modifies this
      ensures var b := Lowering.CompileScope(e.body, Iteration(e, head, resultSlot, loopStart), loopStart + 1);
        && Valid() && Kept(old(Rest()), Rest()) && View() == old(View())
        && cells == old(cells) + ForRest(e, head, resultSlot, b)
        && |errors| >= |old(errors)| && (|errors| == |old(errors)| <==> b.ok && Some(e.first) != e.second)
      decreases e, 0
    {
      hide View, Laid, Closed, Rest, Kept, Inside, Stands, Lowering.CompileScope, Iteration, Compile, HoistExpr,
        AfterUnwind;
      ghost var c, s0 := View(), Rest();
      TakenTogether();
      TrackerIsH();
      var base := stackHeight;
      IterationIs(e, head, resultSlot, loopStart);
      DeclareVariables(e, base, head, resultSlot, loopStart, s0);
      ghost var s1 := Rest();
      FlatScope(e.body, View(), |cells|);
      CompileScope(e.body);
      InsideKept(s0, s1, Rest(), 0);
      EndIteration(e.isArray, resultSlot, base, loopStart, s0, c);
    }

    /** The value goes to the loop's result, the stack is cut to the iterator, and the next turn begins. */
    method EndIteration(isArray: bool, slot: nat, base: nat, loopStart: nat, ghost s0: Snap, ghost c: Ctx)
      requires Valid() && View().h >= 1 && base == c.h && Inside(s0, Rest(), 0) && Stands(c, s0)
      requires View().globals == c.globals && View().loops == c.loops && View().nloops == c.nloops
      requires View().tries == c.tries
      modifies this`code, this`cells, this`stackHeight, this`locals, this`scopeDepth, this`hoistedScopes
      ensures Valid() && View() == c && Kept(s0, Rest())
      ensures var d := old(View());
        var fold := Lowering.Fold(d, d.h, isArray, slot);
        cells == old(cells) + fold + At(d, d.h - 1, Unwind(U8(base)))
                   + At(c, c.h, Loop(|old(cells)| + |fold| + 2 - loopStart))
    {
      hide View, Laid, Closed, Rest, Kept, Inside, Stands, Lowering.Fold, U8;
      EmitFold(isArray, slot);
      EmitOp(Unwind(U8(base)));
      SetStackHeight(base);
      LeaveIteration(s0, c);
      EmitLoop(loopStart, View().h);
    }

    /** The scope of one iteration, with its variables in the slots just pulled. */
    method DeclareVariables(e: Expr, base: nat, ghost head: Ctx, ghost result: nat, ghost start: nat, ghost s0: Snap)
      requires Valid() && e.For? && base == View().h == head.h && s0 == Rest()
      requires View() == head.(loops := head.loops
        + [LoopCtx(head.nloops, result, head.h, e.isArray, start, |head.locals|)],
        nloops := head.nloops + 1)
      modifies this
      ensures Valid() && cells == old(cells) && View() == Iteration(e, head, result, start) && Inside(s0, Rest(), 0)
      ensures |errors| >= |old(errors)| && (|errors| == |old(errors)| <==> Some(e.first) != e.second)
    {
      hide View, Laid, Closed, Rest, Kept, Inside, Declared;
      SetStackHeight(base + if e.second.None? then 1 else 2);
      BeginScope();
      FreshScope();
      ghost var s1 := Rest();
      var topSlot := U8(base + if e.second.None? then 0 else 1);
      if e.second.None? {
        DeclareLocalAt(User(e.first), topSlot);
        InsideKept(s0, s1, Rest(), 0);
      } else {
        assert (topSlot + 255) % 256 == U8(base);
        DeclareLocalAt(User(e.first), (topSlot + 255) % 256);
        ghost var s2 := Rest();
        OneDeclared(e.first, e.second.value);
        DeclareLocalAt(User(e.second.value), topSlot);
        KeptTrans(s1, s2, Rest());
        InsideKept(s0, s1, Rest(), 0);
      }
    }

    /** In a scope with the single local `x`, that name alone is taken. */
    lemma OneDeclared(x: string, y: string)
      requires Laid() && |View().locals| == View().scopeBase + 1 && View().locals[View().scopeBase].name == x
      ensures Declared(View(), y) <==> x == y
    {
    }

    /** Ends an iteration's scope without `CloseScope`: the stack has been cut already. */
    method LeaveIteration(ghost s0: Snap, ghost c: Ctx)
      requires Valid() && Inside(s0, Rest(), 0) && Stands(c, s0) && View().globals == c.globals && View().h == c.h
      requires View().loops == c.loops && View().nloops == c.nloops && View().tries == c.tries
      modifies this`locals, this`scopeDepth, this`hoistedScopes
      ensures Valid() && View() == c && Kept(s0, Rest())
    {
      hide Layered, Users, Active, Lay, ExitsListed, Closed;
      InsideOuter(s0, Rest(), 0);
      var count := DropLocals();
      assert locals == s0.locals && hoistedScopes == s0.hoisted;
    }

    // ----- whole programs -----

    /** A whole program on a fresh compiler. */
    method CompileMain(program: Block)
      requires Valid() && View() == Initial(globals) && cells == [] && errors == []
      modifies this
      ensures Valid() && cells == CompileProgram(program, globals).code
      ensures (errors == [] <==> CompileProgram(program, globals).ok)
      ensures code == Lay(cells) && Closed(cells, 0)
    {
      hide View, Kept, Stands, Enter, Dedup, HoistBlock, Prologue, Lowering.CompileBlock, PlacedBlock,
        SlotMap, Closed, Users, Layered, Outer, Active;
      ghost var c := View();
      ghost var names := Dedup(HoistBlock(program));
      HoistBlockPlaces(program, SlotMap(c.h, names).Keys);
      SameEntry(c, names);
      NoLoops();
      EmitHoistPrologue(HoistBlock(program));
      ghost var s1 := Rest();
      assert |Prologue(c, names)| == |names| by { Simulation.PrologueLength(c, names); }
      CompileBlock(program);
      TopLevelLoops(s1);
      EmitOp(ReturnI);
      assert [] + Prologue(c, names) == Prologue(c, names);
    }

    lemma NoLoops()
      requires Valid() && View().nloops == 0
      ensures loopStack == []
    {
    }

    /** Outside every loop no jump is open. */
    lemma TopLevelLoops(s1: Snap)
      requires Valid() && Kept(s1, Rest()) && s1.loops == []
      ensures loopStack == []
    {
    }
  }

  /** Overwriting the cell in the middle. */
  lemma JoinTwo(front: Code, a: Code, b: Code)
    ensures front + a + b == front + (a + b)
  {
  }

  lemma JoinThree(front: Code, a: Code, b: Code, d: Code)
    ensures front + a + b + d == front + (a + b + d)
  {
  }

  lemma Splice(a: Code, x: Cell, b: Code, y: Cell)
    ensures (a + [x] + b)[|a| := y] == a + [y] + b
  {
  }

  /** What a `break` leaves on the stack for its loop: its value, `null`, or nothing. */
  function BreakResult(e: Expr, c: Ctx, pos: nat): Result
    requires e.Break? && c.loops != []
  {
    var n := |c.loops| - 1;
    if e.arg.Some? then Compile(e.arg.value, c.(loops := c.loops[..n]), pos)
    else if c.loops[n].isArray then Result([], c.locals, c.h, true, true)
    else Result(At(c, c.h, PushNull), c.locals, c.h + 1, true, true)
  }

  lemma BreakParts(e: Expr, c: Ctx, pos: nat)
    requires e.Break? && c.loops != []
    ensures var l := c.loops[|c.loops| - 1];
      var a := BreakResult(e, c, pos);
      var r := Lowering.CompileBreak(e, c, pos);
      && r.locals == a.locals && r.h == c.h + 1 && r.ok == a.ok
      && (if e.arg.None? && l.isArray
          then r.code == At(c, a.h, Unwind(U8(l.base))) + AfterUnwind(c, a.h, l.base, Hole(l.id))
          else r.code == a.code + Lowering.Fold(c, a.h, l.isArray, l.resultSlot)
                          + At(c, Less(a.h, 1), Unwind(U8(l.base))) + AfterUnwind(c, Less(a.h, 1), l.base, Hole(l.id)))
      && (e.arg.None? && l.isArray ==> a.code == [] && a.h == c.h)
  {
    hide Compile, Lowering.Fold;
  }

  function ContinueStore(c: Ctx, isArray: bool, slot: nat): Code {
    if isArray then [] else At(c, c.h, PushNull) + Lowering.Fold(c, c.h + 1, false, slot)
  }

  lemma ContinueParts(c: Ctx, pos: nat)
    requires c.loops != []
    ensures var l := c.loops[|c.loops| - 1];
      var store := ContinueStore(c, l.isArray, l.resultSlot);
      var r := Lowering.CompileContinue(c, pos);
      && r.locals == c.locals && r.h == c.h + 1 && r.ok
      && r.code == store + At(c, c.h, Unwind(U8(l.base)))
                     + AfterUnwind(c, c.h, l.base, Loop(pos + |store| + 2 - l.start))
  {
    hide Lowering.Fold;
  }

  lemma CompoundPops(op: BinOp)
    ensures Delta(CompoundInstr(op)) == -1 && !CompoundInstr(op).Hole?
  {
  }

  lemma HoistedIsPlaced(e: Expr, names: set<string>)
    requires Hoisted(e, names)
    ensures Placed(e, names)
  {
    StackFlow.HoistedParts(e, names);
  }

  lemma {:induction false} ParenPlaced(b: Block, names: set<string>)
    requires forall x :: x in HoistParen(b) ==> x in names
    ensures PlacedBlock(b, names)
    decreases b
  {
    match b
    case End =>
    case Tail(e) => HoistedIsPlaced(e, names);
    case Then(stmt, rest) =>
      HoistedIsPlaced(stmt, names);
      ParenPlaced(rest, names);
  }

  lemma {:induction false} DedupSnoc(names: seq<string>, x: string, seen: set<string>)
    ensures Dedup(names + [x], seen) == Dedup(names, seen) + if x in names || x in seen then [] else [x]
    ensures x in Dedup(names, seen) <==> x in names && x !in seen
    decreases |names|
  {
    if names == [] {
      assert [] + [x] == [x];
    } else {
      assert (names + [x])[1..] == names[1..] + [x];
      DedupSnoc(names[1..], x, if names[0] in seen then seen else seen + {names[0]});
    }
  }

  lemma SameSeed(c: Ctx, isArray: bool)
    ensures Seed(c.(hoisted := map[], scopeBase := |c.locals|), isArray) == Seed(c, isArray)
  {
  }

  /** A `while`'s code between its test and its exit. */
  function WhileBack(isArray: bool, c: Ctx, result: nat, condition: nat, b: Result): Code {
    var fold := Lowering.Fold(c, b.h, isArray, result);
    At(c, c.h + 1, Pop) + b.code + fold + At(c, c.h, Loop(condition + |b.code| + |fold| + 3))
  }

  /** A `while`'s code after its condition. */
  function WhileRest(isArray: bool, c: Ctx, result: nat, condition: nat, b: Result): Code {
    var back := WhileBack(isArray, c, result, condition, b);
    At(c, c.h + 1, JumpIfFalse(|back|)) + back + At(c, c.h + 1, Pop)
  }

  lemma WhileBackLength(isArray: bool, c: Ctx, result: nat, condition: nat, b: Result)
    ensures |WhileBack(isArray, c, result, condition, b)| == |b.code| + |Lowering.Fold(c, b.h, isArray, result)| + 2
  {
  }

  lemma WhileCodeSplit(isArray: bool, head: Ctx, c: Ctx, result: nat, start: nat, a: Result, b: Result)
    requires c.tries == head.tries && c.h == head.h && a.h == b.h == c.h + 1
    ensures WhileCode(isArray, head, result, start, a, b) == a.code + WhileRest(isArray, c, result, |a.code|, b)
  {
    var fold := Lowering.Fold(c, b.h, isArray, result);
    assert Lowering.Fold(head, b.h, isArray, result) == fold;
  }

  /** Patching everything for a loop touches only the loop's own code. */
  lemma PatchSplit(pre: Code, code: Code, id: nat, exit: int)
    requires Closed(pre, id)
    ensures Patch(pre + code, 0, id, exit) == pre + Patch(code, |pre|, id, exit)
  {
    var l, r := Patch(pre + code, 0, id, exit), pre + Patch(code, |pre|, id, exit);
    forall i | 0 <= i < |l| ensures l[i] == r[i] {
      if i >= |pre| {
        assert (pre + code)[i] == code[i - |pre|];
      }
    }
  }

  /** `b` is `a` with one more loop around. */
  ghost predicate Looped(a: Snap, b: Snap) {
    && |b.loops| == |a.loops| + 1 && |b.visible| == |b.loops|
    && Kept(a, b.(loops := b.loops[..|a.loops|], visible := b.visible[..|a.loops|]))
  }

  lemma LoopedKept(a: Snap, b: Snap, c: Snap)
    requires Looped(a, b) && Kept(b, c)
    ensures Looped(a, c)
  {
    var n := |a.loops|;
    var b1, c1 := b.(loops := b.loops[..n], visible := b.visible[..n]),
      c.(loops := c.loops[..n], visible := c.visible[..n]);
    assert Kept(b1, c1) by {
      forall i | 0 <= i < n ensures c1.loops[i].(exitJumps := []) == b1.loops[i].(exitJumps := []) {
        assert c.loops[i].(exitJumps := []) == b.loops[i].(exitJumps := []);
      }
    }
    KeptTrans(a, b1, c1);
  }

  /** A `for` before its scope is closed. */
  function ForOpen(e: Expr, c: Ctx, pos: nat): Result
    requires e.For?
  {
    var names := Dedup(HoistExpr(e.iter));
    var head := Enter(Up(c, c.h + 1), names);
    var prologue := Seed(c, e.isArray) + Prologue(Up(c, c.h + 1), names);
    var a := Compile(e.iter, head, pos + |prologue|);
    var r := ForLoop(e, After(head, a), U8(c.h), pos + |prologue| + |a.code| + 1);
    Result(prologue + (a.code + At(c, a.h, MakeIter) + r.code + At(c, r.h, LoadLocal(U8(c.h)))), r.locals, r.h + 1, a.ok
      && r.ok, true)
  }

  /** Closing it gives the spec's code; `count` slots go. */
  lemma ForClosed(e: Expr, c: Ctx, pos: nat) returns (count: nat)
    requires e.For?
    ensures count == |Dedup(HoistExpr(e.iter))| + 2 && count == 2 + |ForOpen(e, c, pos).locals| - |c.locals|
    ensures var f, r := ForOpen(e, c, pos), Lowering.CompileFor(e, c, pos);
      && f.h == c.h + 1 + count && r.h == c.h + 1 && r.locals == c.locals && r.ok == (f.ok && count <= 255)
      && f.code + At(c, f.h, CloseScope(count)) == r.code
  {
    hide Compile, HoistExpr, Hoisted, Dedup, Enter, Prologue, ForLoop, Lowering.CompileFor;
    var names := Dedup(HoistExpr(e.iter));
    StackFlow.ForShape(e, c, pos);
    SameEntry(Up(c, c.h + 1), names);
    count := |names| + 2;
  }

  /** A `for`'s code after the pull. */
  function ForRest(e: Expr, head: Ctx, result: nat, b: Result): Code
    requires e.For?
  {
    var fold := Lowering.Fold(head, b.h, e.isArray, result);
    b.code + fold + At(head, Less(b.h, 1), Unwind(U8(head.h))) + At(head, head.h, Loop(|b.code| + |fold| + 3))
  }

  lemma ForCodeSplit(e: Expr, head: Ctx, result: nat, b: Result)
    requires e.For?
    ensures var rest := ForRest(e, head, result, b);
      ForCode(e, head, result, b) == At(head, head.h, if e.second.None? then IterNext(|rest|)
        else IterNext2(|rest|)) + rest
  {
  }

  lemma IterationIs(e: Expr, head: Ctx, result: nat, start: nat)
    requires e.For?
    ensures var c := Iteration(e, head, result, start);
      && c.tries == head.tries && c.h == head.h + (if e.second.None? then 1 else 2) && c.globals == head.globals
      && c.loops == head.loops + [LoopCtx(head.nloops, result, head.h, e.isArray, start, |head.locals|)]
      && c.nloops == head.nloops + 1
  {
  }

  /** The run path: code, or no code when any error was recorded. Every instruction is final: each
      jump of a `break` has been patched, so the code is the spec's, instruction by instruction. */
  method CompileSource(program: Block, globals: seq<string>) returns (compiled: Option<seq<Instr>>)
    ensures compiled.Some? <==> CompileProgram(program, globals).ok
    ensures compiled.Some? ==> |compiled.value| == |CompileProgram(program, globals).code|
    ensures compiled.Some? ==> forall i :: 0 <= i < |compiled.value| ==>
      compiled.value[i] == CompileProgram(program, globals).code[i].op && !compiled.value[i].Hole?
  {
    hide CompileProgram;
    var compiler := new FuncCompiler(globals);
    compiler.CompileMain(program);
    if compiler.errors == [] {
      return Some(compiler.code);
    }
    return None;
  }
}
