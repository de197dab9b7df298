/** Big-step meaning of the expression language: names, scopes and loops only, no slots and no
    stack. It is indexed by fuel, spent once per loop iteration, and returns `Timeout` when the
    fuel does not suffice. */
module Meaning {
  import opened Ast
  import opened Wrappers

  type Heap = seq<seq<Value>>

  /** Outcome of a primitive operation: a value, or an error as a `catch` clause sees it. */
  datatype Res = Ok(v: Value, heap: Heap) | Err(exn: Value, heap: Heap)

  /** One step of an iterator: exhausted, a counter and an element, or an error. */
  datatype Pull = Exhausted | Next(counter: Value, item: Value, heap: Heap) | Failed(exn: Value, heap: Heap)

  /** The primitive operations, shared by the source meaning and the machine. Every theorem holds
      for every choice of them. */
  datatype Ops = Ops(
    bin: (BinOp, Value, Value, Heap) -> Res,
    un: (UnOp, Value, Heap) -> Res,
    addAssign: (Value, Value, Heap) -> Res,
    indexGet: (Value, Value, Heap) -> Res,
    indexSet: (Value, Value, Value, Heap) -> Res,
    makeIter: (Value, Heap) -> Res,
    pull: (Value, Heap) -> Pull,
    newArray: Heap -> (Value, Heap),
    append: (Value, Value, Heap) -> Heap)

  /** Globals: the built-ins, resolved by position after every local. */
  datatype Globals = Globals(names: seq<string>, values: seq<Value>)

  /** The visible variables, oldest first. */
  type Env = seq<Named<Value>>

  /** `Brk(n, ..)` and `Cont(n, ..)` leave `n` loops and then exit or resume the next one. */
  datatype Outcome =
    | Norm(v: Value, env: Env, heap: Heap)
    | Brk(n: nat, arg: Option<Value>, env: Env, heap: Heap)
    | Cont(n: nat, env: Env, heap: Heap)
    | Raised(exn: Value, env: Env, heap: Heap)
    | Ret(v: Value, heap: Heap)
    | Timeout

  function SetVar(env: Env, i: nat, v: Value): Env
    requires i < |env|
  {
    env[i := Named(env[i].name, v)]
  }

  /** Leaving a scope: drop the bindings made inside it. */
  function Shrink(env: Env, n: nat): Env {
    if n <= |env| then env[..n] else env
  }

  /** Entering a scope: every hoisted name is visible from the start, holding `null`. */
  function Nulls(names: seq<string>): (r: Env)
    ensures |r| == |names|
    ensures forall i :: 0 <= i < |r| ==> r[i] == Named(names[i], Null)
  {
    if names == [] then [] else [Named(names[0], Null)] + Nulls(names[1..])
  }

  function ToSet(names: seq<string>): (r: set<string>)
    ensures forall x :: x in r <==> x in names
  {
    set x | x in names
  }

  function IndexOf(names: seq<string>, x: string): (r: Option<nat>)
    ensures r.Some? ==> r.value < |names| && names[r.value] == x && x !in names[..r.value]
    ensures r.None? ==> x !in names
  {
    if names == [] then None
    else if names[0] == x then Some(0)
    else
      match IndexOf(names[1..], x)
      case None => None
      case Some(i) => Some(i + 1)
  }

  function GlobalValue(g: Globals, i: nat): Value {
    if i < |g.values| then g.values[i] else Null
  }

  /** An undeclared name reads as `null`: the compiler records an error and goes on this way. */
  function ReadVar(g: Globals, env: Env, x: string): Value {
    match Newest(env, x)
    case Some(i) => env[i].val
    case None =>
      match IndexOf(g.names, x)
      case Some(j) => GlobalValue(g, j)
      case None => Null
  }

  function Lift(r: Res, env: Env): Outcome {
    match r
    case Ok(v, h) => Norm(v, env, h)
    case Err(x, h) => Raised(x, env, h)
  }

  /** `x op= v`: `+=` mutates an array in place, the others rebind. */
  function Compound(ops: Ops, op: BinOp, old_: Value, v: Value, heap: Heap): Res {
    if op == Add then ops.addAssign(old_, v, heap) else ops.bin(op, old_, v, heap)
  }

  /** Outcome of a scope: the inner bindings are gone whatever way it is left. */
  function LeaveScope(o: Outcome, n: nat): Outcome {
    match o
    case Norm(v, env, h) => Norm(v, Shrink(env, n), h)
    case Brk(k, a, env, h) => Brk(k, a, Shrink(env, n), h)
    case Cont(k, env, h) => Cont(k, Shrink(env, n), h)
    case Raised(x, env, h) => Raised(x, Shrink(env, n), h)
    case _ => o
  }

  /** A jump out of the value of a `break` passes the loop that `break` would have exited. */
  function PassOne(o: Outcome): Outcome {
    match o
    case Brk(k, a, env, h) => Brk(k + 1, a, env, h)
    case Cont(k, env, h) => Cont(k + 1, env, h)
    case _ => o
  }

  /** The result of a finished iteration: the array form collects, the plain form keeps the last. */
  function Collect(ops: Ops, isArray: bool, acc: Value, v: Value, heap: Heap): (Value, Heap) {
    if isArray then (acc, ops.append(acc, v, heap)) else (v, heap)
  }

  /** A bare `break` makes a plain loop `null` and adds nothing to a collected array. */
  function CollectBreak(ops: Ops, isArray: bool, acc: Value, arg: Option<Value>, heap: Heap): (Value, Heap) {
    match arg
    case Some(v) => Collect(ops, isArray, acc, v, heap)
    case None => (if isArray then acc else Null, heap)
  }

  function StartLoop(ops: Ops, isArray: bool, heap: Heap): (Value, Heap) {
    if isArray then ops.newArray(heap) else (Null, heap)
  }

  function Eval(ops: Ops, g: Globals, e: Expr, hoisted: set<string>, env: Env, heap: Heap, fuel: nat): Outcome
    decreases fuel, e, 4
  {
    match e
    case Lit(v) => Norm(v, env, heap)
    case Ident(x) => Norm(ReadVar(g, env, x), env, heap)
    case Binary(_, _, _) => EvalBinary(ops, g, e, hoisted, env, heap, fuel)
    case Unary(op, x) =>
      var a := Eval(ops, g, x, hoisted, env, heap, fuel);
      if !a.Norm? then a else Lift(ops.un(op, a.v, a.heap), a.env)
    case Paren(b) => EvalBlock(ops, g, b, hoisted, env, heap, fuel)
    case Scope(b) => EvalScope(ops, g, b, env, heap, fuel)
    case If(_, _, _) => EvalIf(ops, g, e, hoisted, env, heap, fuel)
    case While(_, _, _) => EvalWhile(ops, g, e, env, heap, fuel)
    case For(_, _, _, _, _) => EvalFor(ops, g, e, env, heap, fuel)
    case Break(_) => EvalBreak(ops, g, e, hoisted, env, heap, fuel)
    case Continue => Cont(0, env, heap)
    case Decl(_, _) => EvalDecl(ops, g, e, hoisted, env, heap, fuel)
    case Assign(_, _, _) => EvalAssign(ops, g, e, hoisted, env, heap, fuel)
    case Index(_, _) => EvalIndex(ops, g, e, hoisted, env, heap, fuel)
    case IndexAssign(_, _, _, _) => EvalIndexAssign(ops, g, e, hoisted, env, heap, fuel)
    case Try(_, _) => EvalTry(ops, g, e, hoisted, env, heap, fuel)
    case Raise(x) =>
      var a := Eval(ops, g, x, hoisted, env, heap, fuel);
      if !a.Norm? then a else Raised(a.v, a.env, a.heap)
    case Return(r) =>
      if r.None? then Ret(Null, heap)
      else
        var a := Eval(ops, g, r.value, hoisted, env, heap, fuel);
        if !a.Norm? then a else Ret(a.v, a.heap)
  }

  /** Does the left operand of `&&`/`||` already decide the result? */
  predicate Decides(op: BinOp, v: Value) {
    (op == And && !Truthy(v)) || (op == Or && Truthy(v))
  }

  function EvalBinary(ops: Ops, g: Globals, e: Expr, hoisted: set<string>, env: Env, heap: Heap, fuel: nat): Outcome
    requires e.Binary?
    decreases fuel, e, 3
  {
    var a := Eval(ops, g, e.lhs, hoisted, env, heap, fuel);
    if !a.Norm? || Decides(e.op, a.v) then a
    else
      var b := Eval(ops, g, e.rhs, hoisted, a.env, a.heap, fuel);
      if !b.Norm? || e.op == And || e.op == Or then b
      else Lift(ops.bin(e.op, a.v, b.v, b.heap), b.env)
  }

  function EvalIf(ops: Ops, g: Globals, e: Expr, hoisted: set<string>, env: Env, heap: Heap, fuel: nat): Outcome
    requires e.If?
    decreases fuel, e, 3
  {
    var a := Eval(ops, g, e.cond, hoisted, env, heap, fuel);
    if !a.Norm? then a
    else if Truthy(a.v) then Eval(ops, g, e.thn, hoisted, a.env, a.heap, fuel)
    else Eval(ops, g, e.els, hoisted, a.env, a.heap, fuel)
  }

  function EvalBreak(ops: Ops, g: Globals, e: Expr, hoisted: set<string>, env: Env, heap: Heap, fuel: nat): Outcome
    requires e.Break?
    decreases fuel, e, 3
  {
    if e.arg.None? then Brk(0, None, env, heap)
    else
      var a := Eval(ops, g, e.arg.value, hoisted, env, heap, fuel);
      if a.Norm? then Brk(0, Some(a.v), a.env, a.heap) else PassOne(a)
  }

  /** A hoisted name is already bound in the current scope; any other is bound now. */
  function EvalDecl(ops: Ops, g: Globals, e: Expr, hoisted: set<string>, env: Env, heap: Heap, fuel: nat): Outcome
    requires e.Decl?
    decreases fuel, e, 3
  {
    var a := Eval(ops, g, e.init, hoisted, env, heap, fuel);
    if !a.Norm? then a
    else if e.name in hoisted then
      match Newest(a.env, e.name)
      case Some(i) => Norm(a.v, SetVar(a.env, i, a.v), a.heap)
      case None => a
    else Norm(a.v, a.env + [Named(e.name, a.v)], a.heap)
  }

  /** A compound assignment reads the old value before it evaluates the right-hand side. A target
      that is not a variable is a recorded compile error; the value alone is kept. */
  function EvalAssign(ops: Ops, g: Globals, e: Expr, hoisted: set<string>, env: Env, heap: Heap, fuel: nat): Outcome
    requires e.Assign?
    decreases fuel, e, 3
  {
    var a := Eval(ops, g, e.rhs, hoisted, env, heap, fuel);
    if !a.Norm? then a
    else
      match Newest(env, e.name)
      case None => a
      case Some(i) =>
        var r := if e.aop.Some? then Compound(ops, e.aop.value, env[i].val, a.v, a.heap) else Ok(a.v, a.heap);
        if r.Err? || i >= |a.env| then Lift(r, a.env)
        else Norm(r.v, SetVar(a.env, i, r.v), r.heap)
  }

  function EvalIndex(ops: Ops, g: Globals, e: Expr, hoisted: set<string>, env: Env, heap: Heap, fuel: nat): Outcome
    requires e.Index?
    decreases fuel, e, 3
  {
    var a := Eval(ops, g, e.obj, hoisted, env, heap, fuel);
    if !a.Norm? then a
    else
      var b := Eval(ops, g, e.key, hoisted, a.env, a.heap, fuel);
      if !b.Norm? then b else Lift(ops.indexGet(a.v, b.v, b.heap), b.env)
  }

  function EvalIndexAssign(ops: Ops, g: Globals, e: Expr, hoisted: set<string>, env: Env, heap: Heap,
        fuel: nat): Outcome
    requires e.IndexAssign?
    decreases fuel, e, 3
  {
    var a := Eval(ops, g, e.obj, hoisted, env, heap, fuel);
    if !a.Norm? then a
    else
      var b := Eval(ops, g, e.key, hoisted, a.env, a.heap, fuel);
      if !b.Norm? then b else EvalIndexStore(ops, g, e, hoisted, b.env, b.heap, fuel, a.v, b.v)
  }

  /** The rest of an indexed assignment, for object `o` and key `k`: a compound one reads the element
      before the right-hand side is evaluated. */
  function EvalIndexStore(ops: Ops, g: Globals, e: Expr, hoisted: set<string>, env: Env, heap: Heap, fuel: nat,
        o: Value, k: Value): Outcome
    requires e.IndexAssign?
    decreases fuel, e, 2
  {
    var cur := if e.iop.Some? then ops.indexGet(o, k, heap) else Ok(Null, heap);
    if cur.Err? then Lift(cur, env)
    else
      var d := Eval(ops, g, e.rhs, hoisted, env, cur.heap, fuel);
      if !d.Norm? then d
      else
        var r := if e.iop.Some? then Compound(ops, e.iop.value, cur.v, d.v, d.heap) else Ok(d.v, d.heap);
        if r.Err? then Lift(r, d.env) else Lift(ops.indexSet(o, k, r.v, r.heap), d.env)
  }

  function EvalTry(ops: Ops, g: Globals, e: Expr, hoisted: set<string>, env: Env, heap: Heap, fuel: nat): Outcome
    requires e.Try?
    decreases fuel, e, 3
  {
    var a := Eval(ops, g, e.attempt, hoisted, env, heap, fuel);
    if !a.Raised? then a
    else if e.handler.None? then Norm(Null, Shrink(a.env, |env|), a.heap)
    else
      var inner := Shrink(a.env, |env|) + [Named(e.handler.value.param, a.exn)];
      LeaveScope(EvalScope(ops, g, e.handler.value.body, inner, a.heap, fuel), |env|)
  }

  function EvalWhile(ops: Ops, g: Globals, e: Expr, env: Env, heap: Heap, fuel: nat): Outcome
    requires e.While?
    decreases fuel, e, 3
  {
    var names := Dedup(HoistExpr(e.cond));
    var start := StartLoop(ops, e.isArray, heap);
    LeaveScope(RepeatWhile(ops, g, e, ToSet(names), env + Nulls(names), start.1, start.0, fuel), |env|)
  }

  function EvalFor(ops: Ops, g: Globals, e: Expr, env: Env, heap: Heap, fuel: nat): Outcome
    requires e.For?
    decreases fuel, e, 3
  {
    var names := Dedup(HoistExpr(e.iter));
    var start := StartLoop(ops, e.isArray, heap);
    var a := Eval(ops, g, e.iter, ToSet(names), env + Nulls(names), start.1, fuel);
    if !a.Norm? then LeaveScope(a, |env|)
    else
      var it := ops.makeIter(a.v, a.heap);
      if it.Err? then LeaveScope(Lift(it, a.env), |env|)
      else LeaveScope(RepeatFor(ops, g, e, it.v, a.env, it.heap, start.0, fuel), |env|)
  }

  function EvalScope(ops: Ops, g: Globals, b: Block, env: Env, heap: Heap, fuel: nat): Outcome
    decreases fuel, b, 3
  {
    var names := Dedup(HoistBlock(b));
    LeaveScope(EvalBlock(ops, g, b, ToSet(names), env + Nulls(names), heap, fuel), |env|)
  }

  function EvalBlock(ops: Ops, g: Globals, b: Block, hoisted: set<string>, env: Env, heap: Heap, fuel: nat): Outcome
    decreases fuel, b, 2
  {
    match b
    case End => Norm(Null, env, heap)
    case Tail(e) => Eval(ops, g, e, hoisted, env, heap, fuel)
    case Then(s, rest) =>
      var a := Eval(ops, g, s, hoisted, env, heap, fuel);
      if !a.Norm? then a else EvalBlock(ops, g, rest, hoisted, a.env, a.heap, fuel)
  }

  /** Repeat a `while` from its condition; `acc` is the result so far. */
  function RepeatWhile(ops: Ops, g: Globals, e: Expr, hoisted: set<string>, env: Env, heap: Heap, acc: Value,
        fuel: nat): Outcome
    requires e.While?
    decreases fuel, e, 2
  {
    if fuel == 0 then Timeout
    else
      var c := Eval(ops, g, e.cond, hoisted, env, heap, fuel);
      if c.Norm? && !Truthy(c.v) then Norm(acc, c.env, c.heap)
      else
        var o := if c.Norm? then EvalScope(ops, g, e.body, c.env, c.heap, fuel) else c;
        match IterationEnd(ops, e.isArray, o, acc, |env|)
        case Again(env', heap', acc') => RepeatWhile(ops, g, e, hoisted, env', heap', acc', fuel - 1)
        case Leave(o') => o'
  }

  /** Repeat a `for` from the next pull of its iterator `it`. */
  function RepeatFor(ops: Ops, g: Globals, e: Expr, it: Value, env: Env, heap: Heap, acc: Value, fuel: nat): Outcome
    requires e.For?
    decreases fuel, e, 2
  {
    if fuel == 0 then Timeout
    else
      match ops.pull(it, heap)
      case Exhausted => Norm(acc, env, heap)
      case Failed(x, h) => Raised(x, env, h)
      case Next(counter, item, h) =>
        var o := EvalScope(ops, g, e.body, env + LoopVars(e, counter, item), h, fuel);
        match IterationEnd(ops, e.isArray, o, acc, |env|)
        case Again(env', heap', acc') => RepeatFor(ops, g, e, it, env', heap', acc', fuel - 1)
        case Leave(o') => o'
  }

  /** Fresh variables of one iteration: the element, or the counter and the element. */
  function LoopVars(e: Expr, counter: Value, item: Value): Env
    requires e.For?
  {
    match e.second
    case None => [Named(e.first, item)]
    case Some(x) => [Named(e.first, counter), Named(x, item)]
  }

  datatype Turn = Again(env: Env, heap: Heap, acc: Value) | Leave(o: Outcome)

  /** What an outcome inside a loop means to that loop, whose own scope has `n` bindings. */
  function IterationEnd(ops: Ops, isArray: bool, o: Outcome, acc: Value, n: nat): Turn {
    if o.Norm? then
      var r := Collect(ops, isArray, acc, o.v, o.heap);
      Again(Shrink(o.env, n), r.1, r.0)
    else if o.Cont? && o.n == 0 then Again(Shrink(o.env, n), o.heap, if isArray then acc else Null)
    else if o.Brk? && o.n == 0 then
      var r := CollectBreak(ops, isArray, acc, o.arg, o.heap);
      Leave(Norm(r.0, Shrink(o.env, n), r.1))
    else Leave(LeaveScope(OneLess(o), n))
  }

  /** A jump seen from one loop further out. */
  function OneLess(o: Outcome): Outcome {
    match o
    case Brk(k, a, env, h) => if k > 0 then Brk(k - 1, a, env, h) else o
    case Cont(k, env, h) => if k > 0 then Cont(k - 1, env, h) else o
    case _ => o
  }

  /** A whole program: the outermost block is a scope whose bindings last to the end. */
  function EvalProgram(ops: Ops, g: Globals, program: Block, heap: Heap, fuel: nat): Outcome {
    var names := Dedup(HoistBlock(program));
    EvalBlock(ops, g, program, ToSet(names), Nulls(names), heap, fuel)
  }
}
