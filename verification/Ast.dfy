/** The fragment of tigr's syntax tree that the compiler modules work on
    (src/vm/ast.rs), together with the hoisting pre-walk of the compiler. */
module Ast {
  import opened Wrappers

  /** A name bound to something: to its value in an environment, to its stack slot in the compiler. */
  datatype Named<+T> = Named(name: string, val: T)

  /** Position of the newest binding of `x`; the newest is last. */
  function Newest<T>(bs: seq<Named<T>>, x: string): (r: Option<nat>)
    ensures r.Some? ==> r.value < |bs| && bs[r.value].name == x
    ensures r.Some? ==> forall j :: r.value < j < |bs| ==> bs[j].name != x
    ensures r.None? ==> forall j :: 0 <= j < |bs| ==> bs[j].name != x
    decreases |bs|
  {
    if bs == [] then None
    else if bs[|bs| - 1].name == x then Some(|bs| - 1)
    else Newest(bs[..|bs| - 1], x)
  }

  /** Run-time values. A float is kept as its bit pattern: no proof looks inside it.
      Arrays and iterators are handles into the heap. */
  datatype Value =
    | Null
    | Bool(b: bool)
    | Int(n: int)
    | Float(bits: int)
    | Str(s: string)
    | Arr(id: nat)
    | Iter(id: nat)

  datatype BinOp =
    | Add | Sub | Mul | Div | Mod | Pow
    | Eq | Neq | Lt | Le | Gt | Ge
    | BitAnd | BitOr | BitXor | Shl | Shr
    | And | Or

  datatype UnOp = Neg | Not | Len | BitNot

  datatype Expr =
    | Lit(v: Value)
    | Ident(name: string)
    | Binary(op: BinOp, lhs: Expr, rhs: Expr)
    | Unary(uop: UnOp, operand: Expr)
    | Paren(block: Block)                       // `(a; b; c)`: opens no scope
    | Scope(block: Block)                       // `{ a; b; c }`
    | If(cond: Expr, thn: Expr, els: Expr)
    | While(isArray: bool, cond: Expr, body: Block)
    | For(isArray: bool, first: string, second: Option<string>, iter: Expr, body: Block)
    | Break(arg: Option<Expr>)
    | Continue
    | Decl(name: string, init: Expr)
    | Assign(name: string, aop: Option<BinOp>, rhs: Expr)
    | Index(obj: Expr, key: Expr)
    | IndexAssign(obj: Expr, key: Expr, iop: Option<BinOp>, rhs: Expr)
    | Try(attempt: Expr, handler: Option<Catch>)
    | Raise(exn: Expr)
    | Return(result: Option<Expr>)

  /** A `catch (param) { body }` clause. */
  datatype Catch = Catch(param: string, body: Block)

  /** Statements separated by `;` with an optional tail expression. */
  datatype Block =
    | End
    | Tail(e: Expr)
    | Then(stmt: Expr, rest: Block)

  /** Lua-style truth: only `null` and `false` are falsy. */
  predicate Truthy(v: Value) {
    !v.Null? && v != Bool(false)
  }

  // ----- the hoisting pre-walk (`visit_for_hoist`, `visit_block_for_hoist`) -----

  /** Names declared by a `:=` buried in `e`, in source order. Constructs that open their own
      scope stop the walk. */
  function HoistExpr(e: Expr): seq<string> {
    match e
    case Decl(x, init) => [x] + HoistExpr(init)
    case Paren(b) => HoistParen(b)
    case Binary(_, l, r) => HoistExpr(l) + HoistExpr(r)
    case Unary(_, x) => HoistExpr(x)
    case If(c, t, f) => HoistExpr(c) + HoistExpr(t) + HoistExpr(f)
    case Break(arg) => HoistOption(arg)
    case Return(arg) => HoistOption(arg)
    case Raise(x) => HoistExpr(x)
    case Try(body, _) => HoistExpr(body)
    case Assign(_, _, v) => HoistExpr(v)
    case Index(o, k) => HoistExpr(o) + HoistExpr(k)
    case IndexAssign(o, k, _, v) => HoistExpr(o) + HoistExpr(k) + HoistExpr(v)
    case _ => []
  }

  function HoistOption(o: Option<Expr>): seq<string> {
    match o
    case None => []
    case Some(e) => HoistExpr(e)
  }

  function HoistParen(b: Block): seq<string> {
    match b
    case End => []
    case Tail(e) => HoistExpr(e)
    case Then(s, rest) => HoistExpr(s) + HoistParen(rest)
  }

  /** As `HoistParen`, but a declaration that is itself a statement or the tail stays where it is. */
  function HoistBlock(b: Block): seq<string> {
    match b
    case End => []
    case Tail(e) => HoistStmt(e)
    case Then(s, rest) => HoistStmt(s) + HoistBlock(rest)
  }

  function HoistStmt(e: Expr): seq<string> {
    if e.Decl? then HoistExpr(e.init) else HoistExpr(e)
  }

  /** First occurrences only: a name hoisted twice in one scope shares one slot. */
  function Dedup(names: seq<string>, seen: set<string> := {}): (r: seq<string>)
    ensures forall x :: x in r <==> x in names && x !in seen
    ensures forall i, j :: 0 <= i < j < |r| ==> r[i] != r[j]
  {
    if names == [] then []
    else if names[0] in seen then Dedup(names[1..], seen)
    else [names[0]] + Dedup(names[1..], seen + {names[0]})
  }

  /** Every `:=` inside `e` was hoisted into the current scope, whose hoisted names are `hoisted`. */
  predicate Hoisted(e: Expr, hoisted: set<string>) {
    forall x :: x in HoistExpr(e) ==> x in hoisted
  }

  /** `e` stands at statement level: it may itself be a declaration, all others in it are hoisted. */
  predicate Placed(e: Expr, hoisted: set<string>) {
    if e.Decl? then Hoisted(e.init, hoisted) else Hoisted(e, hoisted)
  }

  predicate PlacedBlock(b: Block, hoisted: set<string>) {
    match b
    case End => true
    case Tail(e) => Placed(e, hoisted)
    case Then(s, rest) => Placed(s, hoisted) && PlacedBlock(rest, hoisted)
  }

  lemma {:induction false} HoistBlockPlaces(b: Block, hoisted: set<string>)
    requires forall x :: x in HoistBlock(b) ==> x in hoisted
    ensures PlacedBlock(b, hoisted)
  {
    match b
    case End =>
    case Tail(e) =>
    case Then(s, rest) =>
      assert forall x :: x in HoistStmt(s) ==> x in HoistBlock(b);
      assert forall x :: x in HoistBlock(rest) ==> x in HoistBlock(b);
      HoistBlockPlaces(rest, hoisted);
  }

  // ----- where a `break` or `continue` may go -----

  /** Every `break`/`continue` in `e` finds one of the `loops` loops around it, and none leaves
      the body of a `try`. The value of a `break` sees one loop fewer: a `break` inside it goes to
      the next loop out. */
  predicate JumpsOk(e: Expr, loops: nat) {
    match e
    case Break(arg) => loops > 0 && (arg.Some? ==> JumpsOk(arg.value, loops - 1))
    case Continue => loops > 0
    case Lit(_) => true
    case Ident(_) => true
    case Binary(_, l, r) => JumpsOk(l, loops) && JumpsOk(r, loops)
    case Unary(_, x) => JumpsOk(x, loops)
    case Paren(b) => JumpsOkBlock(b, loops)
    case Scope(b) => JumpsOkBlock(b, loops)
    case If(c, t, f) => JumpsOk(c, loops) && JumpsOk(t, loops) && JumpsOk(f, loops)
    case While(_, c, b) => JumpsOk(c, loops + 1) && JumpsOkBlock(b, loops + 1)
    case For(_, _, _, it, b) => JumpsOk(it, loops) && JumpsOkBlock(b, loops + 1)
    case Decl(_, v) => JumpsOk(v, loops)
    case Assign(_, _, v) => JumpsOk(v, loops)
    case Index(o, k) => JumpsOk(o, loops) && JumpsOk(k, loops)
    case IndexAssign(o, k, _, v) => JumpsOk(o, loops) && JumpsOk(k, loops) && JumpsOk(v, loops)
    case Try(b, h) => JumpsOk(b, 0) && (h.Some? ==> JumpsOkBlock(h.value.body, loops))
    case Raise(x) => JumpsOk(x, loops)
    case Return(arg) => arg.Some? ==> JumpsOk(arg.value, loops)
  }

  predicate JumpsOkBlock(b: Block, loops: nat) {
    match b
    case End => true
    case Tail(e) => JumpsOk(e, loops)
    case Then(s, rest) => JumpsOk(s, loops) && JumpsOkBlock(rest, loops)
  }
}
