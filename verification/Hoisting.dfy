/** What the hoisting pre-walk (src/vm/compiler.rs:906-1034) is for, said without it: which declarations of a
    scope are nested in a larger expression, and what a name means when the scope is entered. */
module Hoisting {
  import opened Ast
  import opened Wrappers
  import opened Meaning

  // ----- parts of an expression -----

  /** `d` stands directly inside `e`, in the same scope. A `{ }` scope, a loop and the body of a `catch` are
      scopes of their own, so nothing in them does. */
  predicate PartOf(d: Expr, e: Expr) {
    match e
    case Lit(_) => false
    case Ident(_) => false
    case Continue => false
    case Binary(_, l, r) => d == l || d == r
    case Unary(_, x) => d == x
    case Paren(b) => StatementOf(d, b)
    case Scope(_) => false
    case If(c, t, f) => d == c || d == t || d == f
    case While(_, _, _) => false
    case For(_, _, _, _, _) => false
    case Break(arg) => arg == Some(d)
    case Decl(_, init) => d == init
    case Assign(_, _, v) => d == v
    case Index(o, k) => d == o || d == k
    case IndexAssign(o, k, _, v) => d == o || d == k || d == v
    case Try(x, _) => d == x
    case Raise(x) => d == x
    case Return(arg) => arg == Some(d)
  }

  /** `d` is a statement of `b` or its tail. */
  predicate StatementOf(d: Expr, b: Block) {
    match b
    case End => false
    case Tail(e) => d == e
    case Then(s, rest) => d == s || StatementOf(d, rest)
  }

  /** A way down from an expression to one inside it, part by part. */
  predicate IsWay(p: seq<Expr>) {
    p != [] && forall i :: 0 <= i < |p| - 1 ==> PartOf(p[i + 1], p[i])
  }

  /** The way ends at a declaration of `x`. */
  predicate Declares(p: seq<Expr>, x: string) {
    IsWay(p) && p[|p| - 1].Decl? && p[|p| - 1].name == x
  }

  /** A declaration of `x` is `e` or stands inside it. */
  ghost predicate DeclaredIn(e: Expr, x: string) {
    exists p: seq<Expr> :: Declares(p, x) && p[0] == e
  }

  /** A declaration of `x` is nested in a statement or the tail of `b`: it is not the statement itself. */
  ghost predicate NestedIn(b: Block, x: string) {
    exists p: seq<Expr> :: Declares(p, x) && |p| > 1 && StatementOf(p[0], b)
  }

  // ----- the pre-walk finds exactly these -----

  lemma LongerWay(e: Expr, d: Expr, x: string)
    requires PartOf(d, e) && DeclaredIn(d, x)
    ensures DeclaredIn(e, x)
    ensures exists p: seq<Expr> :: Declares(p, x) && |p| > 1 && p[0] == e
  {
    var p: seq<Expr> :| Declares(p, x) && p[0] == d;
    assert Declares([e] + p, x);
  }

  lemma HereOrBelow(e: Expr, x: string)
    requires DeclaredIn(e, x)
    ensures (e.Decl? && e.name == x) || exists d: Expr :: PartOf(d, e) && DeclaredIn(d, x)
  {
    var p: seq<Expr> :| Declares(p, x) && p[0] == e;
    if |p| > 1 {
      assert Declares(p[1..], x) && PartOf(p[1], e);
    }
  }

  /** The pre-walk of an expression collects the names declared in it. */
  lemma {:induction false} HoistsWhatIsDeclared(e: Expr, x: string)
    ensures x in HoistExpr(e) <==> DeclaredIn(e, x)
    decreases e, 1
  {
    if x in HoistExpr(e) {
      FoundIsDeclared(e, x);
    }
    if DeclaredIn(e, x) {
      HereOrBelow(e, x);
      if !(e.Decl? && e.name == x) {
        var d :| PartOf(d, e) && DeclaredIn(d, x);
        PartIsSmaller(d, e);
        HoistsWhatIsDeclared(d, x);
        PartIsHoisted(d, e, x);
      }
    }
  }

  lemma {:induction false} FoundIsDeclared(e: Expr, x: string)
    requires x in HoistExpr(e)
    ensures DeclaredIn(e, x)
    decreases e, 0
  {
    if e.Decl? && e.name == x {
      assert Declares([e], x);
    } else {
      var d := FoundIn(e, x);
      PartIsSmaller(d, e);
      HoistsWhatIsDeclared(d, x);
      LongerWay(e, d, x);
    }
  }

  /** Whatever the pre-walk collects comes from a part, unless it is the declaration itself. */
  lemma FoundIn(e: Expr, x: string) returns (d: Expr)
    requires x in HoistExpr(e) && !(e.Decl? && e.name == x)
    ensures PartOf(d, e) && x in HoistExpr(d)
  {
    match e
    case Decl(_, init) => d := init;
    case Paren(b) => d := FoundInParen(b, x);
    case Binary(_, l, r) => d := if x in HoistExpr(l) then l else r;
    case Unary(_, y) => d := y;
    case If(c, t, f) => d := if x in HoistExpr(c) then c else if x in HoistExpr(t) then t else f;
    case Break(arg) => d := arg.value;
    case Return(arg) => d := arg.value;
    case Raise(y) => d := y;
    case Try(body, _) => d := body;
    case Assign(_, _, v) => d := v;
    case Index(o, k) => d := if x in HoistExpr(o) then o else k;
    case IndexAssign(o, k, _, v) => d := if x in HoistExpr(o) then o else if x in HoistExpr(k) then k else v;
  }

  lemma {:induction false} FoundInParen(b: Block, x: string) returns (d: Expr)
    requires x in HoistParen(b)
    ensures StatementOf(d, b) && x in HoistExpr(d)
  {
    match b
    case Tail(e) => d := e;
    case Then(s, rest) =>
      if x in HoistExpr(s) {
        d := s;
      } else {
        d := FoundInParen(rest, x);
      }
  }

  lemma PartIsHoisted(d: Expr, e: Expr, x: string)
    requires PartOf(d, e) && x in HoistExpr(d)
    ensures x in HoistExpr(e)
  {
    if e.Paren? {
      StatementIsHoisted(d, e.block, x);
    }
  }

  lemma {:induction false} StatementIsHoisted(d: Expr, b: Block, x: string)
    requires StatementOf(d, b) && x in HoistExpr(d)
    ensures x in HoistParen(b)
  {
    if b.Then? && d != b.stmt {
      StatementIsHoisted(d, b.rest, x);
    }
  }

  lemma PartIsSmaller(d: Expr, e: Expr)
    requires PartOf(d, e)
    ensures e decreases to d
  {
    if e.Paren? {
      StatementIsSmaller(d, e.block);
    }
  }

  lemma {:induction false} StatementIsSmaller(d: Expr, b: Block)
    requires StatementOf(d, b)
    ensures b decreases to d
  {
    if b.Then? && d != b.stmt {
      StatementIsSmaller(d, b.rest);
    }
  }

  /** The pre-walk of a scope collects exactly the names whose declaration is nested: a statement or a tail that
      is itself a declaration stays where it is. */
  lemma {:induction false} HoistsWhatIsNested(b: Block, x: string)
    ensures x in HoistBlock(b) <==> NestedIn(b, x)
    decreases b
  {
    match b
    case End =>
    case Tail(e) =>
      HoistsNestedStatement(e, x);
      NestedInTail(e, x);
    case Then(s, rest) =>
      HoistsNestedStatement(s, x);
      HoistsWhatIsNested(rest, x);
      NestedInThen(s, rest, x);
  }

  /** A declaration of `x` stands inside `e`, and is not `e` itself. */
  ghost predicate NestedBelow(e: Expr, x: string) {
    exists p: seq<Expr> :: Declares(p, x) && |p| > 1 && p[0] == e
  }

  lemma HoistsNestedStatement(e: Expr, x: string)
    ensures x in HoistStmt(e) <==> NestedBelow(e, x)
  {
    if x in HoistStmt(e) {
      var d: Expr;
      if e.Decl? {
        d := e.init;
      } else {
        d := FoundIn(e, x);
      }
      HoistsWhatIsDeclared(d, x);
      LongerWay(e, d, x);
    }
    if NestedBelow(e, x) {
      var p: seq<Expr> :| Declares(p, x) && |p| > 1 && p[0] == e;
      assert Declares(p[1..], x) && PartOf(p[1], e);
      HoistsWhatIsDeclared(p[1], x);
      PartIsHoisted(p[1], e, x);
    }
  }

  lemma NestedInTail(e: Expr, x: string)
    ensures NestedIn(Tail(e), x) <==> NestedBelow(e, x)
  {
    if NestedBelow(e, x) {
      var p: seq<Expr> :| Declares(p, x) && |p| > 1 && p[0] == e;
      assert StatementOf(p[0], Tail(e));
    }
    if NestedIn(Tail(e), x) {
      var p: seq<Expr> :| Declares(p, x) && |p| > 1 && StatementOf(p[0], Tail(e));
    }
  }

  lemma NestedInThen(s: Expr, rest: Block, x: string)
    ensures NestedIn(Then(s, rest), x) <==> NestedBelow(s, x) || NestedIn(rest, x)
  {
    if NestedBelow(s, x) {
      var p: seq<Expr> :| Declares(p, x) && |p| > 1 && p[0] == s;
      assert StatementOf(p[0], Then(s, rest));
    }
    if NestedIn(rest, x) {
      var p: seq<Expr> :| Declares(p, x) && |p| > 1 && StatementOf(p[0], rest);
      assert StatementOf(p[0], Then(s, rest));
    }
    if NestedIn(Then(s, rest), x) {
      var p: seq<Expr> :| Declares(p, x) && |p| > 1 && StatementOf(p[0], Then(s, rest));
      assert p[0] == s || StatementOf(p[0], rest);
    }
  }

  // ----- the scoping law -----

  /** The variables when a scope around `b` is entered: those outside, and what was hoisted. */
  function OnEntry(env: Env, b: Block): Env {
    env + Nulls(Dedup(HoistBlock(b)))
  }

  /** On entry a name means what it means outside, unless a declaration of it is nested in the scope: then it is
      a variable of the scope already, and `null`. */
  lemma NamesOnEntry(g: Globals, env: Env, b: Block, x: string)
    ensures ReadVar(g, OnEntry(env, b), x) == if NestedIn(b, x) then Null else ReadVar(g, env, x)
  {
    var names := Dedup(HoistBlock(b));
    HoistsWhatIsNested(b, x);
    NewestWithNulls(env, names, x);
  }

  lemma NewestWithNulls(env: Env, names: seq<string>, x: string)
    ensures var more := env + Nulls(names);
      if x in names then Newest(more, x).Some? && more[Newest(more, x).value].val == Null
      else Newest(more, x) == Newest(env, x)
  {
    hide Newest, Nulls;
    var more := env + Nulls(names);
    if x in names {
      var j :| 0 <= j < |names| && names[j] == x;
      assert more[|env| + j] == Named(x, Null);
    } else {
      forall j | |env| <= j < |more| ensures more[j].name != x {
        assert more[j].name == names[j - |env|];
      }
      assert forall j :: 0 <= j < |env| ==> more[j] == env[j];
      if Newest(env, x).Some? {
        assert more[Newest(env, x).value].name == x;
      }
    }
  }

  /** A scope is its block evaluated from there, and the variables it added are gone afterwards. */
  lemma ScopeFromEntry(ops: Ops, g: Globals, b: Block, env: Env, heap: Heap, fuel: nat)
    ensures var names := set x | x in HoistBlock(b);
      EvalScope(ops, g, b, env, heap, fuel) ==
        LeaveScope(EvalBlock(ops, g, b, names, OnEntry(env, b), heap, fuel), |env|)
  {
    assert ToSet(Dedup(HoistBlock(b))) == set x | x in HoistBlock(b);
  }
}
