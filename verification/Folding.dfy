/** Constant folding between parsing and compilation (src/vm/fold.rs) against the arithmetic of the VM
    (src/vm/vm.rs:4312-4530): a folded program means the same, and nothing that raises is folded. */
module Folding {
  import opened Ast
  import opened Wrappers
  import opened Integers
  import opened Words
  import opened Meaning
  import opened Correctness
  import opened SimulationBase
  import opened Lowering
  import opened Hoisting

  /** Floating point, kept opaque: any functions on bit patterns. */
  datatype Floats = Floats(
    fromInt: int -> int, add: (int, int) -> int, sub: (int, int) -> int, mul: (int, int) -> int,
    div: (int, int) -> int, rem: (int, int) -> int, pow: (int, int) -> int, neg: int -> int)

  /** The errors arithmetic raises, as a `catch` clause sees them. */
  datatype Errors = Errors(overflow: Value, divisionByZero: Value, shiftRange: (BinOp, int) -> Value)

  // ----- 64-bit integers -----

  /** `checked_add`, `checked_sub`, `checked_mul`, `checked_neg`. */
  function Checked(n: int): Option<int> {
    if InI64(n) then Some(n) else None
  }

  function CheckedRem(x: int, y: int): Option<int> {
    if y == 0 || (x == I64_MIN && y == -1) then None else Some(TruncRem(x, y))
  }

  /** The quotient overflows only for `i64::MIN / -1`, which is what `checked_rem` rules out. */
  lemma QuotientFits(x: int, y: int)
    requires InI64(x) && InI64(y) && y != 0
    ensures InI64(TruncDiv(x, y)) <==> CheckedRem(x, y).Some?
  {
    var q: int := Abs(x) / Abs(y);
    if Abs(y) >= 2 {
      HalfAtMost(Abs(x), Abs(y));
      assert TruncDiv(x, y) == q || TruncDiv(x, y) == -q;
    } else {
      assert q == Abs(x);
    }
  }

  // ----- what the VM computes -----

  datatype Computed = Val(v: Value) | Raises(exn: Value)

  function OrOverflow(n: Option<int>, er: Errors): Computed {
    match n
    case Some(k) => Val(Int(k))
    case None => Raises(er.overflow)
  }

  /** A number as `f64`. */
  function AsFloat(fl: Floats, v: Value): int
    requires v.Int? || v.Float?
  {
    if v.Int? then fl.fromInt(v.n) else v.bits
  }

  predicate Number(v: Value) {
    v.Int? || v.Float?
  }

  /** Operands on which the VM's arithmetic is modelled: two numbers, or two strings to join; the
      bitwise operators take integers only. */
  predicate Modelled(op: BinOp, a: Value, b: Value) {
    match op
    case Add => (Number(a) && Number(b)) || (a.Str? && b.Str?)
    case Sub => Number(a) && Number(b)
    case Mul => Number(a) && Number(b)
    case Div => Number(a) && Number(b)
    case Mod => Number(a) && Number(b)
    case Pow => Number(a) && Number(b)
    case BitAnd => a.Int? && b.Int?
    case BitOr => a.Int? && b.Int?
    case BitXor => a.Int? && b.Int?
    case Shl => a.Int? && b.Int?
    case Shr => a.Int? && b.Int?
    case _ => false
  }

  /** `arith_*`, `bit_*`, `shl`, `shr`. */
  function VmBinary(fl: Floats, er: Errors, op: BinOp, a: Value, b: Value): Computed
    requires Modelled(op, a, b)
  {
    if a.Int? && b.Int? then VmInts(fl, er, op, a.n, b.n)
    else if a.Str? then Val(Str(a.s + b.s))
    else
      var x, y := AsFloat(fl, a), AsFloat(fl, b);
      match op
      case Add => Val(Float(fl.add(x, y)))
      case Sub => Val(Float(fl.sub(x, y)))
      case Mul => Val(Float(fl.mul(x, y)))
      case Div => Val(Float(fl.div(x, y)))
      case Mod => Val(Float(fl.rem(x, y)))
      case _ => Val(Float(fl.pow(x, y)))
  }

  function VmInts(fl: Floats, er: Errors, op: BinOp, x: int, y: int): Computed
    requires Modelled(op, Int(x), Int(y))
  {
    match op
    case Add => OrOverflow(Checked(x + y), er)
    case Sub => OrOverflow(Checked(x - y), er)
    case Mul => OrOverflow(Checked(x * y), er)
    case Div =>
      if y == 0 then Raises(er.divisionByZero)
      else
        (match CheckedRem(x, y)
         case None => Raises(er.overflow)
         case Some(0) => Val(Int(TruncDiv(x, y)))
         case Some(_) => Val(Float(fl.div(fl.fromInt(x), fl.fromInt(y)))))
    case Mod =>
      if y == 0 then Raises(er.divisionByZero)
      else
        (match CheckedRem(x, y) case None => Val(Int(0)) case Some(r) => Val(Int(r)))
    case Pow => Val(Float(fl.pow(fl.fromInt(x), fl.fromInt(y))))
    case BitAnd => Val(Int(BitAndInt(x, y)))
    case BitOr => Val(Int(BitOrInt(x, y)))
    case BitXor => Val(Int(BitXorInt(x, y)))
    case Shl => if 0 <= y < 64 then Val(Int(ShlInt(x, y))) else Raises(er.shiftRange(op, y))
    case Shr => if 0 <= y < 64 then Val(Int(ShrInt(x, y))) else Raises(er.shiftRange(op, y))
  }

  predicate ModelledUnary(op: UnOp, a: Value) {
    (op == Neg && Number(a)) || (op == BitNot && a.Int?)
  }

  function VmUnary(fl: Floats, er: Errors, op: UnOp, a: Value): Computed
    requires ModelledUnary(op, a)
  {
    if a.Float? then Val(Float(fl.neg(a.bits)))
    else if op == Neg then OrOverflow(Checked(-a.n), er)
    else Val(Int(BitNotInt(a.n)))
  }

  function AsRes(c: Computed, heap: Heap): Res {
    match c
    case Val(v) => Ok(v, heap)
    case Raises(x) => Err(x, heap)
  }

  /** The primitive operations do arithmetic as the VM does; on other operands they may be anything. */
  ghost predicate VmArithmetic(ops: Ops, fl: Floats, er: Errors) {
    && (forall op, a, b, heap :: Modelled(op, a, b) ==>
       ops.bin(op, a, b, heap) == AsRes(VmBinary(fl, er, op, a, b), heap))
    && (forall op, a, heap :: ModelledUnary(op, a) ==> ops.un(op, a, heap) == AsRes(VmUnary(fl, er, op, a), heap))
  }

  // ----- the folder -----

  /** `is_literal`: nodes without sub-expressions; heap handles are never written in a program. */
  predicate IsLiteral(e: Expr) {
    e.Lit? && !e.v.Arr? && !e.v.Iter?
  }

  function IntLit(n: Option<int>): Option<Expr> {
    match n
    case Some(k) => Some(Lit(Int(k)))
    case None => None
  }

  /** `int_pair`. */
  function IntPair(l: Expr, r: Expr): Option<(int, int)> {
    if l.Lit? && r.Lit? && l.v.Int? && r.v.Int? then Some((l.v.n, r.v.n)) else None
  }

  /** The two operands as floats; at least one already is one. */
  function FloatPair(fl: Floats, l: Expr, r: Expr): Option<(int, int)> {
    if l.Lit? && r.Lit? then
      match (l.v, r.v)
      case (Int(x), Float(y)) => Some((fl.fromInt(x), y))
      case (Float(x), Int(y)) => Some((x, fl.fromInt(y)))
      case (Float(x), Float(y)) => Some((x, y))
      case _ => None
    else None
  }

  function FloatLit(p: Option<(int, int)>, f: (int, int) -> int): Option<Expr> {
    match p
    case Some((x, y)) => Some(Lit(Float(f(x, y))))
    case None => None
  }

  /** `fold_binop`: `None` declines to fold. */
  function FoldBinop(fl: Floats, op: BinOp, l: Expr, r: Expr): Option<Expr> {
    var ints := IntPair(l, r);
    var floats := FloatPair(fl, l, r);
    match op
    case Add =>
      if ints.Some? then IntLit(Checked(ints.value.0 + ints.value.1))
      else if l.Lit? && r.Lit? && l.v.Str? && r.v.Str? then Some(Lit(Str(l.v.s + r.v.s)))
      else FloatLit(floats, fl.add)
    case Sub => if ints.Some? then IntLit(Checked(ints.value.0 - ints.value.1)) else FloatLit(floats, fl.sub)
    case Mul => if ints.Some? then IntLit(Checked(ints.value.0 * ints.value.1)) else FloatLit(floats, fl.mul)
    case Div => if ints.Some? then FoldDiv(fl, ints.value.0, ints.value.1) else FloatLit(floats, fl.div)
    case Mod =>
      if ints.Some? then
        if ints.value.1 == 0 then None
        else if CheckedRem(ints.value.0, ints.value.1).Some? then IntLit(CheckedRem(ints.value.0, ints.value.1))
        else Some(Lit(Int(0)))
      else FloatLit(floats, fl.rem)
    case Pow =>
      if ints.Some? then Some(Lit(Float(fl.pow(fl.fromInt(ints.value.0), fl.fromInt(ints.value.1)))))
        else FloatLit(floats, fl.pow)
    case BitAnd => if ints.Some? then Some(Lit(Int(BitAndInt(ints.value.0, ints.value.1)))) else None
    case BitOr => if ints.Some? then Some(Lit(Int(BitOrInt(ints.value.0, ints.value.1)))) else None
    case BitXor => if ints.Some? then Some(Lit(Int(BitXorInt(ints.value.0, ints.value.1)))) else None
    case Shl => if ints.Some? && 0 <= ints.value.1 < 64 then Some(Lit(Int(ShlInt(ints.value.0, ints.value.1))))
      else None
    case Shr => if ints.Some? && 0 <= ints.value.1 < 64 then Some(Lit(Int(ShrInt(ints.value.0, ints.value.1))))
      else None
    case _ => None
  }

  /** An exact quotient stays an integer, any other becomes a float. */
  function FoldDiv(fl: Floats, x: int, y: int): Option<Expr> {
    match CheckedRem(x, y)
    case None => None
    case Some(0) => Some(Lit(Int(TruncDiv(x, y))))
    case Some(_) => Some(Lit(Float(fl.div(fl.fromInt(x), fl.fromInt(y)))))
  }

  /** `fold_unop`. */
  function FoldUnop(fl: Floats, op: UnOp, x: Expr): Option<Expr> {
    if !x.Lit? then None
    else if op == Neg && x.v.Int? then IntLit(Checked(-x.v.n))
    else if op == Neg && x.v.Float? then Some(Lit(Float(fl.neg(x.v.bits))))
    else if op == BitNot && x.v.Int? then Some(Lit(Int(BitNotInt(x.v.n))))
    else None
  }

  /** `fold_expr`. A parenthesised literal collapses, so that the operator around it can fold. */
  function FoldExpr(fl: Floats, e: Expr): Expr {
    match e
    case Lit(_) => e
    case Ident(_) => e
    case Continue => e
    case Binary(op, l, r) =>
      var a, b := FoldExpr(fl, l), FoldExpr(fl, r);
      (match FoldBinop(fl, op, a, b) case Some(x) => x case None => Binary(op, a, b))
    case Unary(op, x) =>
      var a := FoldExpr(fl, x);
      (match FoldUnop(fl, op, a) case Some(y) => y case None => Unary(op, a))
    case Paren(b) =>
      var c := FoldBlock(fl, b);
      if c.Tail? && IsLiteral(c.e) then c.e else Paren(c)
    case Scope(b) => Scope(FoldBlock(fl, b))
    case If(c, t, f) => If(FoldExpr(fl, c), FoldExpr(fl, t), FoldExpr(fl, f))
    case While(k, c, b) => While(k, FoldExpr(fl, c), FoldBlock(fl, b))
    case For(k, x, y, it, b) => For(k, x, y, FoldExpr(fl, it), FoldBlock(fl, b))
    case Break(arg) => Break(FoldOption(fl, arg))
    case Decl(x, init) => Decl(x, FoldExpr(fl, init))
    case Assign(x, op, v) => Assign(x, op, FoldExpr(fl, v))
    case Index(o, k) => Index(FoldExpr(fl, o), FoldExpr(fl, k))
    case IndexAssign(o, k, op, v) => IndexAssign(FoldExpr(fl, o), FoldExpr(fl, k), op, FoldExpr(fl, v))
    case Try(x, h) => Try(FoldExpr(fl, x), FoldHandler(fl, h))
    case Raise(x) => Raise(FoldExpr(fl, x))
    case Return(arg) => Return(FoldOption(fl, arg))
  }

  function FoldOption(fl: Floats, o: Option<Expr>): Option<Expr> {
    match o
    case None => None
    case Some(e) => Some(FoldExpr(fl, e))
  }

  function FoldHandler(fl: Floats, h: Option<Catch>): Option<Catch> {
    match h
    case None => None
    case Some(k) => Some(Catch(k.param, FoldBlock(fl, k.body)))
  }

  function FoldBlock(fl: Floats, b: Block): Block {
    match b
    case End => End
    case Tail(e) => Tail(FoldExpr(fl, e))
    case Then(s, rest) => Then(FoldExpr(fl, s), FoldBlock(fl, rest))
  }

  // ----- exactly the operations that cannot raise are folded -----

  /** Two literals fold exactly when the VM would compute a value, and then to that value: overflow,
      division by zero, `i64::MIN / -1` and shifts out of range are left for the VM to raise, while
      `i64::MIN % -1` is 0. */
  lemma FoldsWhatTheVmComputes(fl: Floats, er: Errors, op: BinOp, a: Value, b: Value)
    requires Modelled(op, a, b)
    ensures FoldBinop(fl, op, Lit(a), Lit(b)) ==
      match VmBinary(fl, er, op, a, b) case Val(v) => Some(Lit(v)) case Raises(_) => None
  {
    hide TruncDiv, TruncRem, BitAndInt, BitOrInt, BitXorInt, ShlInt, ShrInt;
  }

  lemma FoldsUnaryWhatTheVmComputes(fl: Floats, er: Errors, op: UnOp, a: Value)
    requires ModelledUnary(op, a)
    ensures FoldUnop(fl, op, Lit(a)) == match VmUnary(fl, er, op, a) case Val(v) => Some(Lit(v)) case Raises(_) => None
  {
  }

  /** Anything else is left alone. */
  lemma FoldsNothingElse(fl: Floats, op: BinOp, l: Expr, r: Expr)
    requires !(l.Lit? && r.Lit? && Modelled(op, l.v, r.v))
    ensures FoldBinop(fl, op, l, r) == None
  {
  }

  lemma FoldsNothingElseUnary(fl: Floats, op: UnOp, x: Expr)
    requires !(x.Lit? && ModelledUnary(op, x.v))
    ensures FoldUnop(fl, op, x) == None
  {
  }

  // ----- what the folded values are -----

  /** Sums, differences and products fold to the mathematical ones wherever those fit 64 bits. */
  lemma FoldsExactly(fl: Floats, x: int, y: int)
    ensures FoldBinop(fl, Add, Lit(Int(x)), Lit(Int(y))) ==
      if -0x8000_0000_0000_0000 <= x + y < 0x8000_0000_0000_0000 then Some(Lit(Int(x + y))) else None
    ensures FoldBinop(fl, Sub, Lit(Int(x)), Lit(Int(y))) ==
      if -0x8000_0000_0000_0000 <= x - y < 0x8000_0000_0000_0000 then Some(Lit(Int(x - y))) else None
    ensures FoldBinop(fl, Mul, Lit(Int(x)), Lit(Int(y))) ==
      if -0x8000_0000_0000_0000 <= x * y < 0x8000_0000_0000_0000 then Some(Lit(Int(x * y))) else None
    ensures FoldUnop(fl, Neg, Lit(Int(x))) ==
      if -0x8000_0000_0000_0000 <= -x < 0x8000_0000_0000_0000 then Some(Lit(Int(-x))) else None
  {
  }

  /** For the quotient `q` and remainder `r` of division toward zero, `%` folds to `r`; `/` folds to `q` if the
      division is exact and `q` fits 64 bits, to a float if it is not exact. */
  lemma FoldsQuotient(fl: Floats, x: int, y: int, q: int, r: int)
    requires InI64(x) && InI64(y) && y != 0
    requires x == y * q + r && Abs(r) < Abs(y) && (r == 0 || (r > 0) == (x > 0))
    ensures FoldBinop(fl, Mod, Lit(Int(x)), Lit(Int(y))) == Some(Lit(Int(r)))
    ensures FoldBinop(fl, Div, Lit(Int(x)), Lit(Int(y))) ==
      if r != 0 then Some(Lit(Float(fl.div(fl.fromInt(x), fl.fromInt(y)))))
      else if InI64(q) then Some(Lit(Int(q))) else None
  {
    hide TruncDiv, TruncRem;
    TruncatedIsUnique(x, y, q, r);
    QuotientFits(x, y);
  }

  /** `&`, `|` and `^` fold to the integer with the combined bits. */
  lemma FoldsBitByBit(fl: Floats, x: int, y: int) returns (a: int, o: int, e: int)
    ensures InI64(a) && InI64(o) && InI64(e)
    ensures FoldBinop(fl, BitAnd, Lit(Int(x)), Lit(Int(y))) == Some(Lit(Int(a)))
    ensures FoldBinop(fl, BitOr, Lit(Int(x)), Lit(Int(y))) == Some(Lit(Int(o)))
    ensures FoldBinop(fl, BitXor, Lit(Int(x)), Lit(Int(y))) == Some(Lit(Int(e)))
    ensures forall k: nat :: k < 64 ==> (Bit(a, k) <==> Bit(x, k) && Bit(y, k))
    ensures forall k: nat :: k < 64 ==> (Bit(o, k) <==> Bit(x, k) || Bit(y, k))
    ensures forall k: nat :: k < 64 ==> (Bit(e, k) <==> Bit(x, k) != Bit(y, k))
  {
    hide Bit, Word;
    a, o, e := BitAndInt(x, y), BitOrInt(x, y), BitXorInt(x, y);
    BitwiseIsBitByBit(x, y, 0);
    forall k: nat | k < 64
      ensures (Bit(a, k) <==> Bit(x, k) && Bit(y, k)) && (Bit(o, k) <==> Bit(x, k) || Bit(y, k))
      ensures Bit(e, k) <==> Bit(x, k) != Bit(y, k)
    {
      BitwiseIsBitByBit(x, y, k);
    }
  }

  /** `~x` folds to -x - 1, `x >> y` to x divided by 2^y and rounded down, `x << y` to x times 2^y modulo 2^64; a
      shift by less than 0 or more than 63 is not folded. */
  lemma FoldsShifts(fl: Floats, x: int, y: int)
    requires InI64(x)
    ensures FoldUnop(fl, BitNot, Lit(Int(x))) == Some(Lit(Int(-x - 1)))
    ensures FoldBinop(fl, Shr, Lit(Int(x)), Lit(Int(y))) ==
      if 0 <= y < 64 then Some(Lit(Int(x / Pow2(y)))) else None
    ensures var shifted := FoldBinop(fl, Shl, Lit(Int(x)), Lit(Int(y)));
      if 0 <= y < 64 then
        shifted.Some? && shifted.value.Lit? && shifted.value.v.Int? && InI64(shifted.value.v.n)
          && (shifted.value.v.n - x * Pow2(y)) % 0x1_0000_0000_0000_0000 == 0
      else shifted == None
  {
    hide BitNotInt, ShrInt, ShlInt, Pow2;
    NotNegates(x);
    if 0 <= y < 64 {
      ShrDivides(x, y);
      ShlMultiplies(x, y);
    }
  }

  /** The two corner cases of 64-bit division. */
  lemma MinByMinusOne(fl: Floats)
    ensures FoldBinop(fl, Div, Lit(Int(I64_MIN)), Lit(Int(-1))) == None
    ensures FoldBinop(fl, Mod, Lit(Int(I64_MIN)), Lit(Int(-1))) == Some(Lit(Int(0)))
  {
  }

  // ----- folding moves no declaration -----

  lemma {:induction false} FoldKeepsHoists(fl: Floats, e: Expr)
    ensures HoistExpr(FoldExpr(fl, e)) == HoistExpr(e) && FoldExpr(fl, e).Decl? == e.Decl?
    ensures e.Decl? ==> HoistStmt(FoldExpr(fl, e)) == HoistStmt(e)
    decreases e
  {
    hide FoldBinop, FoldUnop;
    match e
    case Binary(op, l, r) =>
      FoldKeepsHoists(fl, l);
      FoldKeepsHoists(fl, r);
      FoldBinopIsLit(fl, op, FoldExpr(fl, l), FoldExpr(fl, r));
    case Unary(op, x) =>
      FoldKeepsHoists(fl, x);
      FoldUnopIsLit(fl, op, FoldExpr(fl, x));
    case Paren(b) => FoldKeepsHoistsParen(fl, b);
    case If(c, t, f) =>
      FoldKeepsHoists(fl, c);
      FoldKeepsHoists(fl, t);
      FoldKeepsHoists(fl, f);
    case Break(arg) => if arg.Some? { FoldKeepsHoists(fl, arg.value); }
    case Return(arg) => if arg.Some? { FoldKeepsHoists(fl, arg.value); }
    case Decl(_, init) => FoldKeepsHoists(fl, init);
    case Assign(_, _, v) => FoldKeepsHoists(fl, v);
    case Index(o, k) =>
      FoldKeepsHoists(fl, o);
      FoldKeepsHoists(fl, k);
    case IndexAssign(o, k, _, v) =>
      FoldKeepsHoists(fl, o);
      FoldKeepsHoists(fl, k);
      FoldKeepsHoists(fl, v);
    case Try(x, _) => FoldKeepsHoists(fl, x);
    case Raise(x) => FoldKeepsHoists(fl, x);
    case _ =>
  }

  lemma {:induction false} FoldKeepsHoistsParen(fl: Floats, b: Block)
    ensures HoistParen(FoldBlock(fl, b)) == HoistParen(b)
    decreases b
  {
    match b
    case End =>
    case Tail(e) => FoldKeepsHoists(fl, e);
    case Then(s, rest) =>
      FoldKeepsHoists(fl, s);
      FoldKeepsHoistsParen(fl, rest);
  }

  lemma {:induction false} FoldKeepsHoistsBlock(fl: Floats, b: Block)
    ensures HoistBlock(FoldBlock(fl, b)) == HoistBlock(b)
    decreases b
  {
    match b
    case End =>
    case Tail(e) => FoldKeepsHoists(fl, e);
    case Then(s, rest) =>
      FoldKeepsHoists(fl, s);
      FoldKeepsHoistsBlock(fl, rest);
  }

  /** A fold consumes two literals and gives a literal. */
  lemma FoldBinopIsLit(fl: Floats, op: BinOp, l: Expr, r: Expr)
    ensures FoldBinop(fl, op, l, r).Some? ==>
      l.Lit? && r.Lit? && Modelled(op, l.v, r.v) && FoldBinop(fl, op, l, r).value.Lit?
  {
    hide TruncDiv, TruncRem, BitAndInt, BitOrInt, BitXorInt, ShlInt, ShrInt;
  }

  lemma FoldUnopIsLit(fl: Floats, op: UnOp, x: Expr)
    ensures FoldUnop(fl, op, x).Some? ==> x.Lit? && ModelledUnary(op, x.v) && FoldUnop(fl, op, x).value.Lit?
  {
  }

  // ----- folding leaves nothing to fold -----

  /** An operator on literals that fold, or a literal in parentheses. */
  predicate CanFold(fl: Floats, e: Expr) {
    || (e.Binary? && FoldBinop(fl, e.op, e.lhs, e.rhs).Some?) || (e.Unary? && FoldUnop(fl, e.uop, e.operand).Some?)
    || (e.Paren? && e.block.Tail? && IsLiteral(e.block.e))
  }

  /** `d` stands directly inside `e`, in its scope or in a scope, loop or handler that it opens. */
  predicate Inside(d: Expr, e: Expr) {
    PartOf(d, e) || (e.Scope? && StatementOf(d, e.block)) || (e.While? && (d == e.cond || StatementOf(d, e.body)))
      || (e.For? && (d == e.iter || StatementOf(d, e.body)))
      || (e.Try? && e.handler.Some? && StatementOf(d, e.handler.value.body))
  }

  /** A way down into an expression, as deep as one likes. */
  predicate Descends(p: seq<Expr>) {
    p != [] && forall i :: 0 <= i < |p| - 1 ==> Inside(p[i + 1], p[i])
  }

  /** However deep one looks into a folded expression, there is nothing left to fold. */
  lemma {:induction false} NothingLeftToFold(fl: Floats, e: Expr, p: seq<Expr>)
    requires Descends(p) && p[0] == FoldExpr(fl, e)
    ensures !CanFold(fl, p[|p| - 1])
    decreases |p|
  {
    hide FoldExpr, CanFold, Inside;
    if |p| == 1 {
      TopIsFolded(fl, e);
    } else {
      assert Inside(p[1], p[0]);
      var d := FoldedPart(fl, e, p[1]);
      NothingLeftToFold(fl, d, p[1..]);
    }
  }

  /** The same of a folded block. */
  lemma NothingLeftInBlock(fl: Floats, b: Block, p: seq<Expr>)
    requires Descends(p) && StatementOf(p[0], FoldBlock(fl, b))
    ensures !CanFold(fl, p[|p| - 1])
  {
    hide CanFold;
    var d := FoldedStatement(fl, b, p[0]);
    NothingLeftToFold(fl, d, p);
  }

  lemma TopIsFolded(fl: Floats, e: Expr)
    ensures !CanFold(fl, FoldExpr(fl, e))
  {
    hide FoldBinop, FoldUnop;
    match e
    case Binary(op, l, r) => FoldBinopIsLit(fl, op, FoldExpr(fl, l), FoldExpr(fl, r));
    case Unary(op, x) => FoldUnopIsLit(fl, op, FoldExpr(fl, x));
    case _ =>
  }

  /** What stands in a folded expression is itself folded. */
  lemma FoldedPart(fl: Floats, e: Expr, x: Expr) returns (d: Expr)
    requires Inside(x, FoldExpr(fl, e))
    ensures x == FoldExpr(fl, d)
  {
    hide FoldBinop, FoldUnop;
    match e
    case Binary(op, l, r) =>
      FoldBinopIsLit(fl, op, FoldExpr(fl, l), FoldExpr(fl, r));
      d := if x == FoldExpr(fl, l) then l else r;
    case Unary(op, y) =>
      FoldUnopIsLit(fl, op, FoldExpr(fl, y));
      d := y;
    case Paren(b) => d := FoldedStatement(fl, b, x);
    case Scope(b) => d := FoldedStatement(fl, b, x);
    case If(c, t, f) => d := if x == FoldExpr(fl, c) then c else if x == FoldExpr(fl, t) then t else f;
    case While(_, c, b) => if x == FoldExpr(fl, c) { d := c; } else { d := FoldedStatement(fl, b, x); }
    case For(_, _, _, it, b) => if x == FoldExpr(fl, it) { d := it; } else { d := FoldedStatement(fl, b, x); }
    case Break(arg) => d := arg.value;
    case Decl(_, init) => d := init;
    case Assign(_, _, v) => d := v;
    case Index(o, k) => d := if x == FoldExpr(fl, o) then o else k;
    case IndexAssign(o, k, _, v) => d := if x == FoldExpr(fl, o) then o else if x == FoldExpr(fl, k) then k else v;
    case Try(y, h) => if x == FoldExpr(fl, y) { d := y; } else { d := FoldedStatement(fl, h.value.body, x); }
    case Raise(y) => d := y;
    case Return(arg) => d := arg.value;
  }

  lemma {:induction false} FoldedStatement(fl: Floats, b: Block, x: Expr) returns (d: Expr)
    requires StatementOf(x, FoldBlock(fl, b))
    ensures x == FoldExpr(fl, d)
    decreases b
  {
    match b
    case Tail(e) => d := e;
    case Then(s, rest) => if x == FoldExpr(fl, s) { d := s; } else { d := FoldedStatement(fl, rest, x); }
  }

  // ----- folding preserves meaning -----

  /** A folded program's expression has the same outcome at every fuel: the same value, jump or error,
      the same variables and the same heap. */
  lemma {:induction false} FoldMeans(fl: Floats, er: Errors, ops: Ops, g: Globals, e: Expr, hoisted: set<string>,
        env: Env, heap: Heap, fuel: nat)
    requires VmArithmetic(ops, fl, er)
    ensures Eval(ops, g, FoldExpr(fl, e), hoisted, env, heap, fuel) == Eval(ops, g, e, hoisted, env, heap, fuel)
    decreases fuel, e, 4
  {
    hide VmArithmetic, FoldBinop, FoldUnop, EvalIf, EvalWhile, EvalFor, EvalBreak, EvalDecl, EvalAssign, EvalIndex,
      EvalIndexAssign, EvalTry,
      EvalScope;
    match e
    case Lit(_) =>
    case Ident(_) =>
    case Continue =>
    case Binary(_, _, _) => FoldBinaryMeans(fl, er, ops, g, e, hoisted, env, heap, fuel);
    case Unary(op, x) => FoldUnaryMeans(fl, er, ops, g, e, hoisted, env, heap, fuel);
    case Paren(b) => FoldBlockMeans(fl, er, ops, g, b, hoisted, env, heap, fuel);
    case Scope(b) => FoldScopeMeans(fl, er, ops, g, b, env, heap, fuel);
    case If(_, _, _) => FoldIfMeans(fl, er, ops, g, e, hoisted, env, heap, fuel);
    case While(_, _, _) => FoldWhileMeans(fl, er, ops, g, e, env, heap, fuel);
    case For(_, _, _, _, _) => FoldForMeans(fl, er, ops, g, e, env, heap, fuel);
    case Break(arg) => FoldBreakMeans(fl, er, ops, g, e, hoisted, env, heap, fuel);
    case Decl(_, _) => FoldDeclMeans(fl, er, ops, g, e, hoisted, env, heap, fuel);
    case Assign(_, _, _) => FoldAssignMeans(fl, er, ops, g, e, hoisted, env, heap, fuel);
    case Index(_, _) => FoldIndexMeans(fl, er, ops, g, e, hoisted, env, heap, fuel);
    case IndexAssign(_, _, _, _) => FoldIndexAssignMeans(fl, er, ops, g, e, hoisted, env, heap, fuel);
    case Try(_, _) => FoldTryMeans(fl, er, ops, g, e, hoisted, env, heap, fuel);
    case Raise(x) => FoldMeans(fl, er, ops, g, x, hoisted, env, heap, fuel);
    case Return(arg) => if arg.Some? { FoldMeans(fl, er, ops, g, arg.value, hoisted, env, heap, fuel); }
  }

  lemma {:induction false} FoldBinaryMeans(fl: Floats, er: Errors, ops: Ops, g: Globals, e: Expr, hoisted: set<string>,
        env: Env, heap: Heap, fuel: nat)
    requires VmArithmetic(ops, fl, er) && e.Binary?
    ensures Eval(ops, g, FoldExpr(fl, e), hoisted, env, heap, fuel) == Eval(ops, g, e, hoisted, env, heap, fuel)
    decreases fuel, e, 3
  {
    hide VmArithmetic, FoldBinop;
    var l, r := FoldExpr(fl, e.lhs), FoldExpr(fl, e.rhs);
    FoldMeans(fl, er, ops, g, e.lhs, hoisted, env, heap, fuel);
    var a := Eval(ops, g, e.lhs, hoisted, env, heap, fuel);
    if a.Norm? {
      FoldMeans(fl, er, ops, g, e.rhs, hoisted, a.env, a.heap, fuel);
    }
    assert EvalBinary(ops, g, Binary(e.op, l, r), hoisted, env, heap, fuel) ==
      EvalBinary(ops, g, e, hoisted, env, heap, fuel);
    if FoldBinop(fl, e.op, l, r).Some? {
      FoldBinopIsLit(fl, e.op, l, r);
      FoldedIsComputed(fl, er, ops, e.op, l.v, r.v, heap);
    }
  }

  lemma FoldedIsComputed(fl: Floats, er: Errors, ops: Ops, op: BinOp, a: Value, b: Value, heap: Heap)
    requires VmArithmetic(ops, fl, er) && Modelled(op, a, b) && FoldBinop(fl, op, Lit(a), Lit(b)).Some?
    ensures FoldBinop(fl, op, Lit(a), Lit(b)).value.Lit? && op != And && op != Or && !Decides(op, a)
    ensures ops.bin(op, a, b, heap) == Ok(FoldBinop(fl, op, Lit(a), Lit(b)).value.v, heap)
  {
    hide FoldBinop, VmBinary;
    FoldsWhatTheVmComputes(fl, er, op, a, b);
  }

  lemma {:induction false} FoldUnaryMeans(fl: Floats, er: Errors, ops: Ops, g: Globals, e: Expr, hoisted: set<string>,
        env: Env, heap: Heap, fuel: nat)
    requires VmArithmetic(ops, fl, er) && e.Unary?
    ensures Eval(ops, g, FoldExpr(fl, e), hoisted, env, heap, fuel) == Eval(ops, g, e, hoisted, env, heap, fuel)
    decreases fuel, e, 3
  {
    hide FoldUnop, VmUnary;
    FoldMeans(fl, er, ops, g, e.operand, hoisted, env, heap, fuel);
    var x := FoldExpr(fl, e.operand);
    FoldUnopIsLit(fl, e.uop, x);
    if FoldUnop(fl, e.uop, x).Some? {
      FoldsUnaryWhatTheVmComputes(fl, er, e.uop, x.v);
    }
  }

  lemma {:induction false} FoldIfMeans(fl: Floats, er: Errors, ops: Ops, g: Globals, e: Expr, hoisted: set<string>,
        env: Env, heap: Heap, fuel: nat)
    requires VmArithmetic(ops, fl, er) && e.If?
    ensures EvalIf(ops, g, FoldExpr(fl, e), hoisted, env, heap, fuel) == EvalIf(ops, g, e, hoisted, env, heap, fuel)
    decreases fuel, e, 3
  {
    hide VmArithmetic;
    FoldMeans(fl, er, ops, g, e.cond, hoisted, env, heap, fuel);
    var a := Eval(ops, g, e.cond, hoisted, env, heap, fuel);
    if a.Norm? {
      FoldMeans(fl, er, ops, g, e.thn, hoisted, a.env, a.heap, fuel);
      FoldMeans(fl, er, ops, g, e.els, hoisted, a.env, a.heap, fuel);
    }
  }

  lemma {:induction false} FoldBreakMeans(fl: Floats, er: Errors, ops: Ops, g: Globals, e: Expr, hoisted: set<string>,
        env: Env, heap: Heap, fuel: nat)
    requires VmArithmetic(ops, fl, er) && e.Break?
    ensures EvalBreak(ops, g, FoldExpr(fl, e), hoisted, env, heap, fuel) ==
      EvalBreak(ops, g, e, hoisted, env, heap, fuel)
    decreases fuel, e, 3
  {
    hide VmArithmetic;
    if e.arg.Some? {
      FoldMeans(fl, er, ops, g, e.arg.value, hoisted, env, heap, fuel);
    }
  }

  lemma {:induction false} FoldDeclMeans(fl: Floats, er: Errors, ops: Ops, g: Globals, e: Expr, hoisted: set<string>,
        env: Env, heap: Heap, fuel: nat)
    requires VmArithmetic(ops, fl, er) && e.Decl?
    ensures EvalDecl(ops, g, FoldExpr(fl, e), hoisted, env, heap, fuel) == EvalDecl(ops, g, e, hoisted, env, heap, fuel)
    decreases fuel, e, 3
  {
    hide VmArithmetic;
    FoldMeans(fl, er, ops, g, e.init, hoisted, env, heap, fuel);
  }

  lemma {:induction false} FoldAssignMeans(fl: Floats, er: Errors, ops: Ops, g: Globals, e: Expr, hoisted: set<string>,
        env: Env, heap: Heap, fuel: nat)
    requires VmArithmetic(ops, fl, er) && e.Assign?
    ensures EvalAssign(ops, g, FoldExpr(fl, e), hoisted, env, heap, fuel) ==
      EvalAssign(ops, g, e, hoisted, env, heap, fuel)
    decreases fuel, e, 3
  {
    hide VmArithmetic;
    FoldMeans(fl, er, ops, g, e.rhs, hoisted, env, heap, fuel);
  }

  lemma {:induction false} FoldIndexMeans(fl: Floats, er: Errors, ops: Ops, g: Globals, e: Expr, hoisted: set<string>,
        env: Env, heap: Heap, fuel: nat)
    requires VmArithmetic(ops, fl, er) && e.Index?
    ensures EvalIndex(ops, g, FoldExpr(fl, e), hoisted, env, heap, fuel) ==
      EvalIndex(ops, g, e, hoisted, env, heap, fuel)
    decreases fuel, e, 3
  {
    hide VmArithmetic;
    FoldMeans(fl, er, ops, g, e.obj, hoisted, env, heap, fuel);
    var a := Eval(ops, g, e.obj, hoisted, env, heap, fuel);
    if a.Norm? {
      FoldMeans(fl, er, ops, g, e.key, hoisted, a.env, a.heap, fuel);
    }
  }

  lemma {:induction false} FoldIndexAssignMeans(fl: Floats, er: Errors, ops: Ops, g: Globals, e: Expr,
        hoisted: set<string>, env: Env, heap: Heap, fuel: nat)
    requires VmArithmetic(ops, fl, er) && e.IndexAssign?
    ensures EvalIndexAssign(ops, g, FoldExpr(fl, e), hoisted, env, heap, fuel) ==
      EvalIndexAssign(ops, g, e, hoisted, env, heap, fuel)
    decreases fuel, e, 3
  {
    hide VmArithmetic;
    FoldMeans(fl, er, ops, g, e.obj, hoisted, env, heap, fuel);
    var a := Eval(ops, g, e.obj, hoisted, env, heap, fuel);
    if a.Norm? {
      FoldMeans(fl, er, ops, g, e.key, hoisted, a.env, a.heap, fuel);
      var b := Eval(ops, g, e.key, hoisted, a.env, a.heap, fuel);
      if b.Norm? {
        var cur := if e.iop.Some? then ops.indexGet(a.v, b.v, b.heap) else Ok(Null, b.heap);
        if cur.Ok? {
          FoldMeans(fl, er, ops, g, e.rhs, hoisted, b.env, cur.heap, fuel);
        }
      }
    }
  }

  lemma {:induction false} FoldTryMeans(fl: Floats, er: Errors, ops: Ops, g: Globals, e: Expr, hoisted: set<string>,
        env: Env, heap: Heap, fuel: nat)
    requires VmArithmetic(ops, fl, er) && e.Try?
    ensures EvalTry(ops, g, FoldExpr(fl, e), hoisted, env, heap, fuel) == EvalTry(ops, g, e, hoisted, env, heap, fuel)
    decreases fuel, e, 3
  {
    hide VmArithmetic, EvalScope;
    FoldMeans(fl, er, ops, g, e.attempt, hoisted, env, heap, fuel);
    var a := Eval(ops, g, e.attempt, hoisted, env, heap, fuel);
    if a.Raised? && e.handler.Some? {
      var inner := Shrink(a.env, |env|) + [Named(e.handler.value.param, a.exn)];
      FoldScopeMeans(fl, er, ops, g, e.handler.value.body, inner, a.heap, fuel);
    }
  }

  lemma {:induction false} FoldBlockMeans(fl: Floats, er: Errors, ops: Ops, g: Globals, b: Block, hoisted: set<string>,
        env: Env, heap: Heap, fuel: nat)
    requires VmArithmetic(ops, fl, er)
    ensures EvalBlock(ops, g, FoldBlock(fl, b), hoisted, env, heap, fuel) ==
      EvalBlock(ops, g, b, hoisted, env, heap, fuel)
    decreases fuel, b, 2
  {
    hide VmArithmetic;
    match b
    case End =>
    case Tail(e) => FoldMeans(fl, er, ops, g, e, hoisted, env, heap, fuel);
    case Then(s, rest) =>
      FoldMeans(fl, er, ops, g, s, hoisted, env, heap, fuel);
      var a := Eval(ops, g, s, hoisted, env, heap, fuel);
      if a.Norm? {
        FoldBlockMeans(fl, er, ops, g, rest, hoisted, a.env, a.heap, fuel);
      }
  }

  lemma {:induction false} FoldScopeMeans(fl: Floats, er: Errors, ops: Ops, g: Globals, b: Block, env: Env, heap: Heap,
        fuel: nat)
    requires VmArithmetic(ops, fl, er)
    ensures EvalScope(ops, g, FoldBlock(fl, b), env, heap, fuel) == EvalScope(ops, g, b, env, heap, fuel)
    decreases fuel, b, 3
  {
    hide VmArithmetic, EvalBlock, FoldBlock, HoistBlock, Dedup;
    var names := Dedup(HoistBlock(b));
    FoldKeepsHoistsBlock(fl, b);
    FoldBlockMeans(fl, er, ops, g, b, ToSet(names), env + Nulls(names), heap, fuel);
  }

  lemma {:induction false} FoldWhileMeans(fl: Floats, er: Errors, ops: Ops, g: Globals, e: Expr, env: Env, heap: Heap,
        fuel: nat)
    requires VmArithmetic(ops, fl, er) && e.While?
    ensures EvalWhile(ops, g, FoldExpr(fl, e), env, heap, fuel) == EvalWhile(ops, g, e, env, heap, fuel)
    decreases fuel, e, 3
  {
    hide VmArithmetic, HoistExpr, Dedup, RepeatWhile;
    var names := Dedup(HoistExpr(e.cond));
    FoldKeepsHoists(fl, e.cond);
    var start := StartLoop(ops, e.isArray, heap);
    FoldRepeatWhile(fl, er, ops, g, e, ToSet(names), env + Nulls(names), start.1, start.0, fuel);
  }

  lemma {:induction false} FoldRepeatWhile(fl: Floats, er: Errors, ops: Ops, g: Globals, e: Expr, hoisted: set<string>,
        env: Env, heap: Heap, acc: Value, fuel: nat)
    requires VmArithmetic(ops, fl, er) && e.While?
    ensures RepeatWhile(ops, g, FoldExpr(fl, e), hoisted, env, heap, acc, fuel) ==
      RepeatWhile(ops, g, e, hoisted, env, heap, acc, fuel)
    decreases fuel, e, 2
  {
    hide VmArithmetic, EvalScope;
    if fuel > 0 {
      FoldMeans(fl, er, ops, g, e.cond, hoisted, env, heap, fuel);
      var c := Eval(ops, g, e.cond, hoisted, env, heap, fuel);
      if c.Norm? {
        FoldScopeMeans(fl, er, ops, g, e.body, c.env, c.heap, fuel);
      }
      var o := if c.Norm? then EvalScope(ops, g, e.body, c.env, c.heap, fuel) else c;
      match IterationEnd(ops, e.isArray, o, acc, |env|)
      case Again(env', heap', acc') => FoldRepeatWhile(fl, er, ops, g, e, hoisted, env', heap', acc', fuel - 1);
      case Leave(_) =>
    }
  }

  lemma {:induction false} FoldForMeans(fl: Floats, er: Errors, ops: Ops, g: Globals, e: Expr, env: Env, heap: Heap,
        fuel: nat)
    requires VmArithmetic(ops, fl, er) && e.For?
    ensures EvalFor(ops, g, FoldExpr(fl, e), env, heap, fuel) == EvalFor(ops, g, e, env, heap, fuel)
    decreases fuel, e, 3
  {
    hide VmArithmetic, HoistExpr, Dedup, RepeatFor;
    var names := Dedup(HoistExpr(e.iter));
    FoldKeepsHoists(fl, e.iter);
    var start := StartLoop(ops, e.isArray, heap);
    FoldMeans(fl, er, ops, g, e.iter, ToSet(names), env + Nulls(names), start.1, fuel);
    var a := Eval(ops, g, e.iter, ToSet(names), env + Nulls(names), start.1, fuel);
    if a.Norm? {
      var it := ops.makeIter(a.v, a.heap);
      if it.Ok? {
        FoldRepeatFor(fl, er, ops, g, e, it.v, a.env, it.heap, start.0, fuel);
      }
    }
  }

  lemma {:induction false} FoldRepeatFor(fl: Floats, er: Errors, ops: Ops, g: Globals, e: Expr, it: Value, env: Env,
        heap: Heap, acc: Value, fuel: nat)
    requires VmArithmetic(ops, fl, er) && e.For?
    ensures RepeatFor(ops, g, FoldExpr(fl, e), it, env, heap, acc, fuel) ==
      RepeatFor(ops, g, e, it, env, heap, acc, fuel)
    decreases fuel, e, 2
  {
    hide VmArithmetic, EvalScope;
    if fuel > 0 {
      match ops.pull(it, heap)
      case Exhausted =>
      case Failed(_, _) =>
      case Next(counter, item, h) =>
        FoldScopeMeans(fl, er, ops, g, e.body, env + LoopVars(e, counter, item), h, fuel);
        var o := EvalScope(ops, g, e.body, env + LoopVars(e, counter, item), h, fuel);
        match IterationEnd(ops, e.isArray, o, acc, |env|)
        case Again(env', heap', acc') => FoldRepeatFor(fl, er, ops, g, e, it, env', heap', acc', fuel - 1);
        case Leave(_) =>
    }
  }

  /** Folding never changes what a program does. */
  lemma FoldPreservesMeaning(fl: Floats, er: Errors, ops: Ops, g: Globals, program: Block, heap: Heap, fuel: nat)
    requires VmArithmetic(ops, fl, er)
    ensures EvalProgram(ops, g, FoldBlock(fl, program), heap, fuel) == EvalProgram(ops, g, program, heap, fuel)
  {
    hide VmArithmetic, EvalBlock, FoldBlock, HoistBlock, Dedup;
    var names := Dedup(HoistBlock(program));
    FoldKeepsHoistsBlock(fl, program);
    FoldBlockMeans(fl, er, ops, g, program, ToSet(names), Nulls(names), heap, fuel);
  }

  /** Fold, then compile: the code ends as the program as written does, and only then. */
  lemma FoldThenCompile(fl: Floats, er: Errors, program: Block, w: World, closure: Value, heap: Heap, e: Ending)
    requires VmArithmetic(w.ops, fl, er) && Compilable(FoldBlock(fl, program), w.g)
    requires w.p == CompileProgram(FoldBlock(fl, program), w.g.names).code
    ensures SourceEnds(w.ops, w.g, program, heap, e) <==> MachineEnds(w, Start(closure, heap), e)
  {
    hide VmArithmetic, EvalProgram, FoldBlock, CompileProgram, Compilable;
    CompilePreservesMeaning(FoldBlock(fl, program), w, closure, heap, e);
    forall fuel: nat
      ensures EvalProgram(w.ops, w.g, FoldBlock(fl, program), heap, fuel) ==
        EvalProgram(w.ops, w.g, program, heap, fuel)
    {
      FoldPreservesMeaning(fl, er, w.ops, w.g, program, heap, fuel);
    }
    if SourceEnds(w.ops, w.g, program, heap, e) {
      var fuel: nat :| Ends(EvalProgram(w.ops, w.g, program, heap, fuel), e);
      assert Ends(EvalProgram(w.ops, w.g, FoldBlock(fl, program), heap, fuel), e);
    }
    if SourceEnds(w.ops, w.g, FoldBlock(fl, program), heap, e) {
      var fuel: nat :| Ends(EvalProgram(w.ops, w.g, FoldBlock(fl, program), heap, fuel), e);
      assert Ends(EvalProgram(w.ops, w.g, program, heap, fuel), e);
    }
  }
}
