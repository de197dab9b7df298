/** Rust's integer division, which truncates toward zero where Dafny's rounds down. */
module Integers {
  function Abs(x: int): nat {
    if x >= 0 then x else -x
  }

  /** Rust's `/`. */
  function TruncDiv(x: int, y: int): int
    requires y != 0
  {
    if (x >= 0) == (y > 0) then Abs(x) / Abs(y) else -(Abs(x) / Abs(y))
  }

  /** Rust's `%` takes the sign of the dividend. */
  function TruncRem(x: int, y: int): int
    requires y != 0
  {
    x - y * TruncDiv(x, y)
  }

  lemma SignsOut(a: int, b: int)
    ensures (-a) * b == -(a * b) && a * (-b) == -(a * b) && (-a) * (-b) == a * b
  {
  }

  /** Truncated division: the remainder is smaller than the divisor and has the dividend's sign. */
  lemma TruncatedDivision(x: int, y: int)
    requires y != 0
    ensures x == y * TruncDiv(x, y) + TruncRem(x, y)
    ensures Abs(TruncRem(x, y)) < Abs(y) && (TruncRem(x, y) == 0 || (TruncRem(x, y) > 0) == (x > 0))
  {
    var m, n := Abs(x), Abs(y);
    var q: int := m / n;
    var r := m % n;
    assert m == n * q + r && 0 <= r < n;
    SignsOut(n, q);
    assert y * TruncDiv(x, y) == if x >= 0 then n * q else -(n * q);
    assert TruncRem(x, y) == if x >= 0 then r else -r;
  }

  lemma HalfAtMost(m: nat, n: nat)
    requires n >= 2
    ensures m / n <= m / 2
  {
    var q := m / n;
    assert m == n * q + m % n;
    assert n * q == 2 * q + (n - 2) * q;
    assert (n - 2) * q >= 0;
  }

  /** Division by `p`, from its quotient and remainder. */
  lemma DivideBy(x: int, p: int, q: int, r: int)
    requires p > 0 && x == p * q + r && 0 <= r < p
    ensures x / p == q && x % p == r
  {
    var d := x / p - q;
    assert p * (x / p) + x % p == p * q + r;
    assert p * (x / p) - p * q == p * d;
    Multiple(p, d);
  }

  lemma Multiple(p: int, d: int)
    requires p > 0
    ensures d > 0 ==> p * d >= p
    ensures d < 0 ==> p * d <= -p
  {
    if d > 0 {
      assert p * d == p + p * (d - 1) && p * (d - 1) >= 0;
    } else if d < 0 {
      assert p * d == -p - p * (-d - 1) && p * (-d - 1) >= 0;
    }
  }

  /** Quotient and remainder of truncated division are the only pair with its properties. */
  lemma TruncatedIsUnique(x: int, y: int, q: int, r: int)
    requires y != 0 && x == y * q + r && Abs(r) < Abs(y) && (r == 0 || (r > 0) == (x > 0))
    ensures q == TruncDiv(x, y) && r == TruncRem(x, y)
  {
    hide TruncDiv, TruncRem;
    TruncatedDivision(x, y);
    SameDivision(x, y, q, r, TruncDiv(x, y), TruncRem(x, y));
  }

  lemma SameDivision(x: int, y: int, q: int, r: int, p: int, t: int)
    requires y != 0 && x == y * q + r == y * p + t && Abs(r) < Abs(y) && Abs(t) < Abs(y)
    requires (r == 0 || (r > 0) == (x > 0)) && (t == 0 || (t > 0) == (x > 0))
    ensures q == p && r == t
  {
    var d := q - p;
    assert y * d == t - r by {
      assert y * d == y * q - y * p;
    }
    SignsOut(y, d);
    Multiple(Abs(y), d);
  }
}
