/** Rust's `i64` as 64 bits in two's complement: the bitwise operators and shifts, bit by bit, and the integers
    they stand for. */
module Words {
  import opened Integers

  const I64_MIN: int := -0x8000_0000_0000_0000
  const I64_MAX: int := 0x7fff_ffff_ffff_ffff

  predicate InI64(n: int) {
    I64_MIN <= n <= I64_MAX
  }

  function Pow2(n: nat): (r: nat)
    ensures r > 0
  {
    if n == 0 then 1 else 2 * Pow2(n - 1)
  }

  /** Bit `k` of an integer in two's complement of any width. */
  predicate Bit(x: int, k: nat) {
    x / Pow2(k) % 2 == 1
  }

  /** The number that the first `n` bits stand for. */
  function Unsigned(b: nat -> bool, n: nat): nat {
    if n == 0 then 0 else Unsigned(b, n - 1) + if b(n - 1) then Pow2(n - 1) else 0
  }

  /** The integer with these 64 bits: the last one counts negatively. */
  function Word(b: nat -> bool): int {
    Unsigned(b, 63) - if b(63) then Pow2(63) else 0
  }

  // ----- the operators, bit by bit -----

  function Bits(x: int): nat -> bool { (k: nat) => Bit(x, k) }
  function AndBits(x: int, y: int): nat -> bool { (k: nat) => Bit(x, k) && Bit(y, k) }
  function OrBits(x: int, y: int): nat -> bool { (k: nat) => Bit(x, k) || Bit(y, k) }
  function XorBits(x: int, y: int): nat -> bool { (k: nat) => Bit(x, k) != Bit(y, k) }
  function NotBits(x: int): nat -> bool { (k: nat) => !Bit(x, k) }

  /** Zeros come in from below. */
  function ShlBits(x: int, y: nat): nat -> bool { (k: nat) => k >= y && Bit(x, k - y) }

  /** The sign bit is repeated. */
  function ShrBits(x: int, y: nat): nat -> bool { (k: nat) => Bit(x, if k + y < 63 then k + y else 63) }

  function BitAndInt(x: int, y: int): int { Word(AndBits(x, y)) }
  function BitOrInt(x: int, y: int): int { Word(OrBits(x, y)) }
  function BitXorInt(x: int, y: int): int { Word(XorBits(x, y)) }
  function BitNotInt(x: int): int { Word(NotBits(x)) }
  function ShlInt(x: int, y: nat): int { Word(ShlBits(x, y)) }
  function ShrInt(x: int, y: nat): int { Word(ShrBits(x, y)) }

  // ----- bits and numbers -----

  lemma {:induction false} PowAdd(m: nat, n: nat)
    ensures Pow2(m + n) == Pow2(m) * Pow2(n)
    decreases n
  {
    if n > 0 {
      PowAdd(m, n - 1);
      assert Pow2(m + n) == 2 * Pow2(m + (n - 1));
      assert Pow2(m) * (2 * Pow2(n - 1)) == 2 * (Pow2(m) * Pow2(n - 1));
    }
  }

  /** One more bit. */
  lemma TopBit(x: int, n: nat)
    ensures x % Pow2(n + 1) == x % Pow2(n) + if Bit(x, n) then Pow2(n) else 0
  {
    DivideByTwice(x, Pow2(n));
  }

  lemma DivideByTwice(x: int, p: int)
    requires p > 0
    ensures x % (2 * p) == x % p + if x / p % 2 == 1 then p else 0
  {
    var q, r := x / p, x % p;
    var h, b := q / 2, q % 2;
    assert x == p * q + r;
    assert q == 2 * h + b;
    assert p * (2 * h + b) == (2 * p) * h + p * b;
    assert b == 0 || b == 1;
    DivideBy(x, 2 * p, h, p * b + r);
  }

  lemma {:induction false} UnsignedOf(x: int, n: nat)
    ensures Unsigned(Bits(x), n) == x % Pow2(n)
    decreases n
  {
    hide Bit;
    if n > 0 {
      UnsignedOf(x, n - 1);
      TopBit(x, n - 1);
    }
  }

  lemma {:induction false} SameBits(a: nat -> bool, b: nat -> bool, n: nat)
    requires forall k: nat :: k < n ==> a(k) == b(k)
    ensures Unsigned(a, n) == Unsigned(b, n)
    decreases n
  {
    if n > 0 {
      SameBits(a, b, n - 1);
    }
  }

  lemma {:induction false} UnsignedBelow(b: nat -> bool, n: nat)
    ensures Unsigned(b, n) < Pow2(n)
    decreases n
  {
    if n > 0 {
      UnsignedBelow(b, n - 1);
    }
  }

  /** A number has one sequence of bits. */
  lemma {:induction false} BitsAreUnique(a: nat -> bool, b: nat -> bool, n: nat, k: nat)
    requires k < n && Unsigned(a, n) == Unsigned(b, n)
    ensures a(k) == b(k)
    decreases n
  {
    UnsignedBelow(a, n - 1);
    UnsignedBelow(b, n - 1);
    if k < n - 1 {
      BitsAreUnique(a, b, n - 1, k);
    }
  }

  lemma PowSum(m: nat, n: nat, a: nat, b: nat)
    requires Pow2(m) == a && Pow2(n) == b
    ensures Pow2(m + n) == a * b
  {
    PowAdd(m, n);
  }

  lemma Pow63()
    ensures Pow2(63) == 0x8000_0000_0000_0000
  {
    PowSum(7, 7, 0x80, 0x80);
    PowSum(14, 14, 0x4000, 0x4000);
    PowSum(28, 28, 0x1000_0000, 0x1000_0000);
    PowSum(56, 7, 0x100_0000_0000_0000, 0x80);
  }

  // ----- words and integers -----

  /** A word fits 64 bits, and its bits are the given ones. */
  lemma WordBits(b: nat -> bool, k: nat)
    ensures InI64(Word(b)) && (k < 64 ==> Bit(Word(b), k) == b(k))
  {
    hide Bit;
    Pow63();
    UnsignedBelow(b, 63);
    var x := Word(b);
    assert Unsigned(b, 64) == Unsigned(b, 63) + if b(63) then Pow2(63) else 0;
    UnsignedBelow(b, 64);
    DivideBy(x, Pow2(64), if b(63) then -1 else 0, Unsigned(b, 64));
    UnsignedOf(x, 64);
    if k < 64 {
      BitsAreUnique(Bits(x), b, 64, k);
    }
  }

  /** The word with an integer's bits is that integer modulo 2^64. */
  lemma WordWraps(x: int)
    ensures var r := Word(Bits(x)); InI64(r) && (r - x) % 0x1_0000_0000_0000_0000 == 0
  {
    hide Bit;
    Pow63();
    var b := Bits(x);
    WordBits(b, 0);
    UnsignedOf(x, 63);
    TopBit(x, 63);
    var p := Pow2(64);
    var n := if b(63) then -1 else 0;
    assert Word(b) == x % p + p * n;
    assert Word(b) - x == p * (n - x / p);
    DivideBy(Word(b) - x, p, n - x / p, 0);
  }

  lemma SameWord(a: nat -> bool, b: nat -> bool)
    requires forall k: nat :: k < 64 ==> a(k) == b(k)
    ensures Word(a) == Word(b)
  {
    SameBits(a, b, 63);
  }

  lemma OwnBits(x: int)
    requires InI64(x)
    ensures Word(Bits(x)) == x
  {
    hide Bit, Word;
    WordWraps(x);
    var d := Word(Bits(x)) - x;
    assert -0x1_0000_0000_0000_0000 < d < 0x1_0000_0000_0000_0000;
  }

  // ----- what the operators compute -----

  /** `&`, `|` and `^` combine each bit with its counterpart and nothing else. */
  lemma BitwiseIsBitByBit(x: int, y: int, k: nat)
    requires k < 64
    ensures Bit(BitAndInt(x, y), k) <==> Bit(x, k) && Bit(y, k)
    ensures Bit(BitOrInt(x, y), k) <==> Bit(x, k) || Bit(y, k)
    ensures Bit(BitXorInt(x, y), k) <==> Bit(x, k) != Bit(y, k)
    ensures InI64(BitAndInt(x, y)) && InI64(BitOrInt(x, y)) && InI64(BitXorInt(x, y))
  {
    hide Bit, Word;
    WordBits(AndBits(x, y), k);
    WordBits(OrBits(x, y), k);
    WordBits(XorBits(x, y), k);
  }

  /** Turning every bit over negates and takes one away. */
  lemma NotNegates(x: int)
    requires InI64(x)
    ensures BitNotInt(x) == -x - 1
  {
    hide Word;
    forall k: nat | k < 64 ensures !Bit(x, k) == Bit(-x - 1, k) {
      NotFlips(x, k);
    }
    SameWord(NotBits(x), Bits(-x - 1));
    OwnBits(-x - 1);
  }

  lemma NotFlips(x: int, k: nat)
    ensures Bit(-x - 1, k) == !Bit(x, k)
  {
    var p := Pow2(k);
    var q, r := x / p, x % p;
    assert p * (-q - 1) == -(p * q) - p;
    DivideBy(-x - 1, p, -q - 1, p - 1 - r);
  }

  /** A right shift divides by a power of two and rounds down. */
  lemma ShrDivides(x: int, y: nat)
    requires InI64(x) && y < 64
    ensures ShrInt(x, y) == x / Pow2(y)
  {
    hide Word, Bit;
    var z := x / Pow2(y);
    forall k: nat | k < 64 ensures Bit(x, if k + y < 63 then k + y else 63) == Bit(z, k) {
      if k + y >= 63 {
        SignRepeats(x, k + y);
        SignRepeats(x, 63);
      }
      HigherBit(x, y, k);
    }
    SameWord(ShrBits(x, y), Bits(z));
    QuotientInRange(x, Pow2(y));
    OwnBits(z);
  }

  lemma QuotientInRange(x: int, p: int)
    requires InI64(x) && p > 0
    ensures InI64(x / p)
  {
    var q, r := x / p, x % p;
    assert x == p * q + r;
    Grows(p, q);
  }

  lemma Grows(p: int, q: int)
    requires p > 0
    ensures q >= 0 ==> p * q >= q
    ensures q < 0 ==> p * q <= q - (p - 1)
  {
    if q >= 0 {
      assert p * q == q + (p - 1) * q && (p - 1) * q >= 0;
    } else {
      assert p * q == q - (p - 1) - (p - 1) * (-q - 1) && (p - 1) * (-q - 1) >= 0;
    }
  }

  /** From the sign bit on all bits are alike. */
  lemma SignRepeats(x: int, k: nat)
    requires InI64(x) && k >= 63
    ensures Bit(x, k) <==> x < 0
  {
    Pow63();
    PowAdd(63, k - 63);
    var p := Pow2(k);
    assert p >= Pow2(63);
    DivideBy(x, p, if x < 0 then -1 else 0, if x < 0 then x + p else x);
  }

  lemma HigherBit(x: int, y: nat, k: nat)
    ensures Bit(x / Pow2(y), k) == Bit(x, k + y)
  {
    hide Pow2;
    PowAdd(k, y);
    DivideTwice(x, Pow2(y), Pow2(k));
  }

  lemma DivideTwice(x: int, p: int, m: int)
    requires p > 0 && m > 0
    ensures m * p > 0 && x / (m * p) == x / p / m
  {
    var q, r := x / p, x % p;
    var u, v := q / m, q % m;
    assert x == p * q + r;
    assert q == m * u + v;
    assert p * (m * u + v) == (m * p) * u + p * v;
    Scaled(p, v, m);
    DivideBy(x, m * p, u, p * v + r);
  }

  lemma Scaled(p: int, v: int, m: int)
    requires p > 0 && 0 <= v < m
    ensures 0 <= p * v <= m * p - p
  {
    Grows(p, v);
    Grows(p, m - 1 - v);
    assert p * (m - 1 - v) == m * p - p - p * v;
  }

  /** A left shift multiplies by a power of two, modulo 2^64. */
  lemma ShlMultiplies(x: int, y: nat)
    requires y < 64
    ensures InI64(ShlInt(x, y)) && (ShlInt(x, y) - x * Pow2(y)) % 0x1_0000_0000_0000_0000 == 0
  {
    hide Word, Bit;
    var z := x * Pow2(y);
    forall k: nat | k < 64 ensures (k >= y && Bit(x, k - y)) == Bit(z, k) {
      if k >= y {
        LiftedBit(x, y, k - y);
      } else {
        LowBit(x, y, k);
      }
    }
    SameWord(ShlBits(x, y), Bits(z));
    WordWraps(z);
  }

  lemma LiftedBit(x: int, y: nat, k: nat)
    ensures Bit(x * Pow2(y), k + y) == Bit(x, k)
  {
    DivideBy(x * Pow2(y), Pow2(y), x, 0);
    HigherBit(x * Pow2(y), y, k);
  }

  lemma LowBit(x: int, y: nat, k: nat)
    requires k < y
    ensures !Bit(x * Pow2(y), k)
  {
    var m, h := Pow2(k), Pow2(y - k - 1);
    PowAdd(k + 1, y - k - 1);
    assert Pow2(y) == (2 * m) * h;
    assert x * ((2 * m) * h) == m * (2 * (x * h));
    DivideBy(x * Pow2(y), m, 2 * (x * h), 0);
  }
}
