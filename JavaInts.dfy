/** Java's fixed-width integer arithmetic (sections 4.2.2, 15.17.1, 15.17.2 and
    15.17.3 of the Java Language Specification) written out over Dafny's
    unbounded integers, whose own `/` and `%` are Euclidean. */
module JavaInts {

  const MIN_INT: int := -0x8000_0000
  const MAX_INT: int := 0x7FFF_FFFF
  const MIN_LONG: int := -0x8000_0000_0000_0000
  const MAX_LONG: int := 0x7FFF_FFFF_FFFF_FFFF
  const INT_MODULUS: int := 0x1_0000_0000
  const LONG_MODULUS: int := 0x1_0000_0000_0000_0000

  /** Java `int`. */
  type Int32 = x: int | MIN_INT <= x <= MAX_INT
  /** Java `long`. */
  type Int64 = x: int | MIN_LONG <= x <= MAX_LONG
  /** Java `short`. */
  type Int16 = x: int | -0x8000 <= x <= 0x7FFF

  function Abs(x: int): nat {
    if x < 0 then -x else x
  }

  /** Two's-complement wrap-around to 32 bits: the `int` congruent to `x`. */
  function Wrap32(x: int): (r: Int32)
    ensures (r - x) % INT_MODULUS == 0
    ensures MIN_INT <= x <= MAX_INT ==> r == x
  {
    var k := (x - MIN_INT) / INT_MODULUS;
    assert x - MIN_INT == k * INT_MODULUS + (x - MIN_INT) % INT_MODULUS;
    assert (x - MIN_INT) % INT_MODULUS + MIN_INT - x == -k * INT_MODULUS;
    (x - MIN_INT) % INT_MODULUS + MIN_INT
  }

  /** Two's-complement wrap-around to 64 bits: the `long` congruent to `x`. */
  function Wrap64(x: int): (r: Int64)
    ensures (r - x) % LONG_MODULUS == 0
    ensures MIN_LONG <= x <= MAX_LONG ==> r == x
  {
    var k := (x - MIN_LONG) / LONG_MODULUS;
    assert x - MIN_LONG == k * LONG_MODULUS + (x - MIN_LONG) % LONG_MODULUS;
    assert (x - MIN_LONG) % LONG_MODULUS + MIN_LONG - x == -k * LONG_MODULUS;
    (x - MIN_LONG) % LONG_MODULUS + MIN_LONG
  }

  /** Two 64-bit values congruent modulo 2^64 are the same value, so `Wrap64`
      is the only possible result of a wrapping operation. */
  lemma Wrap64Unique(a: Int64, b: Int64)
    requires (a - b) % LONG_MODULUS == 0
    ensures a == b
  {
  }

  /** `Wrap64(x)` is the one `long` congruent to `x` modulo 2^64. */
  lemma Wrap64Exact(x: int, y: Int64)
    requires (y - x) % LONG_MODULUS == 0
    ensures Wrap64(x) == y
  {
    var r := Wrap64(x);
    var k1 := (r - x) / LONG_MODULUS;
    var k2 := (y - x) / LONG_MODULUS;
    assert r - y == (k1 - k2) * LONG_MODULUS;
    Wrap64Unique(r, y);
  }

  /** Integer division rounding toward zero (mathematical, before overflow). */
  function TruncDiv(a: int, b: int): int
    requires b != 0
  {
    var q := Abs(a) / Abs(b);
    if (a < 0) == (b < 0) then q else -q
  }

  /** The remainder that goes with `TruncDiv`: it takes the sign of the dividend. */
  function TruncRem(a: int, b: int): int
    requires b != 0
  {
    var r := Abs(a) % Abs(b);
    if a < 0 then -r else r
  }

  /** Section 15.17.3 of the Java Language Specification: `(a/b)*b+(a%b) == a`,
      the remainder is smaller than the divisor in magnitude and is zero or has
      the sign of the dividend, and the quotient rounds toward zero. */
  lemma TruncDivRem(a: int, b: int)
    requires b != 0
    ensures TruncDiv(a, b) * b + TruncRem(a, b) == a
    ensures Abs(TruncRem(a, b)) < Abs(b)
    ensures TruncRem(a, b) == 0 || (TruncRem(a, b) < 0 <==> a < 0)
    ensures Abs(TruncDiv(a, b) * b) <= Abs(a)
  {
    var aa: int, bb: int := Abs(a), Abs(b);
    DivMod(aa, bb);
    MulNonNegative(aa / bb, bb);
    SignedQuotientProduct(a, b);
  }

  /** The truncated quotient times the divisor is the magnitude-wise product,
      carrying the dividend's sign. */
  lemma SignedQuotientProduct(a: int, b: int)
    requires b != 0
    ensures TruncDiv(a, b) * b == if a < 0 then -(Abs(a) / Abs(b) * Abs(b)) else Abs(a) / Abs(b) * Abs(b)
  {
    var q: int, bb: int := Abs(a) / Abs(b), Abs(b);
    NegatedProduct(q, bb);
    if a < 0 && b < 0 {
      assert TruncDiv(a, b) == q && b == -bb;
    } else if a < 0 {
      assert TruncDiv(a, b) == -q && b == bb;
    } else if b < 0 {
      assert TruncDiv(a, b) == -q && b == -bb;
    } else {
      assert TruncDiv(a, b) == q && b == bb;
    }
  }

  lemma DivMod(x: int, y: int)
    requires x >= 0 && y > 0
    ensures x == (x / y) * y + x % y && 0 <= x % y < y
  {
  }

  lemma MulNonNegative(x: nat, y: nat)
    ensures x * y >= 0
  {
  }

  lemma NegatedProduct(x: int, y: int)
    ensures (-x) * y == -(x * y) && x * (-y) == -(x * y) && (-x) * (-y) == x * y
  {
  }

  /** Java `int` division `a / b` (section 15.17.2): truncation toward zero;
      the single overflow, `MIN_INT / -1`, wraps to `MIN_INT`. */
  function IntDiv(a: Int32, b: Int32): (r: Int32)
    requires b != 0
    ensures !(a == MIN_INT && b == -1) ==> r == TruncDiv(a, b)
    ensures a == MIN_INT && b == -1 ==> r == MIN_INT
  {
    TruncDivFits(a, b);
    Wrap32(TruncDiv(a, b))
  }

  /** Java `int` remainder `a % b` (section 15.17.3); it never overflows. */
  function IntRem(a: Int32, b: Int32): (r: Int32)
    requires b != 0
    ensures Abs(r) < Abs(b)
    ensures r == 0 || (r < 0 <==> a < 0)
    ensures !(a == MIN_INT && b == -1) ==> IntDiv(a, b) * b + r == a
    ensures a == MIN_INT && b == -1 ==> r == 0
  {
    TruncDivRem(a, b);
    TruncRem(a, b)
  }

  /** Java `long` multiplication `a * b` (section 15.17.1): the low 64 bits
      of the exact product in two's complement. */
  function LongMul(a: Int64, b: Int64): (r: Int64)
    ensures (r - a * b) % LONG_MODULUS == 0
    ensures MIN_LONG <= a * b <= MAX_LONG ==> r == a * b
  {
    Wrap64(a * b)
  }

  /** The truncated quotient of two `int`s is an `int`, except `MIN_INT / -1`. */
  lemma TruncDivFits(a: Int32, b: Int32)
    requires b != 0
    ensures !(a == MIN_INT && b == -1) ==> MIN_INT <= TruncDiv(a, b) <= MAX_INT
    ensures a == MIN_INT && b == -1 ==> TruncDiv(a, b) == -MIN_INT
  {
    var aa, bb := Abs(a), Abs(b);
    var q := aa / bb;
    assert q <= aa by { DivBound(aa, bb); }
    if bb == 1 {
      assert q == aa;
    } else {
      assert q * 2 <= aa by { DivBound(aa, bb); }
    }
  }

  lemma DivBound(x: nat, y: nat)
    requires y > 0
    ensures x / y <= x
    ensures y >= 2 ==> (x / y) * 2 <= x
  {
    var q := x / y;
    assert q * y <= x;
    if y >= 2 {
      assert q * 2 <= q * y;
    } else {
      assert q == x;
    }
  }
}
