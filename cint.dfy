/**
 * The C integer widths and operators the driver relies on: the fixed-width
 * types of its signatures, the conversions that wrap a value into an
 * unsigned type, and C's `/`, which truncates toward zero where Dafny's
 * `/` on `int` is Euclidean.
 */
module CInt {

  type Int8 = x: int | -128 <= x < 128
  type UInt8 = x: int | 0 <= x < 256
  type UInt16 = x: int | 0 <= x < 65536

  const Int32Min: int := -0x8000_0000
  const Int32Max: int := 0x7FFF_FFFF

  predicate InInt32(v: int) { Int32Min <= v <= Int32Max }

  /** Conversion of any integer to `uint8_t`: reduction modulo 2^8. */
  function WrapU8(v: int): (r: UInt8)
    ensures (v - r) % 256 == 0
    ensures 0 <= v < 256 ==> r == v
  {
    v % 256
  }

  /** Conversion of any integer to `uint16_t`: reduction modulo 2^16. */
  function WrapU16(v: int): (r: UInt16)
    ensures (v - r) % 65536 == 0
    ensures 0 <= v < 65536 ==> r == v
  {
    v % 65536
  }

  /** C's integer division, which rounds the quotient toward zero (`TruncDivBounds`, `TruncDivFromEuclid`). */
  function TruncDiv(a: int, b: int): int
    requires b > 0
  {
    if a >= 0 then a / b else -((-a) / b)
  }

  /** Euclidean division of a non-negative dividend: `b * (n / b)` is the largest multiple of `b` not above `n`. */
  lemma DivBounds(n: int, b: int)
    requires n >= 0 && b > 0
    ensures 0 <= n / b && 0 <= (n / b) * b <= n < (n / b) * b + b
  {
    var q, r := n / b, n % b;
    assert n == q * b + r && 0 <= r < b;
    assert (q + 1) * b > 0;
  }

  /** The quotient is the largest multiple of `b` no further from zero than `a`, with `a`'s sign. */
  lemma TruncDivBounds(a: int, b: int)
    requires b > 0
    ensures a >= 0 ==> 0 <= TruncDiv(a, b) * b <= a < TruncDiv(a, b) * b + b
    ensures a < 0 ==> TruncDiv(a, b) * b - b < a <= TruncDiv(a, b) * b <= 0
  {
    if a >= 0 {
      DivBounds(a, b);
    } else {
      DivBounds(-a, b);
      var q := (-a) / b;
      assert TruncDiv(a, b) == -q;
      assert -q * b == -(q * b);
    }
  }

  /** Truncation is symmetric about zero, unlike Euclidean division. */
  lemma TruncDivOdd(a: int, b: int)
    requires b > 0
    ensures TruncDiv(-a, b) == -TruncDiv(a, b)
  {
  }

  /** A positive multiple of at least one `b` is at least `b`. */
  lemma MulAtLeastOne(d: int, b: int)
    requires d >= 1 && b > 0
    ensures d * b >= b
  {
    assert d * b == (d - 1) * b + b;
  }

  /** `k` and `r` are the Euclidean quotient and remainder of `a` by `b` as soon as `a == k * b + r` with `0 <= r < b`. */
  lemma DivUnique(a: int, b: int, k: int, r: int)
    requires b > 0 && a == k * b + r && 0 <= r < b
    ensures a / b == k && a % b == r
  {
    var q, m := a / b, a % b;
    assert a == q * b + m && 0 <= m < b;
    assert (q - k) * b == r - m;
    if q > k {
      MulAtLeastOne(q - k, b);
    } else if q < k {
      MulAtLeastOne(k - q, b);
    }
  }

  /**
   * C's `/` against Euclidean `/`: the two agree on non-negative dividends
   * and on exact quotients; on a negative dividend with a remainder, C's
   * quotient is one more (nearer zero).
   */
  lemma TruncDivFromEuclid(a: int, b: int)
    requires b > 0
    ensures a >= 0 || a % b == 0 ==> TruncDiv(a, b) == a / b
    ensures a < 0 && a % b != 0 ==> TruncDiv(a, b) == a / b + 1
  {
    if a < 0 {
      var q, r := (-a) / b, (-a) % b;
      assert -a == q * b + r && 0 <= r < b;
      if r == 0 {
        DivUnique(a, b, -q, 0);
      } else {
        DivUnique(a, b, -q - 1, b - r);
      }
    }
  }
}
