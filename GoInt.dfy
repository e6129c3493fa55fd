/**
 * Go's 64-bit integer semantics, written out: the range of int64, two's
 * complement wrap-around of + and -, and division that truncates toward zero.
 */
module GoInt {

  const MinInt64: int := -0x8000_0000_0000_0000
  const MaxInt64: int := 0x7FFF_FFFF_FFFF_FFFF
  const TwoTo64: int := 0x1_0000_0000_0000_0000

  /** A Go int64 (also Go's int on the 64-bit platforms the program runs on). */
  type Int64 = x: int | MinInt64 <= x <= MaxInt64

  /** The int64 that Go produces for the mathematical value x (wrap-around modulo 2^64). */
  function Wrap64(x: int): (r: Int64)
    ensures MinInt64 <= x <= MaxInt64 ==> r == x
  {
    (x - MinInt64) % TwoTo64 + MinInt64
  }

  /** Wrap64 keeps the value modulo 2^64: it differs from x by a multiple of 2^64. */
  lemma Wrap64Congruent(x: int)
    ensures var k := (x - MinInt64) / TwoTo64; Wrap64(x) == x - k * TwoTo64
  {
  }

  /** Go's a / b for b > 0: the quotient truncated toward zero. */
  function TruncDiv(a: int, b: int): (q: int)
    requires b > 0
    ensures a >= 0 ==> 0 <= a - q * b < b
    ensures a < 0 ==> -b < a - q * b <= 0
  {
    if a >= 0 then a / b else -((-a) / b)
  }
}
