/**
 Fixed-point decimals with eight fractional digits: the arithmetic of `agg::util::Decimal`.

 The value is a 64-bit integer scaled by 10^8. A product is formed in a wider type, truncated
 toward zero and cast back; a sum that leaves the 64-bit range is reduced modulo 2^64.
 */
module Decimals {

  const SCALE: nat := 8
  const SCALE_FACTOR: nat := 100_000_000
  const MAX64: int := 0x7FFF_FFFF_FFFF_FFFF
  const TWO63: int := 0x8000_0000_0000_0000
  const TWO64: int := 0x1_0000_0000_0000_0000

  type Int64 = x: int | -0x8000_0000_0000_0000 <= x < 0x8000_0000_0000_0000

  // ---------------------------------------------------------------- arithmetic

  /** Two's complement reduction to 64 bits: what the cast to `std::int64_t` does. */
  function Wrap64(x: int): (r: Int64)
    ensures (r - x) % TWO64 == 0
    ensures -TWO63 <= x < TWO63 ==> r == x
  {
    (x + TWO63) % TWO64 - TWO63
  }

  /** Division as C++ does it: the quotient is truncated toward zero. */
  function TruncDiv(a: int, b: int): (q: int)
    requires b > 0
    ensures 0 <= a ==> b * q <= a < b * q + b
    ensures a <= 0 ==> b * q - b < a <= b * q
  {
    if a >= 0 then a / b else -((-a) / b)
  }

  function Times(lhs: Int64, rhs: Int64): Int64 {
    Wrap64(TruncDiv(lhs * rhs, SCALE_FACTOR))
  }

  function Plus(lhs: Int64, rhs: Int64): Int64 {
    Wrap64(lhs + rhs)
  }

  function Min(lhs: Int64, rhs: Int64): Int64 {
    if rhs < lhs then rhs else lhs
  }

  function Max(lhs: Int64, rhs: Int64): Int64 {
    if rhs > lhs then rhs else lhs
  }

  lemma Wrap64Absorbs(x: int, y: int)
    ensures Wrap64(Wrap64(x) + y) == Wrap64(x + y)
  {
  }

  lemma PlusAssociative(a: Int64, b: Int64, c: Int64)
    ensures Plus(Plus(a, b), c) == Plus(a, Plus(b, c))
  {
    hide Wrap64;
    Wrap64Absorbs(a + b, c);
    Wrap64Absorbs(b + c, a);
  }
}
