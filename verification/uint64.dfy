/**
 * Go's uint64 arithmetic, written out over unbounded integers.
 */
module Uint64 {
  const Modulus: int := 0x1_0000_0000_0000_0000
  const MaxValue: int := Modulus - 1

  type U64 = x: int | 0 <= x < Modulus

  /** `a - b` on uint64 operands: wraps around modulo 2^64. */
  function Sub(a: U64, b: U64): (r: U64)
    ensures b <= a ==> r == a - b
    ensures a < b ==> r == a - b + Modulus
  {
    (a - b) % Modulus
  }

  /**
   * `x.Uint64()` for a big.Int `x`: the low 64 bits of its magnitude
   * (the value Go's implementation produces when `x` does not fit).
   */
  function LowBits(x: int): (r: U64)
    ensures 0 <= x < Modulus ==> r == x
  {
    (if x < 0 then -x else x) % Modulus
  }
}
