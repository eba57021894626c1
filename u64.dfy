/** Unsigned 64-bit arithmetic as C performs it on `uint64_t`. */
module U64 {

  const Modulus: int := 0x1_0000_0000_0000_0000

  type Uint64 = x: int | 0 <= x < Modulus

  /** C's `a - b` on two `uint64_t` operands: the difference taken modulo 2^64. */
  function Sub(a: Uint64, b: Uint64): (r: Uint64)
    ensures (r + b) % Modulus == a
    ensures a >= b ==> r == a - b
    ensures a < b ==> r == Modulus - (b - a)
  {
    if a >= b then a - b else a - b + Modulus
  }

  /** The wrapped difference agrees with the mathematical residue of `a - b`. */
  lemma SubIsResidue(a: Uint64, b: Uint64)
    ensures Sub(a, b) == (a - b) % Modulus
  {
  }
}
