/** Bit lengths of natural numbers. */
module Bits {
  import opened Powers

  /** A condition as a number. */
  function Bit(b: bool): nat {
    if b then 1 else 0
  }

  /** The number of bits needed to write `n`. */
  function BitLen(n: nat): nat {
    if n == 0 then 0 else 1 + BitLen(n / 2)
  }

  /** The bit length brackets the number between powers of two. */
  lemma {:induction false} BitLenBounds(n: nat)
    ensures n < Pow(2, BitLen(n))
    ensures n > 0 ==> BitLen(n) > 0 && Pow(2, BitLen(n) - 1) <= n
  {
    if n > 0 {
      BitLenBounds(n / 2);
      if n / 2 > 0 {
        assert n >= 2 * (n / 2) && n < 2 * (n / 2) + 2;
      }
    }
  }

  /** ... and is the only number that does. */
  lemma BitLenIs(n: nat, k: nat)
    requires k > 0 && Pow(2, k - 1) <= n < Pow(2, k)
    ensures BitLen(n) == k
  {
    BitLenBounds(n);
    if BitLen(n) < k {
      PowMonotone(2, BitLen(n), k - 1);
    } else if BitLen(n) > k {
      PowMonotone(2, k, BitLen(n) - 1);
    }
  }
}
