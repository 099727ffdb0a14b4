/**
  Integer bit flags, as read from quality-assessment bands.

  `BitAnd` is the raster service's `bitwiseAnd` on non-negative integers,
  computed bit by bit; `TestBit` is the independent reading of one bit.
  `BitAndPow2` connects the two: and-ing with `1 << k` isolates bit k.
 */
module Bits {

  /** 2 to the power k, i.e. `1 << k`. */
  function Pow2(k: nat): (p: nat)
    ensures p >= 1
  {
    if k == 0 then 1 else 2 * Pow2(k - 1)
  }

  /** Bit k of q, bit 0 being the least significant. */
  predicate TestBit(q: nat, k: nat)
  {
    if k == 0 then q % 2 == 1 else TestBit(q / 2, k - 1)
  }

  /** Bitwise AND of two non-negative integers. */
  function BitAnd(a: nat, b: nat): nat
  {
    if a == 0 || b == 0 then 0
    else 2 * BitAnd(a / 2, b / 2) + (if a % 2 == 1 && b % 2 == 1 then 1 else 0)
  }

  lemma {:induction false} NoBitsInZero(k: nat)
    ensures !TestBit(0, k)
  {
    if k > 0 {
      NoBitsInZero(k - 1);
    }
  }

  /** And-ing with the single-bit mask `1 << k` yields that mask when bit k is set and 0 otherwise. */
  lemma {:induction false} BitAndPow2(q: nat, k: nat)
    ensures BitAnd(q, Pow2(k)) == if TestBit(q, k) then Pow2(k) else 0
  {
    if k == 0 {
      assert BitAnd(q / 2, 0) == 0;
    } else if q == 0 {
      NoBitsInZero(k);
    } else {
      assert Pow2(k) % 2 == 0 && Pow2(k) / 2 == Pow2(k - 1);
      BitAndPow2(q / 2, k - 1);
    }
  }

  /** So `bitwiseAnd(1 << k) == 0` reads "bit k is clear". */
  lemma MaskTestIsBitTest(q: nat, k: nat)
    ensures (BitAnd(q, Pow2(k)) == 0) <==> !TestBit(q, k)
  {
    BitAndPow2(q, k);
  }

  /**
    Setting a clear bit j (adding `1 << j`) sets bit j and leaves every
    other bit as it was.
   */
  lemma {:induction false} SetBitKeepsOthers(q: nat, j: nat, k: nat)
    requires !TestBit(q, j)
    ensures TestBit(q + Pow2(j), j)
    ensures k != j ==> TestBit(q + Pow2(j), k) == TestBit(q, k)
  {
    if j == 0 {
      if k > 0 {
        assert (q + 1) / 2 == q / 2;
      }
    } else {
      assert Pow2(j) == 2 * Pow2(j - 1);
      assert (q + Pow2(j)) / 2 == q / 2 + Pow2(j - 1);
      assert (q + Pow2(j)) % 2 == q % 2;
      if k == 0 {
      } else {
        SetBitKeepsOthers(q / 2, j - 1, k - 1);
      }
      SetBitKeepsOthers(q / 2, j - 1, j - 1);
    }
  }
}
