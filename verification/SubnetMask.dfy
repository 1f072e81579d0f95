/** Subnet masks and prefix lengths, from counts of leading ones and trailing zeros. */
module SubnetMasks {
  import opened Common

  /** Ones at the top of the `w`-bit value `m`. */
  function LeadingOnes(m: nat, w: nat): nat {
    if w == 0 || m < Pow2(w - 1) then 0 else 1 + LeadingOnes(m - Pow2(w - 1), w - 1)
  }

  /** Zeros at the bottom of the `w`-bit value `m`. */
  function TrailingZeros(m: nat, w: nat): nat {
    if w == 0 || m % 2 == 1 then 0 else 1 + TrailingZeros(m / 2, w - 1)
  }

  /** The prefix length of a contiguous mask; nothing for any other mask. */
  function MaskToPrefixLen(mask: u32): Option<nat> {
    if LeadingOnes(mask, 32) + TrailingZeros(mask, 32) != 32 then None else Some(LeadingOnes(mask, 32))
  }

  /** The `w`-bit value with its top `w - zeros` bits set. */
  function Contiguous(w: nat, zeros: nat): nat
    requires zeros <= w
  {
    Pow2Grows(zeros, w);
    Pow2(w) - Pow2(zeros)
  }

  lemma {:induction false} Pow2Grows(a: nat, b: nat)
    requires a <= b
    ensures Pow2(a) <= Pow2(b)
    decreases b - a
  {
    if a < b {
      Pow2Grows(a, b - 1);
    }
  }

  /** A zero at the bottom is not among the leading ones. */
  lemma {:induction false} DropBottomZero(m: nat, w: nat)
    requires 0 < w && m < Pow2(w) && m % 2 == 0
    ensures LeadingOnes(m, w) == LeadingOnes(m / 2, w - 1)
    decreases w
  {
    if w > 1 && m >= Pow2(w - 1) {
      assert Pow2(w - 1) == 2 * Pow2(w - 2);
      DropBottomZero(m - Pow2(w - 1), w - 1);
      assert (m - Pow2(w - 1)) / 2 == m / 2 - Pow2(w - 2);
    }
  }

  lemma {:induction false} AllOnes(m: nat, w: nat)
    requires m < Pow2(w)
    ensures LeadingOnes(m, w) == w <==> m == Pow2(w) - 1
    ensures LeadingOnes(m, w) <= w
  {
    if w > 0 && m >= Pow2(w - 1) {
      AllOnes(m - Pow2(w - 1), w - 1);
    }
  }

  /** The counts add up to the width exactly for the contiguous values. */
  lemma {:induction false} CountsMeetIffContiguous(m: nat, w: nat, zeros: nat)
    requires m < Pow2(w) && zeros <= w
    ensures LeadingOnes(m, w) == w - zeros && TrailingZeros(m, w) == zeros <==> m == Contiguous(w, zeros)
    decreases w
  {
    AllOnes(m, w);
    if w > 0 {
      Pow2Grows(zeros, w);
      if m % 2 == 1 {
        if zeros > 0 {
          assert Contiguous(w, zeros) == 2 * (Pow2(w - 1) - Pow2(zeros - 1));
        }
      } else {
        DropBottomZero(m, w);
        if zeros > 0 {
          CountsMeetIffContiguous(m / 2, w - 1, zeros - 1);
          assert Contiguous(w, zeros) == 2 * Contiguous(w - 1, zeros - 1);
        }
      }
    }
  }

  /** The mask of a prefix length: 2^32 - 2^(32-p). */
  function MaskOf(p: nat): int
    requires p <= 32
  {
    U32_SIZE - Pow2(32 - p)
  }

  /** A mask has prefix length `p` exactly when it is 2^32 - 2^(32-p). */
  lemma PrefixLenInvertsMask(mask: u32, p: nat)
    requires p <= 32
    ensures MaskToPrefixLen(mask) == Some(p) <==> mask == MaskOf(p)
  {
    Pow2At32();
    CountsMeetIffContiguous(mask, 32, 32 - p);
  }

  /** A mask is refused exactly when it is no prefix length's mask. */
  lemma RefusedIffNotContiguous(mask: u32)
    ensures MaskToPrefixLen(mask).None? <==> forall p: nat | p <= 32 :: mask != MaskOf(p)
    ensures MaskToPrefixLen(mask).Some? ==> MaskToPrefixLen(mask).value <= 32
  {
    Pow2At32();
    AllOnes(mask, 32);
    forall p: nat | p <= 32
      ensures MaskToPrefixLen(mask) == Some(p) <==> mask == MaskOf(p)
    {
      PrefixLenInvertsMask(mask, p);
    }
  }
}
