/** 32-bit occupancy bitmaps, numbered from the left as the allocator does. */
module Bitmap {
  import opened Bits
  import opened SizeClasses

  const WORD32_MAX: nat := 0xffff_ffff

  function Mask(s: nat): nat
    requires s < 32
  {
    Shl(1, 31 - s)
  }

  function Set(v: nat, s: nat): nat
    requires s < 32
  {
    Or(v, Mask(s))
  }

  function Clear(v: nat, s: nat): nat
    requires s < 32
  {
    MaskIsPow2(s);
    And(v, Not(32, Mask(s)))
  }

  /** Position s (from the left) is occupied. */
  predicate Has(v: nat, s: nat)
    requires s < 32
  {
    Bit(v, 31 - s)
  }

  lemma MaskIsPow2(s: nat)
    requires s < 32
    ensures Mask(s) == Pow2(31 - s) < Pow2(32)
  {
    ShlIsMul(1, 31 - s);
    Pow2Mono(31 - s, 31);
    assert Pow2(31) < Pow2(32);
  }

  lemma SetHas(v: nat, s: nat, t: nat)
    requires s < 32 && t < 32 && v <= WORD32_MAX
    ensures Set(v, s) <= WORD32_MAX
    ensures Has(Set(v, s), t) <==> s == t || Has(v, t)
  {
    hide Or, Shl, Bit, Pow2;
    assert Pow2(32) == WORD32_MAX + 1 by { Pow2Of32(); }
    MaskIsPow2(s);
    BitOfOr(v, Mask(s), 31 - t);
    BitOfPow2(31 - s, 31 - t);
    OrBelow(v, Mask(s), 32);
  }

  lemma ClearHas(v: nat, s: nat, t: nat)
    requires s < 32 && t < 32 && v <= WORD32_MAX
    ensures Clear(v, s) <= WORD32_MAX
    ensures Has(Clear(v, s), t) <==> s != t && Has(v, t)
  {
    hide And, Shl, Bit, Pow2;
    MaskIsPow2(s);
    BitOfAnd(v, Not(32, Mask(s)), 31 - t);
    BitOfNot(32, Mask(s), 31 - t);
    BitOfPow2(31 - s, 31 - t);
  }

  lemma Pow2Of32()
    ensures Pow2(32) == WORD32_MAX + 1
  {
    Pow2Lits();
  }

  /** A bitmap word is zero exactly when no position is occupied. */
  lemma ZeroIffNone(v: nat)
    requires v <= WORD32_MAX
    ensures v == 0 <==> forall s: nat :: s < 32 ==> !Has(v, s)
  {
    hide Bit, Pow2;
    Pow2Of32();
    if v == 0 {
      forall s: nat | s < 32 ensures !Has(v, s) {
        BitOfZero(31 - s);
      }
    } else {
      var i := SomeBit(v, 32);
      assert Has(v, 31 - i);
    }
  }

  /** The scan: mask off the first `skip` positions, then locate the leftmost one bit; 32 when none. */
  function FindLeftmost(v: nat, skip: nat): (r: int)
    requires v <= WORD32_MAX && skip < 32
  {
    31 - Log2(And(v, Shr(WORD32_MAX, skip)))
  }

  lemma {:induction false} ShrOfOnes(width: nat, k: nat)
    requires k <= width
    ensures Shr(Pow2(width) - 1, k) == Pow2(width - k) - 1
    decreases k
  {
    if k == 0 {
    } else {
      assert (Pow2(width) - 1) / 2 == Pow2(width - 1) - 1;
      ShrOfOnes(width - 1, k - 1);
    }
  }

  /** The scan returns the first occupied position from `skip` on, or 32 when there is none. */
  lemma FindLeftmostIsFirst(v: nat, skip: nat)
    requires v <= WORD32_MAX && skip < 32
    ensures var r := FindLeftmost(v, skip);
      && skip <= r <= 32
      && (r < 32 ==> Has(v, r))
      && forall s: nat :: skip <= s < 32 && s < r ==> !Has(v, s)
  {
    hide And, Shr, Bit, Pow2, Log2, Low, IsTopBit;
    Pow2Of32();
    ShrOfOnes(32, skip);
    AndLow(v, 32 - skip);
    var w := Low(v, 32 - skip);
    var top := Log2(w);
    if top == -1 {
      forall s: nat | skip <= s < 32 ensures !Has(v, s) {
        BitOfLow(v, 32 - skip, 31 - s);
        BitOfZero(31 - s);
      }
    } else {
      TopBit(w, top);
      BitOfLow(v, 32 - skip, top);
      forall s: nat | skip <= s < 32 && s < 31 - top ensures !Has(v, s) {
        BitOfLow(v, 32 - skip, 31 - s);
      }
    }
  }
}
