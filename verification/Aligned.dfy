/** Explicit alignment: over-allocating so that a user pointer of any alignment and offset fits, with room before it
    for the two words that lead back to the underlying allocation. */
module Aligned {
  import opened Bits
  import opened SizeClasses
  import opened Words
  import opened Blocks
  import opened Tlsf

  const WRAPPER_BYTES: nat := 24    // aligned header and base pointer
  const MAX_ALIGN_LOG: nat := 31    // alignments are 32-bit

  /** Before the correction for the base's own alignment: the least size of at least the wrapper that is congruent
      to the offset. The subtraction and the rounding wrap when the offset exceeds the wrapper's size. */
  function LeastExtra(off: nat, align: nat): nat
    requires 1 <= align <= WORD64
  {
    (RoundUp((WRAPPER_BYTES - off) % WORD64, align) + off) % WORD64
  }

  /** How much more than the user's size to ask for. */
  function ExtraBytes(off: nat, align: nat, minimum: nat): nat
    requires 1 <= align <= WORD64
  {
    var extra := LeastExtra(off, align);
    if align > minimum then extra + (align - minimum) else extra
  }

  lemma LeastExtraIs(off: nat, k: nat)
    requires k <= MAX_ALIGN_LOG && off < Pow2(k)
    ensures Pow2(k) <= 0x1_0000_0000
    ensures var e := LeastExtra(off, Pow2(k)); WRAPPER_BYTES <= e < WRAPPER_BYTES + Pow2(k) && e % Pow2(k) == off
  {
    hide Pow2, And, RoundUp, LeastExtra;
    Pow2Lits();
    Pow2Mono(k, 32);
    if off <= WRAPPER_BYTES {
      NoWrap(off, k);
      PlusOffset(RoundUp(WRAPPER_BYTES - off, Pow2(k)), off, Pow2(k));
    } else {
      Wraps(off, k);
      ModSmall(off, Pow2(k));
    }
  }

  lemma NoWrap(off: nat, k: nat)
    requires off <= WRAPPER_BYTES && Pow2(k) <= 0x1_0000_0000 && k <= MAX_ALIGN_LOG && off < Pow2(k)
    ensures var r := RoundUp(WRAPPER_BYTES - off, Pow2(k));
      LeastExtra(off, Pow2(k)) == r + off && WRAPPER_BYTES - off <= r < WRAPPER_BYTES - off + Pow2(k)
          && r % Pow2(k) == 0
  {
    hide Pow2, And, RoundUp;
    RoundUpIs(WRAPPER_BYTES - off, k);
    ModSmall(WRAPPER_BYTES - off, WORD64);
    ModSmall(RoundUp(WRAPPER_BYTES - off, Pow2(k)) + off, WORD64);
  }

  lemma Wraps(off: nat, k: nat)
    requires WRAPPER_BYTES < off < Pow2(k) <= 0x1_0000_0000 && k <= MAX_ALIGN_LOG
    ensures LeastExtra(off, Pow2(k)) == off
  {
    hide Pow2, And, RoundUp;
    assert (WRAPPER_BYTES - off) % WORD64 == WORD64 - (off - WRAPPER_BYTES);
    RoundUpWraps(off - WRAPPER_BYTES, k);
    ModSmall(off, WORD64);
  }

  /** Just below zero, rounding up wraps to zero. */
  lemma RoundUpWraps(t: nat, k: nat)
    requires k <= MAX_ALIGN_LOG && 0 < t < Pow2(k) <= 0x1_0000_0000
    ensures RoundUp(WORD64 - t, Pow2(k)) == 0
  {
    hide Pow2, And, Low;
    Pow2Lits();
    var x := (WORD64 - t + Pow2(k) - 1) % WORD64;
    assert x == Pow2(k) - 1 - t;
    AndHigh(x, k, 64);
    LowIsMod(x, k);
    ModSmall(x, Pow2(k));
  }

  lemma ModSmall(x: nat, d: nat)
    requires x < d
    ensures x % d == x
  {
  }

  lemma PlusOffset(x: nat, off: nat, d: nat)
    requires d > 0 && x % d == 0 && off < d
    ensures (x + off) % d == off
  {
    DivModUnique(x + off, d, x / d, off);
  }

  /** A congruent number stays congruent after removing a multiple. */
  lemma MinusMultiple(x: int, y: int, d: nat, off: nat)
    requires d > 0 && x % d == off && y % d == 0
    ensures (x - y) % d == off
  {
    var q, r := x / d, y / d;
    assert x == q * d + off && y == r * d;
    assert (q - r) * d == q * d - r * d;
    DivModUnique(x - y, d, q - r, off);
  }

  /** Modulo a divisor of the alignment, congruence is to the offset's remainder. */
  lemma Coarser(x: int, d: nat, m: nat, off: nat)
    requires d > 0 && m > 0 && d % m == 0 && x % d == off
    ensures x % m == off % m
  {
    var q, r, t := x / d, d / m, off / m;
    assert x == q * d + off && d == r * m && off == t * m + off % m;
    assert q * (r * m) == (q * r) * m;
    assert (q * r) * m + t * m == (q * r + t) * m;
    DivModUnique(x, m, q * r + t, off % m);
  }

  /** Two numbers congruent modulo m, the first ahead by less than a multiple of m, are at most that multiple
      less m apart. */
  lemma AheadByLess(x: int, y: int, m: nat, gap: nat)
    requires m > 0 && x % m == y % m && gap % m == 0 && gap > 0 && x - y < gap
    ensures x - y <= gap - m
  {
    SameRemainder(x, y, m);
    MultipleGap(x - y, gap, m);
  }

  lemma SameRemainder(x: int, y: int, m: nat)
    requires m > 0 && x % m == y % m
    ensures (x - y) % m == 0
  {
    var q, r := x / m, y / m;
    assert x == q * m + x % m && y == r * m + y % m;
    assert (q - r) * m == q * m - r * m;
    DivModUnique(x - y, m, q - r, 0);
  }

  /** Explicit alignment always fits: whatever the base, as long as it has the heap's minimum alignment, the
      aligned pointer is congruent to the offset, has room for the wrapper before it, and the user's bytes fit in
      the underlying allocation. */
  lemma AlignedFits(base: nat, off: nat, k: nat, minLog: nat)
    requires k <= MAX_ALIGN_LOG && off < Pow2(k) && minLog <= MAX_ALIGN_LOG && base % Pow2(minLog) == 0
    ensures 1 <= Pow2(k) <= WORD64
    ensures var p := AlignAddress(base + WRAPPER_BYTES, Pow2(k), off);
      && p % Pow2(k) == off && base + WRAPPER_BYTES <= p
      && p - base <= ExtraBytes(off, Pow2(k), Pow2(minLog))
  {
    hide Pow2, And, RoundUp, AlignAddress;
    var align, minimum := Pow2(k), Pow2(minLog);
    LeastExtraIs(off, k);
    AlignAddressIs(base + WRAPPER_BYTES, k, off);
    var p := AlignAddress(base + WRAPPER_BYTES, align, off);
    var e := LeastExtra(off, align);
    var d := p - base;
    if align <= minimum {
      Pow2Order(k, minLog);
      Pow2Divides(k, minLog);
      MultipleTrans(base, minimum, align);
      MinusMultiple(p, base, align, off);
      AheadByLess(d, e, align, align);
    } else {
      Pow2Order(minLog, k);
      Pow2Divides(minLog, k);
      Coarser(p, align, minimum, off);
      MinusMultiple(p, base, minimum, off % minimum);
      Coarser(e, align, minimum, off);
      AheadByLess(d, e, minimum, align);
    }
  }

  lemma Pow2Order(a: nat, b: nat)
    requires Pow2(a) <= Pow2(b)
    ensures a <= b
  {
    if b < a {
      Pow2Below(b, a);
    }
  }

  lemma Pow2Below(a: nat, b: nat)
    requires a < b
    ensures Pow2(a) < Pow2(b)
  {
    Pow2Mono(a, b - 1);
  }

  /** The extra size is what makes up for a base that is less aligned, and besides that the least amount congruent to
      the offset that covers the wrapper. So it is never small, and never large enough to overflow a request. */
  lemma ExtraBounds(off: nat, k: nat, minimum: nat)
    requires k <= MAX_ALIGN_LOG && off < Pow2(k)
    ensures Pow2(k) <= 0x1_0000_0000
    ensures var rest := ExtraBytes(off, Pow2(k), minimum) - if Pow2(k) > minimum then Pow2(k) - minimum else 0;
      WRAPPER_BYTES <= rest < WRAPPER_BYTES + Pow2(k) && rest % Pow2(k) == off
    ensures WRAPPER_BYTES <= ExtraBytes(off, Pow2(k), minimum) < WRAPPER_BYTES + 0x2_0000_0000
  {
    hide Pow2, And, RoundUp;
    LeastExtraIs(off, k);
  }
}
