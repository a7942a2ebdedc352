/** Packing of block headers into one word, and address alignment. */
module Words {
  import opened Bits

  // ---- tag fields of a header word ----

  const TYPE_SMALL: nat := 0
  const TYPE_ALIGNED: nat := 1
  const TYPE_LARGE: nat := 4
  const TYPE_MEDIUM: nat := 6
  const PREVIOUS_ALLOC: nat := 8
  const BLOCK_ALLOC: nat := 16
  const WRAPPED: nat := 32

  function Type(w: nat): nat { And(w, 7) }
  predicate PreviousAlloc(w: nat) { And(w, PREVIOUS_ALLOC) != 0 }
  predicate BlockAlloc(w: nat) { And(w, BLOCK_ALLOC) != 0 }
  predicate Wrapped(w: nat) { And(w, WRAPPED) != 0 }

  /** The tag tests read single bits. */
  lemma TagBits(w: nat)
    ensures Type(w) == w % 8
    ensures PreviousAlloc(w) <==> (w / 8) % 2 == 1
    ensures BlockAlloc(w) <==> (w / 16) % 2 == 1
    ensures Wrapped(w) <==> (w / 32) % 2 == 1
  {
    hide And;
    AndLow(w, 3);
    LowIsMod(w, 3);
    OneBit(w, 3);
    OneBit(w, 4);
    OneBit(w, 5);
  }

  lemma OneBit(w: nat, k: nat)
    ensures And(w, Pow2(k)) == (if Bit(w, k) then Pow2(k) else 0)
    ensures Bit(w, k) == ((w / Pow2(k)) % 2 == 1)
  {
    assert Pow2(k) == Shl(1, k) by { ShlIsMul(1, k); }
    AndShifted(w, 1, k);
    ShrIsDiv(w, k);
    BitOfShr(w, k);
    var q := Shr(w, k);
    assert And(q, 1) == q % 2;
    ShlIsMul(q % 2, k);
  }

  lemma {:induction false} BitOfShr(w: nat, k: nat)
    ensures Bit(w, k) == (Shr(w, k) % 2 == 1)
  {
    if k > 0 {
      BitOfShr(w / 2, k - 1);
    }
  }

  // ---- free blocks: tags, size and class in one word ----

  const FREE_BYTES_MASK: nat := 0x1F_FFF8

  function FreeWord(x: nat, bytes: nat, cls: nat): nat {
    Or(Or(And(x, 0x1f), Shl(bytes, 2)), Shl(cls, 23))
  }

  function FreeBytes(w: nat): nat { And(Shr(w, 2), FREE_BYTES_MASK) }

  function FreeClass(w: nat): nat { Shr(w, 23) }

  /** A free block's word gives back the size, the class and the tag bits it was packed from. */
  lemma FreeWordFields(x: nat, bytes: nat, cls: nat)
    requires bytes % 8 == 0 && bytes < 0x20_0000 && cls < 512
    ensures var w := FreeWord(x, bytes, cls);
      && FreeBytes(w) == bytes && FreeClass(w) == cls && w < 0x1_0000_0000
      && Type(w) == Type(x) && (PreviousAlloc(w) <==> PreviousAlloc(x)) && (BlockAlloc(w) <==> BlockAlloc(x))
  {
    hide And, Or, Shl, Shr, Low, Pow2, FreeBytes, FreeClass;
    Pow2Lits();
    FreeWordTags(x, bytes, cls);
    LowMask(x, 5, 32);
    ShlLit(bytes, 2, 4);
    ShlLit(bytes / 8, 5, 32);
    ShlLit(cls, 23, 0x80_0000);
    OrAbove(x % 32, bytes / 8, 5);
    OrAbove(x % 32 + 4 * bytes, cls, 23);
    var w := FreeWord(x, bytes, cls);
    FreeFieldsOf(w);
    FreeArithmetic(x % 32, bytes / 8, cls);
  }

  lemma FreeArithmetic(r: nat, m: nat, cls: nat)
    requires r < 32 && m < 0x4_0000 && cls < 512
    ensures var w := r + 32 * m + 0x80_0000 * cls;
      w < 0x1_0000_0000 && w / 32 == m + 0x4_0000 * cls && (w / 32) % 0x4_0000 == m && w / 0x80_0000 == cls
  {
    var w := r + 32 * m + 0x80_0000 * cls;
    DivModUnique(w, 32, m + 0x4_0000 * cls, r);
    DivModUnique(w / 32, 0x4_0000, cls, m);
    DivModUnique(w, 0x80_0000, cls, r + 32 * m);
  }

  lemma FreeWordTags(x: nat, bytes: nat, cls: nat)
    requires bytes % 8 == 0 && bytes < 0x20_0000
    ensures var w := FreeWord(x, bytes, cls);
      Type(w) == Type(x) && (PreviousAlloc(w) <==> PreviousAlloc(x)) && (BlockAlloc(w) <==> BlockAlloc(x))
  {
    hide And, Or, Shl, Shr, Low, Pow2;
    Pow2Lits();
    ShlLit(bytes, 2, 4);
    ShlLit(bytes / 8, 5, 32);
    TwoFields(x, bytes / 8, cls, 7);
    TwoFields(x, bytes / 8, cls, 8);
    TwoFields(x, bytes / 8, cls, 16);
  }

  lemma TwoFields(x: nat, mid: nat, cls: nat, m: nat)
    requires mid < 0x4_0000 && m < 32
    ensures And(Or(Or(And(x, 0x1f), Shl(mid, 5)), Shl(cls, 23)), m) == And(x, m)
  {
    hide And, Or, Shl, Shr, Low, Pow2;
    Pow2Lits();
    Packed(x, mid, 5, m);
    var inner := Or(And(x, 0x1f), Shl(mid, 5));
    LowMask(inner, 23, 0x80_0000);
    Packed(inner, cls, 23, m);
  }

  /** The free-block decoders, arithmetically. */
  lemma FreeFieldsOf(w: nat)
    ensures FreeBytes(w) == 8 * ((w / 32) % 0x4_0000)
    ensures FreeClass(w) == w / 0x80_0000
  {
    hide And, Or, Shl, Shr, Low, Pow2;
    Pow2Lits();
    ShrLit(w, 23, 0x80_0000);
    ShrLit(w, 2, 4);
    ShrLit(w / 4, 3, 8);
    ShlLit(0x3_ffff, 3, 8);
    AndShifted(w / 4, 0x3_ffff, 3);
    LowMask(w / 4 / 8, 18, 0x4_0000);
    assert w / 4 / 8 == w / 32;
    ShlLit((w / 32) % 0x4_0000, 3, 8);
  }

  lemma LowMask(x: nat, k: nat, p: nat)
    requires p == Pow2(k)
    ensures And(x, p - 1) == x % p
  {
    AndLow(x, k);
    LowIsMod(x, k);
  }

  lemma ShlLit(x: nat, k: nat, p: nat)
    requires p == Pow2(k)
    ensures Shl(x, k) == x * p
  {
    ShlIsMul(x, k);
  }

  lemma ShrLit(x: nat, k: nat, p: nat)
    requires p == Pow2(k)
    ensures Shr(x, k) == x / p
  {
    ShrIsDiv(x, k);
  }

  // ---- allocated medium blocks ----

  function SetSizeData(x: nat, s: nat): nat { Or(And(x, 0x3f), Shl(s, 6)) }

  function SizeData(w: nat): nat { Shr(And(w, 0xffff), 6) }

  function SizeDataIndex(s: nat): nat { Shr(s, 6) }
  function SizeDataSlot(s: nat): nat { And(Shr(s, 1), 31) }
  function SizeDataExtra(s: nat): nat { And(s, 1) }

  function PackSizeData(index: nat, slot: nat, extra: nat): nat {
    Shl(index, 6) + Shl(slot, 1) + extra
  }

  function SetUserdata(x: nat, u: nat): nat { Or(And(x, 0xffff), Shl(u, 16)) }

  function Userdata(w: nat): nat { Shr(And(w, 0xffff_ffff), 16) }

  function SetPrevious(w: nat): nat { Or(w, PREVIOUS_ALLOC) }

  function ClearPrevious(w: nat): nat
    requires w < WORD64
  {
    And(w, WORD64 - 1 - PREVIOUS_ALLOC)
  }

  function SetWrapped(w: nat): nat { Or(w, WRAPPED) }

  /** Setting and clearing the PREVIOUS tag touches that bit only. */
  lemma PreviousIs(w: nat)
    requires w < WORD64
    ensures SetPrevious(w) == if (w / 8) % 2 == 1 then w else w + 8
    ensures ClearPrevious(w) == if (w / 8) % 2 == 1 then w - 8 else w
    ensures SetWrapped(w) == if (w / 32) % 2 == 1 then w else w + 32
  {
    hide And, Or, Low, Pow2;
    Pow2Lits();
    OrBit(w, 3);
    OrBit(w, 5);
    AndNotBit(w, 3, 64);
  }

  lemma {:induction false} OrBit(w: nat, k: nat)
    ensures Or(w, Pow2(k)) == if Bit(w, k) then w else w + Pow2(k)
    ensures Bit(w, k) == ((w / Pow2(k)) % 2 == 1)
  {
    OneBit(w, k);
    OrBitStep(w, k);
  }

  lemma {:induction false} OrBitStep(w: nat, k: nat)
    ensures Or(w, Pow2(k)) == if Bit(w, k) then w else w + Pow2(k)
  {
    if w == 0 {
      BitOfZero(k);
    } else if k == 0 {
      assert Or(w / 2, 0) == w / 2;
    } else {
      OrBitStep(w / 2, k - 1);
    }
  }

  lemma {:induction false} AndNotBit(w: nat, k: nat, width: nat)
    requires k < width && w < Pow2(width)
    ensures Pow2(k) < Pow2(width)
    ensures And(w, Pow2(width) - 1 - Pow2(k)) == if Bit(w, k) then w - Pow2(k) else w
  {
    hide And;
    Pow2Mono(k, width - 1);
    if k == 0 {
      var m := Pow2(width) - 2;
      assert m == 2 * (Pow2(width - 1) - 1);
      AndEven(w, Pow2(width - 1) - 1);
      AndLow(w / 2, width - 1);
      LowOfSmall(w / 2, width - 1);
    } else {
      AndNotBit(w / 2, k - 1, width - 1);
      var m: nat := Pow2(width - 1) - 1 - Pow2(k - 1);
      assert Pow2(width) - 1 - Pow2(k) == 2 * m + 1;
      AndOdd(w, m);
    }
  }

  /** Everything a live block's header word records about itself. */
  predicate SameBlockFields(w: nat, w': nat) {
    Type(w) == Type(w') && (BlockAlloc(w) <==> BlockAlloc(w')) && SizeData(w) == SizeData(w')
  }

  /** What a prefix says to the callers: whether it is a cell's, and the userdata. */
  predicate SameUserdata(w: nat, w': nat) {
    Type(w) == Type(w') && Userdata(w) == Userdata(w')
  }

  /** Everything a free block's header word records about itself. */
  predicate SameFreeFields(w: nat, w': nat) {
    Type(w) == Type(w') && (BlockAlloc(w) <==> BlockAlloc(w'))
    && FreeBytes(w) == FreeBytes(w') && FreeClass(w) == FreeClass(w')
  }

  lemma OredField(w: nat, bits: nat, m: nat)
    requires And(bits, m) == 0
    ensures And(Or(w, bits), m) == And(w, m)
  {
    hide And, Or;
    AndOverOr(w, bits, m);
    OrZero(And(w, m));
  }

  // The fields as masks of shifted words, the form the algebra above works on.
  lemma ShiftedFields(w: nat)
    ensures SizeData(w) == And(Shr(w, 6), 0x3ff)
  {
    hide And, Shr;
    ShrOfAnd(w, 0xffff, 6);
    assert Shr(0xffff, 6) == 0x3ff by { ShrLits(); }
  }

  lemma ShrLits()
    ensures Shr(0xffff, 6) == 0x3ff && Shr(8, 6) == 0 && Shr(8, 2) == 2 && Shr(8, 23) == 0 && Shr(32, 6) == 0
    ensures Shr(8, 16) == 0
  {
    Pow2Lits();
    ShrLit(0xffff, 6, 64);
    ShrLit(8, 6, 64);
    ShrLit(32, 6, 64);
    ShrLit(8, 2, 4);
    ShrLit(8, 23, 0x80_0000);
    ShrLit(8, 16, 0x1_0000);
  }

  lemma MaskLits()
    ensures And(8, 7) == 0 && And(8, 8) == 8 && And(8, 16) == 0
    ensures And(32, 7) == 0 && And(32, 8) == 0 && And(32, 16) == 0
    ensures And(2, FREE_BYTES_MASK) == 0
  {
  }

  lemma MediumTagLits()
    ensures And(8, 7) == 0 && And(8, 8) == 8 && And(8, 16) == 0
    ensures And(22, 7) == 6 && And(22, 8) == 0 && And(22, 16) == 16
    ensures Or(TYPE_MEDIUM, BLOCK_ALLOC) == 22
  {
  }

  lemma OrShifted(w: nat, bits: nat, k: nat)
    requires Shr(bits, k) == 0
    ensures Shr(Or(w, bits), k) == Shr(w, k)
  {
    hide Or, Shr;
    ShrOfOr(w, bits, k);
    OrZero(Shr(w, k));
  }

  /** Setting the PREVIOUS tag leaves every other field alone. */
  lemma SetPreviousFields(w: nat)
    requires w < 0x1_0000_0000
    ensures SetPrevious(w) < 0x1_0000_0000 && PreviousAlloc(SetPrevious(w))
    ensures SameBlockFields(w, SetPrevious(w)) && SameFreeFields(w, SetPrevious(w))
    ensures Userdata(SetPrevious(w)) == Userdata(w)
  {
    hide And, Or, Shr, Pow2;
    MaskLits();
    ShrLits();
    Pow2Lits();
    OredField(w, 8, 7);
    OredField(w, 8, 16);
    AndOverOr(w, 8, 8);
    ShiftedFields(w);
    ShiftedFields(Or(w, 8));
    OrShifted(w, 8, 6);
    OrShifted(w, 8, 23);
    ShrOfOr(w, 8, 2);
    OredField(Shr(w, 2), 2, FREE_BYTES_MASK);
    OrBelow(w, 8, 32);
    LowMask(w, 32, 0x1_0000_0000);
    LowMask(Or(w, 8), 32, 0x1_0000_0000);
    OrShifted(w, 8, 16);
  }

  lemma BitThree(w: nat)
    requires (w / 8) % 2 == 1
    ensures w >= 8 && ((w - 8) / 8) % 2 == 0
  {
  }

  /** Rewriting the PREVIOUS tag of a header leaves every other field alone. */
  lemma PreviousWrites(w: nat)
    requires w < 0x1_0000_0000
    ensures ClearPrevious(w) < 0x1_0000_0000 && SetPrevious(w) < 0x1_0000_0000
    ensures !PreviousAlloc(ClearPrevious(w)) && PreviousAlloc(SetPrevious(w))
    ensures SameBlockFields(w, ClearPrevious(w)) && SameBlockFields(w, SetPrevious(w))
    ensures SameFreeFields(w, ClearPrevious(w)) && SameFreeFields(w, SetPrevious(w))
    ensures Userdata(ClearPrevious(w)) == Userdata(w) && Userdata(SetPrevious(w)) == Userdata(w)
  {
    hide Userdata;
    hide And, Or, PreviousAlloc, Type, BlockAlloc, SizeData, FreeBytes, FreeClass, ClearPrevious, SetPrevious;
    SetPreviousFields(w);
    PreviousIs(w);
    TagBits(w);
    var c := ClearPrevious(w);
    TagBits(c);
    if (w / 8) % 2 == 1 {
      BitThree(w);
      PreviousIs(c);
      SetPreviousFields(c);
    }
  }

  /** The header written for an allocated block: type, tag bits and packed size. */
  function AllocWord(w: nat, index: nat, slot: nat, extra: nat): nat {
    SetSizeData(Or(Or(TYPE_MEDIUM, BLOCK_ALLOC), And(w, PREVIOUS_ALLOC)), PackSizeData(index, slot, extra))
  }

  lemma AllocWordFields(w: nat, index: nat, slot: nat, extra: nat)
    requires index < 13 && slot < 32 && extra < 2
    ensures var a := AllocWord(w, index, slot, extra);
      && a < 0x1_0000
      && Type(a) == TYPE_MEDIUM && BlockAlloc(a) && (PreviousAlloc(a) <==> PreviousAlloc(w))
      && SizeData(a) == PackSizeData(index, slot, extra)
  {
    hide And, Or, Shr, Shl, Pow2, Low, PackSizeData;
    var x := Or(22, And(w, 8));
    var s := PackSizeData(index, slot, extra);
    PackIs(index, slot, extra);
    MediumTagLits();
    Pow2Lits();
    TagsOf22(w);
    Packed(x, s, 6, 7);
    Packed(x, s, 6, 8);
    Packed(x, s, 6, 16);
    var a := AllocWord(w, index, slot, extra);
    assert a == Or(And(x, 63), Shl(s, 6)) == Low(x, 6) + s * 64;
    assert And(a, 0xffff) == a by { LowMask(a, 16, 0x1_0000); }
  }

  lemma TagsOf22(w: nat)
    ensures var x := Or(22, And(w, 8)); And(x, 7) == 6 && And(x, 16) == 16 && And(x, 8) == And(w, 8)
  {
    hide And, Or;
    MediumTagLits();
    var t := And(w, 8);
    AndOverOr(22, t, 7);
    AndOverOr(22, t, 8);
    AndOverOr(22, t, 16);
    AndAssoc(w, 8, 7);
    AndAssoc(w, 8, 8);
    AndAssoc(w, 8, 16);
    OrZero(6);
    OrZero(16);
    OrZero(t);
    AndZero(w);
  }

  lemma AndZero(w: nat)
    ensures And(w, 0) == 0
  {
  }

  lemma PackIs(index: nat, slot: nat, extra: nat)
    requires index < 13 && slot < 32 && extra < 2
    ensures PackSizeData(index, slot, extra) == 64 * index + 2 * slot + extra < 1024
  {
    hide Shl, Pow2;
    Pow2Lits();
    ShlLit(index, 6, 64);
    ShlOne(slot);
  }

  lemma ShlOne(x: nat)
    ensures Shl(x, 1) == 2 * x && Shr(x, 1) == x / 2
  {
  }

  /** Index, slot and extra bit are recovered from the packed size. */
  lemma UnpackSizeData(index: nat, slot: nat, extra: nat)
    requires index < 13 && slot < 32 && extra < 2
    ensures var s := PackSizeData(index, slot, extra);
      SizeDataIndex(s) == index && SizeDataSlot(s) == slot && SizeDataExtra(s) == extra
  {
    hide And, Pow2, Shl, Low, Shr, PackSizeData;
    PackIs(index, slot, extra);
    Pow2Lits();
    var s := 64 * index + 2 * slot + extra;
    ShrLit(s, 6, 64);
    ShlOne(s);
    assert s / 2 == 32 * index + slot;
    LowMask(s / 2, 5, 32);
    AndOne(s);
  }

  lemma AndOne(s: nat)
    ensures And(s, 1) == s % 2
  {
  }

  /** Userdata and the wrapped flag can be set without disturbing what the allocator reads back. */
  lemma UserdataWrite(w: nat, u: nat)
    requires w < 0x1_0000_0000 && u < 0x1_0000
    ensures SetUserdata(w, u) < 0x1_0000_0000
    ensures SameBlockFields(w, SetUserdata(w, u))
    ensures PreviousAlloc(SetUserdata(w, u)) <==> PreviousAlloc(w)
    ensures Userdata(SetUserdata(w, u)) == u
  {
    hide And, Or, Shr, Shl, Pow2, Low;
    Pow2Lits();
    Packed(w, u, 16, 7);
    Packed(w, u, 16, 8);
    Packed(w, u, 16, 16);
    Packed(w, u, 16, 0xffff);
    var a := SetUserdata(w, u);
    assert And(a, 0xffff_ffff) == a by { LowMask(a, 32, 0x1_0000_0000); }
  }

  lemma WrappedWrite(w: nat)
    requires w < 0x1_0000_0000
    ensures SetWrapped(w) < 0x1_0000_0000 && Wrapped(SetWrapped(w))
    ensures SameBlockFields(w, SetWrapped(w))
    ensures PreviousAlloc(SetWrapped(w)) <==> PreviousAlloc(w)
    ensures Userdata(SetWrapped(w)) == Userdata(w)
  {
    hide And, Or, Shr, Pow2;
    MaskLits();
    ShrLits();
    Pow2Lits();
    OredField(w, 32, 7);
    OredField(w, 32, 8);
    OredField(w, 32, 16);
    AndOverOr(w, 32, 32);
    AndThirtyTwo();
    ShiftedFields(w);
    ShiftedFields(Or(w, 32));
    OrShifted(w, 32, 6);
    OrBelow(w, 32, 32);
    LowMask(w, 32, 0x1_0000_0000);
    LowMask(Or(w, 32), 32, 0x1_0000_0000);
    OrShifted(w, 32, 16);
  }

  lemma AndThirtyTwo()
    ensures And(32, 32) == 32 && Shr(32, 16) == 0
  {
    Pow2Lits();
    ShrSmall(32, 16);
  }

  // ---- alignment ----

  /** Round up to a multiple of a power of two; unsigned addition wraps. */
  function RoundUp(num: nat, pow2: nat): nat
    requires 1 <= pow2 <= WORD64
  {
    And((num + pow2 - 1) % WORD64, WORD64 - pow2)
  }

  lemma RoundUpIs(num: nat, k: nat)
    requires k <= 64 && num + Pow2(k) <= WORD64
    ensures Pow2(k) <= WORD64
    ensures var r := RoundUp(num, Pow2(k)); num <= r < num + Pow2(k) && r % Pow2(k) == 0
  {
    hide And, Low, Pow2;
    Pow2Lits();
    Pow2Mono(k, 64);
    var x := num + Pow2(k) - 1;
    assert x % WORD64 == x;
    AndHigh(x, k, 64);
    LowIsMod(x, k);
    RoundDown(x, Pow2(k));
  }

  lemma RoundDown(x: nat, d: nat)
    requires d > 0
    ensures (x - x % d) % d == 0 && x - x % d > x - d
  {
    DivModUnique(x - x % d, d, x / d, 0);
  }

  /** Advance an address to the next one congruent to `off` modulo `align`; unsigned subtraction wraps. */
  function AlignAddress(address: nat, align: nat, off: nat): nat
    requires align >= 1
  {
    address + And((off - And(address, align - 1)) % WORD64, align - 1)
  }

  lemma AlignAddressIs(address: nat, k: nat, off: nat)
    requires k <= 64 && off < Pow2(k)
    ensures var r := AlignAddress(address, Pow2(k), off);
      address <= r < address + Pow2(k) && r % Pow2(k) == off
  {
    hide And, Low, Pow2, AlignAddress;
    var p := Pow2(k);
    AlignAddressForm(address, k, off);
    var cur := address % p;
    SubMod(off, cur, k);
    NextCongruent(address, p, off);
  }

  lemma AlignAddressForm(address: nat, k: nat, off: nat)
    ensures AlignAddress(address, Pow2(k), off) == address + ((off - address % Pow2(k)) % WORD64) % Pow2(k)
  {
    hide And, Low, Pow2;
    LowMask(address, k, Pow2(k));
    LowMask((off - address % Pow2(k)) % WORD64, k, Pow2(k));
  }

  lemma SubMod(off: nat, cur: nat, k: nat)
    requires k <= 64 && off < Pow2(k) && cur < Pow2(k)
    ensures ((off - cur) % WORD64) % Pow2(k) == if off >= cur then off - cur else off - cur + Pow2(k)
  {
    hide Pow2;
    Pow2Lits();
    Pow2Mono(k, 64);
    var p := Pow2(k);
    if off < cur {
      Pow2Add(64 - k, k);
      WrapMod(off - cur, Pow2(64 - k), p, WORD64);
    } else {
      DivModUnique(off - cur, WORD64, 0, off - cur);
      DivModUnique(off - cur, p, 0, off - cur);
    }
  }

  lemma WrapMod(x: int, q: nat, p: nat, w: nat)
    requires 0 - p < x < 0 && q > 0 && w == q * p
    ensures w > 0 && x % w == x + w && (x + w) % p == x + p
  {
    assert (q - 1) * p == q * p - p;
    assert (q - 1) * p >= 0;
    DivModUnique(x, w, -1, x + w);
    DivModUnique(x + w, p, q - 1, x + p);
  }

  lemma NextCongruent(address: nat, p: nat, off: nat)
    requires p > 0 && off < p
    ensures var cur := address % p;
      var step := if off >= cur then off - cur else off - cur + p;
      0 <= step < p && (address + step) % p == off
  {
    var cur := address % p;
    var q := address / p;
    if off >= cur {
      DivModUnique(address + (off - cur), p, q, off);
    } else {
      assert (q + 1) * p == q * p + p;
      DivModUnique(address + (off - cur + p), p, q + 1, off);
    }
  }
}
