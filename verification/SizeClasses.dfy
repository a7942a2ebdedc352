/** The 13 x 32 size classes shared by the medium allocator's free lists and request rounding. */
module SizeClasses {
  import opened Bits

  const NUM_INDICES: nat := 13
  const NUM_SLOTS: nat := 32
  const NUM_CLASSES: nat := 416
  const SIZECLASS_MAX: nat := 1032192
  const FREE_SIZE_LIMIT: nat := 0x10_0000   // sizes the index computation accepts

  // The literal table of the implementation, one row an index.
  const ROW0: seq<nat> := [
    0, 8, 16, 24, 32, 40, 48, 56, 64, 72, 80, 88, 96, 104, 112, 120, 128, 136, 144, 152, 160, 168, 176, 184,
    192, 200, 208, 216, 224, 232, 240, 248]
  const ROW1: seq<nat> := [
    256, 264, 272, 280, 288, 296, 304, 312, 320, 328, 336, 344, 352, 360, 368, 376, 384, 392, 400, 408, 416,
    424, 432, 440, 448, 456, 464, 472, 480, 488, 496, 504]
  const ROW2: seq<nat> := [
    512, 528, 544, 560, 576, 592, 608, 624, 640, 656, 672, 688, 704, 720, 736, 752, 768, 784, 800, 816, 832,
    848, 864, 880, 896, 912, 928, 944, 960, 976, 992, 1008]
  const ROW3: seq<nat> := [
    1024, 1056, 1088, 1120, 1152, 1184, 1216, 1248, 1280, 1312, 1344, 1376, 1408, 1440, 1472, 1504, 1536,
    1568, 1600, 1632, 1664, 1696, 1728, 1760, 1792, 1824, 1856, 1888, 1920, 1952, 1984, 2016]
  const ROW4: seq<nat> := [
    2048, 2112, 2176, 2240, 2304, 2368, 2432, 2496, 2560, 2624, 2688, 2752, 2816, 2880, 2944, 3008, 3072,
    3136, 3200, 3264, 3328, 3392, 3456, 3520, 3584, 3648, 3712, 3776, 3840, 3904, 3968, 4032]
  const ROW5: seq<nat> := [
    4096, 4224, 4352, 4480, 4608, 4736, 4864, 4992, 5120, 5248, 5376, 5504, 5632, 5760, 5888, 6016, 6144,
    6272, 6400, 6528, 6656, 6784, 6912, 7040, 7168, 7296, 7424, 7552, 7680, 7808, 7936, 8064]
  const ROW6: seq<nat> := [
    8192, 8448, 8704, 8960, 9216, 9472, 9728, 9984, 10240, 10496, 10752, 11008, 11264, 11520, 11776, 12032,
    12288, 12544, 12800, 13056, 13312, 13568, 13824, 14080, 14336, 14592, 14848, 15104, 15360, 15616, 15872,
    16128]
  const ROW7: seq<nat> := [
    16384, 16896, 17408, 17920, 18432, 18944, 19456, 19968, 20480, 20992, 21504, 22016, 22528, 23040, 23552,
    24064, 24576, 25088, 25600, 26112, 26624, 27136, 27648, 28160, 28672, 29184, 29696, 30208, 30720, 31232,
    31744, 32256]
  const ROW8: seq<nat> := [
    32768, 33792, 34816, 35840, 36864, 37888, 38912, 39936, 40960, 41984, 43008, 44032, 45056, 46080, 47104,
    48128, 49152, 50176, 51200, 52224, 53248, 54272, 55296, 56320, 57344, 58368, 59392, 60416, 61440, 62464,
    63488, 64512]
  const ROW9: seq<nat> := [
    65536, 67584, 69632, 71680, 73728, 75776, 77824, 79872, 81920, 83968, 86016, 88064, 90112, 92160, 94208,
    96256, 98304, 100352, 102400, 104448, 106496, 108544, 110592, 112640, 114688, 116736, 118784, 120832,
    122880, 124928, 126976, 129024]
  const ROW10: seq<nat> := [
    131072, 135168, 139264, 143360, 147456, 151552, 155648, 159744, 163840, 167936, 172032, 176128, 180224,
    184320, 188416, 192512, 196608, 200704, 204800, 208896, 212992, 217088, 221184, 225280, 229376, 233472,
    237568, 241664, 245760, 249856, 253952, 258048]
  const ROW11: seq<nat> := [
    262144, 270336, 278528, 286720, 294912, 303104, 311296, 319488, 327680, 335872, 344064, 352256, 360448,
    368640, 376832, 385024, 393216, 401408, 409600, 417792, 425984, 434176, 442368, 450560, 458752, 466944,
    475136, 483328, 491520, 499712, 507904, 516096]
  const ROW12: seq<nat> := [
    524288, 540672, 557056, 573440, 589824, 606208, 622592, 638976, 655360, 671744, 688128, 704512, 720896,
    737280, 753664, 770048, 786432, 802816, 819200, 835584, 851968, 868352, 884736, 901120, 917504, 933888,
    950272, 966656, 983040, 999424, 1015808, 1032192]

  function Row(index: nat): seq<nat>
    requires index < NUM_INDICES
  {
    match index
    case 0 => ROW0
    case 1 => ROW1
    case 2 => ROW2
    case 3 => ROW3
    case 4 => ROW4
    case 5 => ROW5
    case 6 => ROW6
    case 7 => ROW7
    case 8 => ROW8
    case 9 => ROW9
    case 10 => ROW10
    case 11 => ROW11
    case _ => ROW12
  }

  function Base(index: nat): nat {
    if index == 0 then 0 else Shl(128, index)
  }

  function Step(index: nat): nat {
    if index == 0 then 8 else Shl(4, index)
  }

  lemma IsRow(row: seq<nat>, base: nat, step: nat, s: nat)
    requires |row| == 32 && s < 32
    requires row == [
      base, base + step, base + 2 * step, base + 3 * step, base + 4 * step, base + 5 * step, base + 6 * step,
      base + 7 * step, base + 8 * step, base + 9 * step, base + 10 * step, base + 11 * step, base + 12 * step,
      base + 13 * step, base + 14 * step, base + 15 * step, base + 16 * step, base + 17 * step, base + 18 * step,
      base + 19 * step, base + 20 * step, base + 21 * step, base + 22 * step, base + 23 * step, base + 24 * step,
      base + 25 * step, base + 26 * step, base + 27 * step, base + 28 * step, base + 29 * step, base + 30 * step,
      base + 31 * step]
    ensures row[s] == base + s * step
  {
  }

  lemma RowsTo3(index: nat, slot: nat)
    requires 0 <= index < 4 && slot < NUM_SLOTS
    ensures |Row(index)| == NUM_SLOTS && Row(index)[slot] == Base(index) + slot * Step(index)
  {
    match index
    case 0 => IsRow(ROW0, 0, 8, slot);
    case 1 => IsRow(ROW1, 256, 8, slot);
    case 2 => IsRow(ROW2, 512, 16, slot);
    case 3 => IsRow(ROW3, 1024, 32, slot);
  }

  lemma RowsTo7(index: nat, slot: nat)
    requires 4 <= index < 8 && slot < NUM_SLOTS
    ensures |Row(index)| == NUM_SLOTS && Row(index)[slot] == Base(index) + slot * Step(index)
  {
    match index
    case 4 => IsRow(ROW4, 2048, 64, slot);
    case 5 => IsRow(ROW5, 4096, 128, slot);
    case 6 => IsRow(ROW6, 8192, 256, slot);
    case 7 => IsRow(ROW7, 16384, 512, slot);
  }

  lemma RowsTo12(index: nat, slot: nat)
    requires 8 <= index < NUM_INDICES && slot < NUM_SLOTS
    ensures |Row(index)| == NUM_SLOTS && Row(index)[slot] == Base(index) + slot * Step(index)
  {
    match index
    case 8 => IsRow(ROW8, 32768, 1024, slot);
    case 9 => IsRow(ROW9, 65536, 2048, slot);
    case 10 => IsRow(ROW10, 131072, 4096, slot);
    case 11 => IsRow(ROW11, 262144, 8192, slot);
    case 12 => IsRow(ROW12, 524288, 16384, slot);
  }

  /** The literal table equals the closed form of the implementation's comment and `_calc` macro. */
  lemma TableIsCalc(index: nat, slot: nat)
    requires index < NUM_INDICES && slot < NUM_SLOTS
    ensures |Row(index)| == NUM_SLOTS && Row(index)[slot] == Base(index) + slot * Step(index)
  {
    hide Row, Base, Step;
    if index < 4 {
      RowsTo3(index, slot);
    } else if index < 8 {
      RowsTo7(index, slot);
    } else {
      RowsTo12(index, slot);
    }
  }

  function Size(index: nat, slot: nat): (size: nat)
    requires index < NUM_INDICES && slot < NUM_SLOTS
    ensures size == Base(index) + slot * Step(index)
  {
    TableIsCalc(index, slot);
    Row(index)[slot]
  }

  lemma NextBase(index: nat)
    ensures Base(index + 1) == Base(index) + 32 * Step(index)
    ensures Step(index) > 0
  {
    if index == 0 {
    } else {
      Shl128(index);
    }
  }

  lemma {:induction false} Shl128(i: nat)
    ensures Shl(128, i) == 32 * Shl(4, i) && Shl(4, i) > 0
  {
    if i == 0 {
    } else {
      Shl128(i - 1);
    }
  }

  /** A two-level class as one number, the form stored in a free block's prefix. */
  function ClassSize(c: nat): nat
    requires c < NUM_CLASSES
  {
    Size(c / NUM_SLOTS, c % NUM_SLOTS)
  }

  lemma ClassStep(c: nat)
    requires c + 1 < NUM_CLASSES
    ensures ClassSize(c + 1) == ClassSize(c) + Step(c / NUM_SLOTS)
    ensures Step(c / NUM_SLOTS) > 0
  {
    var index, slot := c / NUM_SLOTS, c % NUM_SLOTS;
    NextBase(index);
    if slot + 1 < NUM_SLOTS {
      assert (c + 1) / NUM_SLOTS == index && (c + 1) % NUM_SLOTS == slot + 1;
      assert (slot + 1) * Step(index) == slot * Step(index) + Step(index);
    } else {
      assert (c + 1) / NUM_SLOTS == index + 1 && (c + 1) % NUM_SLOTS == 0;
    }
  }

  /** The class table is strictly increasing. */
  lemma {:induction false} ClassSizeIncreases(c: nat, d: nat)
    requires c < d < NUM_CLASSES
    ensures ClassSize(c) < ClassSize(d)
    decreases d
  {
    hide *;
    ClassStep(d - 1);
    if c < d - 1 {
      ClassSizeIncreases(c, d - 1);
    }
  }

  /** The floor of the base-two logarithm, -1 at zero. */
  function Log2(n: nat): (r: int)
    ensures r >= -1
    ensures r == -1 <==> n == 0
    ensures r >= 0 ==> IsTopBit(n, r)
  {
    if n == 0 then -1 else 1 + Log2(n / 2)
  }

  lemma {:induction false} Log2Shift(n: nat, k: nat)
    requires k >= 1 && n >= Pow2(k - 1)
    ensures Log2(n) == k + Log2(Shr(n, k))
  {
    if k == 1 {
    } else {
      Log2Shift(n / 2, k - 1);
    }
  }

  lemma ShiftIsDiv(n: nat, k: nat, p: nat)
    requires k >= 1 && p == Pow2(k) && n >= p / 2
    ensures Log2(n) == k + Log2(n / p)
  {
    Log2Shift(n, k);
    ShrIsDiv(n, k);
  }

  lemma Log2Small(n: nat)
    requires n < 16
    ensures n < |LOG2_4| && Log2(n) == LOG2_4[n]
  {
  }

  const LOG2_4: seq<int> := [-1, 0, 1, 1, 2, 2, 2, 2, 3, 3, 3, 3, 3, 3, 3, 3]

  /** log2 by shifts and a 16-entry table: exactly the floor of the logarithm for every 32-bit word. */
  method Log2Floor(word: nat) returns (r: int)
    requires word < 0x1_0000_0000
    ensures r == Log2(word)
  {
    hide Log2, LOG2_4;
    var n, t := word, 0;
    if n >= 0x8_0000 {
      ShiftIsDiv(n, 20, 0x10_0000);
      t, n := t + 20, n / 0x10_0000;
    }
    if n >= 0x200 {
      ShiftIsDiv(n, 10, 0x400);
      t, n := t + 10, n / 0x400;
    }
    if n >= 0x10 {
      ShiftIsDiv(n, 5, 0x20);
      t, n := t + 5, n / 0x20;
    }
    Log2Small(n);
    r := t + LOG2_4[n];
  }

  /** A size class split into its two levels. */
  datatype IndexSlot = IndexSlot(index: nat, slot: nat) {
    predicate Valid() {
      index < NUM_INDICES && slot < NUM_SLOTS
    }

    function Class(): (c: nat)
      requires Valid()
      ensures c < NUM_CLASSES && c / NUM_SLOTS == index && c % NUM_SLOTS == slot
    {
      index * NUM_SLOTS + slot
    }
  }

  /** The class a free block of this size can satisfy (rounds down). */
  function IndexSlotForFreeBlock(size: nat): (fit: IndexSlot)
    requires size < FREE_SIZE_LIMIT
    ensures fit.Valid()
    ensures Fits(fit, size)
  {
    hide *;
    if size < 256 then
      SmallFits(size);
      IndexSlot(0, size / 8)
    else
      var top := Log2(size);
      RowFits(size);
      IndexSlot(top - 7, (size - Shl(128, top - 7)) / Pow2(top - 5))
  }

  /** The block size lies between this class and the next one. */
  ghost predicate Fits(fit: IndexSlot, size: nat) {
    var low := Base(fit.index) + fit.slot * Step(fit.index);
    low <= size < low + Step(fit.index)
  }

  lemma SmallFits(size: nat)
    requires size < 256
    ensures IndexSlot(0, size / 8).Valid() && Fits(IndexSlot(0, size / 8), size)
  {
  }

  lemma RowFits(size: nat)
    requires 256 <= size < FREE_SIZE_LIMIT
    ensures 8 <= Log2(size) && Shl(128, Log2(size) - 7) <= size
    ensures (var top := Log2(size);
             var fit := IndexSlot(top - 7, (size - Shl(128, top - 7)) / Pow2(top - 5));
             fit.Valid() && Fits(fit, size))
  {
    hide Shl, Log2, Pow2;
    TopBitRange(size, Log2(size));
    SlotInRow(size, Log2(size));
  }

  lemma TopBitRange(size: nat, top: int)
    requires 256 <= size < FREE_SIZE_LIMIT && top == Log2(size)
    ensures 8 <= top <= 19
  {
    assert Pow2(8) == 256 && Pow2(20) == FREE_SIZE_LIMIT;
    if top < 8 {
      Pow2Mono(top + 1, 8);
    } else if top > 19 {
      Pow2Mono(20, top);
    }
  }

  lemma ShlBase(i: nat)
    ensures Shl(128, i) == Pow2(i + 7) && Shl(4, i) == Pow2(i + 2)
  {
    ShlIsMul(128, i);
    ShlIsMul(4, i);
    Pow2Add(7, i);
    Pow2Add(2, i);
  }

  lemma SlotInRow(size: nat, top: nat)
    requires 8 <= top <= 19 && IsTopBit(size, top)
    ensures Shl(128, top - 7) == Pow2(top) <= size
    ensures Step(top - 7) == Pow2(top - 5)
    ensures var slot := (size - Pow2(top)) / Pow2(top - 5);
            slot < NUM_SLOTS && slot * Step(top - 7) <= size - Pow2(top) < slot * Step(top - 7) + Step(top - 7)
  {
    ShlBase(top - 7);
    var step := Pow2(top - 5);
    assert Pow2(top) == 32 * step by { Pow2Add(5, top - 5); }
    QuotientBelow(size - Pow2(top), step, 32);
  }

  lemma QuotientBelow(x: nat, d: nat, n: nat)
    requires d > 0 && x < n * d
    ensures x / d < n
    ensures (x / d) * d <= x < (x / d) * d + d
  {
  }

  /** The class needed to satisfy a request of this size (rounds up by stepping the rounded-down one). */
  function IndexSlotForRequest(size: nat): (fit: IndexSlot)
    requires size <= SIZECLASS_MAX
    ensures fit.Valid()
  {
    var down := IndexSlotForFreeBlock(size);
    if size > Size(down.index, down.slot) then
      BelowLastRow(size);
      if down.slot + 1 == NUM_SLOTS then IndexSlot(down.index + 1, 0) else IndexSlot(down.index, down.slot + 1)
    else
      down
  }

  lemma BelowLastRow(size: nat)
    requires size <= SIZECLASS_MAX
    requires var down := IndexSlotForFreeBlock(size); size > Size(down.index, down.slot)
    ensures var down := IndexSlotForFreeBlock(size); down.index < 12 || down.slot < 31
  {
    hide Row, Log2, IndexSlotForFreeBlock, Size;
    assert Base(12) == 524288 && Step(12) == 16384;
  }

  // ---- what the two computations mean ----

  function FloorClass(size: nat): (c: nat)
    requires size < FREE_SIZE_LIMIT
    ensures c < NUM_CLASSES
  {
    IndexSlotForFreeBlock(size).Class()
  }

  function CeilClass(size: nat): (c: nat)
    requires size <= SIZECLASS_MAX
    ensures c < NUM_CLASSES
  {
    IndexSlotForRequest(size).Class()
  }

  /** A free block is filed under the greatest class not above its size. */
  lemma FloorClassIsGreatestBelow(size: nat, d: nat)
    requires size < FREE_SIZE_LIMIT && d < NUM_CLASSES
    ensures ClassSize(FloorClass(size)) <= size
    ensures ClassSize(d) <= size <==> d <= FloorClass(size)
  {
    hide Row, Log2, IndexSlotForFreeBlock, Base, Step, Size;
    var fit := IndexSlotForFreeBlock(size);
    var c := fit.Class();
    assert FloorClass(size) == c;
    assert ClassSize(c) <= size;
    if d < c {
      ClassSizeIncreases(d, c);
    } else if d > c {
      ClassStep(c);
      if d > c + 1 {
        ClassSizeIncreases(c + 1, d);
      }
    }
  }

  /** A request is served from the least class not below its size. */
  lemma CeilClassIsLeastAbove(size: nat, d: nat)
    requires size <= SIZECLASS_MAX && d < NUM_CLASSES
    ensures size <= ClassSize(CeilClass(size))
    ensures size <= ClassSize(d) <==> CeilClass(size) <= d
  {
    hide Row, Log2, IndexSlotForFreeBlock, Base, Step, Size, ClassSize;
    var c := FloorClass(size);
    CeilIsFloorOrNext(size);
    FloorClassIsGreatestBelow(size, d);
    if size > ClassSize(c) {
      FloorClassIsGreatestBelow(size, c + 1);
    }
    if c < d {
      ClassSizeIncreases(c, d);
    } else if d < c {
      ClassSizeIncreases(d, c);
    }
  }

  lemma CeilIsFloorOrNext(size: nat)
    requires size <= SIZECLASS_MAX
    ensures CeilClass(size) == if size > ClassSize(FloorClass(size)) then FloorClass(size) + 1 else FloorClass(size)
  {
    hide Row, Log2, IndexSlotForFreeBlock, Base, Step, Size;
  }

  /** A size that is itself a class is served by and filed under that class. */
  lemma ClassOfClass(c: nat)
    requires c < NUM_CLASSES
    ensures ClassSize(c) <= SIZECLASS_MAX < FREE_SIZE_LIMIT
    ensures FloorClass(ClassSize(c)) == c && CeilClass(ClassSize(c)) == c
  {
    hide Row, Log2, IndexSlotForFreeBlock, Base, Step, Size, ClassSize, FloorClass, CeilClass;
    LastClass();
    if c < 415 {
      ClassSizeIncreases(c, 415);
    }
    var size := ClassSize(c);
    FloorClassIsGreatestBelow(size, c);
    if c < FloorClass(size) {
      ClassSizeIncreases(c, FloorClass(size));
    }
    CeilIsFloorOrNext(size);
  }

  lemma LastClass()
    ensures ClassSize(415) == SIZECLASS_MAX
  {
    assert Base(12) == 524288 && Step(12) == 16384;
  }

  /** Rounding a request up to its class keeps it a multiple of any power of two it was a multiple of. */
  lemma CeilClassKeepsAlignment(size: nat, k: nat)
    requires size <= SIZECLASS_MAX && size % Pow2(k) == 0
    ensures ClassSize(CeilClass(size)) % Pow2(k) == 0
  {
    hide Row, Log2, IndexSlotForFreeBlock, Base, Step, Size, ClassSize, FloorClass, CeilClass, Pow2, Shl;
    var c := FloorClass(size);
    CeilIsFloorOrNext(size);
    FloorClassIsGreatestBelow(size, c);
    if ClassSize(c) < size {
      FloorClassIsGreatestBelow(size, c + 1);
      ClassStep(c);
      ClassMultiples(c);
      var e := StepExponent(c / NUM_SLOTS);
      if k <= e {
        Pow2Divides(k, e);
        MultipleTrans(ClassSize(c + 1), Pow2(e), Pow2(k));
      } else {
        Pow2Divides(e, k);
        MultipleTrans(size, Pow2(k), Pow2(e));
        MultiplesApart(ClassSize(c), size, Pow2(e));
      }
    }
  }

  function StepExponent(index: nat): nat {
    if index == 0 then 3 else index + 2
  }

  lemma StepIsPow2(index: nat)
    ensures Step(index) == Pow2(StepExponent(index))
  {
    if index == 0 {
      assert Pow2(3) == 8;
    } else {
      ShlBase(index);
    }
  }

  /** Each class and its successor are multiples of the step between them. */
  lemma ClassMultiples(c: nat)
    requires c + 1 < NUM_CLASSES
    ensures var p := Pow2(StepExponent(c / NUM_SLOTS));
      ClassSize(c) % p == 0 && ClassSize(c + 1) % p == 0 && ClassSize(c + 1) == ClassSize(c) + p
  {
    hide Row, Log2, IndexSlotForFreeBlock, Pow2, Shl, Step, Base;
    var index, slot := c / NUM_SLOTS, c % NUM_SLOTS;
    ClassStep(c);
    StepIsPow2(index);
    BaseIsMultiple(index);
    MultiplesOn(Base(index), Step(index), slot);
  }

  lemma MultiplesOn(x: nat, p: nat, n: nat)
    requires p > 0 && x % p == 0
    ensures (x + n * p) % p == 0 && (x + n * p + p) % p == 0
  {
    var q := x / p;
    assert x == q * p;
    assert (q + n) * p == q * p + n * p && (q + n + 1) * p == (q + n) * p + p;
    DivModUnique(x + n * p, p, q + n, 0);
    DivModUnique(x + n * p + p, p, q + n + 1, 0);
  }

  lemma BaseIsMultiple(index: nat)
    ensures Step(index) > 0 && Base(index) % Step(index) == 0
  {
    NextBase(index);
    if index > 0 {
      Shl128(index);
      DivModUnique(Base(index), Step(index), 32, 0);
    }
  }

  lemma Pow2Divides(a: nat, b: nat)
    requires a <= b
    ensures Pow2(b) % Pow2(a) == 0
  {
    hide *;
    Pow2Add(b - a, a);
    DivModUnique(Pow2(b), Pow2(a), Pow2(b - a), 0);
  }

  lemma MultipleTrans(x: nat, b: nat, a: nat)
    requires a > 0 && b > 0 && x % b == 0 && b % a == 0
    ensures x % a == 0
  {
    var q, r := x / b, b / a;
    assert x == q * b && b == r * a;
    assert q * (r * a) == (q * r) * a;
    DivModUnique(x, a, q * r, 0);
  }

  lemma MultiplesApart(x: nat, y: nat, p: nat)
    requires p > 0 && x < y && x % p == 0 && y % p == 0
    ensures y >= x + p
  {
    var q, r := x / p, y / p;
    assert x == q * p && y == r * p;
    if r > q {
      MulStep(r, q, p);
    }
  }
}
