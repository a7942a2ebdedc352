/** The medium allocator: good-fit search over segregated lists, splitting, boundary-tag coalescing, and chunks
    obtained from and returned to the system. */
module Tlsf {
  import opened Bits
  import opened Memory
  import opened SizeClasses
  import opened Words
  import opened Blocks
  import opened Tags
  import opened MediumSteps
  import opened MediumMoves
  import opened MediumFrames
  import opened MediumSystem
  import opened Layers
  import opened Spinning
  import opened SystemMemory
  import Lists = FreeLists
  import Bitmap
  import Ring

  datatype CachePolicy = CacheNone | CacheOne | CacheAll

  // ---- arithmetic of alignment and chunk layout ----

  predicate AlignmentOk(align: nat, k: nat) {
    4 <= k <= 19 && align == Pow2(k)
  }

  lemma AlignmentFacts(align: nat, k: nat)
    requires AlignmentOk(align, k)
    ensures 16 <= align <= 0x8_0000 && align % 8 == 0 && align % 16 == 0
    ensures align != 16 ==> align >= 32
  {
    hide Pow2;
    assert Pow2(4) == 16 && Pow2(5) == 32 && Pow2(19) == 0x8_0000 by { SmallPowers(); }
    Pow2Mono(4, k);
    Pow2Mono(k, 19);
    Pow2Divides(4, k);
    MultipleTrans(align, 16, 8);
    if k > 4 {
      Pow2Mono(5, k);
    }
  }

  lemma SmallPowers()
    ensures Pow2(4) == 16 && Pow2(5) == 32 && Pow2(19) == 0x8_0000
  {
    Pow2Lits();
    Pow2Add(3, 16);
  }

  /** The first block's header address and the phantom tail's, as the chunk set-up computes them. */
  function FirstHeader(s: nat, align: nat): int
    requires align >= 1
  {
    AlignAddress(s + SYSTEM_HEADER + CHUNK_HEADER + HEADER, align, 0) - HEADER
  }

  function TailHeader(s: nat, bytes: nat, align: nat): int
    requires 1 <= align <= bytes
  {
    AlignAddress(s + bytes - align, align, 0) - HEADER
  }

  /** Chunk a lies in a region of at least so many bytes, and its blocks take up all of that but the headers and what
      aligning both ends costs. */
  ghost predicate Roomy(l: Layout, align: nat, a: int, least: nat) {
    a in l.chunks && l.chunks[a].bytes >= least && l.chunks[a].tail - a + 2 * align + 80 > l.chunks[a].bytes
  }

  /** For every address and every alignment the "inexact" padding leaves a first block of at least the class. */
  lemma ChunkPaddingSuffices(s: nat, bytes: nat, align: nat, k: nat, expected: nat)
    requires AlignmentOk(align, k) && s > 0 && expected % align == 0
    requires bytes >= expected + align + 256
    ensures var first, tail := FirstHeader(s, align), TailHeader(s, bytes, align);
      && s + SYSTEM_HEADER + CHUNK_HEADER <= first && tail + HEADER <= s + bytes
      && (first + HEADER) % align == 0 && (tail + HEADER) % align == 0
      && tail - first >= expected
      && tail - first + 80 <= bytes < tail - first + 2 * align + 80
  {
    hide Pow2;
    AlignmentFacts(align, k);
    AlignAddressIs(s + 80, k, 0);
    AlignAddressIs(s + bytes - align, k, 0);
    var first, tail := FirstHeader(s, align), TailHeader(s, bytes, align);
    var size := tail - first;
    assert size > expected - align;
    Gap(tail + HEADER, first + HEADER, align);
    MultiplesNotBetween(size, expected, align);
  }

  lemma Gap(x: int, y: int, d: nat)
    requires d > 0 && x % d == 0 && y % d == 0
    ensures (x - y) % d == 0
  {
    var q, r := x / d, y / d;
    assert x == q * d && y == r * d;
    assert (q - r) * d == q * d - r * d;
    DivModUnique(x - y, d, q - r, 0);
  }

  lemma MultiplesNotBetween(x: int, y: int, d: nat)
    requires d > 0 && x % d == 0 && y % d == 0 && x > y - d
    ensures x >= y
  {
    if x < y {
      MultipleGap(x, y, d);
    }
  }

  /** The size of the block that serves a request: its class after adding the header and rounding. */
  function NeedOf(size: nat, align: nat): nat
    requires 1 <= align <= WORD64
  {
    RoundUp(size + HEADER, align)
  }

  predicate Servable(size: nat, align: nat) {
    1 <= align <= WORD64 && NeedOf(size, align) <= SIZECLASS_MAX
  }

  function WantOf(size: nat, align: nat): IndexSlot
    requires Servable(size, align)
  {
    IndexSlotForRequest(NeedOf(size, align))
  }

  /** A request that passes the large threshold test can always be served, and its class is aligned. */
  lemma NeedFacts(size: nat, align: nat, k: nat)
    requires AlignmentOk(align, k) && size < WORD64 - 0x10_0000
    ensures 1 <= align <= WORD64
    ensures size + HEADER <= NeedOf(size, align) < size + HEADER + align && NeedOf(size, align) % align == 0
  {
    hide Pow2;
    AlignmentFacts(align, k);
    RoundUpIs(size + HEADER, k);
  }

  lemma BelowThreshold(size: nat, align: nat, k: nat)
    requires AlignmentOk(align, k) && size < 262144
    ensures Servable(size, align)
  {
    hide Pow2;
    AlignmentFacts(align, k);
    NeedFacts(size, align, k);
  }

  lemma ExpectedFacts(size: nat, align: nat, k: nat)
    requires AlignmentOk(align, k) && Servable(size, align) && 0 < size < WORD64 - 0x10_0000
    ensures WantOf(size, align).Valid()
    ensures var want := WantOf(size, align);
      && Size(want.index, want.slot) % align == 0 && Size(want.index, want.slot) >= size + HEADER
      && 32 <= Size(want.index, want.slot) <= SIZECLASS_MAX
  {
    hide Pow2, Size;
    NeedFacts(size, align, k);
    AlignmentFacts(align, k);
    var need := NeedOf(size, align);
    CeilClassKeepsAlignment(need, k);
    CeilClassIsLeastAbove(need, 0);
    ClassOfClass(CeilClass(need));
    assert Size(WantOf(size, align).index, WantOf(size, align).slot) == ClassSize(CeilClass(need)) by {
      ClassOfWant(size, align);
    }
    MultipleGap(0, need, align);
    assert need > 16;
    Gap(need, 0, align);
    if need < 32 {
      assert align == 16;
      MultipleGap(16, need, 16);
    }
  }

  lemma ClassOfWant(size: nat, align: nat)
    requires Servable(size, align)
    ensures WantOf(size, align).Valid() && WantOf(size, align).index < NUM_INDICES
    ensures WantOf(size, align).slot < NUM_SLOTS
    ensures var want := WantOf(size, align);
      && want.Class() == CeilClass(NeedOf(size, align))
      && Size(want.index, want.slot) == ClassSize(want.Class())
  {
    hide Size;
  }

  /** The class is the least one that is aligned and covers the request and its header. */
  lemma WantIsLeast(size: nat, align: nat, k: nat, d: nat)
    requires AlignmentOk(align, k) && Servable(size, align) && 0 < size < WORD64 - 0x10_0000 && d < NUM_CLASSES
    requires ClassSize(d) >= size + HEADER && ClassSize(d) % align == 0
    ensures WantOf(size, align).Class() <= d
  {
    hide Pow2, Size, ClassSize, RoundUp;
    NeedFacts(size, align, k);
    MultiplesNotBetween(ClassSize(d), NeedOf(size, align), align);
    CeilClassIsLeastAbove(NeedOf(size, align), d);
    ClassOfWant(size, align);
  }

  // ---- reading the index ----

  /** Where a free block sits: the class stored in its word, its place on that list, and its links. */
  lemma Locate(mem: Memory, ix: Index, bk: Book, align: nat, heap: nat, except: int, block: nat) returns (k: nat)
    requires Core(mem, ix, bk, align, heap, except) && block in bk.free
    ensures block in bk.l.size && bk.l.size[block] >= 32 && block > 0 && !IsTailOf(bk.l, block) && block !in bk.live
    ensures FreeBytes(Read(mem, block + 8)) == bk.l.size[block]
    ensures FreeClass(Read(mem, block + 8)) == FileClass(bk.l.size[block])
    ensures var c := FileClass(bk.l.size[block]);
      && c < NUM_CLASSES && k < |bk.lists[c]| && bk.lists[c][k] == block
      && Read(mem, block) == Lists.PrevIn(bk.lists[c], k) && Read(mem, block + 16) == Lists.NextIn(bk.lists[c], k)
      && (ix.heads[c] == block <==> k == 0)
      && (k > 0 ==> Lists.PrevIn(bk.lists[c], k) > 0)
  {
    hide Tiled, RegionsApart, FileClass, Read, IsTailOf, Type, BlockAlloc, FreeBytes, FreeClass, Lists.BitmapsOk;
    hide MarkersOk;
    assert IsFiled(bk, block);
    var c := FileClass(bk.l.size[block]);
    k :| 0 <= k < |bk.lists[c]| && bk.lists[c][k] == block;
    NodeIsBlock(bk, align, c, k);
    assert KindOk(bk.l, bk.free, bk.live, block);
    assert TagOk(mem, bk.l, bk.free, bk.live, heap, except, block);
    assert Lists.ListOk(mem, ix.heads[c], bk.lists[c]);
    assert Lists.NodeOk(mem, bk.lists[c], k);
    assert k > 0 ==> Lists.NodeOk(mem, bk.lists[c], k - 1);
    assert Distinct(bk.lists[c]);
    AddressPositive(bk.l, align, block);
  }

  ghost function EmptyBook(): Book {
    Book(Layout(map[], map[], map[], map[], {}), {}, {}, seq(NUM_CLASSES, _ => []))
  }

  lemma EmptyCore(mem: Memory, align: nat, alignLog: nat, heap: nat)
    requires AlignmentOk(align, alignLog)
    ensures Core(mem, Index(seq(NUM_CLASSES, _ => 0), seq(NUM_INDICES, _ => 0), 0), EmptyBook(), align, heap, NONE)
  {
    hide Pow2, Bitmap.Has;
    AlignmentFacts(align, alignLog);
    EmptyBitmaps();
  }

  lemma EmptyBitmaps()
    ensures Lists.BitmapsOk(seq(NUM_INDICES, _ => 0), 0, seq(NUM_CLASSES, _ => []))
  {
    forall s: nat | s < 32 ensures !Bitmap.Has(0, s) {
      BitOfZero(31 - s);
    }
  }

  lemma EmptyRing(mem: Memory, sentinel: nat)
    ensures Ring.RingOk(Write(Write(mem, sentinel + 16, sentinel), sentinel + 8, sentinel), SYS_LINKS, [sentinel])
  {
  }

  class MediumHeap {
    const system: System
    const lock: SpinLock
    const heap: nat        // address of the heap structure
    const align: nat       // minimum alignment, a power of two
    ghost const alignLog: nat

    var mem: Memory
    var heads: seq<nat>    // list heads, index-major
    var bitmap: seq<nat>
    var top: nat
    var curChunk: nat
    const maxChunk: nat
    const policy: CachePolicy
    var cached: nat
    var cachedSize: nat
    var count: int         // outstanding allocations, of all layers
    var bytes: int         // and their sizes

    ghost var bk: Book
    ghost var ring: seq<nat>      // the system list, sentinel first
    ghost var foreign: set<int>   // system allocations listed by another layer
    ghost var others: set<int>    // regions in a thread's hands: neither listed nor cached

    /** The block structure is intact, save possibly one stale PREVIOUS bit. */
    ghost predicate Healthy(except: int)
      reads this
    {
      AlignmentOk(align, alignLog) && Core(mem, Index(heads, bitmap, top), bk, align, heap, except)
    }

    /** The system allocations are accounted for. */
    ghost predicate Accounted()
      reads this, system
    {
      && curChunk <= MAX_CHUNK && maxChunk <= MAX_CHUNK
      && SysOk(mem, system.owned, heap, ring, cached, cachedSize, foreign, others, bk.l)
    }

    ghost predicate Valid()
      reads this, system
    {
      Healthy(NONE) && Settled(bk) && Accounted()
    }

    lemma ValidIs()
      requires Valid()
      ensures AlignmentOk(align, alignLog) && Core(mem, Index(heads, bitmap, top), bk, align, heap, NONE)
      ensures Healthy(NONE) && Settled(bk) && Accounted() && Shape(bk, align)
      ensures SysOk(mem, system.owned, heap, ring, cached, cachedSize, foreign, others, bk.l)
    {
      hide Core, SysOk, Settled, AlignmentOk;
      CoreShape(mem, Index(heads, bitmap, top), bk, align, heap, NONE);
    }

    /** Valid, were memory to hold m. */
    ghost predicate ValidAt(m: Memory)
      reads this, system
    {
      && AlignmentOk(align, alignLog) && Core(m, Index(heads, bitmap, top), bk, align, heap, NONE) && Settled(bk)
      && curChunk <= MAX_CHUNK && maxChunk <= MAX_CHUNK
      && SysOk(m, system.owned, heap, ring, cached, cachedSize, foreign, others, bk.l)
    }

    /** The medium part of stbm_heap_init, on storage obtained from the system, with no chunk yet. */
    constructor (system: System, lock: SpinLock, heap: nat, align: nat, ghost alignLog: nat, mem: Memory,
                 policy: CachePolicy)
      requires AlignmentOk(align, alignLog)
      requires heap > 0 && heap in system.owned && system.owned == map[heap as int := system.owned[heap]]
      requires system.owned[heap] >= HEAP_BYTES
      ensures Valid()
      ensures this.system == system && this.lock == lock && this.heap == heap && this.align == align
      ensures bk.live == {} && bk.l.chunks == map[] && foreign == {} && others == {} && count == 0 && bytes == 0
      ensures this.policy == policy && curChunk == 0x4_0000 && maxChunk == 0x20_0000 && bk == EmptyBook()
    {
      this.system, this.lock, this.heap, this.align, this.alignLog := system, lock, heap, align, alignLog;
      this.policy := policy;
      heads := seq(NUM_CLASSES, _ => 0);
      bitmap := seq(NUM_INDICES, _ => 0);
      top := 0;
      curChunk, maxChunk := 0x4_0000, 0x20_0000;
      cached, cachedSize, count, bytes := 0, 0, 0, 0;
      var sentinel := heap + SENTINEL;
      this.mem := Write(Write(mem, sentinel + 16, sentinel), sentinel + 8, sentinel);
      ring := [sentinel];
      foreign := {};
      others := {};
      bk := EmptyBook();
      new;
      EmptyCore(this.mem, align, alignLog, heap);
      EmptyRing(mem, sentinel);
    }

    /** stbm__medium_unlink. */
    method Unlink(block: nat, ghost except: int)
      requires Healthy(except) && block in bk.free
      modifies this`mem, this`heads, this`bitmap, this`top, this`bk
      ensures Healthy(except)
      ensures bk.l == old(bk.l) && bk.live == old(bk.live) && bk.free == old(bk.free) - {block as int}
      ensures HeldBlock(bk, block)
      ensures Frame(old(mem), mem, bk.l, bk.live) && HeadersKept(old(mem), mem, bk.l)
    {
      hide HeadersKept, TakeMem, TakeIndex;
      hide Core, TakeBook, Frame, Read, FreeClass, FileClass, AlignmentOk, Bitmap.Clear;
      ghost var m0, ix0, bk0 := mem, Index(heads, bitmap, top), bk;
      ghost var k := Locate(mem, ix0, bk, align, heap, except, block);
      var c := FreeClass(Read(mem, block + 8));
      IndexShape(m0, ix0, bk0, align, heap, except);
      if heads[c] != block {
        var next, prev := Read(mem, block + 16), Read(mem, block);
        mem := Write(mem, prev + 16, next);
        if next != 0 {
          mem := Write(mem, next, prev);
        }
      } else {
        var next := Read(mem, block + 16);
        heads := heads[c := next];
        if next != 0 {
          mem := Write(mem, next, 0);
        } else {
          var index, slot := c / NUM_SLOTS, c % NUM_SLOTS;
          bitmap := bitmap[index := Bitmap.Clear(bitmap[index], slot)];
          if bitmap[index] == 0 {
            top := Bitmap.Clear(top, index);
          }
        }
      }
      bk := TakeBook(bk, c, k);
      TakeOk(m0, ix0, bk0, align, heap, except, c, k);
      TakeBookIs(bk0, c, k);
      TakeIs(m0, ix0, bk0, c, k);
      TakeHeaders(m0, ix0, bk0, align, heap, except, c, k);
    }

    /** stbm__medium_link: file a held block whose header carries bare tags. */
    method Link(block: nat, size: nat, ghost except: int)
      requires Healthy(except) && HeldBlock(bk, block) && bk.l.size[block] == size
      requires block in bk.l.base && block in bk.l.prev
      requires block != bk.l.base[block] ==> bk.l.prev[block] !in bk.free
      requires block + size !in bk.free
      requires Type(Read(mem, block + 8)) == 0 && !BlockAlloc(Read(mem, block + 8))
      modifies this`mem, this`heads, this`bitmap, this`top, this`bk
      ensures Healthy(except)
      ensures bk.l == old(bk.l) && bk.live == old(bk.live) && bk.free == old(bk.free) + {block as int}
      ensures Frame(old(mem), mem, bk.l, bk.live)
    {
      hide Core, PutBook, Frame, Read, FreeWord, AlignmentOk, Bitmap.Set, BlockAlloc, Type;
      hide FileClass, IndexSlotForFreeBlock, Putable, Accounted, IsTailOf;
      ghost var m0, ix0, bk0 := mem, Index(heads, bitmap, top), bk;
      PutableFromHeld(mem, ix0, bk, align, heap, except, block, size);
      PutableSize(bk, align, FileClass(size), block, size);
      IndexShape(mem, ix0, bk, align, heap, except);
      var at := if size >= SIZECLASS_MAX then IndexSlot(NUM_INDICES - 1,
                                                        NUM_SLOTS - 1) else IndexSlotForFreeBlock(size);
      var c := at.index * NUM_SLOTS + at.slot;
      assert c == FileClass(size) by { FileClassIs(size, at); }
      HeadIs(mem, ix0, bk, align, heap, except, c);
      mem := Write(mem, block + 8, FreeWord(Read(mem, block + 8), size, c));
      var list := heads[c];
      heads := heads[c := block];
      mem := Write(mem, block + 16, list);
      mem := Write(mem, block, 0);
      if list != 0 {
        mem := Write(mem, list, block);
      } else {
        top := Bitmap.Set(top, at.index);
        bitmap := bitmap[at.index := Bitmap.Set(bitmap[at.index], at.slot)];
      }
      mem := Write(mem, block + size - 8, size);
      bk := PutBook(bk, c, block);
      PutOk(m0, ix0, bk0, align, heap, except, c, block, size);
      PutBookIs(bk0, c, block);
      assert mem == PutMem(m0, bk0.lists, c, block, size);
      assert Index(heads, bitmap, top) == PutIndex(ix0, c, block);
    }

    /** The two-level bitmap search: the first nonempty class from the wanted one on. */
    method Search(want: IndexSlot, ghost except: int) returns (found: bool, index: nat, slot: nat)
      requires Healthy(except) && want.Valid()
      ensures found ==> index < NUM_INDICES && slot < NUM_SLOTS
      ensures found ==> FirstNonempty(bk.lists, want.Class(), index * NUM_SLOTS + slot)
      ensures !found ==> NoneFrom(bk.lists, want.Class())
    {
      hide Core, Bitmap.FindLeftmost, Bitmap.Has, AlignmentOk;
      BitmapsOf(mem, Index(heads, bitmap, top), bk, align, heap, except);
      found, index, slot := true, want.index, 0;
      RowScan(bitmap, top, bk.lists, want.index, want.slot);
      var r := Bitmap.FindLeftmost(bitmap[want.index], want.slot);
      if r < 32 {
        slot := r;
      } else {
        TopScan(bitmap, top, bk.lists, want.index + 1);
        var i := Bitmap.FindLeftmost(top, want.index + 1);
        if i < 32 {
          RowScan(bitmap, top, bk.lists, i, 0);
          RowNonempty(bitmap, top, bk.lists, i);
          index, slot := i, Bitmap.FindLeftmost(bitmap[i], 0);
        } else {
          found := false;
        }
      }
    }

    /** stbm__system_alloc_link. */
    method LinkSystem(s: nat, magic: nat)
      requires |ring| > 0 && ring[0] == heap + SENTINEL
      modifies this`mem, this`ring
      ensures mem == ListMem(old(mem), old(ring), s, magic) && ring == Ring.Inserted(old(ring), s)
    {
      hide Read;
      var sentinel := heap + SENTINEL;
      mem := Write(mem, s + 16, Read(mem, sentinel + 16));
      mem := Write(mem, s + 8, sentinel);
      mem := Write(mem, Read(mem, sentinel + 16) + 8, s);
      mem := Write(mem, sentinel + 16, s);
      mem := Write(mem, s, magic);
      ring := Ring.Inserted(ring, s);
    }

    /** stbm__system_alloc_unlink. */
    method UnlinkSystem(s: nat, magic: nat, ghost at: nat)
      requires 0 < at < |ring| && ring[at] == s && Read(mem, s) == magic
      requires forall i :: 0 <= i < |ring| ==> s != ring[i] + 8 && s != ring[i] + 16
      requires Ring.NodeOk(mem, SYS_LINKS, ring, at)
      modifies this`mem, this`ring
      ensures mem == Ring.UnlinkMem(old(mem), SYS_LINKS, s) && ring == Ring.Removed(old(ring), at)
    {
      hide Read;
      var next, prev := Read(mem, s + 16), Read(mem, s + 8);
      mem := Write(mem, next + 8, prev);
      mem := Write(mem, prev + 16, next);
      assert Read(mem, s) == magic;   // otherwise the block is corrupt
      ring := Ring.Removed(ring, at);
    }

    /** stbm__medium_init_chunk: surround the free region by phantom allocated blocks. */
    method InitChunk(s: nat, bytes: nat, ghost expected: nat) returns (block: nat, size: nat)
      requires Healthy(NONE) && Accounted() && s as int in others && s in system.owned
      requires system.owned[s] == bytes <= MAX_CHUNK
      requires expected % align == 0 && expected >= 32 && bytes >= expected + align + 256
      modifies this`mem, this`bk
      ensures Healthy(NONE)
      ensures block > 0 && size >= expected
      ensures bk == ChunkBook(old(bk), block, Chunk(s, bytes, block + size)) && HeldBlock(bk, block)
      ensures ChunkFits(align, block, Chunk(s, bytes, block + size)) && size + 2 * align + 80 > bytes
      ensures FreshRegion(old(bk.l), Chunk(s, bytes, block + size))
      ensures Frame(old(mem), mem, bk.l, bk.live)
    {
      hide Core, SysOk, Read, HeldBlock, ChunkBook, Frame, AlignAddress, FreshRegion, AlignmentOk, Multiple, ChunkMem;
      PendingPositive(mem, system.owned, heap, ring, cached, cachedSize, foreign, others, bk.l, s);
      ChunkFitsHere(s, bytes, align, alignLog, expected);
      ghost var m0, bk0 := mem, bk;
      ghost var k := Chunk(s, bytes, TailHeader(s, bytes, align));
      PendingFresh(mem, system.owned, heap, ring, cached, cachedSize, foreign, others, bk.l, s, k.tail);
      var ptr := AlignAddress(s + SYSTEM_HEADER + CHUNK_HEADER + HEADER, align, 0);
      mem := Write(mem, s + 24, ptr);
      mem := Write(mem, s + 40, bytes);
      block := ptr - HEADER;
      mem := Write(mem, block - 16, s);
      mem := Write(mem, block + 8, 0);
      ptr := AlignAddress(s + bytes - align, align, 0);
      mem := Write(mem, s + 32, ptr);
      var tail := ptr - HEADER;
      mem := Write(mem, tail + 8, BLOCK_ALLOC);
      size := tail - block;
      mem := Write(mem, block - 8, PRE_HEADER + size);
      bk := ChunkBook(bk, block, k);
      ChunkMemIs(m0, block, k);
      ChunkBookIs(bk0, block, k);
      AddChunkStep(m0, Index(heads, bitmap, top), bk0, align, heap, block, k);
    }

    /** Set a region in hand up as a chunk and put it on the system list. */
    method Install(s: nat, bytes: nat, ghost expected: nat) returns (block: nat, size: nat)
      requires Healthy(NONE) && Settled(bk) && Accounted() && s as int in others
      requires s in system.owned && system.owned[s] == bytes <= MAX_CHUNK
      requires expected % align == 0 && expected >= 32 && bytes >= expected + align + 256
      modifies this`mem, this`bk, this`ring, this`others
      ensures Healthy(NONE) && Accounted() && others == old(others) - {s as int}
      ensures block != 0 && HeldBlock(bk, block) && size >= expected && bk.l.size[block] == size
      ensures block in bk.l.base && bk.l.base[block] == block && block + size !in bk.free && block !in old(bk.l.size)
      ensures bk.live == old(bk.live) && bk.free == old(bk.free) && bk.lists == old(bk.lists)
      ensures SettledBut(bk, block) && bk == ChunkBook(old(bk), block, Chunk(s, bytes, block + size))
      ensures size + 2 * align + 80 > bytes
      ensures Quiet(old(mem), mem, old(bk.l), old(ring), bk.l, ring, bk.live)
    {
      hide Core, SysOk, Read, Frame, Quiet, Settled, SettledBut, AlignmentOk, FreshRegion, ListMem, Ring.Inserted;
      hide Multiple, OutsideChunks, ListWordsKept;
      ghost var m0, bk0, others0 := mem, bk, others;
      block, size := InitChunk(s, bytes, expected);
      ghost var m1, ring0 := mem, ring;
      ghost var k := Chunk(s, bytes, block + size);
      ChunkBookIs(bk0, block, k);
      CoreShape(m0, Index(heads, bitmap, top), bk0, align, heap, NONE);
      ChunkBookSettled(bk0, align, block, k);
      InstallAccounts(m0, m1, system.owned, heap, ring, cached, cachedSize, foreign, others, bk0, bk, align, s,
                      block, k);
      RingNonempty(mem, system.owned, heap, ring, cached, cachedSize, foreign, others, bk0.l);
      LinkSystem(s, MAGIC_MEDIUM);
      others := others - {s as int};
      InstallListed(m0, m1, system.owned, heap, ring0, cached, cachedSize, foreign, others0, bk0, bk, align, s,
                    block, k);
      ListedCore(m1, Index(heads, bitmap, top), bk, align, heap, mem);
    }

    /** Where the next chunk is to come from: the cached region if it is large enough (s), else a new region of so
        many bytes, for which the system must be asked; the cached region then goes back. */
    method Plan(expected: nat) returns (s: nat, bytes: nat)
      requires Valid() && expected <= SIZECLASS_MAX
      modifies system, this`curChunk, this`cached, this`cachedSize, this`others
      ensures Accounted() && expected + align + 256 <= bytes <= MAX_CHUNK
      ensures s == 0 ==> others == old(others)
      ensures s != 0 ==>
        s as int !in old(others) && others == old(others) + {s as int} && s in system.owned && system.owned[s] == bytes
      ensures Planned(expected + align + 256, maxChunk, s, bytes, old(curChunk), old(system.owned), old(cached),
                      old(cachedSize), curChunk, system.owned, cached, cachedSize)
      ensures RegionsKept(old(system.owned), system.owned, foreign)
      ensures RegionsKept(old(system.owned), system.owned, old(others))
      ensures system.refusals == old(system.refusals)
    {
      hide Core, SysOk, Settled, AlignmentOk;
      AlignmentFacts(align, alignLog);
      bytes := curChunk;
      var withOverhead := expected + align + 256;
      CachedFacts(mem, system.owned, heap, ring, cached, cachedSize, foreign, others, bk.l);
      if cachedSize >= (if bytes < withOverhead then withOverhead else bytes) {
        SysUncache(mem, system.owned, heap, ring, cached, cachedSize, foreign, others, bk.l);
        s, bytes := cached, cachedSize;
        cached, cachedSize := 0, 0;
        others := others + {s as int};
        return;
      }
      s := 0;
      if withOverhead > bytes {
        bytes := withOverhead;
      } else {
        curChunk := if curChunk * 2 < maxChunk then curChunk * 2 else maxChunk;
      }
      if cached != 0 {
        SysUncache(mem, system.owned, heap, ring, cached, cachedSize, foreign, others, bk.l);
        SysReturn(mem, system.owned, heap, ring, 0, 0, foreign, others + {cached as int}, bk.l, cached);
        assert others + {cached as int} - {cached as int} == others;
        system.Free(cached);
        cached, cachedSize := 0, 0;
      }
      assert system.owned == old(system.owned) - Cached(old(cached));
    }

    /** system_alloc, called without the lock: the region is in the caller's hands. */
    method Obtain(bytes: nat) returns (s: nat)
      requires Valid() && bytes >= SYSTEM_HEADER
      modifies system, this`others
      ensures Valid() && system.refusals == old(system.refusals) + if s == 0 then 1 else 0
      ensures s == 0 ==> system.owned == old(system.owned) && others == old(others)
      ensures s != 0 ==> s as int !in old(others) && others == old(others) + {s as int}
      ensures s != 0 ==> s !in old(system.owned) && system.owned == old(system.owned)[s as int := bytes]
    {
      hide Core, SysOk, Settled, AlignmentOk;
      ghost var before := system.owned;
      s := system.Alloc(bytes);
      if s != 0 {
        SysGrant(mem, before, heap, ring, cached, cachedSize, foreign, others, bk.l, s, bytes);
        others := others + {s as int};
      }
    }

    /** system_free, called without the lock, of a region in the caller's hands. */
    method Discard(s: nat)
      requires Valid() && s as int in others
      modifies system, this`others
      ensures Valid() && others == old(others) - {s as int} && s in old(system.owned)
      ensures system.owned == old(system.owned) - {s as int}
      ensures system.refusals == old(system.refusals)
    {
      hide Core, SysOk, Settled, AlignmentOk;
      CachedFacts(mem, system.owned, heap, ring, cached, cachedSize, foreign, others, bk.l);
      SysReturn(mem, system.owned, heap, ring, cached, cachedSize, foreign, others, bk.l, s);
      system.Free(s);
      others := others - {s as int};
    }

    /** Split a held block if the rest is big enough for a free block, then hand it to the caller. */
    method Carve(block: nat, size: nat, expected: nat, want: IndexSlot) returns (p: nat)
      requires Healthy(NONE) && Accounted() && SettledBut(bk, block)
      requires HeldBlock(bk, block) && bk.l.size[block] == size >= expected && block + size !in bk.free
      requires want.Valid() && expected == Size(want.index, want.slot) && expected % align == 0 && expected >= 32
      modifies this`mem, this`heads, this`bitmap, this`top, this`bk, this`count, this`bytes
      ensures Valid()
      ensures p == block + HEADER && bk.live == old(bk.live) + {block as int} && block in bk.l.size
      ensures bk.l.size[block] == expected || bk.l.size[block] == expected + EXTRA_SIZE
      ensures Carved(old(bk), bk, block) && bk.l.chunks == old(bk.l.chunks)
      ensures count == old(count) + 1 && bytes == old(bytes) + (bk.l.size[block] - HEADER)
      ensures Quiet(old(mem), mem, old(bk.l), ring, bk.l, ring, old(bk.live))
    {
      hide Core, SysOk, Read, Frame, Quiet, Settled, SettledBut, AlignmentOk, HeldBlock, Size;
      hide PutMem, CommitMem, CommitBook, Commitable, Carved, Split;
      ghost var m0, l0, live0, bk0 := mem, bk.l, bk.live, bk;
      CoreShape(mem, Index(heads, bitmap, top), bk, align, heap, NONE);
      var used := size;
      var minFree := if align > SMALLEST_BLOCK then align else SMALLEST_BLOCK;
      if size >= expected + minFree {
        used := SplitOff(block, size, expected);
      } else {
        NoResidue(mem, Index(heads, bitmap, top), bk, align, alignLog, heap, block, expected);
        SelfQuiet(m0, bk, ring, align);
      }
      HeldNotLive(bk, block);
      ghost var m1, l1 := mem, bk.l;
      p := Commit(block, used, expected, want);
      CarvedIs(bk0, bk, align, block, used);
      QuietTrans(m0, m1, mem, l0, ring, l1, ring, bk.l, ring, live0);
    }

    /** Set up the header of a held block of exactly the class size or EXTRA_SIZE more, and tell its successor. */
    method Commit(block: nat, used: nat, expected: nat, want: IndexSlot) returns (p: nat)
      requires Healthy(NONE) && Accounted() && SettledBut(bk, block)
      requires block in bk.l.size && HeldBlock(bk, block) && bk.l.size[block] == used
      requires used == expected || used == expected + EXTRA_SIZE
      requires want.Valid() && expected == Size(want.index, want.slot) && expected >= 32
      modifies this`mem, this`bk, this`count, this`bytes
      ensures Valid()
      ensures p == block + HEADER && bk.live == old(bk.live) + {block as int} && bk.l == old(bk.l)
      ensures bk.free == old(bk.free)
      ensures count == old(count) + 1 && bytes == old(bytes) + (used - HEADER)
      ensures Quiet(old(mem), mem, bk.l, ring, bk.l, ring, old(bk.live))
    {
      hide Core, SysOk, Read, Quiet, Settled, SettledBut, AlignmentOk, HeldBlock, Size;
      hide AllocWord, SetPrevious, CommitBook, Write;
      ghost var m0, bk0 := mem, bk;
      count, bytes := count + 1, bytes + (used - HEADER);
      var extra := if used == expected + EXTRA_SIZE then 1 else 0;
      mem := Write(mem, block, heap);
      mem := Write(mem, block + 8, AllocWord(Read(mem, block + 8), want.index, want.slot, extra));
      mem := Write(mem, block + used + 8, SetPrevious(Read(mem, block + used + 8)));
      CommitStep(m0, mem, Index(heads, bitmap, top), bk0, align, heap, block, used, want, extra, system.owned, ring,
                 cached, cachedSize, foreign, others);
      bk := CommitBook(bk, block);
      p := block + HEADER;
    }

    /** The split: the remainder becomes a free block of its own. */
    method SplitOff(block: nat, size: nat, expected: nat) returns (used: nat)
      requires Healthy(NONE) && Accounted() && SettledBut(bk, block)
      requires HeldBlock(bk, block) && bk.l.size[block] == size && block + size !in bk.free
      requires expected % align == 0 && expected >= 32 && size >= expected + SMALLEST_BLOCK && size >= expected + align
      modifies this`mem, this`heads, this`bitmap, this`top, this`bk
      ensures Healthy(NONE) && Accounted() && SettledBut(bk, block)
      ensures used == expected && HeldBlock(bk, block) && bk.l.size[block] == used
      ensures bk.live == old(bk.live) && block in old(bk.l.base) && bk.free == old(bk.free) + {block + used}
      ensures bk.l == Split(old(bk.l), block, block + used, block + size)
      ensures Quiet(old(mem), mem, old(bk.l), ring, bk.l, ring, bk.live)
    {
      hide Core, SysOk, Read, Frame, Quiet, Settled, SettledBut, AlignmentOk, HeldBlock, Multiple, AlignAddress;
      hide Type, BlockAlloc, Write, SplitBook, Split;
      ghost var m0, bk0, ix0 := mem, bk, Index(heads, bitmap, top);
      SplitPoint(mem, ix0, bk, align, alignLog, heap, block, expected);
      var ptr := AlignAddress(block + expected + HEADER, align, 0);
      var split := ptr - HEADER;
      var rest := block + size - split;
      used := split - block;
      mem := Write(mem, split + 8, 0);
      SplitOk(m0, ix0, bk0, align, heap, block, split, block + size);
      CoreShape(m0, ix0, bk0, align, heap, NONE);
      SplitBookIs(bk0, align, block, split, block + size);
      bk := SplitBook(bk, block, split, block + size);
      ghost var m1, bk1 := mem, bk;
      CoreShape(mem, ix0, bk, align, heap, NONE);
      TagLits();
      WroteWord(m0, split + 8, 0);
      Link(split, rest, NONE);
      LinkSettles(bk1, bk, split, block);
      LinkedIsQuiet(m0, m1, mem, system.owned, heap, ring, cached, cachedSize, foreign, others, bk0, bk1, bk, align);
    }

    /** Take the head of a nonempty list off the index. */
    method TakeHead(index: nat, slot: nat, ghost c: nat, ghost expected: nat) returns (block: nat, size: nat)
      requires Valid() && index < NUM_INDICES && slot < NUM_SLOTS && c < NUM_CLASSES && expected == ClassSize(c)
      requires FirstNonempty(bk.lists, c, index * NUM_SLOTS + slot)
      modifies this`mem, this`heads, this`bitmap, this`top, this`bk
      ensures Healthy(NONE) && Accounted() && SettledBut(bk, block)
      ensures HeldBlock(bk, block) && bk.l.size[block] == size >= expected && block + size !in bk.free
      ensures block == old(bk.lists)[index * NUM_SLOTS + slot][0]
      ensures bk.l == old(bk.l) && bk.live == old(bk.live)
      ensures block in old(bk.free) && bk.free == old(bk.free) - {block as int}
      ensures Quiet(old(mem), mem, old(bk.l), ring, bk.l, ring, bk.live)
    {
      hide Core, SysOk, Read, Frame, Quiet, Settled, SettledBut, AlignmentOk, HeldBlock, FreeBytes, ClassSize;
      hide FirstNonempty;
      ghost var m0, bk0, ix0 := mem, bk, Index(heads, bitmap, top);
      IndexShape(mem, ix0, bk, align, heap, NONE);
      HeadIsFree(mem, ix0, bk, align, heap, c, index * NUM_SLOTS + slot);
      block := heads[index * NUM_SLOTS + slot];
      size := FreeBytes(Read(mem, block + 8));
      Unlink(block, NONE);
      CoreShape(m0, ix0, bk0, align, heap, NONE);
      TakenFacts(bk0, bk, align, block);
      SelfQuiet(m0, bk0, ring, align);
      StepQuiet(m0, m0, mem, system.owned, heap, ring, cached, cachedSize, foreign, others, bk0.l, bk0, bk0.live,
                align);
    }

    /** A held block of at least the wanted class: the head of the first nonempty list from there on, or a chunk set
        up in the cached region; else 0, and how large a region to ask the system for. */
    method Pick(want: IndexSlot, expected: nat) returns (block: nat, size: nat, ask: nat)
      requires Valid() && want.Valid() && expected == ClassSize(want.Class()) && expected % align == 0
      requires 32 <= expected <= SIZECLASS_MAX
      modifies system, this`mem, this`heads, this`bitmap, this`top, this`bk, this`ring, this`curChunk, this`cached,
          this`cachedSize, this`others
      ensures Healthy(NONE) && Accounted() && others == old(others)
      ensures block == 0 ==> Valid() && mem == old(mem) && bk == old(bk) && ring == old(ring)
      ensures block == 0 ==>
        NoneFrom(old(bk.lists), want.Class()) && expected + align + 256 <= ask <= MAX_CHUNK && ask >= SYSTEM_HEADER
      ensures block != 0 ==>
        && HeldBlock(bk, block) && bk.l.size[block] == size >= expected && block + size !in bk.free
          && SettledBut(bk, block)
        && bk.live == old(bk.live) && Picked(old(bk), bk, block) && GoodFit(old(bk), want.Class(), block)
        && (block !in old(bk.l.size) ==> Roomy(bk.l, align, block, old(curChunk)))
        && Quiet(old(mem), mem, old(bk.l), old(ring), bk.l, ring, bk.live)
      ensures Supplied(NoneFrom(old(bk.lists), want.Class()), expected + align + 256, maxChunk, block, ask,
                       ChunkAt(bk.l, block), old(curChunk), old(system.owned), old(cached), old(cachedSize), old(ring),
                       curChunk, system.owned, cached, cachedSize, ring)
      ensures block != 0 && NoneFrom(old(bk.lists), want.Class()) ==> ChunkAt(bk.l, block).sys != 0
      ensures RegionsKept(old(system.owned), system.owned, foreign)
      ensures RegionsKept(old(system.owned), system.owned, others)
      ensures system.refusals == old(system.refusals)
    {
      hide Core, SysOk, Read, Quiet, Settled, SettledBut, AlignmentOk, HeldBlock, ClassSize, ChunkAt, RegionsKept;
      hide Planned;
      hide FirstNonempty, NoneFrom, GoodFit;
      ghost var bk0, cur0, owned0, cached0, cachedSize0 := bk, curChunk, system.owned, cached, cachedSize;
      ask := 0;
      CachedFacts(mem, system.owned, heap, ring, cached, cachedSize, foreign, others, bk.l);
      OwnedKept(system.owned, foreign);
      OwnedKept(system.owned, others);
      CoreShape(mem, Index(heads, bitmap, top), bk, align, heap, NONE);
      var found, index, slot := Search(want, NONE);
      if found {
        block, size := TakeHead(index, slot, want.Class(), expected);
        AddressPositive(bk.l, align, block) by { HeldNotLive(bk, block); }
        FoundIsGoodFit(bk0, want.Class(), index * NUM_SLOTS + slot);
        FoundIsSome(bk0.lists, want.Class(), index * NUM_SLOTS + slot);
      } else {
        var s, bytes := Plan(expected);
        if s == 0 {
          return 0, 0, bytes;
        }
        block, size := Install(s, bytes, expected);
        assert others == old(others);
        ChunkBookHas(bk0, block, Chunk(s, bytes, block + size));
        PlannedLeast(expected + align + 256, maxChunk, s, bytes, cur0, owned0, cached0, cachedSize0, curChunk,
                     system.owned, cached, cachedSize);
        NewIsGoodFit(bk0, want.Class(), block);
        FreshNotFree(bk0, align, block);
        ChunkAtIs(bk.l, block);
      }
    }

    /** The first critical section of stbm__medium_alloc: good fit from the lists, or from the cached chunk; else 0,
        and the size of the region to ask the system for. */
    method Begin(size: nat, ghost me: nat) returns (p: nat, ask: nat)
      requires Valid() && lock.HeldBy(me) && 0 < size < WORD64 - 0x10_0000 && Servable(size, align)
      modifies system, lock, this`mem, this`heads, this`bitmap, this`top, this`bk, this`ring, this`curChunk,
          this`cached, this`cachedSize, this`count, this`bytes, this`others
      ensures Valid() && lock.Free() && others == old(others)
      ensures p == 0 ==>
        mem == old(mem) && bk == old(bk) && ring == old(ring) && count == old(count) && bytes == old(bytes)
      ensures p == 0 ==> NoneFrom(old(bk.lists), WantOf(size, align).Class())
      ensures p == 0 ==>
        ClassSize(WantOf(size, align).Class()) + align + 256 <= ask <= MAX_CHUNK && ask >= SYSTEM_HEADER
      ensures p == 0 ==> ask >= old(curChunk)
      ensures p == 0 && ask > old(curChunk) ==>
        ask == ClassSize(WantOf(size, align).Class()) + align + 256 && curChunk == old(curChunk)
      ensures p == 0 && ask == old(curChunk) ==>
        curChunk <= maxChunk && curChunk <= old(curChunk) * 2 && (curChunk == maxChunk || curChunk == old(curChunk) * 2)
      ensures p == 0 ==>
        old(cachedSize) < ask && cached == 0 && system.owned == old(system.owned) - Cached(old(cached))
      ensures p != 0 ==> curChunk == old(curChunk) && system.owned == old(system.owned)
      ensures p != 0 && !NoneFrom(old(bk.lists), WantOf(size, align).Class()) ==> cached == old(cached)
      ensures p != 0 && NoneFrom(old(bk.lists), WantOf(size, align).Class()) ==>
        cached == 0 && ChunkAt(bk.l, p - HEADER).sys == old(cached) && old(cachedSize) >= old(curChunk)
      ensures p != 0 && p - HEADER !in old(bk.l.size) ==> Roomy(bk.l, align, p - HEADER, old(curChunk))
      ensures p != 0 ==>
        p >= HEADER && p % align == 0 && Allocated(old(bk), bk, p - HEADER, size, WantOf(size, align).Class())
      ensures p != 0 ==> count == old(count) + 1 && bytes == old(bytes) + (bk.l.size[p - HEADER] - HEADER)
      ensures p != 0 ==> Quiet(old(mem), mem, old(bk.l), old(ring), bk.l, ring, old(bk.live))
      ensures Supplied(NoneFrom(old(bk.lists), WantOf(size, align).Class()),
                       ClassSize(WantOf(size, align).Class()) + align + 256, maxChunk, p, ask,
                       ChunkAt(bk.l, p - HEADER), old(curChunk), old(system.owned), old(cached), old(cachedSize),
                       old(ring), curChunk, system.owned, cached, cachedSize, ring)
      ensures RegionsKept(old(system.owned), system.owned, foreign)
      ensures RegionsKept(old(system.owned), system.owned, others)
      ensures system.refusals == old(system.refusals)
    {
      hide *;
      ValidIs();
      ghost var m0, bk0, ring0 := mem, bk, ring;
      ExpectedFacts(size, align, alignLog);
      ClassOfWant(size, align);
      var want := WantOf(size, align);
      CachedFacts(mem, system.owned, heap, ring, cached, cachedSize, foreign, others, bk.l);
      var block, have;
      block, have, ask := Pick(want, Size(want.index, want.slot));
      if block == 0 {
        SuppliedLeast(NoneFrom(bk0.lists, want.Class()), ClassSize(want.Class()) + align + 256, maxChunk, ask,
                      ChunkAt(bk.l, block), old(curChunk), old(system.owned), old(cached), old(cachedSize), ring0,
                      curChunk, system.owned, cached, cachedSize, ring);
        SuppliedNothing(NoneFrom(bk0.lists, want.Class()), ClassSize(want.Class()) + align + 256, maxChunk, ask,
                        ChunkAt(bk.l, block), ChunkAt(bk.l, 0 - HEADER), old(curChunk), old(system.owned), old(cached),
                        old(cachedSize), ring0, curChunk, system.owned, cached, cachedSize, ring);
        SuppliedIs(NoneFrom(bk0.lists, want.Class()), ClassSize(want.Class()) + align + 256, maxChunk, 0, ask,
                   ChunkAt(bk.l, 0 - HEADER), old(curChunk), old(system.owned), old(cached), old(cachedSize), ring0,
                   curChunk, system.owned, cached, cachedSize, ring);
        lock.Unlock(me);
        return 0, ask;
      }
      HeldNotLive(bk, block);
      ghost var m1, bk1, ring1 := mem, bk, ring;
      p := Carve(block, have, Size(want.index, want.slot), want);
      StaysRoomy(bk1, bk, align, block, old(curChunk));
      AllocatedIs(bk0, bk1, bk, block, size, want.Class());
      SuppliedSome(NoneFrom(bk0.lists, want.Class()), ClassSize(want.Class()) + align + 256, maxChunk, block, p, ask,
                   ChunkAt(bk.l, block), old(curChunk), old(system.owned), old(cached), old(cachedSize), ring0,
                   curChunk, system.owned, cached, cachedSize, ring);
      SuppliedIs(NoneFrom(bk0.lists, want.Class()), ClassSize(want.Class()) + align + 256, maxChunk, p, ask,
                 ChunkAt(bk.l, block), old(curChunk), old(system.owned), old(cached), old(cachedSize), ring0,
                 curChunk, system.owned, cached, cachedSize, ring);
      SameChunkAt(bk1.l, bk.l, block);
      QuietTrans(m0, m1, mem, bk0.l, ring0, bk1.l, ring1, bk.l, ring, bk0.live);
      ValidIs();
      LiveIsAligned(mem, Index(heads, bitmap, top), bk, align, alignLog, heap, block);
      lock.Unlock(me);
    }

    /** The second critical section of stbm__medium_alloc, and the set-up of the new chunk before it: whatever became
        of the heap meanwhile, the request is served from the region in hand. */
    method Complete(s: nat, region: nat, size: nat, ghost me: nat) returns (p: nat)
      requires Valid() && lock.HeldBy(me) && 0 < size < WORD64 - 0x10_0000 && Servable(size, align)
      requires s as int in others && s in system.owned && system.owned[s] == region <= MAX_CHUNK
      requires region >= ClassSize(WantOf(size, align).Class()) + align + 256
      modifies lock, this`mem, this`heads, this`bitmap, this`top, this`bk, this`ring, this`count, this`bytes,
          this`others
      ensures Valid() && lock.Free() && others == old(others) - {s as int}
      ensures p >= HEADER && p != 0 && p % align == 0 && p - HEADER !in old(bk.l.size)
      ensures Granted(old(bk), bk, p - HEADER, size, WantOf(size, align).Class())
      ensures p - HEADER in bk.l.chunks && bk.l.chunks[p - HEADER].sys == s && bk.l.chunks[p - HEADER].bytes == region
      ensures Roomy(bk.l, align, p - HEADER, region)
      ensures count == old(count) + 1 && bytes == old(bytes) + (bk.l.size[p - HEADER] - HEADER)
      ensures Quiet(old(mem), mem, old(bk.l), old(ring), bk.l, ring, old(bk.live))
    {
      hide *;
      ValidIs();
      ghost var m0, bk0, ring0 := mem, bk, ring;
      ExpectedFacts(size, align, alignLog);
      ClassOfWant(size, align);
      var want := WantOf(size, align);
      var block, have := Install(s, region, Size(want.index, want.slot));
      HeldNotLive(bk, block);
      ghost var m1, bk1, ring1 := mem, bk, ring;
      PickedNew(bk0, bk1, align, block, Chunk(s, region, block + have));
      NewRoomy(bk0, align, block, Chunk(s, region, block + have));
      p := Carve(block, have, Size(want.index, want.slot), want);
      StaysRoomy(bk1, bk, align, block, region);
      GrantedIs(bk0, bk1, bk, block, size, want.Class());
      QuietTrans(m0, m1, mem, bk0.l, ring0, bk1.l, ring1, bk.l, ring, bk0.live);
      ValidIs();
      LiveIsAligned(mem, Index(heads, bitmap, top), bk, align, alignLog, heap, block);
      lock.Unlock(me);
    }

    /** stbm__medium_alloc: good fit from the lists, or a new chunk; 0 when the system has no memory. */
    method Alloc(size: nat) returns (p: nat)
      requires Valid() && lock.Free() && 0 < size < WORD64 - 0x10_0000 && Servable(size, align)
      modifies system, lock, this`mem, this`heads, this`bitmap, this`top, this`bk, this`ring, this`curChunk,
          this`cached, this`cachedSize, this`count, this`bytes, this`others
      ensures Valid() && lock.Free() && others == old(others)
      ensures p == 0 ==>
        mem == old(mem) && bk == old(bk) && ring == old(ring) && count == old(count) && bytes == old(bytes)
      ensures p == 0 ==> NoneFrom(old(bk.lists), WantOf(size, align).Class())
      ensures p != 0 ==>
        p >= HEADER && p % align == 0 && Allocated(old(bk), bk, p - HEADER, size, WantOf(size, align).Class())
      ensures p != 0 ==> count == old(count) + 1 && bytes == old(bytes) + (bk.l.size[p - HEADER] - HEADER)
      ensures p != 0 ==> Quiet(old(mem), mem, old(bk.l), old(ring), bk.l, ring, old(bk.live))
      ensures p != 0 && p - HEADER !in old(bk.l.size) ==> Roomy(bk.l, align, p - HEADER, old(curChunk))
      ensures RegionsKept(old(system.owned), system.owned, foreign)
      ensures system.refusals == old(system.refusals) + if p == 0 then 1 else 0
    {
      hide *;
      ghost var bk0, owned0, others0 := bk, system.owned, others;
      ValidIs();
      CachedFacts(mem, system.owned, heap, ring, cached, cachedSize, foreign, others, bk.l);
      ExpectedFacts(size, align, alignLog);
      var ask;
      lock.Acquire(0);
      p, ask := Begin(size, 0);
      if p != 0 {
        return;
      }
      ghost var owned1 := system.owned;
      var s := Obtain(ask);
      if s == 0 {
        return 0;
      }
      KeptGrant(owned0, owned1, foreign, s, ask);
      lock.Acquire(0);
      p := Complete(s, ask, size, 0);
      RoomyLess(bk.l, align, p - HEADER, ask, old(curChunk));
      assert others == others0;
      NewIsGoodFit(bk0, WantOf(size, align).Class(), p - HEADER);
      GrantedGoodFit(bk0, bk, p - HEADER, size, WantOf(size, align).Class());
    }

    /** The block being freed leaves the live set and absorbs its physical successor if that is free. */
    method MergeNext(block: nat, size: nat) returns (merged: nat, ghost except: int)
      requires Valid() && block in bk.live && block in bk.l.size && bk.l.size[block] == size
      modifies this`mem, this`heads, this`bitmap, this`top, this`bk
      ensures Healthy(except) && Accounted() && SettledBut(bk, block)
      ensures MergedNext(old(bk), bk, block, merged)
      ensures (except == NONE || except == block + merged) && merged >= 32
      ensures Quiet(old(mem), mem, old(bk.l), ring, bk.l, ring, bk.live)
      ensures Read(mem, block + 8) == old(Read(mem, block + 8))
    {
      hide Core, SysOk, Read, Frame, Quiet, Settled, SettledBut, AlignmentOk, HeldBlock, FreeBytes, BlockAlloc;
      hide MergedNext;
      ghost var m0, bk0, ix0 := mem, bk, Index(heads, bitmap, top);
      CoreShape(mem, ix0, bk, align, heap, NONE);
      FollowKind(mem, ix0, bk, align, heap, block);
      ReleaseOk(mem, ix0, bk, align, heap, block);
      bk := bk.(live := bk.live - {block as int});
      ghost var bk1 := bk;
      CoreShape(mem, ix0, bk, align, heap, block + size);
      merged := size;
      except := block + size;
      ReleaseQuiet(mem, bk0, bk1, ring, align, block);
      ReleaseSettles(bk0, bk1, block);
      var follow := block + size;
      if !BlockAlloc(Read(mem, follow + 8)) {
        var blocksize := FreeBytes(Read(mem, follow + 8));
        Unlink(follow, except);
        ghost var bk2 := bk;
        HeldStill(bk1, bk2, block);
        assert HeadersKept(m0, mem, bk1.l);
        CoreShape(mem, Index(heads, bitmap, top), bk2, align, heap, except);
        UnlinkQuiet(m0, mem, system.owned, heap, ring, cached, cachedSize, foreign, others, bk0, bk1, align, follow,
                    block);
        AbsorbOk(mem, Index(heads, bitmap, top), bk2, align, heap, except, block, follow, follow + blocksize);
        AbsorbFacts(m0, mem, bk0.l, bk2, align, ring, block, follow, follow + blocksize);
        bk := AbsorbBook(bk, block, follow, follow + blocksize);
        merged := merged + blocksize;
        except := NONE;
        MergedWithNext(bk0, bk1, bk2, bk, align, block, follow, blocksize);
        AbsorbAccounts(mem, system.owned, heap, ring, cached, cachedSize, foreign, others, bk2, bk);
      } else {
        MergedAlone(bk0, bk1, align, block);
        AbsorbAccounts(mem, system.owned, heap, ring, cached, cachedSize, foreign, others, bk0, bk);
      }
    }

    /** ... and is absorbed by its physical predecessor if that is free. */
    method MergePrevious(block: nat, prevLength: nat, size: nat, ghost except: int) returns (merged: nat)
      requires Healthy(except) && Accounted() && SettledBut(bk, block) && (except == NONE || except == block + size)
      requires HeldBlock(bk, block) && bk.l.size[block] == size >= 32 && block + size !in bk.free
      requires block in bk.l.base && block in bk.l.prev && block != bk.l.base[block]
      requires var p := bk.l.prev[block];
        p in bk.free && p in bk.l.size && bk.l.size[p] == prevLength && p + prevLength == block && p > 0
      modifies this`mem, this`heads, this`bitmap, this`top, this`bk
      ensures Healthy(except) && Accounted() && SettledBut(bk, block - prevLength)
      ensures merged == prevLength + size && block >= prevLength
      ensures MergedPrevious(old(bk), bk, block - prevLength, block, merged)
      ensures Quiet(old(mem), mem, old(bk.l), ring, bk.l, ring, bk.live)
    {
      hide Core, SysOk, Read, Frame, Quiet, Settled, SettledBut, AlignmentOk, MergedPrevious, HeadersKept;
      ghost var m0, bk0, ix0 := mem, bk, Index(heads, bitmap, top);
      CoreShape(mem, ix0, bk, align, heap, except);
      var prev := block - prevLength;
      Unlink(prev, except);
      ghost var bk1 := bk;
      CoreShape(mem, Index(heads, bitmap, top), bk1, align, heap, except);
      UnlinkQuiet(m0, mem, system.owned, heap, ring, cached, cachedSize, foreign, others, bk0, bk0, align, prev, block);
      merged := prevLength + size;
      AbsorbOk(mem, Index(heads, bitmap, top), bk1, align, heap, except, prev, block, block + size);
      AbsorbFacts(m0, mem, bk0.l, bk1, align, ring, prev, block, block + size);
      bk := AbsorbBook(bk, prev, block, block + size);
      MergedWithPrevious(bk0, bk1, bk, align, prev, block, size);
      AbsorbAccounts(mem, system.owned, heap, ring, cached, cachedSize, foreign, others, bk1, bk);
    }

    /** The merged block gets bare tags, its successor's PREVIOUS bit is cleared, and it is filed. */
    method Settle(block: nat, size: nat, tag: nat, ghost except: int)
      requires Healthy(except) && Accounted() && SettledBut(bk, block) && (except == NONE || except == block + size)
      requires HeldBlock(bk, block) && bk.l.size[block] == size >= 32 && block + size !in bk.free
      requires block in bk.l.base && block in bk.l.prev && (tag == 0 || tag == PREVIOUS_ALLOC)
      requires block != bk.l.base[block] ==>
        bk.l.prev[block] !in bk.free && (tag == PREVIOUS_ALLOC <==> bk.l.prev[block] in bk.live)
      modifies this`mem, this`heads, this`bitmap, this`top, this`bk
      ensures Valid()
      ensures bk.l == Retagged(old(bk.l), block, tag)
      ensures bk.live == old(bk.live) && bk.free == old(bk.free) + {block as int}
      ensures Quiet(old(mem), mem, old(bk.l), ring, bk.l, ring, bk.live)
    {
      hide Core, SysOk, Read, Frame, Quiet, Settled, SettledBut, AlignmentOk, Type, BlockAlloc, ClearPrevious;
      ghost var m0, ix0 := mem, Index(heads, bitmap, top);
      CoreShape(mem, ix0, bk, align, heap, except);
      NextPrev(bk, align, block, block + size);
      RetagOk(mem, ix0, bk, align, heap, except, block, tag);
      TaggedFacts(m0, system.owned, heap, ring, cached, cachedSize, foreign, others, bk, block, tag);
      ghost var l0 := bk.l;
      bk := TagBook(bk, block, tag);
      ghost var bk0 := bk;
      mem := Write(mem, block + 8, tag);
      CoreShape(mem, ix0, bk, align, heap, except);
      WroteWord(m0, block + 8, tag);
      ghost var m1 := mem;
      ClearOk(mem, ix0, bk, align, heap, except, block + size);
      mem := Write(mem, block + size + 8, ClearPrevious(Read(mem, block + size + 8)));
      ghost var m2 := mem;
      OtherWord(m1, block + size + 8, ClearPrevious(Read(m1, block + size + 8)), block + 8);
      Link(block, size, NONE);
      FrameTrans(m0, m1, m2, bk0.l, bk0.live);
      FrameTrans(m0, m2, mem, bk0.l, bk0.live);
      UnlinkQuiet(m0, mem, system.owned, heap, ring, cached, cachedSize, foreign, others, bk0, bk0, align, block,
                  block);
      FiledSettles(bk0, bk, block);
      TaggedQuiet(m0, mem, l0, block, tag, ring, bk.live);
    }

    /** A chunk that is one held block comes off the list, and its region into the caller's hands. */
    method Unlist(block: nat, ghost except: int) returns (s: nat)
      requires Healthy(except) && Accounted() && SettledBut(bk, block)
      requires HeldBlock(bk, block) && block in bk.l.base && bk.l.base[block] == block && block in bk.l.chunks
      requires block + bk.l.size[block] == bk.l.chunks[block].tail
      requires except == NONE || except == bk.l.chunks[block].tail
      modifies this`mem, this`bk, this`ring, this`others
      ensures Valid() && bk == DropBook(old(bk), block)
      ensures s == old(bk.l.chunks)[block].sys && s != 0 && Read(mem, s + 40) == old(bk.l.chunks)[block].bytes
      ensures s as int !in old(others) && others == old(others) + {s as int}
      ensures s in system.owned && system.owned[s] == old(bk.l.chunks)[block].bytes <= MAX_CHUNK
      ensures Quiet(old(mem), mem, old(bk.l), old(ring), bk.l, ring, bk.live)
    {
      hide Core, SysOk, Read, Frame, Quiet, Settled, SettledBut, AlignmentOk, HeldBlock, DropBook, Ring.NodeOk;
      hide Ring.UnlinkMem, Ring.Removed, SameInside, Write;
      ghost var m0, bk0, ring0, ix0, others0 := mem, bk, ring, Index(heads, bitmap, top), others;
      CoreShape(mem, ix0, bk, align, heap, except);
      ghost var at := ChunkPlace(mem, ix0, system.owned, heap, ring, cached, cachedSize, foreign, others, bk, align,
                                 except, block);
      DropOk(mem, ix0, bk, align, heap, except, block);
      s := Read(mem, block - 16);
      bk := DropBook(bk, block);
      CoreShape(mem, ix0, bk, align, heap, NONE);
      UnlinkSystem(s, MAGIC_MEDIUM, at);
      others := others + {s as int};
      ReleasedFacts(m0, system.owned, heap, ring0, cached, cachedSize, foreign, others0, bk0, bk, align, block, at);
      ListedCore(m0, ix0, bk, align, heap, mem);
      DropSettles(bk0, bk, align, block);
    }

    /** stbm__medium_free_chunk, which releases the lock for its caller: the chunk's region is cached, or is in the
        caller's hands to be returned. */
    method ReleaseChunk(block: nat, ghost except: int, ghost me: nat) returns (s: nat)
      requires lock.HeldBy(me) && Healthy(except) && Accounted() && SettledBut(bk, block)
      requires HeldBlock(bk, block) && block in bk.l.base && bk.l.base[block] == block && block in bk.l.chunks
      requires block + bk.l.size[block] == bk.l.chunks[block].tail
      requires except == NONE || except == bk.l.chunks[block].tail
      modifies lock, this`mem, this`bk, this`ring, this`cached, this`cachedSize, this`others
      ensures Valid() && lock.Free()
      ensures bk == DropBook(old(bk), block)
      ensures Retired(policy, old(bk.l.chunks), bk.l.chunks, block, s, old(cached), old(cachedSize), cached, cachedSize)
      ensures InHand(old(others), others, s)
      ensures policy == CacheOne && old(cached) == 0 ==>
        s == 0 && cached == old(bk.l.chunks)[block].sys && cachedSize == old(bk.l.chunks)[block].bytes
      ensures policy != CacheOne || old(cached) != 0 ==>
        s == old(bk.l.chunks)[block].sys && cached == old(cached) && cachedSize == old(cachedSize)
      ensures Quiet(old(mem), mem, old(bk.l), old(ring), bk.l, ring, bk.live)
    {
      hide Core, SysOk, Read, Quiet, Settled, SettledBut, AlignmentOk, HeldBlock, DropBook;
      ghost var bk0, others0 := bk, others;
      s := Unlist(block, except);
      CachedFacts(mem, system.owned, heap, ring, cached, cachedSize, foreign, others, bk.l);
      DropGone(bk0, block);
      if policy == CacheOne && cached == 0 {
        cached := s;
        cachedSize := Read(mem, s + 40);
        SysCache(mem, system.owned, heap, ring, foreign, others, bk.l, s);
        others := others - {s as int};
        assert others == others0;
        s := 0;
        lock.Unlock(me);
        return;
      }
      lock.Unlock(me);
    }

    /** The extent of a live block, decoded from its header word. */
    method BlockSize(block: nat) returns (size: nat)
      requires Valid() && block in bk.live
      ensures block in bk.l.size && size == bk.l.size[block] && size >= 32 && block > 0
    {
      hide Core, SysOk, Read, Settled, AlignmentOk, SizeData, SizeDataIndex, SizeDataSlot, SizeDataExtra, Size;
      LiveSize(mem, Index(heads, bitmap, top), bk, align, heap, block);
      var sizeData := SizeData(Read(mem, block + 8));
      size := Size(SizeDataIndex(sizeData), SizeDataSlot(sizeData));
      if SizeDataExtra(sizeData) == 1 {
        size := size + EXTRA_SIZE;
      }
    }

    /** The critical section of stbm__medium_free: coalesce with free neighbours and file the result, or take a wholly
        free chunk off the list; s is its region, if it is to go back to the system. */
    method Release(ptr: nat, ghost me: nat) returns (s: nat)
      requires Valid() && lock.HeldBy(me) && ptr >= HEADER && ptr - HEADER in bk.live
      modifies lock, this`mem, this`heads, this`bitmap, this`top, this`bk, this`ring, this`cached, this`cachedSize,
          this`count, this`bytes, this`others
      ensures Valid() && lock.Free()
      ensures Freed(old(bk), bk, ptr - HEADER, policy != CacheAll && !old(PreviousAlloc(Read(mem, ptr - 8))))
      ensures Retired(policy, old(bk.l.chunks), bk.l.chunks, ptr - HEADER, s, old(cached), old(cachedSize), cached,
                      cachedSize)
      ensures InHand(old(others), others, s)
      ensures ptr - HEADER in old(bk.l.size) && count == old(count) - 1
      ensures bytes == old(bytes) - (old(bk.l.size)[ptr - HEADER] - HEADER)
      ensures Quiet(old(mem), mem, old(bk.l), old(ring), bk.l, ring, bk.live)
    {
      hide Core, SysOk, Read, Frame, Quiet, Settled, SettledBut, AlignmentOk, HeldBlock, PreviousAlloc, SizeData;
      hide Freed, MergedNext, MergedPrevious, Retired, InHand, Rejoined, SpinLock.Free, SpinLock.HeldBy;
      ghost var m0, bk0, ring0, ix0 := mem, bk, ring, Index(heads, bitmap, top);
      var block := ptr - HEADER;
      var size := BlockSize(block);
      count, bytes := count - 1, bytes - (size - HEADER);
      ghost var except;
      size, except := MergeNext(block, size);
      ghost var m1, bk1 := mem, bk;
      MergedNextFacts(bk0, bk1, block, size);
      s := Rejoin(block, size, except, me);
      RejoinedIsFreed(bk0, bk1, bk, block, size, policy != CacheAll && !PreviousAlloc(Read(m1, block + 8)));
      QuietTrans(m0, m1, mem, bk0.l, ring0, bk1.l, ring0, bk.l, ring, bk.live);
    }

    /** stbm__medium_free. */
    method Free(ptr: nat)
      requires Valid() && lock.Free() && ptr >= HEADER && ptr - HEADER in bk.live
      modifies system, lock, this`mem, this`heads, this`bitmap, this`top, this`bk, this`ring, this`cached,
          this`cachedSize, this`count, this`bytes, this`others
      ensures Valid() && lock.Free() && others == old(others)
      ensures Freed(old(bk), bk, ptr - HEADER, policy != CacheAll && !old(PreviousAlloc(Read(mem, ptr - 8))))
      ensures ptr - HEADER in old(bk.l.size) && count == old(count) - 1
      ensures bytes == old(bytes) - (old(bk.l.size)[ptr - HEADER] - HEADER)
      ensures Quiet(old(mem), mem, old(bk.l), old(ring), bk.l, ring, bk.live)
      ensures ptr - HEADER !in old(bk.l.chunks) || ptr - HEADER in bk.l.chunks ==>
        system.owned == old(system.owned) && cached == old(cached) && cachedSize == old(cachedSize)
      ensures ptr - HEADER in old(bk.l.chunks) && ptr - HEADER !in bk.l.chunks ==>
        var k := old(bk.l.chunks)[ptr - HEADER];
        if policy == CacheOne && old(cached) == 0 then
          system.owned == old(system.owned) && cached == k.sys && cachedSize == k.bytes
        else
          system.owned == old(system.owned) - {k.sys} && cached == old(cached) && cachedSize == old(cachedSize)
      ensures system.refusals == old(system.refusals)
      ensures RegionsKept(old(system.owned), system.owned, foreign)
    {
      hide *;
      ValidIs();
      CachedFacts(mem, system.owned, heap, ring, cached, cachedSize, foreign, others, bk.l);
      OwnedKept(system.owned, foreign);
      ChunkSysPositive(mem, system.owned, heap, ring, cached, cachedSize, foreign, others, bk.l);
      ghost var owned0, others0, chunks0, cached0, cachedSize0 := system.owned, others, bk.l.chunks, cached, cachedSize;
      lock.Acquire(0);
      var s := Release(ptr, 0);
      RetiredIs(policy, chunks0, bk.l.chunks, ptr - HEADER, s, cached0, cachedSize0, cached, cachedSize);
      HandIs(others0, others, s);
      if s != 0 {
        ValidIs();
        HandNotForeign(mem, system.owned, heap, ring, cached, cachedSize, foreign, others, bk.l, s);
        KeptReturn(owned0, foreign, s);
        Discard(s);
      }
      assert others == others0;
    }

    /** The second half of freeing, once the successor has been absorbed: absorb a free predecessor and file the
        result; the first block of a chunk that is now all one block takes the chunk with it. */
    method Rejoin(first: nat, length: nat, ghost except: int, ghost me: nat) returns (s: nat)
      requires lock.HeldBy(me) && Healthy(except) && Accounted() && SettledBut(bk, first)
      requires (except == NONE || except == first + length)
      requires first in bk.l.size && HeldBlock(bk, first) && bk.l.size[first] == length >= 32
      requires first + length !in bk.free && first > 0
      requires first in bk.l.base && first in bk.l.prev
      modifies lock, this`mem, this`heads, this`bitmap, this`top, this`bk, this`ring, this`cached, this`cachedSize,
          this`others
      ensures Valid() && lock.Free() && bk.live == old(bk.live)
      ensures Retired(policy, old(bk.l.chunks), bk.l.chunks, first, s, old(cached), old(cachedSize), cached, cachedSize)
      ensures InHand(old(others), others, s)
      ensures Rejoined(old(bk), bk, first, length, policy != CacheAll && !old(PreviousAlloc(Read(mem, first + 8))))
      ensures Quiet(old(mem), mem, old(bk.l), old(ring), bk.l, ring, bk.live)
    {
      hide Core, SysOk, Read, Frame, Quiet, Settled, SettledBut, AlignmentOk, HeldBlock, PreviousAlloc;
      hide MergedPrevious, Rejoined, DropBook;
      var block, size := first, length;
      s := 0;
      ghost var m1, bk1 := mem, bk;
      ghost var mayRelease := policy != CacheAll && !PreviousAlloc(Read(mem, block + 8));
      PrevKind(mem, Index(heads, bitmap, top), bk, align, heap, except, block, size);
      FirstTag(mem, Index(heads, bitmap, top), bk, align, heap, except, block);
      var tag := PREVIOUS_ALLOC;
      if !PreviousAlloc(Read(mem, block + 8)) {
        var prevLength := Read(mem, block - 8);
        if prevLength < PRE_HEADER {
          size := MergePrevious(block, prevLength, size, except);
          MergedPreviousFacts(bk1, bk, block - prevLength, block, size);
          block := block - prevLength;
        } else {
          if policy != CacheAll && size == prevLength - PRE_HEADER {
            s := ReleaseChunk(block, except, me);
            DropLive(bk1, bk, block);
            RejoinedByRelease(bk1, bk, block, size);
            return;
          }
          tag := 0;
          SelfQuiet(m1, bk1, ring, align) by { CoreShape(mem, Index(heads, bitmap, top), bk, align, heap, except); }
        }
      } else {
        SelfQuiet(m1, bk1, ring, align) by { CoreShape(mem, Index(heads, bitmap, top), bk, align, heap, except); }
      }
      ghost var m2, bk2 := mem, bk;
      Settle(block, size, tag, except);
      QuietSameChunks(m1, m2, mem, bk1.l, bk2.l, bk.l, ring, bk.live);
      if block == first {
        RejoinedAlone(bk1, bk, block, size, mayRelease);
      } else {
        RejoinedMerged(bk1, bk2, bk, first, block, size, mayRelease);
      }
      lock.Unlock(me);
    }

    /** stbm_get_allocation_size for a medium block: exact, whatever userdata and tags the word carries. */
    method SizeOf(p: nat) returns (size: nat)
      requires Valid() && p >= HEADER && p - HEADER in bk.live
      ensures p - HEADER in bk.l.size && size == bk.l.size[p - HEADER] - HEADER
    {
      size := BlockSize(p - HEADER);
      size := size - HEADER;
    }
  }

  /** Writing a word of a live block's data keeps the heap valid. */
  lemma UserWriteOk(m: MediumHeap, m0: Memory, a: int, w: int, v: nat)
    requires m.ValidAt(m0) && m.mem == Write(m0, w, v) && UserWord(m.bk.l, m.bk.live, a, w)
    ensures m.Valid()
  {
    hide Core, SysOk, Read, Write, Settled, AlignmentOk, LayerWrites;
    var ix := Index(m.heads, m.bitmap, m.top);
    CoreShape(m0, ix, m.bk, m.align, m.heap, NONE);
    UserWriteIsLayer(m0, m.bk, m.ring, a, w, v);
    LayerOk(m0, m.mem, ix, m.bk, m.align, m.heap, m.ring);
    LayerSystem(m0, m.mem, m.system.owned, m.heap, m.ring, m.cached, m.cachedSize, m.foreign, m.others, m.bk, m.align);
  }

  /** The API sets userdata or the wrapped flag in a live block's header, outside the lock. */
  lemma HeaderStampOk(m: MediumHeap, m0: Memory, p: int, v: nat)
    requires m.ValidAt(m0) && m.mem == Write(m0, p - 8, v) && p - HEADER in m.bk.live && v < 0x1_0000_0000
    requires SameBlockFields(Read(m0, p - 8), v) && (PreviousAlloc(v) <==> PreviousAlloc(Read(m0, p - 8)))
    ensures m.Valid() && Quiet(m0, m.mem, m.bk.l, m.ring, m.bk.l, m.ring, m.bk.live - {p - HEADER})
  {
    hide Core, SysOk, Read, Write, Settled, AlignmentOk, Quiet, Frame, SameBlockFields, PreviousAlloc;
    var ix := Index(m.heads, m.bitmap, m.top);
    CoreShape(m0, ix, m.bk, m.align, m.heap, NONE);
    HeaderWriteOk(m0, ix, m.bk, m.align, m.heap, NONE, p - HEADER, v);
    SelfQuiet(m0, m.bk, m.ring, m.align);
    QuietLess(m0, m0, m.bk.l, m.ring, m.bk.live, m.bk.live - {p - HEADER});
    StepQuiet(m0, m0, m.mem, m.system.owned, m.heap, m.ring, m.cached, m.cachedSize, m.foreign, m.others, m.bk.l,
              m.bk, m.bk.live - {p - HEADER}, m.align);
  }

  lemma LiveWord(mem: Memory, ix: Index, bk: Book, align: nat, heap: nat, a: int)
    requires Core(mem, ix, bk, align, heap, NONE) && a in bk.live
    ensures a in bk.l.size && Read(mem, a + 8) < 0x1_0000_0000
  {
    hide Tiled, RegionsApart, Filed, Read, KindsOk, LiveTag, PreviousAlloc, BlockAlloc;
    assert TagOk(mem, bk.l, bk.free, bk.live, heap, NONE, a);
  }

  lemma UserWriteIsLayer(mem: Memory, bk: Book, ring: seq<nat>, a: int, w: int, v: nat)
    requires UserWord(bk.l, bk.live, a, w)
    ensures LayerWrites(mem, Write(mem, w, v), bk, ring)
  {
    hide Read, Write;
  }

  /** The books after freeing block a: it and its free neighbours become one free block, every other block is
      as it was; or, when a was first in its chunk, the chunk may be released (`mayRelease`) and then is released
      exactly if it is now wholly free. A merge backwards into a chunk's first block pins the chunk. */
  ghost predicate Freed(bk0: Book, bk1: Book, a: int, mayRelease: bool) {
    && a in bk0.l.size && a in bk0.l.base && a in bk0.l.prev && bk1.live == bk0.live - {a}
    && var n := a + bk0.l.size[a];
       var hi := if n in bk0.free && n in bk0.l.size then n + bk0.l.size[n] else n;
       var p := bk0.l.prev[a];
       var mergePrev := a != bk0.l.base[a] && p in bk0.free && p in bk0.l.size;
       var lo := if mergePrev then p else a;
       var inner := (if n in bk0.free then {n} else {}) + (if mergePrev then {a} else {});
       if mayRelease && a == bk0.l.base[a] && a in bk0.l.chunks && hi == bk0.l.chunks[a].tail then
         && bk1.l.chunks == bk0.l.chunks - {a}
         && bk1.free == bk0.free - {n}
         && bk1.l.size == bk0.l.size - inner - {a, hi}
         && a !in bk0.l.pinned && bk1.l.pinned == bk0.l.pinned
       else
         && bk1.l.chunks == bk0.l.chunks
         && bk1.free == bk0.free - {n} + {lo}
         && bk1.l.size == bk0.l.size[lo := hi - lo] - inner
         && bk1.l.pinned == bk0.l.pinned + if mergePrev && lo in bk0.l.chunks then {lo} else {}
  }

  /** The packed size of a live block decodes to its extent. */
  lemma LiveSize(mem: Memory, ix: Index, bk: Book, align: nat, heap: nat, a: int)
    requires Core(mem, ix, bk, align, heap, NONE) && a in bk.live
    ensures a in bk.l.size && DecodesTo(Read(mem, a + 8), bk.l.size[a]) && bk.l.size[a] >= 32
    ensures Type(Read(mem, a + 8)) == TYPE_MEDIUM && Read(mem, a) == heap && a > 0
  {
    hide Tiled, RegionsApart, Filed, Read, Type, DecodesTo;
    assert KindOk(bk.l, bk.free, bk.live, a);
    assert TagOk(mem, bk.l, bk.free, bk.live, heap, NONE, a);
    FreeOrLiveSize(bk, align, a);
    AddressPositive(bk.l, align, a);
  }

  /** What the words before a held block say about its physical predecessor. */
  lemma PrevKind(mem: Memory, ix: Index, bk: Book, align: nat, heap: nat, except: int, a: nat, size: nat)
    requires Core(mem, ix, bk, align, heap, except) && SettledBut(bk, a) && HeldBlock(bk, a) && a in bk.l.base
    requires a in bk.l.prev
    requires bk.l.size[a] == size >= 32 && (except == NONE || except == a + size)
    ensures bk.l.base[a] != a ==> bk.l.prev[a] < a
    ensures bk.l.base[a] == a ==>
      a in bk.l.chunks && a <= bk.l.chunks[a].tail && Read(mem, a - 8) == PRE_HEADER + (bk.l.chunks[a].tail - a)
    ensures bk.l.base[a] != a ==>
      var p := bk.l.prev[a];
      && p in bk.l.size && p > 0 && (PreviousAlloc(Read(mem, a + 8)) <==> p in bk.live)
      && (p in bk.live ==> p !in bk.free)
      && (p !in bk.live ==> p in bk.free && 0 <= bk.l.size[p] == Read(mem, a - 8) < PRE_HEADER && p + bk.l.size[p] == a)
  {
    hide RegionsApart, Filed, Read, PreviousAlloc, BlockAlloc, Type, FreeBytes, FreeClass, LiveTag, Tiled;
    ChunkOfBlock(bk.l, align, a);
    assert TagOk(mem, bk.l, bk.free, bk.live, heap, except, a);
    PrevBlock(bk, align, a);
    if bk.l.base[a] == a {
      assert MarkerOk(mem, bk.l, a);
    } else {
      var p := bk.l.prev[a];
      AddressPositive(bk.l, align, p);
      assert KindOk(bk.l, bk.free, bk.live, p);
      assert TagOk(mem, bk.l, bk.free, bk.live, heap, except, p);
      ChunkOfBlock(bk.l, align, p);
      SizeBound(bk.l, align, p);
    }
  }

  lemma MergedNextFacts(bk0: Book, bk1: Book, a: int, merged: nat)
    requires MergedNext(bk0, bk1, a, merged)
    ensures HeldBlock(bk1, a) && bk1.l.size[a] == merged && a + merged !in bk1.free
    ensures a in bk1.l.base && a in bk1.l.prev && bk1.l.chunks == bk0.l.chunks && bk1.live == bk0.live - {a}
    ensures a in bk0.l.size && a in bk0.l.base && a in bk0.l.prev && bk0.l.size[a] <= merged
    ensures bk1.l.base[a] == bk0.l.base[a] && bk1.l.prev[a] == bk0.l.prev[a]
  {
  }

  lemma MergedPreviousFacts(bk0: Book, bk1: Book, p: int, a: int, merged: nat)
    requires MergedPrevious(bk0, bk1, p, a, merged)
    ensures HeldBlock(bk1, p) && bk1.l.size[p] == merged && p + merged !in bk1.free
    ensures p in bk1.l.base && p in bk1.l.prev && bk1.l.chunks == bk0.l.chunks && bk1.live == bk0.live
    ensures p != bk1.l.base[p] ==> bk1.l.prev[p] !in bk1.free && bk1.l.prev[p] in bk1.live
  {
  }

  lemma QuietSameChunks(m0: Memory, m1: Memory, m2: Memory, l0: Layout, l1: Layout, l2: Layout, ring: seq<nat>,
                        live: set<int>)
    requires Quiet(m0, m1, l0, ring, l1, ring, live) && Quiet(m1, m2, l1, ring, l2, ring, live)
    requires l1.chunks == l2.chunks
    ensures Quiet(m0, m2, l0, ring, l2, ring, live)
  {
    hide Quiet;
    QuietTrans(m0, m1, m2, l0, ring, l1, ring, l2, ring, live);
  }

  lemma DropLive(bk0: Book, bk1: Book, a: int)
    requires a in bk0.l.chunks && bk1 == DropBook(bk0, a)
    ensures bk1.live == bk0.live
  {
  }

  /** What the second half of freeing does to held block a: its chunk goes; or it is filed alone; or it is
      absorbed by its free predecessor. */
  ghost predicate Rejoined(bk1: Book, bk2: Book, a: int, size: nat, mayRelease: bool) {
    && a in bk1.l.size && a in bk1.l.base && a in bk1.l.prev
    && if mayRelease && a == bk1.l.base[a] && a in bk1.l.chunks && a + size == bk1.l.chunks[a].tail then
         bk2 == DropBook(bk1, a) && a !in bk1.l.pinned
       else if a != bk1.l.base[a] && bk1.l.prev[a] in bk1.free then
         exists b {:trigger Absorbed(bk1, b, bk2, bk1.l.prev[a], a, size)} ::
           Absorbed(bk1, b, bk2, bk1.l.prev[a], a, size)
       else
         bk2.l == bk1.l && bk2.live == bk1.live && bk2.free == bk1.free + {a}
             && (a != bk1.l.base[a] ==> bk1.l.prev[a] < a)
  }

  ghost predicate Absorbed(bk1: Book, b: Book, bk2: Book, p: int, a: int, size: nat) {
    && p < a && MergedPrevious(bk1, b, p, a, a + size - p)
    && bk2.l == Retagged(b.l, p, PREVIOUS_ALLOC) && bk2.live == b.live && bk2.free == b.free + {p}
  }

  lemma RejoinedByRelease(bk1: Book, bk2: Book, a: int, size: nat)
    requires a in bk1.l.size && a in bk1.l.base && a in bk1.l.prev && a in bk1.l.chunks && bk2 == DropBook(bk1, a)
    requires a == bk1.l.base[a] && a + size == bk1.l.chunks[a].tail && a !in bk1.l.pinned
    ensures Rejoined(bk1, bk2, a, size, true)
  {
  }

  lemma RejoinedAlone(bk1: Book, bk2: Book, a: int, size: nat, mayRelease: bool)
    requires a in bk1.l.size && a in bk1.l.base && a in bk1.l.prev
    requires bk2.l == bk1.l && bk2.live == bk1.live && bk2.free == bk1.free + {a}
    requires a != bk1.l.base[a] ==> bk1.l.prev[a] !in bk1.free && bk1.l.prev[a] < a
    requires !(mayRelease && a == bk1.l.base[a] && a in bk1.l.chunks && a + size == bk1.l.chunks[a].tail)
    ensures Rejoined(bk1, bk2, a, size, mayRelease)
  {
  }

  lemma RejoinedMerged(bk1: Book, b: Book, bk2: Book, a: int, p: int, total: nat, mayRelease: bool)
    requires a in bk1.l.size && a in bk1.l.base && a in bk1.l.prev && a != bk1.l.base[a] && p == bk1.l.prev[a] && p < a
    requires MergedPrevious(bk1, b, p, a, total) && a <= p + total
    requires bk2.l == Retagged(b.l, p, PREVIOUS_ALLOC) && bk2.live == b.live && bk2.free == b.free + {p}
    ensures Rejoined(bk1, bk2, a, p + total - a, mayRelease)
  {
    assert Absorbed(bk1, b, bk2, p, a, p + total - a);
  }

  lemma RejoinedIsFreed(bk0: Book, bk1: Book, bk2: Book, a: int, size: nat, mayRelease: bool)
    requires MergedNext(bk0, bk1, a, size) && Rejoined(bk1, bk2, a, size, mayRelease)
    ensures Freed(bk0, bk2, a, mayRelease)
  {
    var p := bk1.l.prev[a];
    if mayRelease && a == bk1.l.base[a] && a in bk1.l.chunks && a + size == bk1.l.chunks[a].tail {
    } else if a != bk1.l.base[a] && p in bk1.free {
      var b :| Absorbed(bk1, b, bk2, p, a, size);
      FreedMerged(bk0, bk1, b, bk2, a, p, size, mayRelease);
    } else {
      assert bk2.free == bk0.free - {a + bk0.l.size[a]} + {a};
    }
  }

  lemma FreedMerged(bk0: Book, bk1: Book, b: Book, bk2: Book, a: int, p: int, size: nat, mayRelease: bool)
    requires MergedNext(bk0, bk1, a, size) && Absorbed(bk1, b, bk2, p, a, size)
    requires a != bk0.l.base[a] && p == bk0.l.prev[a]
    ensures Freed(bk0, bk2, a, mayRelease)
  {
    var n := a + bk0.l.size[a];
    assert bk2.free == bk0.free - {n} + {p};
    assert p in bk0.free && p in bk0.l.size;
    if n in bk0.free {
      assert bk2.l.size == bk0.l.size[p := a + size - p] - ({n} + {a});
    } else {
      assert bk2.l.size == bk0.l.size[p := a + size - p] - ({} + {a});
    }
  }

  ghost predicate MergedPrevious(bk0: Book, bk1: Book, p: int, a: int, merged: nat) {
    && p in bk0.l.size && p in bk0.free && p in bk0.l.base && p in bk0.l.prev && a in bk0.l.base
    && bk1.live == bk0.live && bk1.free == bk0.free - {p} && bk1.l.chunks == bk0.l.chunks
    && bk1.l.pinned == bk0.l.pinned
    && HeldBlock(bk1, p) && bk1.l.size == bk0.l.size[p := merged] - {a} && p != a
    && p in bk1.l.base && p in bk1.l.prev && bk1.l.base[p] == bk0.l.base[p] == bk0.l.base[a]
      && bk1.l.prev[p] == bk0.l.prev[p]
    && p + merged in bk1.l.size && p + merged !in bk1.free
    && (p != bk1.l.base[p] ==> bk1.l.prev[p] in bk1.live && bk1.l.prev[p] !in bk1.free)
  }

  lemma MergedWithPrevious(bk0: Book, bk1: Book, bk2: Book, align: nat, p: int, a: int, size: nat)
    requires Shape(bk0, align) && SettledBut(bk0, a) && HeldBlock(bk0, a) && bk0.l.size[a] == size
    requires p in bk0.free && p in bk0.l.size && p + bk0.l.size[p] == a && bk0.l.size[p] >= 0 && a + size !in bk0.free
    requires bk1.l == bk0.l && bk1.live == bk0.live && bk1.free == bk0.free - {p}
    requires bk2 == AbsorbBook(bk1, p, a, a + size)
    ensures MergedPrevious(bk0, bk2, p, a, bk0.l.size[p] + size) && SettledBut(bk2, p)
  {
    hide RegionsApart, Filed, Multiple;
    hide Tiled;
    assert KindOk(bk0.l, bk0.free, bk0.live, p);
    HeaderInside(bk0.l, align, p);
    HeaderInside(bk0.l, align, a);
    NextPrev(bk0, align, p, a);
    NextPrev(bk0, align, a, a + size);
    PrevBlock(bk0, align, p);
    forall x | x in bk2.l.size && x != p && !IsTailOf(bk2.l, x) ensures x in bk2.free || x in bk2.live {
      assert !IsTailOf(bk0.l, x);
    }
    if p != bk0.l.base[p] {
      assert !IsTailOf(bk0.l, bk0.l.prev[p]);
      assert KindOk(bk0.l, bk0.free, bk0.live, bk0.l.prev[p]);
    }
  }

  /** The predecessor of a block that is not the first is a proper block before it. */
  lemma PrevBlock(bk: Book, align: nat, a: int)
    requires Shape(bk, align) && a in bk.l.size && a in bk.l.base && a in bk.l.prev
    ensures a != bk.l.base[a] ==>
      var p := bk.l.prev[a]; p in bk.l.size && !IsTailOf(bk.l, p) && p + bk.l.size[p] == a && p < a
  {
    hide RegionsApart, Filed, Multiple, KindsOk;
    assert PrevOk(bk.l, a);
    if a != bk.l.base[a] {
      var p := bk.l.prev[a];
      assert BlockOk(bk.l, align, p) && BlockOk(bk.l, align, a);
    }
  }

  /** A chunk is pinned exactly if its first block's word carries PREVIOUS_alloc; tagging that block as it is tagged
      already changes nothing. */
  lemma FirstTag(mem: Memory, ix: Index, bk: Book, align: nat, heap: nat, except: int, a: nat)
    requires Core(mem, ix, bk, align, heap, except) && a in bk.l.size && a in bk.l.base
    ensures a in bk.l.chunks <==> bk.l.base[a] == a
    ensures a in bk.l.chunks ==> (PreviousAlloc(Read(mem, a + 8)) <==> a in bk.l.pinned)
    ensures Retagged(bk.l, a, if PreviousAlloc(Read(mem, a + 8)) then PREVIOUS_ALLOC else 0) == bk.l
    ensures a !in bk.l.chunks ==> Retagged(bk.l, a, PREVIOUS_ALLOC) == bk.l
  {
    hide RegionsApart, Filed, Read, FreeTag, LiveTag, PreviousAlloc, BlockAlloc, MarkersOk, ListsOk, KindsOk;
    hide Multiple, Lists.BitmapsOk;
    assert TagOk(mem, bk.l, bk.free, bk.live, heap, except, a);
    assert BlockOk(bk.l, align, a);
    if a in bk.l.chunks {
      FirstIsBase(bk.l, align, a);
      if a in bk.l.pinned {
        assert bk.l.pinned + {a as int} == bk.l.pinned;
      } else {
        assert bk.l.pinned - {a as int} == bk.l.pinned;
      }
    }
  }

  lemma PinnedSized(mem: Memory, ix: Index, bk: Book, align: nat, heap: nat, except: int)
    requires Core(mem, ix, bk, align, heap, except)
    ensures bk.l.pinned <= bk.l.chunks.Keys && bk.l.pinned <= bk.l.size.Keys
  {
    hide RegionsApart, Filed, Read, MarkersOk, ListsOk, KindsOk, TagOk, Lists.BitmapsOk;
    forall c | c in bk.l.pinned ensures c in bk.l.size {
      FirstIsBase(bk.l, align, c);
    }
  }

  /** What the tag changes in the books concerns no one else. */
  lemma TaggedFacts(mem: Memory, owned: map<int, nat>, heap: nat, ring: seq<nat>, cached: nat, cachedSize: nat,
                    foreign: set<int>, others: set<int>, bk: Book, b: int, tag: nat)
    requires SysOk(mem, owned, heap, ring, cached, cachedSize, foreign, others, bk.l) && SettledBut(bk, b)
    requires HeldBlock(bk, b)
    ensures SysOk(mem, owned, heap, ring, cached, cachedSize, foreign, others, Retagged(bk.l, b, tag))
    ensures SettledBut(TagBook(bk, b, tag), b) && HeldBlock(TagBook(bk, b, tag), b)
  {
    hide Read, Ring.RingOk;
    var l' := Retagged(bk.l, b, tag);
    forall c | c in l'.chunks ensures ChunkOwned(mem, owned, ring, foreign, l', c) {
      assert ChunkOwned(mem, owned, ring, foreign, bk.l, c);
    }
    forall r | r in Members(ring) && r !in foreign ensures ChunkSys(l', r) {
      assert ChunkSys(bk.l, r);
    }
    forall a | a in l'.size && !IsTailOf(l', a) && a != b ensures a in bk.free || a in bk.live {
      assert !IsTailOf(bk.l, a);
    }
  }

  lemma TaggedQuiet(m0: Memory, m1: Memory, l: Layout, b: int, tag: nat, ring: seq<nat>, live: set<int>)
    requires Quiet(m0, m1, Retagged(l, b, tag), ring, Retagged(l, b, tag), ring, live)
    ensures Quiet(m0, m1, l, ring, Retagged(l, b, tag), ring, live)
  {
    hide UserKept, OutsideChunks, Read;
    forall a | a in live ensures SameSize(l, Retagged(l, b, tag), a) {
      assert SameSize(Retagged(l, b, tag), Retagged(l, b, tag), a);
    }
    forall w | Untouched(l, ring, w) ensures Untouched(Retagged(l, b, tag), ring, w) {
      TaggedOutside(l, b, tag, w);
    }
  }

  lemma OtherWord(mem: Memory, w: int, v: nat, x: int)
    requires x != w
    ensures Read(Write(mem, w, v), x) == Read(mem, x)
  {
  }

  lemma FiledSettles(bk0: Book, bk1: Book, block: int)
    requires SettledBut(bk0, block) && bk1.l == bk0.l && bk1.live == bk0.live && bk1.free == bk0.free + {block}
    ensures Settled(bk1)
  {
    hide IsTailOf;
  }

  lemma DropGone(bk: Book, a: int)
    requires a in bk.l.chunks
    ensures a !in DropBook(bk, a).l.chunks
  {
  }

  lemma DropSettles(bk0: Book, bk1: Book, align: nat, block: int)
    requires Shape(bk0, align) && SettledBut(bk0, block) && block in bk0.l.chunks && bk1 == DropBook(bk0, block)
    requires Droppable(bk0, align, block)
    ensures Settled(bk1)
  {
    hide RegionsApart, Filed, Tiled;
    forall x | x in bk1.l.size && !IsTailOf(bk1.l, x) ensures x in bk1.free || x in bk1.live {
      OthersElsewhere(bk0.l, align, block, x);
      assert !IsTailOf(bk0.l, x);
    }
  }

  /** The chunk's header leads back to its system allocation, which is on the list. */
  lemma ChunkPlace(mem: Memory, ix: Index, owned: map<int, nat>, heap: nat, ring: seq<nat>, cached: nat,
                   cachedSize: nat,
                   foreign: set<int>, others: set<int>, bk: Book, align: nat, except: int, block: nat) returns (at: nat)
    requires Core(mem, ix, bk, align, heap, except)
    requires SysOk(mem, owned, heap, ring, cached, cachedSize, foreign, others, bk.l)
    requires HeldBlock(bk, block) && block in bk.l.base && bk.l.base[block] == block && block in bk.l.chunks
    requires block + bk.l.size[block] == bk.l.chunks[block].tail
    ensures block >= 16 && Droppable(bk, align, block)
    ensures var s := Read(mem, block - 16);
      && s == bk.l.chunks[block].sys && 0 < at < |ring| && ring[at] == s && Read(mem, s) == MAGIC_MEDIUM && s > 0
      && Read(mem, s + 40) == bk.l.chunks[block].bytes && s in owned
        && owned[s] == bk.l.chunks[block].bytes <= MAX_CHUNK
      && s !in foreign && s !in others
      && Ring.NodeOk(mem, SYS_LINKS, ring, at)
      && forall i :: 0 <= i < |ring| ==> s != ring[i] + 8 && s != ring[i] + 16
  {
    hide RegionsApart, Filed, Multiple, KindsOk, TagsOk, ListsOk, Lists.BitmapsOk, Read;
    assert MarkerOk(mem, bk.l, block) && ChunkOk(bk.l, block);
    assert ChunkOwned(mem, owned, ring, foreign, bk.l, block);
    at :| 1 <= at < |ring| && ring[at] as int == bk.l.chunks[block].sys;
    assert Ring.NodeOk(mem, SYS_LINKS, ring, at);
    forall i: nat | i < |ring| ensures ring[at] != ring[i] + 8 && ring[at] != ring[i] + 16 {
      if i != at {
        Ring.MembersApart(SYS_LINKS, ring, i, at);
        assert i < at ==> Ring.Apart(ring[i], ring[at]);
        assert at < i ==> Ring.Apart(ring[at], ring[i]);
      }
    }
  }

  /** Taking a dropped chunk off the list: accounting, memory inside other chunks, live blocks. */
  lemma ReleasedFacts(mem: Memory, owned: map<int, nat>, heap: nat, ring: seq<nat>, cached: nat, cachedSize: nat,
                      foreign: set<int>, others: set<int>, bk0: Book, bk1: Book, align: nat, block: nat, at: nat)
    requires SysOk(mem, owned, heap, ring, cached, cachedSize, foreign, others, bk0.l)
    requires Shape(bk0, align) && Shape(bk1, align) && block in bk0.l.chunks && bk1 == DropBook(bk0, block)
    requires Droppable(bk0, align, block)
    requires 0 < at < |ring| && ring[at] == bk0.l.chunks[block].sys && ring[at] as int !in foreign
    ensures var m1 := Ring.UnlinkMem(mem, SYS_LINKS, ring[at]);
      && SysOk(m1, owned, heap, Ring.Removed(ring, at), cached, cachedSize, foreign, others + {ring[at] as int}, bk1.l)
      && SameInside(mem, m1, bk1.l)
      && Quiet(mem, m1, bk0.l, ring, bk1.l, Ring.Removed(ring, at), bk1.live)
      && Read(m1, ring[at] + 40) == Read(mem, ring[at] + 40)
  {
    hide SysOk, Read, Ring.UnlinkMem, Ring.Removed, Filed, KindsOk, Multiple, Tiled, Quiet;
    var m1 := Ring.UnlinkMem(mem, SYS_LINKS, ring[at]);
    var s := ring[at];
    forall c | c in bk0.l.chunks && c != block ensures bk0.l.chunks[c].sys != s {
      assert Region(bk0.l, c, block);
      ChunkSized(bk0, align, c);
      ChunkSized(bk0, align, block);
    }
    SysUnlist(mem, owned, heap, ring, cached, cachedSize, foreign, others, bk0.l, bk1.l, at);
    assert foreign - {s as int} == foreign;
    forall w | !OutsideChunks(bk0.l, w) ensures Read(m1, w) == Read(mem, w) {
      UnlistInside(mem, owned, heap, ring, cached, cachedSize, foreign, others, bk0.l, at, w);
    }
    forall w | !OutsideChunks(bk1.l, w) ensures Read(m1, w) == Read(mem, w) {
      if OutsideChunks(bk0.l, w) {
        forall c | c in bk1.l.chunks ensures OutsideChunk(bk1.l, c, w) {
          assert OutsideChunk(bk0.l, c, w);
        }
      }
    }
    RingNonempty(mem, owned, heap, ring, cached, cachedSize, foreign, others, bk0.l);
    ReleaseIsQuiet(mem, m1, bk0, bk1, align, ring, at, block);
    assert !OutsideChunks(bk0.l,
                          s + 40) by { ChunkSized(bk0, align, block); assert !OutsideChunk(bk0.l, block, s + 40); }
  }

  lemma ChunkSized(bk: Book, align: nat, c: int)
    requires Shape(bk, align) && c in bk.l.chunks
    ensures bk.l.chunks[c].bytes >= 64
  {
    hide Multiple, RegionsApart, Filed, KindsOk;
    assert ChunkOk(bk.l, c);
  }

  lemma ReleaseIsQuiet(mem: Memory, m1: Memory, bk0: Book, bk1: Book, align: nat, ring: seq<nat>, at: nat, block: nat)
    requires Shape(bk0, align) && block in bk0.l.chunks && bk1 == DropBook(bk0, block) && Droppable(bk0, align, block)
    requires Ring.RingOk(mem, SYS_LINKS, ring) && 0 < at < |ring| && m1 == Ring.UnlinkMem(mem, SYS_LINKS, ring[at])
    requires forall w {:trigger Read(m1, w)} :: !OutsideChunks(bk0.l, w) ==> Read(m1, w) == Read(mem, w)
    ensures Quiet(mem, m1, bk0.l, ring, bk1.l, Ring.Removed(ring, at), bk1.live)
  {
    hide Read, Ring.UnlinkMem, Filed, Multiple, Tiled, Ring.RingOk, OutsideChunks, RegionsApart;
    TailNotUsed(bk0, align, block);
    HeadersIn(bk0, align);
    forall a | a in bk1.live ensures UserKept(mem, m1, bk1.l, a) && SameSize(bk0.l, bk1.l, a) {
      InsideChunk(bk0, align, a, a + 8);
      forall w | a + HEADER <= w < a + bk1.l.size[a] ensures Read(m1, w) == Read(mem, w) {
        InsideChunk(bk0, align, a, w);
      }
    }
    forall w | Untouched(bk0.l, ring, w)
        && Untouched(bk1.l, Ring.Removed(ring, at), w) ensures Read(m1, w) == Read(mem, w) {
      UnlistFrame(mem, ring, at, w);
    }
  }

  /** Block a is held, at the place and with the extent it gets from absorbing a free successor. */
  ghost predicate MergedNext(bk0: Book, bk1: Book, a: int, merged: nat) {
    && a in bk0.l.size && a in bk0.l.base && a in bk0.live && bk1.live == bk0.live - {a} && bk0.l.size[a] >= 0
    && HeldBlock(bk1, a) && bk1.l.size[a] == merged && a + merged in bk1.l.size && a + merged !in bk1.free
    && bk1.l.chunks == bk0.l.chunks && bk1.l.pinned == bk0.l.pinned
    && a in bk1.l.base && bk1.l.base[a] == bk0.l.base[a]
    && a in bk1.l.prev && a in bk0.l.prev && bk1.l.prev[a] == bk0.l.prev[a]
    && var n := a + bk0.l.size[a];
       && n in bk0.l.size
       && (if n in bk0.free then
             && bk0.l.size[n] >= 32 && merged == bk0.l.size[a] + bk0.l.size[n]
             && bk1.free == bk0.free - {n}
             && bk1.l.size == bk0.l.size[a := merged] - {n}
           else
             merged == bk0.l.size[a] && bk1.free == bk0.free && bk1.l == bk0.l)
  }

  /** What the word after a live block says about its successor. */
  lemma FollowKind(mem: Memory, ix: Index, bk: Book, align: nat, heap: nat, block: nat)
    requires Core(mem, ix, bk, align, heap, NONE) && Settled(bk) && block in bk.live
    ensures block in bk.l.size
    ensures var n := block + bk.l.size[block];
      && n in bk.l.size && (BlockAlloc(Read(mem, n + 8)) <==> n !in bk.free)
      && PreviousAlloc(Read(mem, n + 8))
      && (n in bk.free ==> FreeBytes(Read(mem, n + 8)) == bk.l.size[n] && bk.l.size[n] >= 32)
  {
    hide Tiled, RegionsApart, Filed, Read, FreeBytes, BlockAlloc, PreviousAlloc, Type, FreeClass, FileClass, DecodesTo;
    assert KindOk(bk.l, bk.free, bk.live, block);
    var n := block + bk.l.size[block];
    NextPrev(bk, align, block, n);
    AddressPositive(bk.l, align, n);
    assert TagOk(mem, bk.l, bk.free, bk.live, heap, NONE, n);
    assert KindOk(bk.l, bk.free, bk.live, n);
    assert n in bk.free || n in bk.live || IsTailOf(bk.l, n);
    FreeOrLiveSize(bk, align, n);
  }

  lemma ReleaseQuiet(mem: Memory, bk0: Book, bk1: Book, ring: seq<nat>, align: nat, block: int)
    requires Shape(bk0, align) && bk1 == bk0.(live := bk0.live - {block})
    ensures Quiet(mem, mem, bk0.l, ring, bk1.l, ring, bk1.live)
  {
    hide Read, Tiled, KindsOk, RegionsApart, Filed;
  }

  lemma ReleaseSettles(bk0: Book, bk1: Book, block: int)
    requires Settled(bk0) && bk1 == bk0.(live := bk0.live - {block})
    ensures SettledBut(bk1, block)
  {
    hide IsTailOf;
  }

  lemma UnlinkQuiet(m0: Memory, m1: Memory, owned: map<int, nat>, heap: nat, ring: seq<nat>, cached: nat,
                    cachedSize: nat, foreign: set<int>, others: set<int>, bk0: Book, bk1: Book, align: nat,
                        follow: nat, block: nat)
    requires Shape(bk0, align) && Shape(bk1, align) && bk1.l == bk0.l && bk1.live <= bk0.live
    requires SysOk(m0, owned, heap, ring, cached, cachedSize, foreign, others, bk0.l)
    requires Frame(m0, m1, bk1.l, bk1.live)
    ensures SysOk(m1, owned, heap, ring, cached, cachedSize, foreign, others, bk1.l)
    ensures Quiet(m0, m1, bk0.l, ring, bk1.l, ring, bk1.live)
  {
    hide SysOk, Frame, Quiet, Tiled, KindsOk, RegionsApart, Filed;
    SelfQuiet(m0, bk1, ring, align);
    StepQuiet(m0, m0, m1, owned, heap, ring, cached, cachedSize, foreign, others, bk1.l, bk1, bk1.live, align);
  }

  lemma AbsorbFacts(m0: Memory, m1: Memory, l0: Layout, bk: Book, align: nat, ring: seq<nat>, a: int, n: int, far: int)
    requires Shape(bk, align) && HeldBlock(bk, a) && HeldBlock(bk, n)
    requires n == a + bk.l.size[a] && far == n + bk.l.size[n]
    requires Quiet(m0, m1, l0, ring, bk.l, ring, bk.live)
    ensures var bk' := AbsorbBook(bk, a, n, far);
      Quiet(m0, m1, l0, ring, bk'.l, ring, bk'.live)
  {
    hide Read, Tiled, KindsOk, RegionsApart, Filed, OutsideChunks, Untouched;
    var bk' := AbsorbBook(bk, a, n, far);
    forall x | x in bk'.live ensures UserKept(m0, m1, bk'.l, x) && SameSize(l0, bk'.l, x) {
      assert UserKept(m0, m1, bk.l, x) && SameSize(l0, bk.l, x);
    }
    forall w | Untouched(l0, ring, w) && Untouched(bk'.l, ring, w) ensures Read(m1, w) == Read(m0, w) {
      SameChunksUntouched(bk.l, bk'.l, ring, w);
    }
  }

  lemma SameChunksUntouched(l: Layout, l': Layout, ring: seq<nat>, w: int)
    requires l'.chunks == l.chunks && Untouched(l', ring, w)
    ensures Untouched(l, ring, w)
  {
    forall c | c in l.chunks ensures OutsideChunk(l, c, w) {
      assert OutsideChunk(l', c, w);
    }
  }

  lemma AbsorbAccounts(mem: Memory, owned: map<int, nat>, heap: nat, ring: seq<nat>, cached: nat, cachedSize: nat,
                       foreign: set<int>, others: set<int>, bk: Book, bk': Book)
    requires SysOk(mem, owned, heap, ring, cached, cachedSize, foreign, others, bk.l) && bk'.l.chunks == bk.l.chunks
    ensures SysOk(mem, owned, heap, ring, cached, cachedSize, foreign, others, bk'.l)
  {
    hide SysOk;
    SameListWords(mem, ring);
    SysFrame(mem, mem, owned, heap, ring, cached, cachedSize, foreign, others, bk.l, bk'.l);
  }

  lemma MergedAlone(bk0: Book, bk1: Book, align: nat, a: int)
    requires Shape(bk0, align) && a in bk0.live && bk1 == bk0.(live := bk0.live - {a})
    requires a in bk0.l.size && a + bk0.l.size[a] !in bk0.free
    ensures MergedNext(bk0, bk1, a, if bk0.l.size[a] >= 0 then bk0.l.size[a] else 0) && bk0.l.size[a] >= 32
  {
    hide Tiled, RegionsApart, Filed;
    assert KindOk(bk0.l, bk0.free, bk0.live, a);
    HeaderInside(bk0.l, align, a);
    NextPrev(bk0, align, a, a + bk0.l.size[a]);
  }

  lemma MergedWithNext(bk0: Book, bk1: Book, bk2: Book, bk3: Book, align: nat, a: int, n: int, gain: nat)
    requires Shape(bk0, align) && Settled(bk0) && a in bk0.live && a in bk0.l.size && n == a + bk0.l.size[a]
    requires n in bk0.free
    requires bk1 == bk0.(live := bk0.live - {a}) && bk2.l == bk1.l && bk2.live == bk1.live && bk2.free == bk1.free - {n}
    requires n in bk0.l.size && gain == bk0.l.size[n] && bk3 == AbsorbBook(bk2, a, n, n + gain)
    ensures var merged := bk0.l.size[a] + gain;
      merged >= 32 && MergedNext(bk0, bk3, a, merged) && SettledBut(bk3, a)
  {
    hide RegionsApart, Filed, Multiple;
    hide Tiled;
    assert KindOk(bk0.l, bk0.free, bk0.live, a);
    assert KindOk(bk0.l, bk0.free, bk0.live, n);
    HeaderInside(bk0.l, align, a);
    HeaderInside(bk0.l, align, n);
    var far := n + gain;
    NextPrev(bk0, align, a, n);
    NextPrev(bk0, align, n, far);
    assert KindOk(bk0.l, bk0.free, bk0.live, far);
    forall x | x in bk3.l.size && x != a && !IsTailOf(bk3.l, x) ensures x in bk3.free || x in bk3.live {
      assert !IsTailOf(bk0.l, x);
    }
  }

  lemma HeadIsFree(mem: Memory, ix: Index, bk: Book, align: nat, heap: nat, c: nat, d: nat)
    requires Core(mem, ix, bk, align, heap, NONE) && c < NUM_CLASSES && FirstNonempty(bk.lists, c, d)
    ensures |ix.heads| == NUM_CLASSES && d < NUM_CLASSES
    ensures var b := ix.heads[d];
      && b == bk.lists[d][0] && b in bk.free && b in bk.l.size
      && FreeBytes(Read(mem, b + 8)) == bk.l.size[b] && bk.l.size[b] >= ClassSize(c)
  {
    hide Tiled, KindsOk, RegionsApart, Filed, Lists.BitmapsOk, MarkersOk, TagOk, FreeBytes, Read, FileClass, ClassSize;
    HeadIs(mem, ix, bk, align, heap, NONE, d);
    NodeIsBlock(bk, align, d, 0);
    var b := bk.lists[d][0];
    var k := Locate(mem, ix, bk, align, heap, NONE, b);
    FiledIsBigEnough(bk.l.size[b], c);
  }

  /** A block filed in class c or above is at least as large as class c. */
  lemma FiledIsBigEnough(size: nat, c: nat)
    requires c < NUM_CLASSES && c <= FileClass(size)
    ensures size >= ClassSize(c)
  {
    hide ClassSize, FloorClass;
    ClassOfClass(c);
    if size < SIZECLASS_MAX {
      FloorClassIsGreatestBelow(size, c);
    }
  }

  /** A block just taken off its list has no free successor. */
  lemma TakenFacts(bk0: Book, bk1: Book, align: nat, block: int)
    requires Shape(bk0, align) && Settled(bk0) && block in bk0.free
    requires bk1.l == bk0.l && bk1.live == bk0.live && bk1.free == bk0.free - {block}
    ensures SettledBut(bk1, block) && block + bk0.l.size[block] !in bk1.free
  {
    hide Tiled, RegionsApart, Filed, IsTailOf;
    assert KindOk(bk0.l, bk0.free, bk0.live, block);
    NextPrev(bk0, align, block, block + bk0.l.size[block]);
    assert KindOk(bk0.l, bk0.free, bk0.live, block + bk0.l.size[block]);
  }

  /** Block a came from the least nonempty class that can serve class c; only when there is none is it new. */
  ghost predicate GoodFit(bk: Book, c: nat, a: int) {
    && (NoneFrom(bk.lists, c) ==> a !in bk.l.size)
    && (forall d: nat {:trigger FirstNonempty(bk.lists, c, d)} :: FirstNonempty(bk.lists, c, d) ==> a == bk.lists[d][0])
  }

  /** Held block a handed out, after its tail, if big enough, became a free block of its own. */
  ghost predicate Carved(bk0: Book, bk1: Book, a: int) {
    && a in bk0.l.size && a in bk0.l.base && a in bk1.l.size && bk1.live == bk0.live + {a}
    && var size, used := bk0.l.size[a], bk1.l.size[a];
       if used == size then
         bk1.l == bk0.l && bk1.free == bk0.free
       else
         used < size && bk1.l == Split(bk0.l, a, a + used, a + size) && bk1.free == bk0.free + {a + used}
  }

  lemma CarvedIs(bk0: Book, bk1: Book, align: nat, a: int, used: nat)
    requires Shape(bk0, align) && HeldBlock(bk0, a) && a in bk1.l.size && bk1.l.size[a] == used
    requires bk1.live == bk0.live + {a}
    requires a in bk0.l.base ==>
      || (used == bk0.l.size[a] && bk1.l == bk0.l && bk1.free == bk0.free)
      || (used < bk0.l.size[a] && bk1.l == Split(bk0.l, a, a + used, a + bk0.l.size[a])
          && bk1.free == bk0.free + {a + used})
    ensures Carved(bk0, bk1, a) && bk1.l.chunks == bk0.l.chunks
  {
    hide RegionsApart, Filed, Multiple, KindsOk;
    hide Tiled;
    TileOfHeld(bk0, align, a);
  }

  lemma TileOfHeld(bk: Book, align: nat, a: int)
    requires Shape(bk, align) && HeldBlock(bk, a)
    ensures a in bk.l.base
  {
    hide RegionsApart, Filed, Multiple, KindsOk;
    assert BlockOk(bk.l, align, a);
  }

  /** Block a off its list, or the only block of a new chunk. */
  ghost predicate Picked(bk0: Book, bk1: Book, a: int) {
    && bk1.live == bk0.live
    && if a in bk0.free then
         bk1.l == bk0.l && bk1.free == bk0.free - {a}
       else
         a !in bk0.l.size && a in bk1.l.chunks && bk1 == ChunkBook(bk0, a, bk1.l.chunks[a])
  }

  lemma FreshNotFree(bk: Book, align: nat, a: int)
    requires Shape(bk, align) && a !in bk.l.size
    ensures a !in bk.free
  {
    hide RegionsApart, Filed, Tiled;
    if a in bk.free {
      FreeSized(bk, align, a);
    }
  }

  lemma FreeSized(bk: Book, align: nat, a: int)
    requires Shape(bk, align) && a in bk.free
    ensures a in bk.l.size
  {
    hide RegionsApart, Filed, Tiled;
    assert KindOk(bk.l, bk.free, bk.live, a);
  }

  lemma PickedNew(bk0: Book, bk1: Book, align: nat, a: int, k: Chunk)
    requires Shape(bk0, align) && a !in bk0.l.size && bk1 == ChunkBook(bk0, a, k)
    ensures Picked(bk0, bk1, a) && a in bk1.l.chunks && bk1.l.chunks[a] == k && a !in bk0.live
  {
    hide RegionsApart, Filed, Tiled, KindsOk;
    FreshNotFree(bk0, align, a);
  }

  lemma GrantedIs(bk0: Book, bk1: Book, bk2: Book, a: int, size: nat, c: nat)
    requires Picked(bk0, bk1, a) && a !in bk0.live
    requires Carved(bk1, bk2, a) && c < NUM_CLASSES
    requires bk2.l.size[a] >= size + HEADER
    requires (bk2.l.size[a] == ClassSize(c) || bk2.l.size[a] == ClassSize(c) + EXTRA_SIZE)
    ensures Granted(bk0, bk2, a, size, c) && ChunkAt(bk2.l, a) == ChunkAt(bk1.l, a)
  {
    hide ClassSize;
  }

  lemma AllocatedIs(bk0: Book, bk1: Book, bk2: Book, a: int, size: nat, c: nat)
    requires Picked(bk0, bk1, a) && a !in bk0.live && GoodFit(bk0, c, a)
    requires Carved(bk1, bk2, a) && c < NUM_CLASSES
    requires bk2.l.size[a] >= size + HEADER
    requires (bk2.l.size[a] == ClassSize(c) || bk2.l.size[a] == ClassSize(c) + EXTRA_SIZE)
    ensures Allocated(bk0, bk2, a, size, c) && ChunkAt(bk2.l, a) == ChunkAt(bk1.l, a)
  {
    hide ClassSize, GoodFit, Picked, Carved, Granted, ChunkAt;
    GrantedIs(bk0, bk1, bk2, a, size, c);
  }

  /** The chunk starting at a. */
  ghost function ChunkAt(l: Layout, a: int): Chunk {
    if a in l.chunks then l.chunks[a] else Chunk(0, 0, 0)
  }

  /** Where a new chunk is to come from, given the least its region needs: the cached region (s) if it has that and
      the current chunk size, else the system, after the cached region went back; the chunk size then doubles, up
      to a bound, unless the need exceeds it. */
  ghost predicate Planned(need: int, maxChunk: nat, s: int, bytes: nat, cur0: nat, owned0: map<int, nat>, cached0: nat,
                          cachedSize0: nat, cur1: nat, owned1: map<int, nat>, cached1: nat, cachedSize1: nat) {
    && cached1 == 0 && cachedSize1 == 0
    && var n: nat := if need > cur0 then need else cur0;
       if cachedSize0 >= n then
         owned1 == owned0 && cur1 == cur0 && s == cached0 && bytes == cachedSize0
       else
         && cur1 == (if need > cur0 then cur0 else if cur0 * 2 < maxChunk then cur0 * 2 else maxChunk)
         && s == 0 && bytes == n && owned1 == owned0 - Cached(cached0)
  }

  /** The cached region and the system are turned to only when no list can serve the request. */
  ghost predicate Supplied(none: bool, need: int, maxChunk: nat, p: int, ask: nat, k: Chunk,
                           cur0: nat, owned0: map<int, nat>, cached0: nat, cachedSize0: nat, ring0: seq<nat>,
                           cur1: nat, owned1: map<int, nat>, cached1: nat, cachedSize1: nat, ring1: seq<nat>) {
    if none then
      Planned(need, maxChunk, if p == 0 then 0 else k.sys, if p == 0 then ask else k.bytes,
              cur0, owned0, cached0, cachedSize0, cur1, owned1, cached1, cachedSize1)
    else
      cur1 == cur0 && owned1 == owned0 && cached1 == cached0 && cachedSize1 == cachedSize0 && ring1 == ring0 && p != 0
  }

  /** Which means: nothing but the cached region is taken without asking; and when the system is to be asked, that
      region was too small and is back, and the chunk size doubles up to its bound, unless the need exceeds it. */
  lemma SuppliedIs(none: bool, need: int, maxChunk: nat, p: int, ask: nat, k: Chunk,
                   cur0: nat, owned0: map<int, nat>, cached0: nat, cachedSize0: nat, ring0: seq<nat>,
                   cur1: nat, owned1: map<int, nat>, cached1: nat, cachedSize1: nat, ring1: seq<nat>)
    requires Supplied(none, need, maxChunk, p, ask, k, cur0, owned0, cached0, cachedSize0, ring0, cur1, owned1,
                      cached1, cachedSize1, ring1)
    requires need > 0 && (p != 0 && none ==> k.sys != 0)
    requires p == 0 && cachedSize0 > 0 ==> cached0 != 0
    ensures p == 0 ==> none && cachedSize0 < ask && cached1 == 0 && owned1 == owned0 - Cached(cached0)
    ensures p == 0 && ask > cur0 ==> ask == need && cur1 == cur0
    ensures p == 0 && ask <= cur0 ==> ask == cur0 >= need && cur1 <= cur0 * 2 && cur1 <= maxChunk
    ensures p == 0 && ask <= cur0 ==> cur1 == cur0 * 2 || cur1 == maxChunk
    ensures p != 0 ==> cur1 == cur0 && owned1 == owned0
    ensures p != 0 && !none ==> cached1 == cached0
    ensures p != 0 && none ==> cached1 == 0 && k.sys == cached0 && cachedSize0 >= cur0 && cachedSize0 >= need
  {
  }

  lemma SameChunkAt(l0: Layout, l1: Layout, a: int)
    requires l0.chunks == l1.chunks
    ensures ChunkAt(l0, a) == ChunkAt(l1, a)
  {
  }

  lemma RoomyLess(l: Layout, align: nat, a: int, more: nat, least: nat)
    requires Roomy(l, align, a, more) && least <= more
    ensures Roomy(l, align, a, least)
  {
  }

  lemma NewRoomy(bk: Book, align: nat, a: int, k: Chunk)
    requires k.tail - a + 2 * align + 80 > k.bytes
    ensures Roomy(ChunkBook(bk, a, k).l, align, a, k.bytes)
  {
  }

  /** Carving a block does not change its chunk. */
  lemma StaysRoomy(bk0: Book, bk1: Book, align: nat, a: int, least: nat)
    requires Carved(bk0, bk1, a)
    ensures Roomy(bk0.l, align, a, least) ==> Roomy(bk1.l, align, a, least)
  {
  }

  /** No less than the current chunk size is planned. */
  lemma PlannedLeast(need: int, maxChunk: nat, s: int, bytes: nat, cur0: nat, owned0: map<int, nat>, cached0: nat,
                     cachedSize0: nat, cur1: nat, owned1: map<int, nat>, cached1: nat, cachedSize1: nat)
    requires Planned(need, maxChunk, s, bytes, cur0, owned0, cached0, cachedSize0, cur1, owned1, cached1, cachedSize1)
    ensures bytes >= cur0
  {
  }

  lemma SuppliedLeast(none: bool, need: int, maxChunk: nat, ask: nat, k: Chunk,
                      cur0: nat, owned0: map<int, nat>, cached0: nat, cachedSize0: nat, ring0: seq<nat>,
                      cur1: nat, owned1: map<int, nat>, cached1: nat, cachedSize1: nat, ring1: seq<nat>)
    requires Supplied(none, need, maxChunk, 0, ask, k, cur0, owned0, cached0, cachedSize0, ring0, cur1, owned1,
                      cached1, cachedSize1, ring1)
    ensures ask >= cur0
  {
  }

  lemma SuppliedNothing(none: bool, need: int, maxChunk: nat, ask: nat, k: Chunk, k': Chunk,
                        cur0: nat, owned0: map<int, nat>, cached0: nat, cachedSize0: nat, ring0: seq<nat>,
                        cur1: nat, owned1: map<int, nat>, cached1: nat, cachedSize1: nat, ring1: seq<nat>)
    requires Supplied(none, need, maxChunk, 0, ask, k, cur0, owned0, cached0, cachedSize0, ring0, cur1, owned1,
                      cached1, cachedSize1, ring1)
    ensures Supplied(none, need, maxChunk, 0, ask, k', cur0, owned0, cached0, cachedSize0, ring0, cur1, owned1,
                     cached1, cachedSize1, ring1)
  {
  }

  lemma SuppliedSome(none: bool, need: int, maxChunk: nat, block: int, p: int, ask: nat, k: Chunk,
                     cur0: nat, owned0: map<int, nat>, cached0: nat, cachedSize0: nat, ring0: seq<nat>,
                     cur1: nat, owned1: map<int, nat>, cached1: nat, cachedSize1: nat, ring1: seq<nat>)
    requires Supplied(none, need, maxChunk, block, ask, k, cur0, owned0, cached0, cachedSize0, ring0, cur1, owned1,
                      cached1, cachedSize1, ring1)
    requires block != 0 && p != 0
    ensures Supplied(none, need, maxChunk, p, ask, k, cur0, owned0, cached0, cachedSize0, ring0, cur1, owned1,
                     cached1, cachedSize1, ring1)
  {
  }

  /** These regions are still out, and as large as before. */
  ghost predicate RegionsKept(owned0: map<int, nat>, owned1: map<int, nat>, regions: set<int>) {
    forall r {:trigger r in regions} :: r in regions ==> r in owned0 && r in owned1 && owned1[r] == owned0[r]
  }

  lemma OwnedKept(owned: map<int, nat>, regions: set<int>)
    requires forall r :: r in regions ==> r in owned
    ensures RegionsKept(owned, owned, regions)
  {
  }

  lemma KeptGrant(owned0: map<int, nat>, owned1: map<int, nat>, regions: set<int>, s: nat, bytes: nat)
    requires RegionsKept(owned0, owned1, regions) && s !in owned1
    ensures RegionsKept(owned0, owned1[s as int := bytes], regions)
  {
  }

  lemma KeptReturn(owned: map<int, nat>, regions: set<int>, s: nat)
    requires RegionsKept(owned, owned, regions) && s as int !in regions
    ensures RegionsKept(owned, owned - {s as int}, regions)
  {
  }

  lemma HandNotForeign(mem: Memory, owned: map<int, nat>, heap: nat, ring: seq<nat>, cached: nat, cachedSize: nat,
                       foreign: set<int>, others: set<int>, l: Layout, s: int)
    requires SysOk(mem, owned, heap, ring, cached, cachedSize, foreign, others, l) && s in others
    ensures s !in foreign
  {
    hide Ring.RingOk;
  }

  /** A region, unless 0, came into the caller's hands. */
  ghost predicate InHand(others0: set<int>, others1: set<int>, s: nat) {
    if s == 0 then others1 == others0 else s as int !in others0 && others1 == others0 + {s as int}
  }

  lemma HandIs(others0: set<int>, others1: set<int>, s: nat)
    requires InHand(others0, others1, s)
    ensures s == 0 ==> others1 == others0
    ensures s != 0 ==> s as int in others1 && others1 - {s as int} == others0
  {
  }

  /** Where the region of a released chunk goes: into the empty one-chunk cache if there is one, else to the caller. */
  ghost predicate Retired(policy: CachePolicy, chunks0: map<int, Chunk>, chunks1: map<int, Chunk>, a: int, s: nat,
                          cached0: nat, cachedSize0: nat, cached1: nat, cachedSize1: nat) {
    if a in chunks0 && a !in chunks1 then
      if policy == CacheOne && cached0 == 0 then
        s == 0 && cached1 == chunks0[a].sys && cachedSize1 == chunks0[a].bytes
      else
        s == chunks0[a].sys && cached1 == cached0 && cachedSize1 == cachedSize0
    else
      s == 0 && cached1 == cached0 && cachedSize1 == cachedSize0
  }

  lemma ChunkSysPositive(mem: Memory, owned: map<int, nat>, heap: nat, ring: seq<nat>, cached: nat, cachedSize: nat,
                         foreign: set<int>, others: set<int>, l: Layout)
    requires SysOk(mem, owned, heap, ring, cached, cachedSize, foreign, others, l)
    ensures forall c :: c in l.chunks ==> l.chunks[c].sys > 0
  {
    hide Ring.RingOk;
    forall c | c in l.chunks ensures l.chunks[c].sys > 0 {
      assert ChunkOwned(mem, owned, ring, foreign, l, c);
    }
  }

  lemma RetiredIs(policy: CachePolicy, chunks0: map<int, Chunk>, chunks1: map<int, Chunk>, a: int, s: nat,
                  cached0: nat, cachedSize0: nat, cached1: nat, cachedSize1: nat)
    requires Retired(policy, chunks0, chunks1, a, s, cached0, cachedSize0, cached1, cachedSize1)
    ensures a in chunks0 && a !in chunks1 && policy == CacheOne && cached0 == 0 ==>
      s == 0 && cached1 == chunks0[a].sys && cachedSize1 == chunks0[a].bytes
    ensures a in chunks0 && a !in chunks1 && !(policy == CacheOne && cached0 == 0) ==>
      s == chunks0[a].sys && cached1 == cached0 && cachedSize1 == cachedSize0
    ensures a !in chunks0 || a in chunks1 ==> s == 0 && cached1 == cached0 && cachedSize1 == cachedSize0
  {
  }

  lemma ChunkBookHas(bk: Book, a: int, k: Chunk)
    ensures var l := ChunkBook(bk, a, k).l; a in l.chunks && l.chunks[a] == k
  {
  }

  lemma ChunkAtIs(l: Layout, a: int)
    requires a in l.chunks
    ensures ChunkAt(l, a) == l.chunks[a]
  {
  }

  /** What a successful request of this size and class adds to the books. */
  ghost predicate Granted(bk0: Book, bk1: Book, a: int, size: nat, c: nat) {
    && a !in bk0.live && bk1.live == bk0.live + {a} && a in bk1.l.size
    && bk1.l.size[a] >= size + HEADER
    && c < NUM_CLASSES && (bk1.l.size[a] == ClassSize(c) || bk1.l.size[a] == ClassSize(c) + EXTRA_SIZE)
    && (if a in bk0.free then
          Carved(bk0.(free := bk0.free - {a}), bk1, a)
        else
          a !in bk0.l.size && a in bk1.l.chunks && Carved(ChunkBook(bk0, a, bk1.l.chunks[a]), bk1, a))
  }

  /** ... taken by good fit. */
  ghost predicate Allocated(bk0: Book, bk1: Book, a: int, size: nat, c: nat) {
    Granted(bk0, bk1, a, size, c) && GoodFit(bk0, c, a)
  }

  lemma GrantedGoodFit(bk0: Book, bk1: Book, a: int, size: nat, c: nat)
    requires Granted(bk0, bk1, a, size, c) && GoodFit(bk0, c, a)
    ensures Allocated(bk0, bk1, a, size, c)
  {
    hide Granted, GoodFit;
  }

  lemma FoundIsGoodFit(bk: Book, c: nat, d: nat)
    requires FirstNonempty(bk.lists, c, d)
    ensures GoodFit(bk, c, bk.lists[d][0])
  {
    var lists := bk.lists;
    forall e: nat | FirstNonempty(lists, c, e) ensures e == d {
    }
  }

  lemma FoundIsSome(lists: seq<seq<nat>>, c: nat, d: nat)
    requires FirstNonempty(lists, c, d)
    ensures !NoneFrom(lists, c)
  {
  }

  lemma NewIsGoodFit(bk: Book, c: nat, a: int)
    requires NoneFrom(bk.lists, c)
    ensures a !in bk.l.size ==> GoodFit(bk, c, a)
  {
  }

  lemma HeldNotLive(bk: Book, a: int)
    requires HeldBlock(bk, a)
    ensures a !in bk.live && a in bk.l.size
  {
  }

  lemma LiveIsAligned(mem: Memory, ix: Index, bk: Book, align: nat, k: nat, heap: nat, a: int)
    requires Core(mem, ix, bk, align, heap, NONE) && AlignmentOk(align, k) && a in bk.live
    ensures a > 0 && (a + HEADER) % align == 0
  {
    hide Pow2, Tiled, RegionsApart, Filed, IsTailOf;
    assert KindOk(bk.l, bk.free, bk.live, a);
    HeaderInside(bk.l, align, a);
    BlockMultiple(bk.l, align, a);
    AddressPositive(bk.l, align, a);
  }

  lemma WroteWord(mem: Memory, w: int, v: nat)
    ensures Read(Write(mem, w, v), w) == v
  {
  }

  lemma SelfQuiet(mem: Memory, bk: Book, ring: seq<nat>, align: nat)
    requires Shape(bk, align)
    ensures Quiet(mem, mem, bk.l, ring, bk.l, ring, bk.live)
  {
    hide Read, Tiled, KindsOk, RegionsApart, Filed;
  }

  lemma SplitPoint(mem: Memory, ix: Index, bk: Book, align: nat, k: nat, heap: nat, block: nat, expected: nat)
    requires Core(mem, ix, bk, align, heap, NONE) && AlignmentOk(align, k) && HeldBlock(bk, block)
    requires expected % align == 0
    ensures 1 <= align && AlignAddress(block + expected + HEADER, align, 0) == block + expected + HEADER
    ensures Multiple(expected, align)
  {
    hide Pow2, Tiled, KindsOk, RegionsApart, Filed, AlignAddress;
    AlignmentFacts(align, k);
    HeaderInside(bk.l, align, block);
    BlockMultiple(bk.l, align, block);
    AlignAddressIs(block + expected + HEADER, k, 0);
    SumMultiple(block + HEADER, expected, align);
    var r := AlignAddress(block + expected + HEADER, align, 0);
    MultiplesNotBetween(block + expected + HEADER, r, align);
  }

  lemma SumMultiple(x: int, y: int, d: nat)
    requires d > 0 && x % d == 0 && y % d == 0
    ensures (x + y) % d == 0
  {
    var q, r := x / d, y / d;
    assert x == q * d && y == r * d;
    assert (q + r) * d == q * d + r * d;
    DivModUnique(x + y, d, q + r, 0);
  }

  /** When the block is too small to split, what is left over is nothing or exactly the extra size. */
  lemma NoResidue(mem: Memory, ix: Index, bk: Book, align: nat, k: nat, heap: nat, block: nat, expected: nat)
    requires Core(mem, ix, bk, align, heap, NONE) && AlignmentOk(align, k) && HeldBlock(bk, block)
    requires expected % align == 0 && bk.l.size[block] >= expected
    requires bk.l.size[block] < expected + (if align > SMALLEST_BLOCK then align else SMALLEST_BLOCK)
    ensures bk.l.size[block] == expected || bk.l.size[block] == expected + EXTRA_SIZE
  {
    hide Pow2, Tiled, KindsOk, RegionsApart, Filed;
    AlignmentFacts(align, k);
    HeaderInside(bk.l, align, block);
    BlockMultiple(bk.l, align, block);
    var gap := bk.l.size[block] - expected;
    Gap(bk.l.size[block], expected, align);
    if align != 16 {
      SmallMultiple(gap, align);
    }
  }

  lemma SmallMultiple(x: nat, d: nat)
    requires x < d && x % d == 0
    ensures x == 0
  {
    DivModUnique(x, d, 0, x);
  }

  lemma CommitableHere(bk: Book, block: nat, used: nat, index: nat, slot: nat, extra: nat)
    requires HeldBlock(bk, block) && bk.l.size[block] == used && index < NUM_INDICES && slot < NUM_SLOTS && extra < 2
    requires used == Size(index, slot) + (if extra == 1 then EXTRA_SIZE else 0)
    ensures Commitable(bk, block, used, index, slot, extra)
  {
    hide Size;
  }

  /** Setting up the header in one step. */
  lemma CommitStep(m0: Memory, m1: Memory, ix: Index, bk: Book, align: nat, heap: nat, block: nat, used: nat,
                   want: IndexSlot, extra: nat, owned: map<int, nat>, ring: seq<nat>, cached: nat, cachedSize: nat,
                   foreign: set<int>, others: set<int>)
    requires Core(m0, ix, bk, align, heap, NONE) && SettledBut(bk, block)
    requires SysOk(m0, owned, heap, ring, cached, cachedSize, foreign, others, bk.l)
    requires HeldBlock(bk, block) && bk.l.size[block] == used
    requires want.Valid() && extra < 2 && used == Size(want.index, want.slot) + (if extra == 1 then EXTRA_SIZE else 0)
    requires m1 == (var a := Write(m0, block, heap);
                    var b := Write(a, block + 8, AllocWord(Read(a, block + 8), want.index, want.slot, extra));
                    Write(b, block + used + 8, SetPrevious(Read(b, block + used + 8))))
    ensures var bk' := CommitBook(bk, block);
      && Core(m1, ix, bk', align, heap, NONE) && Settled(bk')
      && SysOk(m1, owned, heap, ring, cached, cachedSize, foreign, others, bk'.l)
      && Quiet(m0, m1, bk.l, ring, bk'.l, ring, bk.live)
      && bk'.live == bk.live + {block as int} && bk'.l == bk.l && bk'.free == bk.free
  {
    hide Core, SysOk, Read, Frame, Quiet, Settled, SettledBut, HeldBlock, Size, CommitMem, CommitBook, Commitable;
    CommitableHere(bk, block, used, want.index, want.slot, extra);
    CommitMemIs(m0, heap, block, used, want.index, want.slot, extra);
    CommitOk(m0, ix, bk, align, heap, block, used, want.index, want.slot, extra);
    CommitSettles(bk, block);
    CoreShape(m0, ix, bk, align, heap, NONE);
    SelfQuiet(m0, bk, ring, align);
    StepQuiet(m0, m0, m1, owned, heap, ring, cached, cachedSize, foreign, others, bk.l, bk, bk.live, align);
  }

  lemma CommitMemIs(mem: Memory, heap: nat, a: int, size: int, index: nat, slot: nat, extra: nat)
    ensures CommitMem(mem, heap, a, size, index, slot, extra)
         == (var m1 := Write(mem, a, heap);
             var m2 := Write(m1, a + 8, AllocWord(Read(m1, a + 8), index, slot, extra));
             Write(m2, a + size + 8, SetPrevious(Read(m2, a + size + 8))))
  {
  }

  lemma CommitSettles(bk: Book, block: int)
    requires SettledBut(bk, block) && HeldBlock(bk, block)
    ensures Settled(CommitBook(bk, block)) && CommitBook(bk, block).live == bk.live + {block}
    ensures CommitBook(bk, block).l == bk.l && block in bk.l.size && CommitBook(bk, block).free == bk.free
  {
    hide IsTailOf;
  }

  lemma QuietLess(m0: Memory, m1: Memory, l: Layout, ring: seq<nat>, live: set<int>, fewer: set<int>)
    requires Quiet(m0, m1, l, ring, l, ring, live) && fewer <= live
    ensures Quiet(m0, m1, l, ring, l, ring, fewer)
  {
    hide Read, UserKept, Untouched;
  }

  /** One more block-level step after a quiet one. */
  lemma StepQuiet(m0: Memory, m1: Memory, m2: Memory, owned: map<int, nat>, heap: nat, ring: seq<nat>, cached: nat,
                  cachedSize: nat, foreign: set<int>, pending: set<int>, l0: Layout, bk: Book, live: set<int>,
                      align: nat)
    requires Quiet(m0, m1, l0, ring, bk.l, ring, live) && Frame(m1, m2, bk.l, live) && live <= bk.live
    requires Shape(bk, align) && SysOk(m1, owned, heap, ring, cached, cachedSize, foreign, pending, bk.l)
    ensures SysOk(m2, owned, heap, ring, cached, cachedSize, foreign, pending, bk.l)
    ensures Quiet(m0, m2, l0, ring, bk.l, ring, live)
  {
    hide SysOk, Read, Tiled, KindsOk, RegionsApart, Filed, OutsideChunks, ListWordsKept, UserKept, Untouched;
    SysFrameChunks(m1, m2, owned, heap, ring, cached, cachedSize, foreign, pending, bk.l);
    SysFrame(m1, m2, owned, heap, ring, cached, cachedSize, foreign, pending, bk.l, bk.l);
    forall a | a in live ensures SameSize(bk.l, bk.l, a) {
      assert a in bk.live;
    }
    FrameIsQuiet(m1, m2, bk.l, bk.l, ring, live);
    QuietTrans(m0, m1, m2, l0, ring, bk.l, ring, bk.l, ring, live);
  }

  lemma SplitBookIs(bk: Book, align: nat, a: int, n: int, far: int)
    requires Shape(bk, align) && HeldBlock(bk, a) && far == a + bk.l.size[a]
    requires a + SMALLEST_BLOCK <= n && n + SMALLEST_BLOCK <= far && Multiple(n - a, align)
    ensures a in bk.l.base && a !in bk.free && far in bk.l.size
    ensures var bk' := SplitBook(bk, a, n, far);
      && bk'.live == bk.live && bk'.free == bk.free && bk'.lists == bk.lists && bk'.l == Split(bk.l, a, n, far)
        && bk'.l.chunks == bk.l.chunks
      && bk'.l.size[a] == n - a && bk'.l.size[n] == far - n && n in bk'.l.base && n in bk'.l.prev && bk'.l.prev[n] == a
      && (forall x :: x in bk.live ==> SameSize(bk.l, bk'.l, x))
      && (SettledBut(bk, a) ==> SettledButTwo(bk', a, n))
  {
    hide Tiled, KindsOk, RegionsApart, Filed, Multiple;
    SplitShape(bk, align, a, n, far);
    var bk' := SplitBook(bk, a, n, far);
    if SettledBut(bk, a) {
      forall x | x in bk'.l.size && x != a && x != n && !IsTailOf(bk'.l, x) ensures x in bk'.free || x in bk'.live {
        assert !IsTailOf(bk.l, x);
      }
    }
  }

  ghost predicate SettledButTwo(bk: Book, a: int, b: int) {
    forall x {:trigger IsTailOf(bk.l, x)} ::
      x in bk.l.size && x != a && x != b && !IsTailOf(bk.l, x) ==> x in bk.free || x in bk.live
  }

  lemma LinkSettles(bk1: Book, bk2: Book, n: int, a: int)
    requires SettledButTwo(bk1, a, n) && bk2.l == bk1.l && bk2.live == bk1.live && bk2.free == bk1.free + {n}
    requires HeldBlock(bk1, a) && a != n
    ensures SettledBut(bk2, a) && HeldBlock(bk2, a)
  {
    hide IsTailOf;
  }

  /** Two block-level steps with the same live blocks are quiet together. */
  lemma LinkedIsQuiet(m0: Memory, m1: Memory, m2: Memory, owned: map<int, nat>, heap: nat, ring: seq<nat>, cached: nat,
                      cachedSize: nat, foreign: set<int>, others: set<int>, bk0: Book, bk1: Book, bk2: Book, align: nat)
    requires Shape(bk0, align) && Shape(bk1, align)
    requires Frame(m0, m1, bk0.l, bk0.live) && Frame(m1, m2, bk1.l, bk1.live)
    requires bk1.live == bk0.live && bk1.l.chunks == bk0.l.chunks && bk2.l == bk1.l && bk2.live == bk1.live
    requires forall x :: x in bk0.live ==> SameSize(bk0.l, bk1.l, x)
    requires SysOk(m0, owned, heap, ring, cached, cachedSize, foreign, others, bk0.l)
    ensures SysOk(m2, owned, heap, ring, cached, cachedSize, foreign, others, bk2.l)
    ensures Quiet(m0, m2, bk0.l, ring, bk2.l, ring, bk2.live)
  {
    hide SysOk, Read, Tiled, KindsOk, RegionsApart, Filed, OutsideChunks, ListWordsKept, Quiet, Frame;
    SelfQuiet(m0, bk0, ring, align);
    StepQuiet(m0, m0, m1, owned, heap, ring, cached, cachedSize, foreign, others, bk0.l, bk0, bk0.live, align);
    SameListWords(m1, ring);
    SysFrame(m1, m1, owned, heap, ring, cached, cachedSize, foreign, others, bk0.l, bk1.l);
    RelayoutQuiet(m0, m1, bk0.l, bk1.l, ring, bk0.live);
    StepQuiet(m0, m1, m2, owned, heap, ring, cached, cachedSize, foreign, others, bk0.l, bk1, bk0.live, align);
  }

  lemma SameListWords(mem: Memory, ring: seq<nat>)
    ensures ListWordsKept(mem, mem, ring)
  {
  }

  lemma RelayoutQuiet(m0: Memory, m1: Memory, l0: Layout, l1: Layout, ring: seq<nat>, live: set<int>)
    requires Quiet(m0, m1, l0, ring, l0, ring, live) && l1.chunks == l0.chunks
    requires forall x :: x in live ==> SameSize(l0, l1, x)
    ensures Quiet(m0, m1, l0, ring, l1, ring, live)
  {
    hide Read, OutsideChunks;
    forall a | a in live ensures UserKept(m0, m1, l1, a) {
      assert UserKept(m0, m1, l0, a) && SameSize(l0, l1, a);
    }
  }

  /** Every block but this one is free, live or a tail. */
  ghost predicate SettledBut(bk: Book, block: int) {
    forall a {:trigger IsTailOf(bk.l, a)} ::
      a in bk.l.size && a != block && !IsTailOf(bk.l, a) ==> a in bk.free || a in bk.live
  }

  lemma CoreShape(mem: Memory, ix: Index, bk: Book, align: nat, heap: nat, except: int)
    requires Core(mem, ix, bk, align, heap, except)
    ensures Shape(bk, align)
  {
  }

  lemma CachedFacts(mem: Memory, owned: map<int, nat>, heap: nat, ring: seq<nat>, cached: nat, cachedSize: nat,
                    foreign: set<int>, others: set<int>, l: Layout)
    requires SysOk(mem, owned, heap, ring, cached, cachedSize, foreign, others, l)
    ensures cachedSize <= MAX_CHUNK && (cached == 0 ==> cachedSize == 0)
    ensures cached != 0 ==> cached in owned && cachedSize == owned[cached]
    ensures forall r :: r in foreign ==> r in owned && r != cached
    ensures forall r :: r in others ==> r in owned && r != cached
  {
    hide Ring.RingOk;
    forall r | r in foreign || r in others ensures r in owned && r != cached {
      assert r in owned.Keys;
    }
    assert cached != 0 ==> cached in owned.Keys;
  }

  lemma ChunkBookSettled(bk: Book, align: nat, first: int, k: Chunk)
    requires Shape(bk, align) && Settled(bk) && ChunkFits(align, first, k) && FreshRegion(bk.l, k)
    ensures var bk' := ChunkBook(bk, first, k);
      && first in bk'.l.base && bk'.l.base[first] == first && bk'.l.size[first] == k.tail - first
      && k.tail !in bk'.free && SettledBut(bk', first) && first !in bk.l.size
      && forall a :: a in bk'.live ==> SameSize(bk.l, bk'.l, a)
  {
    hide Tiled, KindsOk, RegionsApart, Filed, Multiple, FreshRegion;
    ChunkShape(bk, align, first, k);
    FreshChunkFits(bk, align, first, k);
    var bk' := ChunkBook(bk, first, k);
    forall a | a in bk'.l.size && a != first && !IsTailOf(bk'.l, a) ensures a in bk'.free || a in bk'.live {
      if a in bk.l.size {
        NewChunkFresh(bk.l, align, first, k, a);
        assert !IsTailOf(bk.l, a);
      }
    }
  }

  /** After the set-up writes the list is as it was, still without the new chunk. */
  lemma InstallAccounts(m0: Memory, m1: Memory, owned: map<int, nat>, heap: nat, ring: seq<nat>, cached: nat,
                        cachedSize: nat, foreign: set<int>, others: set<int>, bk0: Book, bk1: Book, align: nat,
                            s: nat, block: nat, k: Chunk)
    requires SysOk(m0, owned, heap, ring, cached, cachedSize, foreign, others, bk0.l)
    requires Frame(m0, m1, bk1.l, bk1.live) && bk1 == ChunkBook(bk0, block, k) && k.sys == s && s in owned
    requires owned[s] == k.bytes
    requires block <= k.tail && s in others
    ensures SysOk(m1, owned, heap, ring, cached, cachedSize, foreign, others, bk0.l)
  {
    hide SysOk, Read, UserKept, RegionPair;
    forall i: int, w | 0 <= i < |ring| && ring[i] <= w < ring[i] + LIST_WORDS ensures Read(m1, w) == Read(m0, w) {
      RingWordOutside(m0, owned, heap, ring, cached, cachedSize, foreign, others, bk0.l, i, w);
      RingWordNotPending(m0, owned, heap, ring, cached, cachedSize, foreign, others, bk0.l, i, w, s);
      ListedOutside(bk0, block, k, w);
    }
    SysFrame(m0, m1, owned, heap, ring, cached, cachedSize, foreign, others, bk0.l, bk0.l);
  }

  lemma RingWordNotPending(mem: Memory, owned: map<int, nat>, heap: nat, ring: seq<nat>, cached: nat, cachedSize: nat,
                           foreign: set<int>, pending: set<int>, l: Layout, i: nat, w: int, s: nat)
    requires SysOk(mem, owned, heap, ring, cached, cachedSize, foreign, pending, l) && s in pending && s in owned
    requires i < |ring| && ring[i] <= w < ring[i] + LIST_WORDS
    ensures w < s || w >= s + owned[s]
  {
    hide Ring.RingOk;
    assert s in owned.Keys;
    assert i > 0 ==> ring[i] as int in Members(ring);
    if i == 0 {
      assert RegionPair(owned, heap, s);
    } else {
      assert ring[i] as int in owned.Keys;
      assert RegionPair(owned, ring[i], s);
    }
  }

  lemma ListedOutside(bk: Book, block: nat, k: Chunk, w: int)
    requires OutsideChunks(bk.l, w) && (w < k.sys || w >= k.sys + k.bytes) && block <= k.tail
    ensures OutsideChunks(ChunkBook(bk, block, k).l, w)
  {
    var l' := ChunkBook(bk, block, k).l;
    forall c | c in l'.chunks ensures OutsideChunk(l', c, w) {
      assert c != block ==> OutsideChunk(bk.l, c, w);
    }
  }

  /** Listing the new chunk completes the accounting and disturbs no live block. */
  lemma InstallListed(m0: Memory, m1: Memory, owned: map<int, nat>, heap: nat, ring: seq<nat>, cached: nat,
                      cachedSize: nat, foreign: set<int>, others: set<int>, bk0: Book, bk1: Book, align: nat, s: nat,
                          block: nat, k: Chunk)
    requires Shape(bk0, align) && ChunkFits(align, block, k) && FreshRegion(bk0.l, k)
    requires SysOk(m1, owned, heap, ring, cached, cachedSize, foreign, others, bk0.l)
    requires Frame(m0, m1, bk1.l, bk1.live) && bk1 == ChunkBook(bk0, block, k)
    requires k.sys == s && s in owned && owned[s] == k.bytes <= MAX_CHUNK && s in others
    requires forall a :: a in bk1.live ==> SameSize(bk0.l, bk1.l, a)
    ensures |ring| > 0
    ensures var m2 := ListMem(m1, ring, s, MAGIC_MEDIUM);
      && SysOk(m2, owned, heap, Ring.Inserted(ring, s), cached, cachedSize, foreign, others - {s as int}, bk1.l)
      && SameInside(m1, m2, bk1.l)
      && Quiet(m0, m2, bk0.l, ring, bk1.l, Ring.Inserted(ring, s), bk1.live)
  {
    hide SysOk, Read, UserKept, ListMem, Tiled, KindsOk, RegionsApart, Filed, Multiple, FreshRegion, Members;
    ChunkShape(bk0, align, block, k);
    RingNonempty(m1, owned, heap, ring, cached, cachedSize, foreign, others, bk0.l);
    assert ChunkSys(bk1.l, s) by { assert block in bk1.l.chunks && bk1.l.chunks[block].sys == s; }
    SysList(m1, owned, heap, ring, cached, cachedSize, foreign, others, bk0.l, bk1.l, s, MAGIC_MEDIUM, foreign);
    var m2 := ListMem(m1, ring, s, MAGIC_MEDIUM);
    var ring2 := Ring.Inserted(ring, s);
    forall w | !OutsideChunks(bk1.l, w) ensures Read(m2, w) == Read(m1, w) {
      NewInside(m1, owned, heap, ring, cached, cachedSize, foreign, others, bk0, s, block, k, w);
    }
    InstallQuiet(m0, m1, m2, bk0, bk1, align, ring, s, block, k);
  }

  lemma RingNonempty(mem: Memory, owned: map<int, nat>, heap: nat, ring: seq<nat>, cached: nat, cachedSize: nat,
                     foreign: set<int>, pending: set<int>, l: Layout)
    requires SysOk(mem, owned, heap, ring, cached, cachedSize, foreign, pending, l)
    ensures |ring| > 0 && Ring.RingOk(mem, SYS_LINKS, ring) && ring[0] == heap + SENTINEL
  {
  }

  lemma NewInside(mem: Memory, owned: map<int, nat>, heap: nat, ring: seq<nat>, cached: nat, cachedSize: nat,
                  foreign: set<int>, others: set<int>, bk: Book, s: nat, block: nat, k: Chunk, w: int)
    requires SysOk(mem, owned, heap, ring, cached, cachedSize, foreign, others, bk.l)
    requires k.sys == s && s in owned && owned[s] == k.bytes && block <= k.tail && s in others
    requires !OutsideChunks(ChunkBook(bk, block, k).l, w)
    ensures |ring| > 0 && Read(ListMem(mem, ring, s, MAGIC_MEDIUM), w) == Read(mem, w)
  {
    hide SysOk, Read, ListMem;
    RingNonempty(mem, owned, heap, ring, cached, cachedSize, foreign, others, bk.l);
    if !OutsideChunks(bk.l, w) {
      ListInside(mem, owned, heap, ring, cached, cachedSize, foreign, others, bk.l, s, MAGIC_MEDIUM, w);
    } else {
      OnlyNewChunk(bk, block, k, w);
      forall i: nat | i < |ring| ensures w < ring[i] || w >= ring[i] + LIST_WORDS {
        if ring[i] <= w < ring[i] + LIST_WORDS {
          RingWordNotPending(mem, owned, heap, ring, cached, cachedSize, foreign, others, bk.l, i, w, s);
        }
      }
      ListMemFrame(mem, ring, s, MAGIC_MEDIUM, w);
    }
  }

  lemma OnlyNewChunk(bk: Book, block: nat, k: Chunk, w: int)
    requires OutsideChunks(bk.l, w) && !OutsideChunks(ChunkBook(bk, block, k).l, w) && block <= k.tail
    ensures k.sys + LIST_WORDS <= w < k.sys + k.bytes
  {
    if !(k.sys + LIST_WORDS <= w < k.sys + k.bytes) {
      var l' := ChunkBook(bk, block, k).l;
      forall c | c in l'.chunks ensures OutsideChunk(l', c, w) {
        assert c != block ==> OutsideChunk(bk.l, c, w);
      }
    }
  }

  lemma InstallQuiet(m0: Memory, m1: Memory, m2: Memory, bk0: Book, bk1: Book, align: nat, ring: seq<nat>, s: nat,
                     block: nat, k: Chunk)
    requires Shape(bk1, align) && Frame(m0, m1, bk1.l, bk1.live) && |ring| > 0 && Ring.RingOk(m1, SYS_LINKS, ring)
    requires m2 == ListMem(m1, ring, s, MAGIC_MEDIUM)
    requires forall w {:trigger Read(m2, w)} :: !OutsideChunks(bk1.l, w) ==> Read(m2, w) == Read(m1, w)
    requires forall a :: a in bk1.live ==> SameSize(bk0.l, bk1.l, a)
    ensures Quiet(m0, m2, bk0.l, ring, bk1.l, Ring.Inserted(ring, s), bk1.live)
  {
    hide Read, ListMem, Tiled, KindsOk, RegionsApart, Filed, Ring.RingOk, OutsideChunks;
    var ring2 := Ring.Inserted(ring, s);
    HeadersIn(bk1, align);
    forall a | a in bk1.live ensures UserKept(m0, m2, bk1.l, a) {
      assert SameSize(bk0.l, bk1.l, a) && UserKept(m0, m1, bk1.l, a);
      InsideChunk(bk1, align, a, a + 8);
      forall w | a + HEADER <= w < a + bk1.l.size[a] ensures Read(m2, w) == Read(m0, w) {
        InsideChunk(bk1, align, a, w);
        assert Read(m1, w) == Read(m0, w);
      }
    }
    forall w | Untouched(bk0.l, ring, w) && Untouched(bk1.l, ring2, w) ensures Read(m2, w) == Read(m0, w) {
      assert Read(m1, w) == Read(m0, w);
      assert ring2[1] == s;
      assert w < ring2[1] || w >= ring2[1] + LIST_WORDS;
      ListMemFrame(m1, ring, s, MAGIC_MEDIUM, w);
    }
  }

  lemma ListedCore(m1: Memory, ix: Index, bk: Book, align: nat, heap: nat, m2: Memory)
    requires Core(m1, ix, bk, align, heap, NONE) && SameInside(m1, m2, bk.l)
    ensures Core(m2, ix, bk, align, heap, NONE)
  {
    hide Core, SameInside;
    OutsideOk(m1, m2, ix, bk, align, heap, NONE);
  }

  lemma ChunkFitsHere(s: nat, bytes: nat, align: nat, k: nat, expected: nat)
    requires AlignmentOk(align, k) && s > 0 && expected % align == 0
    requires expected >= 32 && expected + align + 256 <= bytes <= MAX_CHUNK
    ensures 1 <= align <= bytes
    ensures var first, tail := FirstHeader(s, align), TailHeader(s, bytes, align);
      && first >= 16 && tail - first >= expected && ChunkFits(align, first, Chunk(s, bytes, tail))
      && tail - first + 2 * align + 80 > bytes
  {
    hide Pow2, AlignAddress;
    AlignmentFacts(align, k);
    ChunkPaddingSuffices(s, bytes, align, k, expected);
  }

  lemma ChunkBookIs(bk: Book, first: int, k: Chunk)
    requires first <= k.tail
    ensures var bk' := ChunkBook(bk, first, k);
      bk'.live == bk.live && bk'.free == bk.free && bk'.lists == bk.lists && bk'.l == AddChunk(bk.l, first, k)
  {
  }

  lemma ChunkMemIs(mem: Memory, first: int, k: Chunk)
    requires k.sys >= 0 && k.tail >= first && first >= 16
    ensures ChunkMem(mem, first, k)
         == Write(Write(Write(Write(Write(Write(Write(mem, k.sys + 24, first + 16), k.sys + 40, k.bytes), first - 16,
                                          k.sys),
                  first + 8, 0), k.sys + 32, k.tail + 16), k.tail + 8, BLOCK_ALLOC), first - 8,
                      PRE_HEADER + (k.tail - first))
  {
  }

  lemma PendingPositive(mem: Memory, owned: map<int, nat>, heap: nat, ring: seq<nat>, cached: nat, cachedSize: nat,
                        foreign: set<int>, pending: set<int>, l: Layout, s: nat)
    requires SysOk(mem, owned, heap, ring, cached, cachedSize, foreign, pending, l) && s in pending
    ensures s > 0 && s in owned
  {
    hide Ring.RingOk;
    assert s in owned.Keys;
    assert owned[s] >= 0;
  }

  /** d is the least class from c on whose list is nonempty. */
  ghost predicate FirstNonempty(lists: seq<seq<nat>>, c: nat, d: nat) {
    && |lists| == NUM_CLASSES && c <= d < NUM_CLASSES && lists[d] != []
    && forall e {:trigger lists[e]} :: c <= e < d ==> lists[e] == []
  }

  ghost predicate NoneFrom(lists: seq<seq<nat>>, c: nat) {
    |lists| == NUM_CLASSES && forall e {:trigger lists[e]} :: c <= e < NUM_CLASSES ==> lists[e] == []
  }

  lemma BitmapsOf(mem: Memory, ix: Index, bk: Book, align: nat, heap: nat, except: int)
    requires Core(mem, ix, bk, align, heap, except)
    ensures Lists.BitmapsOk(ix.bitmap, ix.top, bk.lists)
  {
  }

  /** Scanning one row from a slot finds its first nonempty list from there. */
  lemma RowScan(bitmap: seq<nat>, top: nat, lists: seq<seq<nat>>, index: nat, slot: nat)
    requires Lists.BitmapsOk(bitmap, top, lists) && index < NUM_INDICES && slot < NUM_SLOTS
    ensures bitmap[index] <= Bitmap.WORD32_MAX
    ensures var r := Bitmap.FindLeftmost(bitmap[index], slot);
      && slot <= r <= 32
      && (r < 32 ==> lists[index * NUM_SLOTS + r] != [])
      && forall e :: index * NUM_SLOTS + slot <= e < index * NUM_SLOTS + r ==> lists[e] == []
  {
    hide Bitmap.FindLeftmost, Bitmap.Has;
    assert Lists.RowOk(bitmap, top, lists, index);
    Bitmap.FindLeftmostIsFirst(bitmap[index], slot);
    var r := Bitmap.FindLeftmost(bitmap[index], slot);
    forall e | index * NUM_SLOTS + slot <= e < index * NUM_SLOTS + r ensures lists[e] == [] {
      assert !Bitmap.Has(bitmap[index], e - index * NUM_SLOTS);
    }
  }

  lemma EmptyRow(bitmap: seq<nat>, top: nat, lists: seq<seq<nat>>, i: nat)
    requires Lists.BitmapsOk(bitmap, top, lists) && i < NUM_INDICES && !Bitmap.Has(top, i)
    ensures forall e :: i * NUM_SLOTS <= e < i * NUM_SLOTS + NUM_SLOTS ==> lists[e] == []
  {
    hide Bitmap.Has;
    assert Lists.RowOk(bitmap, top, lists, i);
    Bitmap.ZeroIffNone(bitmap[i]);
    forall e | i * NUM_SLOTS <= e < i * NUM_SLOTS + NUM_SLOTS ensures lists[e] == [] {
      assert !Bitmap.Has(bitmap[i], e - i * NUM_SLOTS);
    }
  }

  lemma RowNonempty(bitmap: seq<nat>, top: nat, lists: seq<seq<nat>>, i: nat)
    requires Lists.BitmapsOk(bitmap, top, lists) && i < NUM_INDICES && Bitmap.Has(top, i)
    ensures bitmap[i] <= Bitmap.WORD32_MAX && Bitmap.FindLeftmost(bitmap[i], 0) < 32
  {
    hide Bitmap.Has, Bitmap.FindLeftmost;
    assert Lists.RowOk(bitmap, top, lists, i);
    Bitmap.ZeroIffNone(bitmap[i]);
    Bitmap.FindLeftmostIsFirst(bitmap[i], 0);
  }

  /** Scanning the top level finds the first row with a nonempty list. */
  lemma TopScan(bitmap: seq<nat>, top: nat, lists: seq<seq<nat>>, skip: nat)
    requires Lists.BitmapsOk(bitmap, top, lists) && skip <= NUM_INDICES
    ensures top <= Bitmap.WORD32_MAX
    ensures var i := Bitmap.FindLeftmost(top, skip);
      && skip <= i <= 32
      && (i < 32 ==> i < NUM_INDICES && Bitmap.Has(top, i))
      && forall e :: skip * NUM_SLOTS <= e < i * NUM_SLOTS && e < NUM_CLASSES ==> lists[e] == []
  {
    hide Bitmap.FindLeftmost, Bitmap.Has, Lists.RowOk;
    Bitmap.FindLeftmostIsFirst(top, skip);
    var i := Bitmap.FindLeftmost(top, skip);
    forall e | skip * NUM_SLOTS <= e < i * NUM_SLOTS && e < NUM_CLASSES ensures lists[e] == [] {
      var row := e / NUM_SLOTS;
      assert !Bitmap.Has(top, row);
      EmptyRow(bitmap, top, lists, row);
    }
  }

  lemma FileClassIs(size: nat, at: IndexSlot)
    requires at == if size >= SIZECLASS_MAX then IndexSlot(NUM_INDICES - 1,
                                                           NUM_SLOTS - 1) else IndexSlotForFreeBlock(size)
    ensures at.Valid() && FileClass(size) == at.index * NUM_SLOTS + at.slot
  {
    hide IndexSlotForFreeBlock;
  }

  lemma HeadIs(mem: Memory, ix: Index, bk: Book, align: nat, heap: nat, except: int, c: nat)
    requires Core(mem, ix, bk, align, heap, except) && c < NUM_CLASSES
    ensures |ix.heads| == |bk.lists| == NUM_CLASSES && ix.heads[c] == HeadOf(bk.lists[c])
  {
    hide Tiled, KindsOk, RegionsApart, Filed, Lists.BitmapsOk, MarkersOk;
    assert Lists.ListOk(mem, ix.heads[c], bk.lists[c]);
  }

  lemma PutableFromHeld(mem: Memory, ix: Index, bk: Book, align: nat, heap: nat, except: int, block: nat, size: nat)
    requires Core(mem, ix, bk, align, heap, except) && HeldBlock(bk, block) && bk.l.size[block] == size
    requires block in bk.l.base && block in bk.l.prev
    requires block != bk.l.base[block] ==> bk.l.prev[block] !in bk.free
    requires block + size !in bk.free
    ensures Putable(bk, align, FileClass(size), block, size)
  {
    hide Tiled, KindsOk, RegionsApart, Filed, FileClass;
    AddressPositive(bk.l, align, block);
  }

  lemma PutBookIs(bk: Book, c: nat, b: nat)
    requires c < |bk.lists|
    ensures var bk' := PutBook(bk, c, b);
      bk'.l == bk.l && bk'.live == bk.live && bk'.free == bk.free + {b as int}
  {
  }

  /** No block's header word changed. */
  ghost predicate HeadersKept(mem: Memory, mem': Memory, l: Layout) {
    forall x {:trigger Read(mem', x + 8)} :: x in l.size ==> Read(mem', x + 8) == Read(mem, x + 8)
  }

  lemma TakeHeaders(mem: Memory, ix: Index, bk: Book, align: nat, heap: nat, except: int, c: nat, k: nat)
    requires Core(mem, ix, bk, align, heap, except) && c < NUM_CLASSES && k < |bk.lists[c]|
    ensures HeadersKept(mem, TakeMem(mem, bk, c, k), bk.l)
  {
    hide TakeMem, UnlinkWord, Tiled, KindsOk, RegionsApart, Filed, Read, Lists.BitmapsOk, ListsOk, MarkersOk, TagsOk;
    forall x | x in bk.l.size ensures Read(TakeMem(mem, bk, c, k), x + 8) == Read(mem, x + 8) {
      if UnlinkWord(bk, c, k, x + 8) {
        var y := UnlinkWordOwner(bk, align, c, k, x + 8);
        LinkWordsMissTags(bk.l, bk.free, bk.live, align, y, x + 8, x);
      }
      TakeRead(mem, bk, c, k, x + 8);
    }
  }

  lemma TakeIs(mem: Memory, ix: Index, bk: Book, c: nat, k: nat)
    requires c < NUM_CLASSES == |bk.lists| == |ix.heads| && |ix.bitmap| == NUM_INDICES && k < |bk.lists[c]|
    ensures var prev, next := Lists.PrevIn(bk.lists[c], k), Lists.NextIn(bk.lists[c], k);
      && TakeMem(mem, bk, c, k) ==
           (var m1 := if prev != 0 then Write(mem, prev + 16, next) else mem;
            if next != 0 then Write(m1, next, prev) else m1)
      && TakeIndex(ix, c, k == 0, next) ==
           (if k != 0 then ix
            else if next != 0 then ix.(heads := ix.heads[c := next])
            else
              var row := Bitmap.Clear(ix.bitmap[c / NUM_SLOTS], c % NUM_SLOTS);
              Index(ix.heads[c := next], ix.bitmap[c / NUM_SLOTS := row],
                    if row == 0 then Bitmap.Clear(ix.top, c / NUM_SLOTS) else ix.top))
  {
    hide Bitmap.Clear;
  }

  lemma HeldStill(bk1: Book, bk2: Book, a: int)
    requires HeldBlock(bk1, a) && bk2.l == bk1.l && bk2.live == bk1.live && bk2.free <= bk1.free
    ensures HeldBlock(bk2, a)
  {
  }

  lemma TakeBookIs(bk: Book, c: nat, k: nat)
    requires c < |bk.lists| && k < |bk.lists[c]|
    ensures var bk' := TakeBook(bk, c, k);
      bk'.l == bk.l && bk'.live == bk.live && bk'.free == bk.free - {bk.lists[c][k] as int}
  {
  }

  lemma IndexShape(mem: Memory, ix: Index, bk: Book, align: nat, heap: nat, except: int)
    requires Core(mem, ix, bk, align, heap, except)
    ensures |ix.heads| == |bk.lists| == NUM_CLASSES && |ix.bitmap| == NUM_INDICES
  {
  }
}
