/** Chunks that stay although they are wholly free: exactly when a free releases its chunk, and an input on which it
    does not. */
module Stranded {
  import opened Bits
  import opened Memory
  import opened SizeClasses
  import opened Words
  import opened Blocks
  import opened Tags
  import opened MediumSteps
  import opened MediumMoves
  import opened MediumSystem
  import opened Spinning
  import opened SystemMemory
  import opened Tlsf
  import Lists = FreeLists

  /** No block of chunk c is in use but a. */
  ghost predicate LastLive(bk: Book, c: int, a: int) {
    forall x {:trigger x in bk.live} :: x in bk.live && x in bk.l.base && bk.l.base[x] == c ==> x == a
  }

  /** Chunk c is one free block. */
  ghost predicate WhollyFree(bk: Book, c: int) {
    c in bk.l.chunks && c in bk.free && c in bk.l.size && bk.l.size[c] == bk.l.chunks[c].tail - c
  }

  /** When the last block in use of a chunk is freed, the chunk goes exactly if that block is its first and it may be
      released; otherwise it stays, as one free block, and if the block was not its first it is pinned. */
  lemma GoesOrStays(bk0: Book, bk1: Book, align: nat, a: int, mayRelease: bool)
    requires Shape(bk0, align) && Settled(bk0) && a in bk0.live && Freed(bk0, bk1, a, mayRelease)
    ensures a in bk0.l.base && bk0.l.base[a] in bk0.l.chunks
    ensures LastLive(bk0, bk0.l.base[a], a) ==>
      (bk0.l.base[a] !in bk1.l.chunks <==> mayRelease && a == bk0.l.base[a])
    ensures LastLive(bk0, bk0.l.base[a], a) && bk0.l.base[a] in bk1.l.chunks ==>
      WhollyFree(bk1, bk0.l.base[a]) && (a != bk0.l.base[a] ==> bk0.l.base[a] in bk1.l.pinned)
  {
    hide RegionsApart, Filed, Multiple;
    var l, c := bk0.l, bk0.l.base[a];
    assert BlockOk(l, align, a) && PrevOk(l, a) && KindOk(l, bk0.free, bk0.live, a);
    assert ChunkOk(l, c);
    if LastLive(bk0, c, a) {
      InFront(bk0, align, a, c);
      Behind(bk0, align, a, c);
    }
  }

  /** A free block that is not the first of its chunk follows one in use. */
  lemma FreeBehindLive(bk: Book, align: nat, p: int)
    requires Shape(bk, align) && Settled(bk) && p in bk.free && p in bk.l.base && p != bk.l.base[p]
    ensures p in bk.l.prev && bk.l.prev[p] < p && bk.l.prev[p] in bk.live
    ensures bk.l.prev[p] in bk.l.base && bk.l.base[bk.l.prev[p]] == bk.l.base[p]
  {
    hide RegionsApart, Filed, Multiple;
    var l := bk.l;
    assert PrevOk(l, p) && KindOk(l, bk.free, bk.live, p) && BlockOk(l, align, p);
    var pp := l.prev[p];
    assert BlockOk(l, align, pp);
    assert !IsTailOf(l, pp);
  }

  /** What precedes the last block in use is at most one free block, the chunk's first. */
  lemma InFront(bk: Book, align: nat, a: int, c: int)
    requires Shape(bk, align) && Settled(bk) && a in bk.live
    requires a in bk.l.base && bk.l.base[a] == c && LastLive(bk, c, a)
    ensures a in bk.l.prev && (a != c ==> bk.l.prev[a] == c && c in bk.free && c in bk.l.size)
  {
    hide RegionsApart, Filed, Multiple;
    var l := bk.l;
    assert PrevOk(l, a) && KindOk(l, bk.free, bk.live, a);
    if a != c {
      var p := l.prev[a];
      assert BlockOk(l, align, p) && BlockOk(l, align, a) && PrevOk(l, p) && KindOk(l, bk.free, bk.live, p);
      assert !IsTailOf(l, p);
      if p != c {
        FreeBehindLive(bk, align, p);
      }
    }
  }

  /** What follows it is at most one free block, which ends the chunk. */
  lemma Behind(bk: Book, align: nat, a: int, c: int)
    requires Shape(bk, align) && Settled(bk) && a in bk.live
    requires a in bk.l.base && bk.l.base[a] == c && LastLive(bk, c, a)
    requires a in bk.l.size && c in bk.l.chunks
    ensures var n := a + bk.l.size[a];
      if n in bk.free then n in bk.l.size && n + bk.l.size[n] == bk.l.chunks[c].tail else n == bk.l.chunks[c].tail
  {
    hide RegionsApart, Filed, Multiple;
    var l := bk.l;
    assert BlockOk(l, align, a) && KindOk(l, bk.free, bk.live, a);
    var n := a + l.size[a];
    assert BlockOk(l, align, n) && KindOk(l, bk.free, bk.live, n);
    if !IsTailOf(l, n) {
      assert n != a && n in bk.free;
      var far := n + l.size[n];
      assert BlockOk(l, align, far) && KindOk(l, bk.free, bk.live, far) && PrevOk(l, far);
      assert far != c && l.prev[far] == n;
      assert IsTailOf(l, far);
    }
  }

  /** stbm__medium_free of the last block in use of a chunk: the chunk goes if and only if the block is its first,
      carries PREVIOUS_free and the policy is not to cache all. */
  method FreeLast(m: MediumHeap, ptr: nat)
    requires m.Valid() && m.lock.Free() && ptr >= HEADER && ptr - HEADER in m.bk.live
    requires ptr - HEADER in m.bk.l.base && LastLive(m.bk, m.bk.l.base[ptr - HEADER], ptr - HEADER)
    modifies m, m.system, m.lock
    ensures m.Valid() && m.lock.Free() && m.bk.live == old(m.bk.live) - {ptr - HEADER}
    ensures m.system.refusals == old(m.system.refusals)
    ensures var a, c := ptr - HEADER, old(m.bk.l.base)[ptr - HEADER];
      && (c !in m.bk.l.chunks <==>
            a == c && !old(PreviousAlloc(Read(m.mem, ptr - 8))) && m.policy != CacheAll)
      && (c in m.bk.l.chunks ==> WhollyFree(m.bk, c) && (a != c ==> c in m.bk.l.pinned))
  {
    hide Settled, Freed, Read, PreviousAlloc, Core, SysOk, Quiet, LastLive, WhollyFree;
    ghost var bk0 := m.bk;
    ghost var mayRelease := m.policy != CacheAll && !PreviousAlloc(Read(m.mem, ptr - 8));
    m.ValidIs();
    m.Free(ptr);
    GoesOrStays(bk0, m.bk, m.align, ptr - HEADER, mayRelease);
    FreedLive(bk0, m.bk, ptr - HEADER, mayRelease);
  }

  lemma FreedLive(bk0: Book, bk1: Book, a: int, mayRelease: bool)
    requires Freed(bk0, bk1, a, mayRelease)
    ensures bk1.live == bk0.live - {a}
  {
  }

  // ---- two blocks of a fresh chunk, the first freed first ----

  const SIZE_LIMIT: nat := 65000

  /** A fresh chunk has room left for another block of such a size. */
  lemma ClassBelow(size: nat)
    requires 0 < size <= SIZE_LIMIT
    ensures Servable(size, 16) && WantOf(size, 16).Class() < NUM_CLASSES
    ensures SmallSize(WantOf(size, 16).Class())
  {
    hide RoundUp, ClassSize, Size, Row, CeilClass, IndexSlotForRequest;
    TwoToFour();
    NeedFacts(size, 16, 4);
    assert Servable(size, 16);
    ClassOfWant(size, 16);
    SmallClass(NeedOf(size, 16));
  }

  ghost predicate SmallSize(c: nat)
    requires c < NUM_CLASSES
  {
    ClassSize(c) <= 65536
  }

  lemma SmallClass(need: nat)
    requires need <= 65536
    ensures CeilClass(need) < NUM_CLASSES && SmallSize(CeilClass(need))
  {
    hide ClassSize, CeilClass;
    ClassAt(9, 0);
    CeilClassIsLeastAbove(need, 9 * NUM_SLOTS);
    if CeilClass(need) < 9 * NUM_SLOTS {
      ClassSizeIncreases(CeilClass(need), 9 * NUM_SLOTS);
    }
  }

  lemma TwoToFour()
    ensures AlignmentOk(16, 4)
  {
    SmallPowers();
  }

  lemma ClassAt(index: nat, slot: nat)
    requires index == 9 && slot == 0
    ensures ClassSize(9 * NUM_SLOTS) == 65536
  {
    TableIsCalc(9, 0);
  }

  /** The books while all there is is one chunk, with first block a. */
  ghost predicate OneChunk(bk: Book, a: int) {
    Shape(bk, 16) && bk.l.chunks.Keys == {a}
  }

  /** All that is free is one large block behind a. */
  ghost predicate RestFree(bk: Book, a: int) {
    a in bk.l.size && bk.l.size[a] > 0 && bk.free == {a + bk.l.size[a]} && a + bk.l.size[a] in bk.l.size
    && bk.l.size[a + bk.l.size[a]] >= 0x2_0000
  }

  lemma OneChunkIs(bk: Book, a: int)
    requires Shape(bk, 16) && bk.l.chunks.Keys == {a}
    ensures OneChunk(bk, a)
  {
    hide Shape;
  }

  lemma InIt(bk: Book, a: int, x: int)
    requires OneChunk(bk, a) && x in bk.l.size
    ensures x in bk.l.base && bk.l.base[x] == a
  {
    hide RegionsApart, Filed, Multiple, KindsOk;
    assert BlockOk(bk.l, 16, x);
  }

  /** The first allocation of a fresh heap leaves a large free block behind it. */
  lemma FirstOfFresh(bk: Book, a: int, size: nat, c: nat)
    requires c < NUM_CLASSES && Shape(bk, 16) && SmallSize(c) && Allocated(EmptyBook(), bk, a, size, c)
    requires a !in EmptyBook().l.size ==> Roomy(bk.l, 16, a, 0x4_0000)
    ensures OneChunk(bk, a) && bk.live == {a} && RestFree(bk, a)
  {
    hide *;
    GrantedFresh(bk, a, size, c);
    var k := bk.l.chunks[a];
    Reaches(bk, a);
    NewChunk(a, k);
    CarvedFirst(ChunkBook(EmptyBook(), a, k), bk, a, k);
    OneChunkIs(bk, a);
  }

  /** It is carved from a new chunk. */
  lemma GrantedFresh(bk: Book, a: int, size: nat, c: nat)
    requires c < NUM_CLASSES && Allocated(EmptyBook(), bk, a, size, c) && SmallSize(c)
    ensures a !in EmptyBook().l.size && a in bk.l.chunks && a in bk.l.size && 0 < bk.l.size[a] <= 65552
    ensures Carved(ChunkBook(EmptyBook(), a, bk.l.chunks[a]), bk, a)
  {
    hide EmptyBook, Carved, ClassSize, ChunkBook, GoodFit;
    NothingYet();
  }

  /** Which is big. */
  lemma Reaches(bk: Book, a: int)
    requires Roomy(bk.l, 16, a, 0x4_0000)
    ensures a in bk.l.chunks && bk.l.chunks[a].tail - a >= 0x3_FF00
  {
  }

  lemma NothingYet()
    ensures var bk := EmptyBook(); bk.live == {} && bk.free == {} && bk.l.size == map[] && bk.l.chunks == map[]
  {
  }

  lemma NewChunk(a: int, k: Chunk)
    ensures var bk := ChunkBook(EmptyBook(), a, k);
      && bk.live == {} && bk.free == {} && bk.l.chunks == map[a := k] && a in bk.l.size
      && (k.tail != a ==> bk.l.size[a] == k.tail - a)
  {
  }

  lemma CarvedFirst(bk0: Book, bk1: Book, a: int, k: Chunk)
    requires Carved(bk0, bk1, a) && bk0.live == {} && bk0.free == {} && bk0.l.chunks == map[a := k]
    requires a in bk0.l.size && bk0.l.size[a] == k.tail - a && a in bk1.l.size
    requires 0 < bk1.l.size[a] <= 65552 && k.tail - a >= 0x3_FF00
    ensures bk1.live == {a} && bk1.l.chunks.Keys == {a} && RestFree(bk1, a)
  {
  }

  /** So the second allocation takes that block. */
  lemma SecondBehind(bk1: Book, bk2: Book, a: int, q: nat, size: nat, c: nat)
    requires c < NUM_CLASSES && SmallSize(c) && OneChunk(bk1, a) && bk1.live == {a} && RestFree(bk1, a)
    requires Shape(bk2, 16)
    requires q == 0 ==> NoneFrom(bk1.lists, c)
    requires q != 0 ==> q >= HEADER && Allocated(bk1, bk2, q - HEADER, size, c)
    ensures q != 0 && OneChunk(bk2, a) && a in bk2.l.size && q - HEADER == a + bk2.l.size[a] > a
    ensures bk2.live == {a, q - HEADER}
  {
    hide *;
    RestIs(bk1, a);
    var r := a + bk1.l.size[a];
    OnlyList(bk1, c, r);
    if q != 0 {
      TakesOnly(bk1, bk2, q - HEADER, size, c, a, r, FileClass(bk1.l.size[r]));
    }
  }

  lemma RestIs(bk: Book, a: int)
    requires OneChunk(bk, a) && RestFree(bk, a)
    ensures Filed(bk) && a in bk.l.size && bk.l.size[a] > 0
    ensures var r := a + bk.l.size[a]; bk.free == {r} && r in bk.l.size && bk.l.size[r] >= 0x2_0000
  {
    hide Filed, Tiled, KindsOk, Multiple;
  }

  /** The one free block is on its list, and no other list has any. */
  lemma OnlyList(bk: Book, c: nat, r: int)
    requires Filed(bk) && bk.free == {r} && r in bk.l.size && bk.l.size[r] >= 0x2_0000
    requires c < NUM_CLASSES && SmallSize(c)
    ensures var d := FileClass(bk.l.size[r]); FirstNonempty(bk.lists, c, d) && bk.lists[d][0] == r
    ensures !NoneFrom(bk.lists, c)
  {
    hide ClassSize, FileClass, FloorClass;
    var d := FileClass(bk.l.size[r]);
    assert IsFiled(bk, r);
    FiledHigh(bk.l.size[r], c);
    forall e | c <= e < d ensures bk.lists[e] == [] {
      if bk.lists[e] != [] {
        HeadFiled(bk, e);
      }
    }
    assert bk.lists[d] != [];
    HeadFiled(bk, d);
  }

  lemma HeadFiled(bk: Book, e: nat)
    requires Filed(bk) && e < NUM_CLASSES && bk.lists[e] != []
    ensures var x := bk.lists[e][0]; x in bk.free && x in bk.l.size && bk.l.size[x] >= 0 && FileClass(bk.l.size[x]) == e
  {
    hide FileClass;
    assert NodeFiled(bk, e, 0);
  }

  lemma FiledHigh(size: nat, c: nat)
    requires size >= 0x2_0000 && c < NUM_CLASSES && SmallSize(c)
    ensures c <= FileClass(size)
  {
    hide ClassSize, FloorClass;
    if size < SIZECLASS_MAX {
      FloorClassIsGreatestBelow(size, c);
    }
  }

  lemma TakesOnly(bk1: Book, bk2: Book, b: int, size: nat, c: nat, a: int, r: int, d: nat)
    requires Allocated(bk1, bk2, b, size, c) && OneChunk(bk1, a) && Shape(bk2, 16) && bk1.live == {a}
    requires a in bk1.l.size && r == a + bk1.l.size[a] && bk1.free == {r}
    requires FirstNonempty(bk1.lists, c, d) && bk1.lists[d][0] == r && r in bk1.l.size && r > a
    ensures b == r && OneChunk(bk2, a) && a in bk2.l.size && bk2.l.size[a] == bk1.l.size[a] && bk2.live == {a, r}
  {
    hide RegionsApart, Multiple, KindsOk, Tiled, ClassSize, FileClass, Filed;
    assert b == r;
    assert Carved(bk1.(free := bk1.free - {b}), bk2, b);
  }

  /** Freeing the first of the two leaves the second as the chunk's last block in use. */
  lemma FirstFreed(bk2: Book, bk3: Book, a: int, b: int, mayRelease: bool)
    requires OneChunk(bk2, a) && bk2.live == {a, b} && a in bk2.l.size && b == a + bk2.l.size[a] > a
    requires Freed(bk2, bk3, a, mayRelease) && Shape(bk3, 16)
    ensures OneChunk(bk3, a) && bk3.live == {b} && b in bk3.l.base && bk3.l.base[b] == a && LastLive(bk3, a, b)
  {
    hide RegionsApart, Filed, Multiple;
    InIt(bk2, a, a);
    InIt(bk2, a, b);
    assert KindOk(bk2.l, bk2.free, bk2.live, b);
    assert bk3.l.chunks == bk2.l.chunks;
    InIt(bk3, a, b);
  }

  /** A fresh heap whose minimum alignment is lilith's: two blocks of one chunk, of which the first is freed first. The
      chunk is then wholly free, and still there, whatever the policy. */
  method TwoBlocks(system: System, lock: SpinLock, heap: nat, mem: Memory, policy: CachePolicy, size: nat)
      returns (m: MediumHeap, p: nat, q: nat)
    requires lock.Free() && 0 < size <= SIZE_LIMIT
    requires heap > 0 && heap in system.owned && system.owned == map[heap as int := system.owned[heap]]
    requires system.owned[heap] >= HEAP_BYTES
    modifies system, lock
    ensures fresh(m) && m.Valid() && m.lock.Free() && m.bk.live == {}
    ensures system.refusals == old(system.refusals) + if p == 0 then 1 else 0
    ensures p != 0 ==>
      q != 0 && p >= HEADER && WhollyFree(m.bk, p - HEADER) && p - HEADER in m.bk.l.pinned
  {
    hide Settled, Freed, Read, PreviousAlloc, Core, SysOk, Quiet, WhollyFree, Allocated, Roomy, Servable, WantOf;
    hide ClassSize;
    TwoToFour();
    ClassBelow(size);
    m := new MediumHeap(system, lock, heap, 16, 4, mem, policy);
    q := 0;
    m.ValidIs();
    p := m.Alloc(size);
    if p == 0 {
      return;
    }
    ghost var bk1 := m.bk;
    m.ValidIs();
    FirstOfFresh(bk1, p - HEADER, size, WantOf(size, 16).Class());
    q := m.Alloc(size);
    m.ValidIs();
    ghost var bk2 := m.bk;
    SecondBehind(bk1, bk2, p - HEADER, q, size, WantOf(size, 16).Class());
    ghost var mayRelease := m.policy != CacheAll && !PreviousAlloc(Read(m.mem, p - 8));
    m.Free(p);
    m.ValidIs();
    FirstFreed(bk2, m.bk, p - HEADER, q - HEADER, mayRelease);
    FreeLast(m, q);
  }
}
