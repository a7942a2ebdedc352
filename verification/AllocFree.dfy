/** What a medium free undoes: the books before an allocation, restored. */
module AllocFree {
  import opened SizeClasses
  import opened Blocks
  import opened Tags
  import opened MediumSteps
  import opened MediumMoves
  import opened Tlsf

  /** The same live and free blocks, with the same extents, in the same chunks. */
  ghost predicate SameBooks(bk0: Book, bk1: Book) {
    bk1.live == bk0.live && bk1.free == bk0.free && bk1.l.size == bk0.l.size && bk1.l.chunks == bk0.l.chunks
  }

  /** A block taken off a list and freed again leaves the books as they were, any tail split off included; unless
      it was a whole chunk, which may be released instead. */
  lemma ListedBlockComesBack(bk0: Book, bk1: Book, bk2: Book, align: nat, a: int, size: nat, c: nat, mayRelease: bool)
    requires Shape(bk0, align) && a in bk0.free && Allocated(bk0, bk1, a, size, c) && Freed(bk1, bk2, a, mayRelease)
    ensures a in bk0.l.size && a in bk0.l.base
    ensures if mayRelease && a in bk0.l.chunks && a == bk0.l.base[a] && a + bk0.l.size[a] == bk0.l.chunks[a].tail
            then bk2.l.chunks == bk0.l.chunks - {a} && bk2.live == bk0.live && bk2.free == bk0.free - {a}
            else SameBooks(bk0, bk2)
  {
    hide RegionsApart, Filed, GoodFit, ClassSize, KindsOk, Multiple;
    hide Tiled;
    Neighbours(bk0, align, a);
    var far, n := a + bk0.l.size[a], a + bk1.l.size[a];
    if n != far {
      NotInside(bk0, align, a, n);
      assert bk1.free == bk0.free - {a} + {n};
      assert bk1.free - {n} == bk0.free - {a};
      assert bk1.l.size[a := far - a] - {n} == bk0.l.size;
    }
    assert bk1.live - {a} == bk0.live;
    assert bk0.free - {a} + {a} == bk0.free;
    assert bk0.l.size[a := far - a] - {} == bk0.l.size;
  }

  /** A block from a new chunk, freed again: the chunk goes when it may, and then the books are as before. */
  lemma NewChunkGoes(bk0: Book, bk1: Book, bk2: Book, align: nat, a: int, size: nat, c: nat, mayRelease: bool)
    requires Shape(bk0, align) && Shape(bk1, align) && a !in bk0.free && Allocated(bk0, bk1, a, size, c)
    requires Freed(bk1, bk2, a, mayRelease)
    ensures mayRelease ==> SameBooks(bk0, bk2)
    ensures !mayRelease ==> bk2.live == bk0.live && bk2.free == bk0.free + {a} && bk2.l.chunks == bk1.l.chunks
  {
    hide RegionsApart, Filed, GoodFit, ClassSize, KindsOk, Multiple;
    hide Tiled;
    var k := bk1.l.chunks[a];
    var n := a + bk1.l.size[a];
    FirstBeforeTail(bk1, align, a);
    OutsideOld(bk0, bk1, align, a, k.tail);
    OutsideOld(bk0, bk1, align, a, n);
    assert bk1.live - {a} == bk0.live;
    assert bk0.l.chunks[a := k] - {a} == bk0.l.chunks;
    assert bk1.free - {n} == bk0.free;
    if n != k.tail {
      assert bk1.l.size - {n} - {a, k.tail} == bk0.l.size;
    } else {
      assert bk1.l.size - {} - {a, k.tail} == bk0.l.size;
    }
  }

  /** A free block's surroundings: its predecessor is not free, nor its successor. */
  lemma Neighbours(bk: Book, align: nat, a: int)
    requires Shape(bk, align) && a in bk.free
    ensures a in bk.l.size && a in bk.l.base && a in bk.l.prev && bk.l.size[a] >= 32
    ensures a + bk.l.size[a] in bk.l.size && a + bk.l.size[a] !in bk.free
    ensures a != bk.l.base[a] ==> bk.l.prev[a] !in bk.free && bk.l.prev[a] < a
  {
    hide RegionsApart, Filed, Multiple;
    hide Tiled;
    assert KindOk(bk.l, bk.free, bk.live, a);
    FreeOrLiveSize(bk, align, a);
    NextPrev(bk, align, a, a + bk.l.size[a]);
    assert KindOk(bk.l, bk.free, bk.live, a + bk.l.size[a]);
    PrevBlock(bk, align, a);
  }

  lemma NotInside(bk: Book, align: nat, a: int, n: int)
    requires Shape(bk, align) && a in bk.l.size && a < n < a + bk.l.size[a]
    ensures n !in bk.l.size && n !in bk.free
  {
    hide RegionsApart, Filed, Multiple, KindsOk, BlockOk, PrevOk, ChunkOk;
    assert n in bk.l.size ==> Before(bk.l, a, n);
  }

  /** Nothing of the old chunks lies between a new chunk's first header and its tail. */
  lemma OutsideOld(bk0: Book, bk1: Book, align: nat, a: int, n: int)
    requires Shape(bk0, align) && Shape(bk1, align) && a !in bk0.l.size && a in bk1.l.chunks
    requires a < n <= bk1.l.chunks[a].tail
    requires bk1.l.chunks == bk0.l.chunks[a := bk1.l.chunks[a]]
    ensures n !in bk0.l.size && n !in bk0.free && a !in bk0.l.chunks
  {
    hide Filed, Multiple, KindsOk, BlockOk, PrevOk, Before;
    assert ChunkOk(bk1.l, a);
    assert a in bk0.l.chunks ==> ChunkOk(bk0.l, a);
    if n in bk0.l.size {
      ChunkOfBlock(bk0.l, align, n);
      HeaderInside(bk0.l, align, n);
      ChunkKept(bk0.l, bk1.l, a, bk0.l.base[n]);
      Apart(bk1.l, bk0.l.base[n], a);
    }
  }

  lemma FirstBeforeTail(bk: Book, align: nat, a: int)
    requires Shape(bk, align) && a in bk.l.chunks
    ensures a < bk.l.chunks[a].tail
  {
    hide RegionsApart, Filed, Multiple, KindsOk;
    assert ChunkOk(bk.l, a);
  }

  lemma Apart(l: Layout, c: int, d: int)
    requires RegionsApart(l) && c in l.chunks && d in l.chunks && c != d
    ensures l.chunks[c].sys + l.chunks[c].bytes <= l.chunks[d].sys
      || l.chunks[d].sys + l.chunks[d].bytes <= l.chunks[c].sys
  {
    assert Region(l, c, d);
  }

  lemma ChunkKept(l0: Layout, l1: Layout, a: int, c: int)
    requires a in l1.chunks && l1.chunks == l0.chunks[a := l1.chunks[a]] && c in l0.chunks && a !in l0.chunks
    ensures c in l1.chunks && l1.chunks[c] == l0.chunks[c] && c != a
  {
  }
}
