/** Writes from outside the medium allocator: list links of system allocations, other structures, and the
    callers' own data. None of them can disturb the invariant. */
module MediumFrames {
  import opened Memory
  import opened SizeClasses
  import opened Words
  import opened Blocks
  import opened Tags
  import opened MediumSteps
  import opened MediumMoves
  import Lists = FreeLists

  /** Nothing inside a chunk changed. */
  ghost predicate SameInside(mem: Memory, mem': Memory, l: Layout) {
    forall w {:trigger Read(mem', w)} :: !OutsideChunks(l, w) ==> Read(mem', w) == Read(mem, w)
  }

  lemma InsideChunk(bk: Book, align: nat, x: int, w: int)
    requires Shape(bk, align) && x in bk.l.size && x <= w < x + bk.l.size[x]
    ensures !OutsideChunks(bk.l, w)
  {
    hide Tiled, KindsOk, RegionsApart, Filed;
    ChunkOfBlock(bk.l, align, x);
    assert !OutsideChunk(bk.l, bk.l.base[x], w);
  }

  lemma OutsideTag(mem: Memory, mem': Memory, bk: Book, align: nat, heap: nat, except: int, x: int)
    requires Shape(bk, align) && SameInside(mem, mem', bk.l) && x in bk.l.size
    requires TagOk(mem, bk.l, bk.free, bk.live, heap, except, x)
    ensures TagOk(mem', bk.l, bk.free, bk.live, heap, except, x)
  {
    hide Tiled, KindsOk, RegionsApart, LiveTag, FreeTag, Filed, Read, OutsideChunks;
    HeaderInside(bk.l, align, x);
    FreeOrLiveSize(bk, align, x);
    forall w | x <= w < x + bk.l.size[x] ensures Read(mem', w) == Read(mem, w) {
      InsideChunk(bk, align, x, w);
    }
    TagFrame(mem, mem', bk.l, bk.free, bk.live, heap, except, x);
  }

  lemma OutsideLists(mem: Memory, mem': Memory, heads: seq<nat>, bk: Book, align: nat)
    requires Shape(bk, align) && SameInside(mem, mem', bk.l) && ListsOk(mem, heads, bk.lists)
    ensures ListsOk(mem', heads, bk.lists)
  {
    hide Tiled, KindsOk, RegionsApart, Filed, Read, OutsideChunks, Lists.ListOk, FileClass;
    forall c: nat | c < NUM_CLASSES ensures Lists.ListOk(mem', heads[c], bk.lists[c]) {
      var s := bk.lists[c];
      assert Lists.ListOk(mem, heads[c], s);
      forall i: nat | i < |s|
        ensures Read(mem', s[i]) == Read(mem, s[i]) && Read(mem', s[i] + 16) == Read(mem, s[i] + 16)
      {
        NodeIsBlock(bk, align, c, i);
        InsideChunk(bk, align, s[i], s[i]);
        InsideChunk(bk, align, s[i], s[i] + 16);
      }
      Lists.SameListOk(mem, mem', heads[c], s);
    }
  }

  lemma OutsideMarkers(mem: Memory, mem': Memory, bk: Book, align: nat)
    requires Shape(bk, align) && SameInside(mem, mem', bk.l) && MarkersOk(mem, bk.l)
    ensures MarkersOk(mem', bk.l)
  {
    hide KindsOk, RegionsApart, Filed, Read, OutsideChunks, BlockOk, PrevOk, Before;
    forall c | c in bk.l.chunks ensures MarkerOk(mem', bk.l, c) {
      assert MarkerOk(mem, bk.l, c) && ChunkOk(bk.l, c);
      MarkerInside(bk.l, c, c - 8);
      MarkerInside(bk.l, c, c - 16);
      MarkerInside(bk.l, c, bk.l.chunks[c].sys + 40);
    }
  }

  lemma MarkerInside(l: Layout, c: int, w: int)
    requires SameKeys(l) && c in l.chunks && ChunkOk(l, c) && l.chunks[c].sys + LIST_WORDS <= w < c
    ensures !OutsideChunks(l, w)
  {
    assert !OutsideChunk(l, c, w);
  }

  /** Any change outside the chunks keeps the invariant. */
  lemma OutsideOk(mem: Memory, mem': Memory, ix: Index, bk: Book, align: nat, heap: nat, except: int)
    requires Core(mem, ix, bk, align, heap, except) && SameInside(mem, mem', bk.l)
    ensures Core(mem', ix, bk, align, heap, except)
  {
    hide Tiled, KindsOk, RegionsApart, Filed, TagOk, SameInside, ListsOk, MarkersOk, Lists.BitmapsOk;
    OutsideLists(mem, mem', ix.heads, bk, align);
    OutsideMarkers(mem, mem', bk, align);
    forall x | x in bk.l.size ensures TagOk(mem', bk.l, bk.free, bk.live, heap, except, x) {
      assert TagOk(mem, bk.l, bk.free, bk.live, heap, except, x);
      OutsideTag(mem, mem', bk, align, heap, except, x);
    }
  }

  /** w is a word of the data area of live block a. */
  predicate UserWord(l: Layout, live: set<int>, a: int, w: int) {
    a in live && a in l.size && a + HEADER <= w < a + l.size[a]
  }

  /** Setting userdata or the wrapped flag in a live block's header, outside the allocator's lock. */
  lemma HeaderWriteOk(mem: Memory, ix: Index, bk: Book, align: nat, heap: nat, except: int, a: int, v: nat)
    requires Core(mem, ix, bk, align, heap, except) && a in bk.live && v < 0x1_0000_0000
    requires SameBlockFields(Read(mem, a + 8), v) && (PreviousAlloc(v) <==> PreviousAlloc(Read(mem, a + 8)))
    ensures Core(Write(mem, a + 8, v), ix, bk, align, heap, except)
    ensures Frame(mem, Write(mem, a + 8, v), bk.l, bk.live - {a})
  {
    hide Tiled, RegionsApart, Filed, Read, Write, ListsOk, MarkersOk, Lists.BitmapsOk, FileClass, IsTailOf, Frame;
    hide Type, BlockAlloc, PreviousAlloc, SizeData, FreeBytes, FreeClass, DecodesTo;
    assert KindOk(bk.l, bk.free, bk.live, a);
    assert TagOk(mem, bk.l, bk.free, bk.live, heap, except, a);
    HeaderInside(bk.l, align, a);
    SameSizeData(Read(mem, a + 8), v, bk.l.size[a]);
    PokeOk(mem, ix, bk, align, heap, except, a, a + 8, v);
  }
}
