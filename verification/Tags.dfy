/** Boundary tags: what the header and trailer words of the blocks of a layout must say. */
module Tags {
  import opened Memory
  import opened SizeClasses
  import opened Words
  import opened Blocks

  const EXTRA_SIZE: nat := 16
  const PRE_HEADER: nat := 0x8000_0000   // marks the word before a chunk's first block

  /** The list a free block of this size is kept on. */
  function FileClass(size: nat): (c: nat)
    ensures c < NUM_CLASSES
  {
    if size >= SIZECLASS_MAX then NUM_CLASSES - 1 else FloorClass(size)
  }

  /** The size an allocated block's word records: its class, plus the extra bit. */
  predicate DecodesTo(w: nat, size: int) {
    var s := SizeData(w);
    && SizeDataIndex(s) < NUM_INDICES && SizeDataSlot(s) < NUM_SLOTS
    && size == Size(SizeDataIndex(s), SizeDataSlot(s)) + (if SizeDataExtra(s) == 1 then EXTRA_SIZE else 0)
  }

  /** stbm_get_userdata: what the word before p says; a cell has no userdata. */
  function UserdataOf(mem: Memory, p: int): nat {
    if Type(Read(mem, p - 8)) == TYPE_SMALL then 0 else Userdata(Read(mem, p - 8))
  }

  ghost predicate LiveTag(mem: Memory, heap: nat, a: int, size: int) {
    var w := Read(mem, a + 8);
    Type(w) == TYPE_MEDIUM && BlockAlloc(w) && DecodesTo(w, size) && Read(mem, a) == heap
  }

  ghost predicate FreeTag(mem: Memory, a: int, size: int) {
    var w := Read(mem, a + 8);
    && size >= 0
    && Type(w) == 0 && !BlockAlloc(w)
    && FreeBytes(w) == size && FreeClass(w) == FileClass(size)
    && Read(mem, a + size - 8) == size
  }

  /** The words of block a: the PREVIOUS bit says whether its physical predecessor is in use (a chunk's first block,
      which has none, may carry either value: it is pinned if it says so), a tail and a live block carry the BLOCK bit,
      and sizes decode exactly. */
  ghost predicate TagOk(mem: Memory, l: Layout, free: set<int>, live: set<int>, heap: nat, except: int, a: int)
    requires SameKeys(l) && a in l.size
  {
    var w := Read(mem, a + 8);
    && w < 0x1_0000_0000
    && (a != l.base[a] && a != except ==> (PreviousAlloc(w) <==> l.prev[a] in live))
    && (a in l.chunks ==> (PreviousAlloc(w) <==> a in l.pinned))
    && (IsTailOf(l, a) ==> BlockAlloc(w))
    && (a in free ==> FreeTag(mem, a, l.size[a]))
    && (a in live ==> LiveTag(mem, heap, a, l.size[a]))
  }

  ghost predicate IsTailOf(l: Layout, a: int) {
    a in l.base && l.base[a] in l.chunks && a == l.chunks[l.base[a]].tail
  }

  /** All tags are right, save possibly the PREVIOUS bit of the block at `except`. */
  ghost predicate TagsOk(mem: Memory, l: Layout, free: set<int>, live: set<int>, heap: nat, except: int) {
    && SameKeys(l)
    && forall a {:trigger TagOk(mem, l, free, live, heap, except, a)} ::
         a in l.size ==> TagOk(mem, l, free, live, heap, except, a)
  }

  /** A block is free, live, or held; tails are none of these; no two neighbours are both free. */
  ghost predicate KindOk(l: Layout, free: set<int>, live: set<int>, a: int)
    requires SameKeys(l) && a in l.size
  {
    && (a in free || a in live ==> !IsTailOf(l, a))
    && !(a in free && a in live)
    && (a in free && a != l.base[a] ==> l.prev[a] !in free)
  }

  ghost predicate KindsOk(l: Layout, free: set<int>, live: set<int>) {
    && SameKeys(l)
    && free <= l.size.Keys && live <= l.size.Keys
    && forall a {:trigger KindOk(l, free, live, a)} :: a in l.size ==> KindOk(l, free, live, a)
  }

  /** The words around a chunk's first block: its marker, and the system allocation it lives in. */
  ghost predicate MarkerOk(mem: Memory, l: Layout, c: int)
    requires c in l.chunks
  {
    var k := l.chunks[c];
    && k.tail >= c && k.sys >= 0
    && Read(mem, c - 8) == PRE_HEADER + (k.tail - c)
    && Read(mem, c - 16) == k.sys
    && Read(mem, k.sys + 40) == k.bytes
  }

  ghost predicate MarkersOk(mem: Memory, l: Layout) {
    forall c {:trigger MarkerOk(mem, l, c)} :: c in l.chunks ==> MarkerOk(mem, l, c)
  }

  // ---- frames ----

  /** TagOk looks at three words only. */
  lemma TagFrame(mem: Memory, mem': Memory, l: Layout, free: set<int>, live: set<int>, heap: nat, except: int, a: int)
    requires SameKeys(l) && a in l.size && TagOk(mem, l, free, live, heap, except, a)
    requires Read(mem', a + 8) == Read(mem, a + 8)
    requires a in live ==> Read(mem', a) == Read(mem, a)
    requires a in free ==> Read(mem', a + l.size[a] - 8) == Read(mem, a + l.size[a] - 8)
    ensures TagOk(mem', l, free, live, heap, except, a)
  {
  }

  /** A word inside one block is outside every other block. */
  lemma WordElsewhere(l: Layout, align: nat, y: int, w: int, x: int)
    requires align > 0 && Tiled(l, align) && y in l.size && y <= w < y + l.size[y]
    requires x in l.size && x != y
    ensures w < x || w >= x + l.size[x]
  {
    Disjoint(l, align, x, y);
  }

  /** The header words of any block lie inside it. */
  lemma HeaderInside(l: Layout, align: nat, x: int)
    requires align > 0 && Tiled(l, align) && x in l.size
    ensures x + 16 <= x + l.size[x]
    ensures !IsTailOf(l, x) ==> x + 32 <= x + l.size[x]
    ensures l.base[x] in l.chunks
  {
    hide Multiple;
    assert BlockOk(l, align, x);
  }

  /** A link word of a free block is no tag word of any block. */
  lemma LinkWordsMissTags(l: Layout, free: set<int>, live: set<int>, align: nat, y: int, w: int, x: int)
    requires align > 0 && Tiled(l, align) && KindsOk(l, free, live)
    requires y in free && (w == y || w == y + 16) && x in l.size
    ensures w != x + 8
    ensures x in live ==> w != x
    ensures x in free ==> w != x + l.size[x] - 8
  {
    hide Multiple, Tiled;
    assert KindOk(l, free, live, y) && KindOk(l, free, live, x);
    HeaderInside(l, align, y);
    HeaderInside(l, align, x);
    if x != y {
      WordElsewhere(l, align, y, w, x);
    }
  }

  /** A chunk's marker words and system header lie outside every block. */
  lemma MarkerWordsOutside(l: Layout, align: nat, c: int, x: int)
    requires align > 0 && Tiled(l, align) && c in l.chunks && x in l.size
    requires RegionsApart(l)
    ensures c - 8 < x || c - 16 >= x + l.size[x]
    ensures l.chunks[c].sys + 40 < x || l.chunks[c].sys >= x + l.size[x]
  {
    hide Multiple;
    assert ChunkOk(l, c);
    assert BlockOk(l, align, x);
    var d := l.base[x];
    assert ChunkOk(l, d);
    if c != d {
      assert Region(l, c, d);
      if !IsTail(l, x) {
        assert BlockOk(l, align, x + l.size[x]);
      }
    }
  }

  /** The system allocations of two chunks do not overlap. */
  ghost predicate Region(l: Layout, c: int, d: int)
    requires c in l.chunks && d in l.chunks
  {
    l.chunks[c].sys + l.chunks[c].bytes <= l.chunks[d].sys || l.chunks[d].sys + l.chunks[d].bytes <= l.chunks[c].sys
  }

  ghost predicate RegionsApart(l: Layout) {
    forall c, d {:trigger Region(l, c, d)} :: c in l.chunks && d in l.chunks && c != d ==> Region(l, c, d)
  }
}
