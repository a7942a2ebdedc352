/** The remaining elementary steps of the medium allocator: releasing a live block, merging held neighbours,
    splitting, rewriting a header word, committing an allocation, and adding or dropping a whole chunk. */
module MediumMoves {
  import opened Bits
  import opened Memory
  import opened SizeClasses
  import opened Words
  import opened Blocks
  import opened Tags
  import opened MediumSteps
  import Lists = FreeLists

  const NONE: int := -1

  ghost predicate HeldBlock(bk: Book, a: int) {
    a in bk.l.size && !IsTailOf(bk.l, a) && a !in bk.free && a !in bk.live
  }

  // ---- writing one private word of a block, other than its list links ----

  ghost predicate Pokable(bk: Book, y: int, w: int) {
    y in bk.l.size && y <= w < y + bk.l.size[y] && (y in bk.free ==> w == y + 8) && (y in bk.live ==> w < y + HEADER)
  }

  lemma PokeTag(mem: Memory, bk: Book, align: nat, heap: nat, except: int, y: int, w: int, v: nat, x: int)
    requires Shape(bk, align) && Pokable(bk, y, w) && x in bk.l.size && x != y
    requires TagOk(mem, bk.l, bk.free, bk.live, heap, except, x)
    ensures TagOk(Write(mem, w, v), bk.l, bk.free, bk.live, heap, except, x)
  {
    hide Tiled, KindsOk, RegionsApart, LiveTag, FreeTag, Filed, Read, Write;
    HeaderInside(bk.l, align, x);
    FreeOrLiveSize(bk, align, x);
    WordElsewhere(bk.l, align, y, w, x);
    TagFrame(mem, Write(mem, w, v), bk.l, bk.free, bk.live, heap, except, x);
  }

  lemma PokeMarkers(mem: Memory, bk: Book, align: nat, y: int, w: int, v: nat)
    requires Shape(bk, align) && Pokable(bk, y, w) && MarkersOk(mem, bk.l)
    ensures MarkersOk(Write(mem, w, v), bk.l)
  {
    hide Tiled, KindsOk, RegionsApart, Filed, Read, Write;
    forall d | d in bk.l.chunks ensures MarkerOk(Write(mem, w, v), bk.l, d) {
      assert MarkerOk(mem, bk.l, d);
      MarkerWordsOutside(bk.l, align, d, y);
    }
  }

  lemma PokeLists(mem: Memory, heads: seq<nat>, bk: Book, align: nat, y: int, w: int, v: nat)
    requires Shape(bk, align) && Pokable(bk, y, w) && ListsOk(mem, heads, bk.lists)
    ensures ListsOk(Write(mem, w, v), heads, bk.lists)
  {
    hide Tiled, KindsOk, RegionsApart, Filed, Read, Write, Lists.ListOk;
    forall c: nat | c < NUM_CLASSES ensures Lists.ListOk(Write(mem, w, v), heads[c], bk.lists[c]) {
      assert Lists.ListOk(mem, heads[c], bk.lists[c]);
      PokeList(mem, heads[c], bk, align, y, w, v, c);
    }
  }

  lemma PokeList(mem: Memory, head: nat, bk: Book, align: nat, y: int, w: int, v: nat, c: nat)
    requires Shape(bk, align) && Pokable(bk, y, w) && c < NUM_CLASSES && Lists.ListOk(mem, head, bk.lists[c])
    ensures Lists.ListOk(Write(mem, w, v), head, bk.lists[c])
  {
    hide Tiled, KindsOk, RegionsApart, Filed, Read, Write, Lists.ListOk, FileClass;
    var s := bk.lists[c];
    var mem' := Write(mem, w, v);
    forall i: nat | i < |s| ensures Read(mem', s[i]) == Read(mem, s[i])
        && Read(mem', s[i] + 16) == Read(mem, s[i] + 16) {
      NodeIsBlock(bk, align, c, i);
      if s[i] != y {
        WordElsewhere(bk.l, align, y, w, s[i]);
      }
    }
    Lists.SameListOk(mem, mem', head, s);
  }

  /** Writing v to word w of block y does not change the userdata of a live block. */
  predicate Harmless(mem: Memory, bk: Book, y: int, w: int, v: nat) {
    y in bk.live && w == y + 8 ==> SameUserdata(Read(mem, w), v)
  }

  lemma PokeFrame(mem: Memory, bk: Book, align: nat, y: int, w: int, v: nat)
    requires Shape(bk, align) && Pokable(bk, y, w)
    ensures Frame(mem, Write(mem, w, v), bk.l, bk.live - {y})
    ensures Harmless(mem, bk, y, w, v) ==> Frame(mem, Write(mem, w, v), bk.l, bk.live)
  {
    hide Tiled, KindsOk, RegionsApart, Filed, Read, Write, Type, Userdata;
    InnerWord(bk, align, y, w);
    HeadersIn(bk, align);
  }

  /** Writing a private word of block y disturbs nothing but y's own tags. */
  lemma PokeOk(mem: Memory, ix: Index, bk: Book, align: nat, heap: nat, except: int, y: int, w: int, v: nat)
    requires Core(mem, ix, bk, align, heap, except) && Pokable(bk, y, w)
    requires TagOk(Write(mem, w, v), bk.l, bk.free, bk.live, heap, except, y)
    ensures Core(Write(mem, w, v), ix, bk, align, heap, except)
    ensures Frame(mem, Write(mem, w, v), bk.l, bk.live - {y})
    ensures Harmless(mem, bk, y, w, v) ==> Frame(mem, Write(mem, w, v), bk.l, bk.live)
  {
    hide Tiled, KindsOk, RegionsApart, Filed, TagOk, Read, Write, Frame, Lists.BitmapsOk, ListsOk, MarkersOk;
    var mem' := Write(mem, w, v);
    forall x | x in bk.l.size ensures TagOk(mem', bk.l, bk.free, bk.live, heap, except, x) {
      assert TagOk(mem, bk.l, bk.free, bk.live, heap, except, x);
      if x != y {
        PokeTag(mem, bk, align, heap, except, y, w, v, x);
      }
    }
    PokeMarkers(mem, bk, align, y, w, v);
    PokeLists(mem, ix.heads, bk, align, y, w, v);
    PokeFrame(mem, bk, align, y, w, v);
  }

  /** Clearing the PREVIOUS bit of the excepted block settles the exception. */
  lemma ClearOk(mem: Memory, ix: Index, bk: Book, align: nat, heap: nat, except: int, y: int)
    requires Core(mem, ix, bk, align, heap, except) && (except == y || except == NONE)
    requires y in bk.l.size && y != bk.l.base[y] && bk.l.prev[y] !in bk.live
    ensures Read(mem, y + 8) < WORD64
    ensures var mem' := Write(mem, y + 8, ClearPrevious(Read(mem, y + 8)));
      Core(mem', ix, bk, align, heap, NONE) && Frame(mem, mem', bk.l, bk.live)
  {
    hide Tiled, KindsOk, RegionsApart, Filed, Read, Write, Lists.BitmapsOk, ListsOk, MarkersOk, Frame, FileClass;
    hide Type, BlockAlloc, PreviousAlloc, SizeData, FreeBytes, FreeClass, ClearPrevious, SetPrevious, DecodesTo;
    hide Multiple;
    var w := Read(mem, y + 8);
    assert TagOk(mem, bk.l, bk.free, bk.live, heap, except, y);
    PreviousWrites(w);
    var mem' := Write(mem, y + 8, ClearPrevious(w));
    HeaderInside(bk.l, align, y);
    if y in bk.l.chunks {
      FirstIsBase(bk.l, align, y);
    }
    SameSizeData(w, ClearPrevious(w), bk.l.size[y]);
    assert TagOk(mem', bk.l, bk.free, bk.live, heap, except, y);
    assert TagOk(mem', bk.l, bk.free, bk.live, heap, NONE, y);
    PokeOk(mem, ix, bk, align, heap, except, y, y + 8, ClearPrevious(w));
    NoException(mem', bk, align, heap, except, y);
  }

  lemma SameSizeData(w: nat, w': nat, size: int)
    requires SizeData(w) == SizeData(w')
    ensures DecodesTo(w, size) <==> DecodesTo(w', size)
  {
    hide SizeData, SizeDataIndex, SizeDataSlot, SizeDataExtra, Size;
  }

  lemma NoException(mem: Memory, bk: Book, align: nat, heap: nat, except: int, y: int)
    requires TagsOk(mem, bk.l, bk.free, bk.live, heap, except) && (except == y || except == NONE)
    requires y in bk.l.size ==> TagOk(mem, bk.l, bk.free, bk.live, heap, NONE, y)
    ensures TagsOk(mem, bk.l, bk.free, bk.live, heap, NONE)
  {
    hide FreeTag, LiveTag, Read, PreviousAlloc, BlockAlloc;
    forall x | x in bk.l.size ensures TagOk(mem, bk.l, bk.free, bk.live, heap, NONE, x) {
      assert TagOk(mem, bk.l, bk.free, bk.live, heap, except, x);
    }
  }

  /** A chunk's first block that gets this tag. */
  ghost function Retagged(l: Layout, b: int, tag: nat): Layout {
    if b !in l.chunks then l
    else l.(pinned := if tag == PREVIOUS_ALLOC then l.pinned + {b} else l.pinned - {b})
  }

  ghost function TagBook(bk: Book, b: int, tag: nat): Book {
    bk.(l := Retagged(bk.l, b, tag))
  }

  /** Which chunks are pinned matters only to their first blocks' tags. */
  lemma TaggedShape(bk: Book, align: nat, b: int, tag: nat)
    requires Shape(bk, align)
    ensures Shape(TagBook(bk, b, tag), align)
  {
    var bk' := TagBook(bk, b, tag);
    forall a | a in bk.l.size ensures BlockOk(bk'.l, align, a) && PrevOk(bk'.l, a) {
      assert BlockOk(bk.l, align, a) && PrevOk(bk.l, a);
    }
    forall x, y | x in bk'.l.size && y in bk'.l.size && x < y ensures Before(bk'.l, x, y) {
      assert Before(bk.l, x, y);
    }
    forall c | c in bk'.l.chunks ensures ChunkOk(bk'.l, c) {
      assert ChunkOk(bk.l, c);
    }
    forall c, d | c in bk'.l.chunks && d in bk'.l.chunks && c != d ensures Region(bk'.l, c, d) {
      assert Region(bk.l, c, d);
    }
    forall a | a in bk'.l.size ensures KindOk(bk'.l, bk'.free, bk'.live, a) {
      assert KindOk(bk.l, bk.free, bk.live, a);
    }
    RefiledOk(bk, bk', align);
  }

  /** Rewriting a held block's header to bare tags. */
  lemma RetagOk(mem: Memory, ix: Index, bk: Book, align: nat, heap: nat, except: int, b: int, tag: nat)
    requires Core(mem, ix, bk, align, heap, except) && HeldBlock(bk, b)
    requires tag == 0 || tag == PREVIOUS_ALLOC
    requires b != bk.l.base[b] ==> (tag == PREVIOUS_ALLOC <==> bk.l.prev[b] in bk.live)
    ensures Type(tag) == 0 && !BlockAlloc(tag)
    ensures var mem' := Write(mem, b + 8, tag);
      Core(mem', ix, TagBook(bk, b, tag), align, heap, except) && Frame(mem, mem', Retagged(bk.l, b, tag), bk.live)
  {
    hide Tiled, KindsOk, RegionsApart, Filed, Read, Write, Lists.BitmapsOk, ListsOk, MarkersOk, Frame, FileClass;
    hide Type, BlockAlloc, PreviousAlloc;
    hide FreeTag, LiveTag;
    TagLits();
    HeaderInside(bk.l, align, b);
    TaggedShape(bk, align, b, tag);
    var bk', mem' := TagBook(bk, b, tag), Write(mem, b + 8, tag);
    forall x | x in bk'.l.size ensures TagOk(mem', bk'.l, bk'.free, bk'.live, heap, except, x) {
      assert TagOk(mem, bk.l, bk.free, bk.live, heap, except, x);
      if x != b {
        PokeTag(mem, bk, align, heap, except, b, b + 8, tag, x);
      }
    }
    PokeMarkers(mem, bk, align, b, b + 8, tag);
    TaggedMarkers(mem', bk, b, tag);
    PokeLists(mem, ix.heads, bk, align, b, b + 8, tag);
    PokeFrame(mem, bk, align, b, b + 8, tag);
    TaggedFrame(mem, mem', bk, b, tag);
  }

  lemma TaggedOutside(l: Layout, b: int, tag: nat, w: int)
    ensures OutsideChunks(Retagged(l, b, tag), w) <==> OutsideChunks(l, w)
  {
    var l' := Retagged(l, b, tag);
    forall c | c in l.chunks ensures OutsideChunk(l', c, w) <==> OutsideChunk(l, c, w) {
    }
  }

  lemma TaggedKept(m0: Memory, m1: Memory, l: Layout, b: int, tag: nat, a: int)
    ensures UserKept(m0, m1, Retagged(l, b, tag), a) <==> UserKept(m0, m1, l, a)
  {
  }

  lemma TaggedFrame(m0: Memory, m1: Memory, bk: Book, b: int, tag: nat)
    requires Frame(m0, m1, bk.l, bk.live)
    ensures Frame(m0, m1, Retagged(bk.l, b, tag), bk.live)
  {
    hide UserKept, OutsideChunks, Read;
    forall a | a in bk.live ensures UserKept(m0, m1, Retagged(bk.l, b, tag), a) {
      TaggedKept(m0, m1, bk.l, b, tag, a);
    }
    forall w | OutsideChunks(Retagged(bk.l, b, tag), w) ensures Read(m1, w) == Read(m0, w) {
      TaggedOutside(bk.l, b, tag, w);
    }
  }

  lemma TaggedMarkers(mem: Memory, bk: Book, b: int, tag: nat)
    requires MarkersOk(mem, bk.l)
    ensures MarkersOk(mem, Retagged(bk.l, b, tag))
  {
    forall c | c in bk.l.chunks ensures MarkerOk(mem, Retagged(bk.l, b, tag), c) {
      assert MarkerOk(mem, bk.l, c);
    }
  }

  lemma TagLits()
    ensures Type(0) == 0 && !BlockAlloc(0) && !PreviousAlloc(0)
    ensures Type(PREVIOUS_ALLOC) == 0 && !BlockAlloc(PREVIOUS_ALLOC) && PreviousAlloc(PREVIOUS_ALLOC)
  {
    TagBits(0);
    TagBits(PREVIOUS_ALLOC);
  }

  // ---- releasing a live block: its successor's PREVIOUS bit becomes stale ----

  lemma ReleaseOk(mem: Memory, ix: Index, bk: Book, align: nat, heap: nat, a: int)
    requires Core(mem, ix, bk, align, heap, NONE) && a in bk.live
    ensures a in bk.l.size && HeldBlock(bk.(live := bk.live - {a}), a)
    ensures Core(mem, ix, bk.(live := bk.live - {a}), align, heap, a + bk.l.size[a])
  {
    hide RegionsApart, Read, Lists.BitmapsOk, ListsOk, MarkersOk, IsTailOf, FreeTag, LiveTag, PreviousAlloc, BlockAlloc;
    hide BlockOk, FileClass;
    var bk' := bk.(live := bk.live - {a});
    assert KindOk(bk.l, bk.free, bk.live, a);
    forall x | x in bk.l.size ensures KindOk(bk'.l, bk'.free, bk'.live, x) {
      assert KindOk(bk.l, bk.free, bk.live, x);
    }
    forall x | x in bk.l.size
      ensures TagOk(mem, bk'.l, bk'.free, bk'.live, heap, a + bk.l.size[a], x)
    {
      assert TagOk(mem, bk.l, bk.free, bk.live, heap, NONE, x);
      assert PrevOk(bk.l, x);
      AddressPositive(bk.l, align, x);
    }
    RefiledOk(bk, bk', align);
  }

  lemma AddressPositive(l: Layout, align: nat, x: int)
    requires align > 0 && Tiled(l, align) && x in l.size
    ensures x > 0
  {
    hide Multiple;
    assert BlockOk(l, align, x);
    assert ChunkOk(l, l.base[x]);
  }

  /** Filing depends on the free blocks and their sizes only. */
  lemma RefiledOk(bk: Book, bk': Book, align: nat)
    requires Filed(bk) && bk'.free == bk.free && bk'.lists == bk.lists
    requires forall x :: x in bk.free && x in bk.l.size ==> x in bk'.l.size && bk'.l.size[x] == bk.l.size[x]
    ensures Filed(bk')
  {
    hide FileClass;
    forall c: nat, i: nat | c < NUM_CLASSES && i < |bk'.lists[c]| ensures NodeFiled(bk', c, i) {
      assert NodeFiled(bk, c, i);
    }
    forall a | a in bk'.free ensures IsFiled(bk', a) {
      assert IsFiled(bk, a);
    }
    forall c: nat | c < NUM_CLASSES ensures Distinct(bk'.lists[c]) {
      assert Distinct(bk.lists[c]);
    }
  }

  // ---- a held block absorbs its held successor ----

  ghost function AbsorbBook(bk: Book, a: int, n: int, far: int): Book
    requires a in bk.l.size && n in bk.l.size
  {
    bk.(l := Absorb(bk.l, a, n, far))
  }

  lemma AbsorbShape(bk: Book, align: nat, a: int, n: int, far: int)
    requires Shape(bk, align) && HeldBlock(bk, a) && HeldBlock(bk, n)
    requires n == a + bk.l.size[a] && far == n + bk.l.size[n]
    ensures far in bk.l.size && Shape(AbsorbBook(bk, a, n, far), align) && HeldBlock(AbsorbBook(bk, a, n, far), a)
  {
    hide Multiple, FileClass;
    hide Filed;
    assert BlockOk(bk.l, align, a) && BlockOk(bk.l, align, n);
    assert BlockOk(bk.l, align, far);
    AbsorbTiled(bk.l, align, a, n, far);
    var bk' := AbsorbBook(bk, a, n, far);
    RefiledOk(bk, bk', align);
    forall c, d | c in bk'.l.chunks && d in bk'.l.chunks && c != d ensures Region(bk'.l, c, d) {
      assert Region(bk.l, c, d);
    }
    forall x | x in bk'.l.size ensures KindOk(bk'.l, bk'.free, bk'.live, x) {
      assert KindOk(bk.l, bk.free, bk.live, x);
    }
  }

  /** If the absorbed block's PREVIOUS bit was the stale one, no bit is stale any more. */
  lemma AbsorbOk(mem: Memory, ix: Index, bk: Book, align: nat, heap: nat, except: int, a: int, n: int, far: int)
    requires Core(mem, ix, bk, align, heap, except) && HeldBlock(bk, a) && HeldBlock(bk, n)
    requires n == a + bk.l.size[a] && far == n + bk.l.size[n]
    ensures far in bk.l.size && HeldBlock(AbsorbBook(bk, a, n, far), a)
    ensures Core(mem, ix, AbsorbBook(bk, a, n, far), align, heap, if except == n then NONE else except)
  {
    hide RegionsApart, Read, Lists.BitmapsOk, ListsOk, FreeTag, LiveTag, PreviousAlloc, BlockAlloc, FileClass;
    hide Filed, Shape;
    ShapeFacts(bk, align, n, far);
    AbsorbShape(bk, align, a, n, far);
    var bk' := AbsorbBook(bk, a, n, far);
    var except' := if except == n then NONE else except;
    forall x | x in bk'.l.size ensures TagOk(mem, bk'.l, bk'.free, bk'.live, heap, except', x) {
      assert TagOk(mem, bk.l, bk.free, bk.live, heap, except, x);
      NextPrev(bk, align, n, far);
    }
    forall c | c in bk'.l.chunks ensures MarkerOk(mem, bk'.l, c) {
      assert MarkerOk(mem, bk.l, c);
    }
  }

  lemma ShapeFacts(bk: Book, align: nat, n: int, far: int)
    requires Shape(bk, align)
    ensures align > 0 && SameKeys(bk.l)
  {
  }

  /** The successor of a block knows it, and is not the first of its chunk. */
  lemma NextPrev(bk: Book, align: nat, n: int, far: int)
    requires Shape(bk, align) && n in bk.l.size && !IsTailOf(bk.l, n) && far == n + bk.l.size[n]
    ensures far in bk.l.size && bk.l.prev[far] == n && bk.l.base[far] == bk.l.base[n] && far != bk.l.base[far]
  {
    hide Multiple, KindsOk, Filed, RegionsApart;
    assert BlockOk(bk.l, align, n);
  }

  // ---- splitting a held block ----

  ghost function SplitBook(bk: Book, a: int, n: int, far: int): Book
    requires a in bk.l.base
  {
    bk.(l := Split(bk.l, a, n, far))
  }

  lemma SplitShape(bk: Book, align: nat, a: int, n: int, far: int)
    requires Shape(bk, align) && HeldBlock(bk, a) && far == a + bk.l.size[a]
    requires a + SMALLEST_BLOCK <= n && n + SMALLEST_BLOCK <= far && Multiple(n - a, align)
    ensures far in bk.l.size && n !in bk.l.size && Splittable(bk.l, align, a, n, far)
    ensures Shape(SplitBook(bk, a, n, far), align)
    ensures HeldBlock(SplitBook(bk, a, n, far), a) && HeldBlock(SplitBook(bk, a, n, far), n)
  {
    hide Multiple, FileClass;
    hide Filed;
    assert BlockOk(bk.l, align, a);
    assert BlockOk(bk.l, align, far);
    SplitFresh(bk.l, align, a, n, far);
    SplitTiled(bk.l, align, a, n, far);
    var bk' := SplitBook(bk, a, n, far);
    RefiledOk(bk, bk', align);
    forall c, d | c in bk'.l.chunks && d in bk'.l.chunks && c != d ensures Region(bk'.l, c, d) {
      assert Region(bk.l, c, d);
    }
    SplitKind(bk, align, a, n, far, n);
    forall x | x in bk'.l.size ensures KindOk(bk'.l, bk'.free, bk'.live, x) {
      SplitKind(bk, align, a, n, far, x);
    }
  }

  lemma SplitKind(bk: Book, align: nat, a: int, n: int, far: int, x: int)
    requires Shape(bk, align) && HeldBlock(bk, a) && Splittable(bk.l, align, a, n, far) && n !in bk.l.size
    requires x in bk.l.size || x == n
    ensures var bk' := SplitBook(bk, a, n, far);
      SameKeys(bk'.l) && KindOk(bk'.l, bk'.free, bk'.live, x) && HeldBlock(bk', a) && HeldBlock(bk', n)
  {
    hide Multiple, FileClass, RegionsApart, Filed, Tiled, BlockOk;
    assert x in bk.l.size ==> KindOk(bk.l, bk.free, bk.live, x);
    ChunkOfBlock(bk.l, align, a);
    SizeBound(bk.l, align, a);
  }

  /** The remainder gets a bare header; both parts are held. */
  lemma SplitOk(mem: Memory, ix: Index, bk: Book, align: nat, heap: nat, a: int, n: int, far: int)
    requires Core(mem, ix, bk, align, heap, NONE) && HeldBlock(bk, a) && far == a + bk.l.size[a]
    requires a + SMALLEST_BLOCK <= n && n + SMALLEST_BLOCK <= far && Multiple(n - a, align)
    ensures far in bk.l.size && HeldBlock(SplitBook(bk, a, n, far), a) && HeldBlock(SplitBook(bk, a, n, far), n)
    ensures Core(Write(mem, n + 8, 0), ix, SplitBook(bk, a, n, far), align, heap, NONE)
    ensures Frame(mem, Write(mem, n + 8, 0), bk.l, bk.live)
  {
    hide RegionsApart, Read, Write, Lists.BitmapsOk, ListsOk, FreeTag, LiveTag, PreviousAlloc, BlockAlloc, Type;
    hide FileClass;
    hide Filed, Shape, MarkersOk, Frame, Multiple;
    SplitShape(bk, align, a, n, far);
    SplitPoke(mem, ix, bk, align, heap, a, n, far);
    var bk' := SplitBook(bk, a, n, far);
    var mem' := Write(mem, n + 8, 0);
    TagLits();
    forall x | x in bk'.l.size ensures TagOk(mem', bk'.l, bk'.free, bk'.live, heap, NONE, x) {
      if x in bk.l.size {
        assert TagOk(mem', bk.l, bk.free, bk.live, heap, NONE, x);
        SplitTagKept(mem', bk, align, heap, a, n, far, x);
      } else {
        SplitTagNew(mem', bk, align, heap, a, n, far);
      }
    }
    assert MarkersOk(mem', bk'.l) by { SplitMarkers(mem', bk, a, n, far); }
  }

  lemma SplitMarkers(mem: Memory, bk: Book, a: int, n: int, far: int)
    requires a in bk.l.base && MarkersOk(mem, bk.l)
    ensures MarkersOk(mem, SplitBook(bk, a, n, far).l)
  {
    forall c | c in bk.l.chunks ensures MarkerOk(mem, SplitBook(bk, a, n, far).l, c) {
      assert MarkerOk(mem, bk.l, c);
    }
  }

  lemma SplitPoke(mem: Memory, ix: Index, bk: Book, align: nat, heap: nat, a: int, n: int, far: int)
    requires Core(mem, ix, bk, align, heap, NONE) && HeldBlock(bk, a) && far == a + bk.l.size[a]
    requires a + SMALLEST_BLOCK <= n && n + SMALLEST_BLOCK <= far
    ensures Core(Write(mem, n + 8, 0), ix, bk, align, heap, NONE)
    ensures Frame(mem, Write(mem, n + 8, 0), bk.l, bk.live)
  {
    hide RegionsApart, Read, Write, Lists.BitmapsOk, ListsOk, FreeTag, LiveTag, PreviousAlloc, BlockAlloc, Type;
    hide FileClass;
    hide Filed, MarkersOk, Frame, Multiple, KindsOk, Tiled;
    assert TagOk(mem, bk.l, bk.free, bk.live, heap, NONE, a);
    assert TagOk(Write(mem, n + 8, 0), bk.l, bk.free, bk.live, heap, NONE, a);
    PokeOk(mem, ix, bk, align, heap, NONE, a, n + 8, 0);
  }

  lemma SplitTagKept(mem: Memory, bk: Book, align: nat, heap: nat, a: int, n: int, far: int, x: int)
    requires Shape(bk, align) && HeldBlock(bk, a) && Splittable(bk.l, align, a, n, far) && n !in bk.l.size
    requires x in bk.l.size && TagOk(mem, bk.l, bk.free, bk.live, heap, NONE, x)
    ensures var bk' := SplitBook(bk, a, n, far);
      SameKeys(bk'.l) && TagOk(mem, bk'.l, bk'.free, bk'.live, heap, NONE, x)
  {
    hide RegionsApart, Read, FreeTag, LiveTag, PreviousAlloc, BlockAlloc, FileClass, Filed, KindsOk, Multiple;
    NextPrev(bk, align, a, far);
    assert BlockOk(bk.l, align, x);
  }

  lemma SplitTagNew(mem: Memory, bk: Book, align: nat, heap: nat, a: int, n: int, far: int)
    requires Shape(bk, align) && HeldBlock(bk, a) && Splittable(bk.l, align, a, n, far) && n !in bk.l.size
    requires HeldBlock(SplitBook(bk, a, n, far), n) && Read(mem, n + 8) == 0
    ensures var bk' := SplitBook(bk, a, n, far);
      SameKeys(bk'.l) && TagOk(mem, bk'.l, bk'.free, bk'.live, heap, NONE, n)
  {
    hide RegionsApart, Read, FreeTag, LiveTag, PreviousAlloc, BlockAlloc, FileClass, Filed, KindsOk, Multiple;
    TagLits();
    if n in bk.l.chunks {
      FirstIsBase(bk.l, align, n);
    }
  }

  // ---- committing a held block to a caller ----

  /** The writes that turn a held block into an allocated one. */
  function CommitMem(mem: Memory, heap: nat, a: int, size: int, index: nat, slot: nat, extra: nat): Memory {
    var m1 := Write(mem, a, heap);
    var m2 := Write(m1, a + 8, AllocWord(Read(m1, a + 8), index, slot, extra));
    Write(m2, a + size + 8, SetPrevious(Read(m2, a + size + 8)))
  }

  ghost predicate Commitable(bk: Book, a: int, size: int, index: nat, slot: nat, extra: nat) {
    && HeldBlock(bk, a) && size == bk.l.size[a]
    && index < NUM_INDICES && slot < NUM_SLOTS && extra < 2
    && size == Size(index, slot) + extra * EXTRA_SIZE
  }

  lemma CommitReads(mem: Memory, heap: nat, a: int, size: int, index: nat, slot: nat, extra: nat, w: int)
    requires size >= 32
    ensures var mem' := CommitMem(mem, heap, a, size, index, slot, extra);
      && Read(mem', a) == heap
      && Read(mem', a + 8) == AllocWord(Read(mem, a + 8), index, slot, extra)
      && Read(mem', a + size + 8) == SetPrevious(Read(mem, a + size + 8))
      && (w != a && w != a + 8 && w != a + size + 8 ==> Read(mem', w) == Read(mem, w))
  {
    hide Read, AllocWord, SetPrevious;
  }

  /** The new block's own tags. */
  lemma CommitTagOwn(mem: Memory, bk: Book, align: nat, heap: nat, a: int, size: int, index: nat, slot: nat, extra: nat)
    requires Shape(bk, align) && Commitable(bk, a, size, index, slot, extra) && size >= 32
    requires TagOk(mem, bk.l, bk.free, bk.live, heap, NONE, a)
    ensures TagOk(CommitMem(mem, heap, a, size, index, slot, extra), bk.l, bk.free, bk.live + {a}, heap, NONE, a)
  {
    hide Read, AllocWord, CommitMem, Type, BlockAlloc, PreviousAlloc, SizeData, FileClass, Filed, RegionsApart, Size;
    hide SizeDataIndex, SizeDataSlot, SizeDataExtra, PackSizeData, KindsOk;
    CommitReads(mem, heap, a, size, index, slot, extra, a);
    AllocWordFields(Read(mem, a + 8), index, slot, extra);
    UnpackSizeData(index, slot, extra);
    OwnPrevDiffers(bk, align, a);
  }

  lemma OwnPrevDiffers(bk: Book, align: nat, a: int)
    requires Shape(bk, align) && a in bk.l.size
    ensures a != bk.l.base[a] ==> bk.l.prev[a] < a && bk.l.prev[a] in bk.l.size
    ensures forall x :: x in bk.l.size && x != bk.l.base[x] && bk.l.prev[x] == a ==> x == a + bk.l.size[a]
  {
    hide Multiple, Filed, RegionsApart, KindsOk;
    assert PrevOk(bk.l, a);
    if a != bk.l.base[a] {
      assert BlockOk(bk.l, align, bk.l.prev[a]);
    }
    forall x | x in bk.l.size && x != bk.l.base[x] && bk.l.prev[x] == a ensures x == a + bk.l.size[a] {
      assert PrevOk(bk.l, x);
    }
  }

  /** The successor now sees an allocated predecessor. */
  lemma CommitTagNext(mem: Memory, bk: Book, align: nat, heap: nat, a: int, size: int, index: nat, slot: nat,
                      extra: nat)
    requires Shape(bk, align) && Commitable(bk, a, size, index, slot, extra) && size >= 32
    requires a + size in bk.l.size && TagOk(mem, bk.l, bk.free, bk.live, heap, NONE, a + size)
    ensures TagOk(CommitMem(mem, heap, a, size, index, slot, extra), bk.l, bk.free, bk.live + {a}, heap, NONE, a + size)
  {
    hide Read, AllocWord, CommitMem, Type, BlockAlloc, PreviousAlloc, SizeData, FileClass, Filed, RegionsApart, Size;
    hide FreeBytes, FreeClass, DecodesTo, Tiled, KindsOk, SetPrevious;
    var n := a + size;
    NextPrev(bk, align, a, n);
    if n in bk.l.chunks {
      FirstIsBase(bk.l, align, n);
    }
    CommitReads(mem, heap, a, size, index, slot, extra, n);
    CommitReads(mem, heap, a, size, index, slot, extra, n + bk.l.size[n] - 8);
    FreeOrLiveSize(bk, align, n);
    PreviousWrites(Read(mem, n + 8));
    SameSizeData(Read(mem, n + 8), SetPrevious(Read(mem, n + 8)), bk.l.size[n]);
  }

  lemma CommitTagOther(mem: Memory, bk: Book, align: nat, heap: nat, a: int, size: int, index: nat, slot: nat,
                       extra: nat, x: int)
    requires Shape(bk, align) && Commitable(bk, a, size, index, slot, extra) && size >= 32 && a + size in bk.l.size
    requires x in bk.l.size && x != a && x != a + size && TagOk(mem, bk.l, bk.free, bk.live, heap, NONE, x)
    ensures TagOk(CommitMem(mem, heap, a, size, index, slot, extra), bk.l, bk.free, bk.live + {a}, heap, NONE, x)
  {
    hide Read, AllocWord, CommitMem, Type, BlockAlloc, PreviousAlloc, SizeData, FileClass, Filed, RegionsApart, Size;
    hide FreeTag, LiveTag, DecodesTo, Tiled, KindsOk, SetPrevious;
    var mem' := CommitMem(mem, heap, a, size, index, slot, extra);
    HeaderInside(bk.l, align, x);
    HeaderInside(bk.l, align, a + size);
    FreeOrLiveSize(bk, align, x);
    WordElsewhere(bk.l, align, a, a, x);
    WordElsewhere(bk.l, align, a, a + 8, x);
    WordElsewhere(bk.l, align, a + size, a + size + 8, x);
    forall w | w == x + 8 || (x in bk.live && w == x) || (x in bk.free && w == x + bk.l.size[x] - 8)
      ensures Read(mem', w) == Read(mem, w)
    {
      CommitReads(mem, heap, a, size, index, slot, extra, w);
    }
    TagFrame(mem, mem', bk.l, bk.free, bk.live, heap, NONE, x);
    OwnPrevDiffers(bk, align, a);
  }

  ghost function CommitBook(bk: Book, a: int): Book {
    bk.(live := bk.live + {a})
  }

  lemma CommitShape(bk: Book, align: nat, a: int)
    requires Shape(bk, align) && HeldBlock(bk, a)
    ensures Shape(CommitBook(bk, a), align)
  {
    hide Tiled, RegionsApart, FileClass, IsTailOf;
    hide Filed;
    var bk' := CommitBook(bk, a);
    forall x | x in bk.l.size ensures KindOk(bk'.l, bk'.free, bk'.live, x) {
      assert KindOk(bk.l, bk.free, bk.live, x);
    }
    RefiledOk(bk, bk', align);
  }

  /** Lists, markers, private words: what the commit writes leave alone. */
  lemma CommitRest(mem: Memory, heads: seq<nat>, bk: Book, align: nat, heap: nat, a: int, size: int,
                   index: nat, slot: nat, extra: nat)
    requires Shape(bk, align) && Commitable(bk, a, size, index, slot, extra) && size >= 32 && a + size in bk.l.size
    requires ListsOk(mem, heads, bk.lists) && MarkersOk(mem, bk.l) && Read(mem, a + size + 8) < 0x1_0000_0000
    ensures var mem' := CommitMem(mem, heap, a, size, index, slot, extra);
      ListsOk(mem', heads, bk.lists) && MarkersOk(mem', bk.l) && Frame(mem, mem', bk.l, bk.live)
  {
    hide Read, Write, AllocWord, FileClass, Filed, RegionsApart, Size, Tiled, KindsOk, SetPrevious, Frame, ListsOk;
    hide MarkersOk;
    HeaderInside(bk.l, align, a + size);
    var m1 := Write(mem, a, heap);
    PokeMarkers(mem, bk, align, a, a, heap);
    PokeLists(mem, heads, bk, align, a, a, heap);
    PokeFrame(mem, bk, align, a, a, heap);
    var v := AllocWord(Read(m1, a + 8), index, slot, extra);
    var m2 := Write(m1, a + 8, v);
    PokeMarkers(m1, bk, align, a, a + 8, v);
    PokeLists(m1, heads, bk, align, a, a + 8, v);
    PokeFrame(m1, bk, align, a, a + 8, v);
    var u := SetPrevious(Read(m2, a + size + 8));
    PreviousWrites(Read(mem, a + size + 8));
    PokeMarkers(m2, bk, align, a + size, a + size + 8, u);
    PokeLists(m2, heads, bk, align, a + size, a + size + 8, u);
    PokeFrame(m2, bk, align, a + size, a + size + 8, u);
    FrameTrans(mem, m1, m2, bk.l, bk.live);
    FrameTrans(mem, m2, Write(m2, a + size + 8, u), bk.l, bk.live);
  }

  lemma FrameTrans(m0: Memory, m1: Memory, m2: Memory, l: Layout, live: set<int>)
    requires Frame(m0, m1, l, live) && Frame(m1, m2, l, live)
    ensures Frame(m0, m2, l, live)
  {
    hide OutsideChunks, Read;
    forall a | a in live ensures UserKept(m0, m2, l, a) {
      assert UserKept(m0, m1, l, a) && UserKept(m1, m2, l, a);
      forall w | a + HEADER <= w < a + l.size[a] ensures Read(m2, w) == Read(m0, w) {
        assert Read(m1, w) == Read(m0, w);
      }
    }
    forall w | OutsideChunks(l, w) ensures Read(m2, w) == Read(m0, w) {
      assert Read(m1, w) == Read(m0, w);
    }
  }

  lemma WordFits(mem: Memory, bk: Book, heap: nat, x: int)
    requires x in bk.l.size && TagsOk(mem, bk.l, bk.free, bk.live, heap, NONE) && SameKeys(bk.l)
    ensures Read(mem, x + 8) < 0x1_0000_0000
  {
    hide Read, LiveTag, FreeTag;
    assert TagOk(mem, bk.l, bk.free, bk.live, heap, NONE, x);
  }

  /** Committing a held block keeps the invariant; the block is then live. */
  lemma CommitOk(mem: Memory, ix: Index, bk: Book, align: nat, heap: nat, a: int, size: int,
                 index: nat, slot: nat, extra: nat)
    requires Core(mem, ix, bk, align, heap, NONE) && Commitable(bk, a, size, index, slot, extra)
    ensures Core(CommitMem(mem, heap, a, size, index, slot, extra), ix, CommitBook(bk, a), align, heap, NONE)
    ensures Frame(mem, CommitMem(mem, heap, a, size, index, slot, extra), bk.l, bk.live)
  {
    hide CommitMem, FileClass, Filed, RegionsApart, Size, Tiled, KindsOk, Frame, ListsOk, MarkersOk, TagOk;
    hide Lists.BitmapsOk;
    HeaderInside(bk.l, align, a);
    SizeBound(bk.l, align, a);
    CommitShape(bk, align, a);
    WordFits(mem, bk, heap, a + size);
    CommitRest(mem, ix.heads, bk, align, heap, a, size, index, slot, extra);
    var mem' := CommitMem(mem, heap, a, size, index, slot, extra);
    forall x | x in bk.l.size ensures TagOk(mem', bk.l, bk.free, bk.live + {a}, heap, NONE, x) {
      assert TagOk(mem, bk.l, bk.free, bk.live, heap, NONE, x);
      if x == a {
        CommitTagOwn(mem, bk, align, heap, a, size, index, slot, extra);
      } else if x == a + size {
        CommitTagNext(mem, bk, align, heap, a, size, index, slot, extra);
      } else {
        CommitTagOther(mem, bk, align, heap, a, size, index, slot, extra, x);
      }
    }
  }

  // ---- a whole chunk ----

  /** The words written when a chunk is set up: its two phantom headers, and the system allocation's fields. */
  function ChunkMem(mem: Memory, first: int, k: Chunk): Memory
    requires k.sys >= 0 && k.tail >= first && first >= 16
  {
    var m1 := Write(Write(mem, k.sys + 24, first + 16), k.sys + 40, k.bytes);
    var m2 := Write(Write(m1, first - 16, k.sys), first + 8, 0);
    var m3 := Write(Write(m2, k.sys + 32, k.tail + 16), k.tail + 8, BLOCK_ALLOC);
    Write(m3, first - 8, PRE_HEADER + (k.tail - first))
  }

  ghost function ChunkBook(bk: Book, first: int, k: Chunk): Book {
    bk.(l := AddChunk(bk.l, first, k))
  }

  /** The new chunk's system allocation overlaps no other chunk's. */
  ghost predicate FreshRegion(l: Layout, k: Chunk) {
    forall c {:trigger RegionOf(l, c, k)} :: c in l.chunks ==> RegionOf(l, c, k)
  }

  ghost predicate RegionOf(l: Layout, c: int, k: Chunk)
    requires c in l.chunks
  {
    k.sys + k.bytes <= l.chunks[c].sys || l.chunks[c].sys + l.chunks[c].bytes <= k.sys
  }

  ghost predicate ChunkFits(align: nat, first: int, k: Chunk)
    requires align > 0
  {
    && 0 < k.sys && k.sys + SYSTEM_HEADER + CHUNK_HEADER <= first && first + SMALLEST_BLOCK <= k.tail
    && k.tail + HEADER <= k.sys + k.bytes && k.tail - first <= MAX_BLOCK
    && Multiple(first + HEADER, align) && Multiple(k.tail + HEADER, align)
  }

  lemma FreshChunk(bk: Book, align: nat, first: int, k: Chunk, x: int)
    requires Shape(bk, align) && ChunkFits(align, first, k) && FreshRegion(bk.l, k) && x in bk.l.size
    ensures x + bk.l.size[x] <= k.sys || k.sys + k.bytes <= x
  {
    hide Multiple, Tiled, KindsOk, Filed, RegionsApart;
    ChunkOfBlock(bk.l, align, x);
    assert RegionOf(bk.l, bk.l.base[x], k);
  }

  lemma FreshChunkFits(bk: Book, align: nat, first: int, k: Chunk)
    requires Shape(bk, align) && ChunkFits(align, first, k) && FreshRegion(bk.l, k)
    ensures NewChunk(bk.l, align, first, k)
  {
    hide Multiple, Tiled, KindsOk, Filed, RegionsApart, FreshRegion;
    forall a | a in bk.l.size ensures Before(bk.l, a, first) || k.tail + HEADER <= a {
      FreshChunk(bk, align, first, k, a);
    }
  }

  lemma ChunkShape(bk: Book, align: nat, first: int, k: Chunk)
    requires Shape(bk, align) && ChunkFits(align, first, k) && FreshRegion(bk.l, k)
    ensures Shape(ChunkBook(bk, first, k), align) && HeldBlock(ChunkBook(bk, first, k), first)
    ensures first !in bk.l.size && k.tail !in bk.l.size && first !in bk.l.chunks
  {
    hide Multiple, BlockOk, PrevOk, Before, ChunkOk, FileClass;
    hide Filed;
    FreshChunkFits(bk, align, first, k);
    AddChunkTiled(bk.l, align, first, k);
    var bk' := ChunkBook(bk, first, k);
    RefiledOk(bk, bk', align);
    forall c, d | c in bk'.l.chunks && d in bk'.l.chunks && c != d ensures Region(bk'.l, c, d) {
      if c == first {
        assert RegionOf(bk.l, d, k);
      } else if d == first {
        assert RegionOf(bk.l, c, k);
      } else {
        assert Region(bk.l, c, d);
      }
    }
    forall x | x in bk'.l.size ensures KindOk(bk'.l, bk'.free, bk'.live, x) {
      if x in bk.l.size {
        assert KindOk(bk.l, bk.free, bk.live, x);
        NewChunkFresh(bk.l, align, first, k, x);
      }
    }
  }

  lemma ChunkReads(mem: Memory, first: int, k: Chunk, w: int)
    requires 0 < k.sys && k.sys + SYSTEM_HEADER + CHUNK_HEADER <= first && first + SMALLEST_BLOCK <= k.tail
    ensures var mem' := ChunkMem(mem, first, k);
      && Read(mem', first - 8) == PRE_HEADER + (k.tail - first)
      && Read(mem', first - 16) == k.sys
      && Read(mem', k.sys + 40) == k.bytes
      && Read(mem', first + 8) == 0
      && Read(mem', k.tail + 8) == BLOCK_ALLOC
      && (w < k.sys || w >= k.tail + HEADER ==> Read(mem', w) == Read(mem, w))
      && (k.sys <= w < k.sys + 24 ==> Read(mem', w) == Read(mem, w))
  {
    hide Read;
  }

  lemma ChunkTag(mem: Memory, bk: Book, align: nat, heap: nat, first: int, k: Chunk, x: int)
    requires Shape(bk, align) && ChunkFits(align, first, k) && FreshRegion(bk.l, k)
    requires x in bk.l.size ==> TagOk(mem, bk.l, bk.free, bk.live, heap, NONE, x)
    requires x in bk.l.size || x == first || x == k.tail
    ensures var bk' := ChunkBook(bk, first, k);
      SameKeys(bk'.l) && TagOk(ChunkMem(mem, first, k), bk'.l, bk'.free, bk'.live, heap, NONE, x)
  {
    hide Read, ChunkMem, FreeTag, LiveTag, PreviousAlloc, BlockAlloc, FileClass, Tiled, KindsOk, RegionsApart, Multiple;
    hide Filed, FreshRegion;
    var mem' := ChunkMem(mem, first, k);
    TailLits();
    TagLits();
    FreshChunkFits(bk, align, first, k);
    ChunkReads(mem, first, k, 0);
    ChunkShape(bk, align, first, k);
    if x in bk.l.chunks {
      FirstIsBase(bk.l, align, x);
    }
    if x in bk.l.size {
      FreshChunk(bk, align, first, k, x);
      NewChunkFresh(bk.l, align, first, k, x);
      FreeOrLiveSize(bk, align, x);
      HeaderInside(bk.l, align, x);
      forall w | x <= w < x + bk.l.size[x] ensures Read(mem', w) == Read(mem, w) {
        ChunkReads(mem, first, k, w);
      }
      TagFrame(mem, mem', bk.l, bk.free, bk.live, heap, NONE, x);
    }
  }

  lemma TailLits()
    ensures BlockAlloc(BLOCK_ALLOC) && !PreviousAlloc(BLOCK_ALLOC)
  {
    TagBits(BLOCK_ALLOC);
  }

  lemma ChunkMarker(mem: Memory, bk: Book, align: nat, first: int, k: Chunk, c: int)
    requires Shape(bk, align) && ChunkFits(align, first, k) && FreshRegion(bk.l, k) && MarkersOk(mem, bk.l)
    requires c in bk.l.chunks || c == first
    ensures MarkerOk(ChunkMem(mem, first, k), ChunkBook(bk, first, k).l, c)
  {
    hide Read, ChunkMem, KindsOk, RegionsApart, Multiple, Filed;
    ChunkReads(mem, first, k, 0);
    if c != first {
      assert MarkerOk(mem, bk.l, c) && ChunkOk(bk.l, c) && RegionOf(bk.l, c, k);
      ChunkReads(mem, first, k, c - 8);
      ChunkReads(mem, first, k, c - 16);
      ChunkReads(mem, first, k, bk.l.chunks[c].sys + 40);
    }
  }

  lemma ChunkLists(mem: Memory, heads: seq<nat>, bk: Book, align: nat, first: int, k: Chunk)
    requires Shape(bk, align) && ChunkFits(align, first, k) && FreshRegion(bk.l, k) && ListsOk(mem, heads, bk.lists)
    ensures ListsOk(ChunkMem(mem, first, k), heads, bk.lists)
  {
    hide Read, ChunkMem, Tiled, KindsOk, RegionsApart, Multiple, Filed, FreshRegion, Lists.ListOk, FileClass;
    var mem' := ChunkMem(mem, first, k);
    forall c: nat | c < NUM_CLASSES ensures Lists.ListOk(mem', heads[c], bk.lists[c]) {
      var s := bk.lists[c];
      assert Lists.ListOk(mem, heads[c], s);
      forall i: nat | i < |s|
        ensures Read(mem', s[i]) == Read(mem, s[i]) && Read(mem', s[i] + 16) == Read(mem, s[i] + 16)
      {
        NodeIsBlock(bk, align, c, i);
        FreshChunk(bk, align, first, k, s[i]);
        ChunkReads(mem, first, k, s[i]);
        ChunkReads(mem, first, k, s[i] + 16);
      }
      Lists.SameListOk(mem, mem', heads[c], s);
    }
  }

  lemma ChunkFrame(mem: Memory, bk: Book, align: nat, first: int, k: Chunk)
    requires Shape(bk, align) && ChunkFits(align, first, k) && FreshRegion(bk.l, k)
    ensures Frame(mem, ChunkMem(mem, first, k), ChunkBook(bk, first, k).l, bk.live)
  {
    hide Read, ChunkMem, Tiled, KindsOk, RegionsApart, Multiple, Filed, FreshRegion;
    var mem' := ChunkMem(mem, first, k);
    var l' := ChunkBook(bk, first, k).l;
    ChunkShape(bk, align, first, k);
    forall a | a in bk.live ensures UserKept(mem, mem', l', a) {
      FreshChunk(bk, align, first, k, a);
      FreeOrLiveSize(bk, align, a);
      ChunkReads(mem, first, k, a + 8);
      forall w | a + HEADER <= w < a + l'.size[a] ensures Read(mem', w) == Read(mem, w) {
        ChunkReads(mem, first, k, w);
      }
    }
    forall w | OutsideChunks(l', w) ensures Read(mem', w) == Read(mem, w) {
      assert OutsideChunk(l', first, w);
      ChunkReads(mem, first, k, w);
    }
  }

  /** Setting up a fresh chunk keeps the invariant; its one block is held. */
  lemma AddChunkStep(mem: Memory, ix: Index, bk: Book, align: nat, heap: nat, first: int, k: Chunk)
    requires Core(mem, ix, bk, align, heap, NONE) && ChunkFits(align, first, k) && FreshRegion(bk.l, k)
    ensures Core(ChunkMem(mem, first, k), ix, ChunkBook(bk, first, k), align, heap, NONE)
    ensures HeldBlock(ChunkBook(bk, first, k), first)
    ensures Frame(mem, ChunkMem(mem, first, k), ChunkBook(bk, first, k).l, bk.live)
  {
    hide ChunkMem, TagOk, MarkerOk, Shape, Multiple, FreshRegion, Frame, ListsOk, Lists.BitmapsOk, HeldBlock;
    var bk' := ChunkBook(bk, first, k);
    var mem' := ChunkMem(mem, first, k);
    ChunkShape(bk, align, first, k);
    assert SameKeys(bk'.l) by { ShapeFacts(bk', align, 0, 0); }
    forall x | x in bk'.l.size ensures TagOk(mem', bk'.l, bk'.free, bk'.live, heap, NONE, x) {
      assert x in bk.l.size ==> TagOk(mem, bk.l, bk.free, bk.live, heap, NONE, x);
      ChunkTag(mem, bk, align, heap, first, k, x);
    }
    forall c | c in bk'.l.chunks ensures MarkerOk(mem', bk'.l, c) {
      ChunkMarker(mem, bk, align, first, k, c);
    }
    ChunkLists(mem, ix.heads, bk, align, first, k);
    ChunkFrame(mem, bk, align, first, k);
  }

  // ---- dropping a chunk that is one held block ----

  ghost function DropBook(bk: Book, first: int): Book
    requires first in bk.l.chunks
  {
    bk.(l := RemoveChunk(bk.l, first))
  }

  ghost predicate Droppable(bk: Book, align: nat, first: int)
    requires align > 0
  {
    HeldBlock(bk, first) && WholeChunk(bk.l, align, first)
  }

  lemma DropShape(bk: Book, align: nat, first: int)
    requires align > 0 && Shape(bk, align) && Droppable(bk, align, first)
    ensures Shape(DropBook(bk, first), align)
  {
    hide Multiple, BlockOk, PrevOk, Before, ChunkOk, FileClass;
    hide Filed;
    RemoveChunkTiled(bk.l, align, first);
    var bk' := DropBook(bk, first);
    forall c, d | c in bk'.l.chunks && d in bk'.l.chunks && c != d ensures Region(bk'.l, c, d) {
      assert Region(bk.l, c, d);
    }
    TailNotUsed(bk, align, first);
    forall x | x in bk'.l.size ensures KindOk(bk'.l, bk'.free, bk'.live, x) {
      assert KindOk(bk.l, bk.free, bk.live, x);
      OthersElsewhere(bk.l, align, first, x);
    }
    RefiledOk(bk, bk', align);
  }

  lemma TailNotUsed(bk: Book, align: nat, first: int)
    requires align > 0 && Shape(bk, align) && Droppable(bk, align, first)
    ensures bk.l.chunks[first].tail !in bk.free && bk.l.chunks[first].tail !in bk.live
  {
    hide Multiple, FileClass, Filed, RegionsApart;
    assert ChunkOk(bk.l, first);
    assert KindOk(bk.l, bk.free, bk.live, bk.l.chunks[first].tail);
  }

  lemma DropOk(mem: Memory, ix: Index, bk: Book, align: nat, heap: nat, except: int, first: int)
    requires Core(mem, ix, bk, align, heap, except) && Droppable(bk, align, first)
    requires except == NONE || except == bk.l.chunks[first].tail
    ensures Core(mem, ix, DropBook(bk, first), align, heap, NONE)
  {
    hide Shape, FreeTag, LiveTag, Read, PreviousAlloc, BlockAlloc, ListsOk, Lists.BitmapsOk;
    ShapeFacts(bk, align, 0, 0);
    DropShape(bk, align, first);
    var bk' := DropBook(bk, first);
    forall x | x in bk'.l.size ensures TagOk(mem, bk'.l, bk'.free, bk'.live, heap, NONE, x) {
      assert TagOk(mem, bk.l, bk.free, bk.live, heap, except, x);
      OthersElsewhere(bk.l, align, first, x);
    }
    forall c | c in bk'.l.chunks ensures MarkerOk(mem, bk'.l, c) {
      assert MarkerOk(mem, bk.l, c);
    }
  }
}
