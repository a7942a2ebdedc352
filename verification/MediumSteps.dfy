/** The invariant of the medium allocator and the elementary steps its operations are made of. Each step is a
    function from memory, free-list index and block bookkeeping to their new values, and keeps the invariant. */
module MediumSteps {
  import opened Memory
  import opened SizeClasses
  import opened Words
  import opened Blocks
  import opened Tags
  import Lists = FreeLists
  import Bitmap

  /** The concrete index: list heads and the two bitmap levels. */
  datatype Index = Index(heads: seq<nat>, bitmap: seq<nat>, top: nat)

  /** The ghost view: the layout, which blocks are free and which are live, and each list's nodes in order. */
  datatype Book = Book(l: Layout, free: set<int>, live: set<int>, lists: seq<seq<nat>>)

  // ---- the free-list part ----

  ghost predicate NodeFiled(bk: Book, c: nat, i: nat)
    requires c < |bk.lists| && i < |bk.lists[c]|
  {
    var a := bk.lists[c][i];
    a in bk.free && a in bk.l.size && bk.l.size[a] >= 0 && FileClass(bk.l.size[a]) == c
  }

  ghost predicate IsFiled(bk: Book, a: int)
    requires |bk.lists| == NUM_CLASSES
  {
    a >= 0 && a in bk.l.size && bk.l.size[a] >= 0 && a as nat in bk.lists[FileClass(bk.l.size[a])]
  }

  /** Every free block is on exactly one list, once, and it is the list of its size class. */
  ghost predicate Filed(bk: Book) {
    && |bk.lists| == NUM_CLASSES
    && (forall c: nat, i: nat {:trigger NodeFiled(bk, c, i)} :: c < NUM_CLASSES && i < |bk.lists[c]| ==>
        NodeFiled(bk, c, i))
    && (forall a {:trigger IsFiled(bk, a)} :: a in bk.free ==> IsFiled(bk, a))
    && (forall c: nat {:trigger Distinct(bk.lists[c])} :: c < NUM_CLASSES ==> Distinct(bk.lists[c]))
  }

  ghost predicate ListsOk(mem: Memory, heads: seq<nat>, lists: seq<seq<nat>>) {
    && |heads| == |lists| == NUM_CLASSES
    && forall c: nat {:trigger Lists.ListOk(mem, heads[c], lists[c])} ::
         c < NUM_CLASSES ==> Lists.ListOk(mem, heads[c], lists[c])
  }

  // ---- the whole invariant ----

  ghost predicate Shape(bk: Book, align: nat) {
    && align > 0 && align % 8 == 0 && bk.l.pinned <= bk.l.chunks.Keys
    && SameKeys(bk.l) && |bk.lists| == NUM_CLASSES && bk.free <= bk.l.size.Keys && bk.live <= bk.l.size.Keys
    && Tiled(bk.l, align) && RegionsApart(bk.l) && KindsOk(bk.l, bk.free, bk.live) && Filed(bk)
  }

  ghost predicate Core(mem: Memory, ix: Index, bk: Book, align: nat, heap: nat, except: int) {
    && Shape(bk, align)
    && TagsOk(mem, bk.l, bk.free, bk.live, heap, except)
    && MarkersOk(mem, bk.l)
    && ListsOk(mem, ix.heads, bk.lists)
    && Lists.BitmapsOk(ix.bitmap, ix.top, bk.lists)
  }

  /** No block is held: every block is free, live or a tail. */
  ghost predicate Settled(bk: Book) {
    forall a {:trigger IsTailOf(bk.l, a)} :: a in bk.l.size && !IsTailOf(bk.l, a) ==> a in bk.free || a in bk.live
  }

  // ---- frames ----

  /** The user words of a live block and the userdata in its header did not change. */
  ghost predicate UserKept(mem: Memory, mem': Memory, l: Layout, a: int) {
    && a in l.size && UserdataOf(mem', a + HEADER) == UserdataOf(mem, a + HEADER)
    && forall w {:trigger Read(mem', w)} :: a + HEADER <= w < a + l.size[a] ==> Read(mem', w) == Read(mem, w)
  }

  const LIST_WORDS: nat := 24   // a system allocation's magic and list links; the rest belongs to the chunk

  ghost predicate OutsideChunk(l: Layout, c: int, w: int)
    requires c in l.chunks
  {
    w < l.chunks[c].sys + LIST_WORDS || w >= l.chunks[c].sys + l.chunks[c].bytes
  }

  ghost predicate OutsideChunks(l: Layout, w: int) {
    forall c {:trigger OutsideChunk(l, c, w)} :: c in l.chunks ==> OutsideChunk(l, c, w)
  }

  /** Only words of medium chunks changed, and no user word of a live block. */
  ghost predicate Frame(mem: Memory, mem': Memory, l: Layout, live: set<int>) {
    && (forall a {:trigger UserKept(mem, mem', l, a)} :: a in live ==> UserKept(mem, mem', l, a))
    && (forall w {:trigger Read(mem', w)} :: OutsideChunks(l, w) ==> Read(mem', w) == Read(mem, w))
  }

  // ---- list nodes are blocks ----

  lemma NodeIsBlock(bk: Book, align: nat, c: nat, i: nat)
    requires Shape(bk, align) && c < NUM_CLASSES && i < |bk.lists[c]|
    ensures var a := bk.lists[c][i];
      a in bk.free && a in bk.l.size && a + 32 <= a + bk.l.size[a] && FileClass(bk.l.size[a]) == c
  {
    hide Tiled, IsTailOf, Multiple;
    assert NodeFiled(bk, c, i);
    var a := bk.lists[c][i];
    assert KindOk(bk.l, bk.free, bk.live, a);
    HeaderInside(bk.l, align, a);
  }

  lemma NodesApart(bk: Book, align: nat, c: nat, i: nat, d: nat, j: nat)
    requires Shape(bk, align) && c < NUM_CLASSES && i < |bk.lists[c]| && d < NUM_CLASSES && j < |bk.lists[d]|
    requires c != d || i != j
    ensures Lists.Apart(bk.lists[c][i], bk.lists[d][j])
  {
    hide Tiled, KindsOk, FileClass;
    NodeIsBlock(bk, align, c, i);
    NodeIsBlock(bk, align, d, j);
    if c == d {
      assert Distinct(bk.lists[c]);
    }
    Disjoint(bk.l, align, bk.lists[c][i], bk.lists[d][j]);
  }

  lemma ListSpaced(bk: Book, align: nat, c: nat)
    requires Shape(bk, align) && c < NUM_CLASSES
    ensures Lists.Spaced(bk.lists[c])
  {
    hide Tiled, KindsOk, RegionsApart, Lists.Apart;
    forall i: nat, j: nat | i < j < |bk.lists[c]| ensures Lists.Apart(bk.lists[c][i], bk.lists[c][j]) {
      NodesApart(bk, align, c, i, c, j);
    }
  }

  // ---- taking a free block off its list ----

  function TakeIndex(ix: Index, c: nat, first: bool, next: nat): Index
    requires c < NUM_CLASSES && |ix.heads| == NUM_CLASSES && |ix.bitmap| == NUM_INDICES
  {
    var index, slot := c / NUM_SLOTS, c % NUM_SLOTS;
    if !first then ix
    else if next != 0 then ix.(heads := ix.heads[c := next])
    else Index(ix.heads[c := next], ix.bitmap[index := Bitmap.Clear(ix.bitmap[index], slot)],
               Lists.ClearTop(ix.bitmap, ix.top, index, slot))
  }

  ghost function TakeBook(bk: Book, c: nat, k: nat): Book
    requires c < |bk.lists| && k < |bk.lists[c]|
  {
    bk.(free := bk.free - {bk.lists[c][k]}, lists := bk.lists[c := Lists.Without(bk.lists[c], k)])
  }

  function TakeMem(mem: Memory, bk: Book, c: nat, k: nat): Memory
    requires c < |bk.lists| && k < |bk.lists[c]|
  {
    Lists.UnlinkMem(mem, Lists.PrevIn(bk.lists[c], k), Lists.NextIn(bk.lists[c], k))
  }

  lemma TakeFiled(bk: Book, align: nat, c: nat, k: nat)
    requires Shape(bk, align) && c < NUM_CLASSES && k < |bk.lists[c]|
    ensures Filed(TakeBook(bk, c, k))
  {
    hide Tiled, KindsOk, RegionsApart, FileClass;
    var bk' := TakeBook(bk, c, k);
    var s := bk.lists[c];
    var gone := s[k];
    assert Distinct(s);
    NodeIsBlock(bk, align, c, k);
    forall d: nat, i: nat | d < NUM_CLASSES && i < |bk'.lists[d]| ensures NodeFiled(bk', d, i) {
      var j := if d == c && i >= k then i + 1 else i;
      assert bk'.lists[d][i] == bk.lists[d][j];
      NodeIsBlock(bk, align, d, j);
    }
    forall a | a in bk'.free ensures IsFiled(bk', a) {
      assert IsFiled(bk, a);
      TakeKeepsMember(s, k, a);
    }
    forall d: nat | d < NUM_CLASSES ensures Distinct(bk'.lists[d]) {
      assert Distinct(bk.lists[d]);
    }
  }

  lemma TakeKeepsMember(s: seq<nat>, k: nat, a: int)
    requires k < |s| && a != s[k]
    ensures a >= 0 && a as nat in s ==> a as nat in Lists.Without(s, k)
  {
    if a >= 0 && a as nat in s {
      var i :| 0 <= i < |s| && s[i] == a;
      assert Lists.Without(s, k)[if i < k then i else i - 1] == a;
    }
  }

  lemma TakeShape(bk: Book, align: nat, c: nat, k: nat)
    requires Shape(bk, align) && c < NUM_CLASSES && k < |bk.lists[c]|
    ensures Shape(TakeBook(bk, c, k), align)
  {
    hide Tiled, RegionsApart, Filed;
    TakeFiled(bk, align, c, k);
    var bk' := TakeBook(bk, c, k);
    forall a | a in bk'.l.size ensures KindOk(bk'.l, bk'.free, bk'.live, a) {
      assert KindOk(bk.l, bk.free, bk.live, a);
    }
  }

  /** The words unlink writes are link words of other free blocks. */
  ghost predicate UnlinkWord(bk: Book, c: nat, k: nat, w: int)
    requires c < |bk.lists| && k < |bk.lists[c]|
  {
    var s := bk.lists[c];
    (k > 0 && w == s[k - 1] + 16) || (k + 1 < |s| && w == s[k + 1])
  }

  lemma TakeRead(mem: Memory, bk: Book, c: nat, k: nat, w: int)
    requires c < |bk.lists| && k < |bk.lists[c]| && !UnlinkWord(bk, c, k, w)
    ensures Read(TakeMem(mem, bk, c, k), w) == Read(mem, w)
  {
    hide Read;
  }

  lemma UnlinkWordOwner(bk: Book, align: nat, c: nat, k: nat, w: int) returns (y: int)
    requires Shape(bk, align) && c < NUM_CLASSES && k < |bk.lists[c]| && UnlinkWord(bk, c, k, w)
    ensures y in bk.free && y !in bk.live && y in bk.l.size && (w == y || w == y + 16) && y <= w < y + bk.l.size[y]
  {
    hide Tiled, RegionsApart, FileClass, IsTailOf;
    var j := if k > 0 && w == bk.lists[c][k - 1] + 16 then k - 1 else k + 1;
    NodeIsBlock(bk, align, c, j);
    y := bk.lists[c][j];
    assert KindOk(bk.l, bk.free, bk.live, y);
  }

  /** Words of live headers, free trailers and all other tags survive unlink. */
  lemma TakeTag(mem: Memory, bk: Book, align: nat, heap: nat, except: int, c: nat, k: nat, x: int)
    requires Shape(bk, align) && c < NUM_CLASSES && k < |bk.lists[c]| && x in bk.l.size
    requires TagOk(mem, bk.l, bk.free, bk.live, heap, except, x)
    ensures TagOk(TakeMem(mem, bk, c, k), bk.l, bk.free - {bk.lists[c][k]}, bk.live, heap, except, x)
  {
    hide TakeMem, UnlinkWord, Tiled, KindsOk, RegionsApart, LiveTag, FreeTag, Filed;
    var mem' := TakeMem(mem, bk, c, k);
    forall w | w == x + 8 || (x in bk.live && w == x) || (x in bk.free && w == x + bk.l.size[x] - 8)
      ensures Read(mem', w) == Read(mem, w)
    {
      if UnlinkWord(bk, c, k, w) {
        var y := UnlinkWordOwner(bk, align, c, k, w);
        LinkWordsMissTags(bk.l, bk.free, bk.live, align, y, w, x);
      }
      TakeRead(mem, bk, c, k, w);
    }
    TagFrame(mem, mem', bk.l, bk.free, bk.live, heap, except, x);
    TagFewerFree(mem', bk.l, bk.free, bk.live, heap, except, x, bk.lists[c][k]);
  }

  lemma TagFewerFree(mem: Memory, l: Layout, free: set<int>, live: set<int>, heap: nat, except: int, x: int, a: int)
    requires SameKeys(l) && x in l.size && TagOk(mem, l, free, live, heap, except, x)
    ensures TagOk(mem, l, free - {a}, live, heap, except, x)
  {
  }

  lemma TakeMarker(mem: Memory, bk: Book, align: nat, c: nat, k: nat, d: int)
    requires Shape(bk, align) && c < NUM_CLASSES && k < |bk.lists[c]| && d in bk.l.chunks && MarkerOk(mem, bk.l, d)
    ensures MarkerOk(TakeMem(mem, bk, c, k), bk.l, d)
  {
    hide TakeMem, UnlinkWord, Tiled, KindsOk, RegionsApart, Filed;
    var mem' := TakeMem(mem, bk, c, k);
    forall w | w == d - 8 || w == d - 16 || w == bk.l.chunks[d].sys + 40 ensures Read(mem', w) == Read(mem, w) {
      if UnlinkWord(bk, c, k, w) {
        var y := UnlinkWordOwner(bk, align, c, k, w);
        MarkerWordsOutside(bk.l, align, d, y);
      }
      TakeRead(mem, bk, c, k, w);
    }
  }

  lemma TakeOtherList(mem: Memory, ix: Index, bk: Book, align: nat, c: nat, k: nat, d: nat)
    requires Shape(bk, align) && c < NUM_CLASSES && k < |bk.lists[c]| && d < NUM_CLASSES && d != c
    requires ListsOk(mem, ix.heads, bk.lists)
    ensures Lists.ListOk(TakeMem(mem, bk, c, k), ix.heads[d], bk.lists[d])
  {
    hide Tiled, KindsOk, RegionsApart, Filed, TakeMem;
    var mem' := TakeMem(mem, bk, c, k);
    var s := bk.lists[d];
    forall i: nat | i < |s| ensures Read(mem', s[i]) == Read(mem, s[i])
        && Read(mem', s[i] + 16) == Read(mem, s[i] + 16) {
      if k > 0 {
        NodesApart(bk, align, c, k - 1, d, i);
      }
      if k + 1 < |bk.lists[c]| {
        NodesApart(bk, align, c, k + 1, d, i);
      }
      TakeRead(mem, bk, c, k, s[i]);
      TakeRead(mem, bk, c, k, s[i] + 16);
    }
    assert Lists.ListOk(mem, ix.heads[d], s);
    Lists.SameListOk(mem, mem', ix.heads[d], s);
  }

  lemma TakeLists(mem: Memory, ix: Index, bk: Book, align: nat, c: nat, k: nat)
    requires Shape(bk, align) && c < NUM_CLASSES && k < |bk.lists[c]|
    requires ListsOk(mem, ix.heads, bk.lists) && Lists.BitmapsOk(ix.bitmap, ix.top, bk.lists)
    ensures ListsOk(TakeMem(mem, bk, c, k), TakeIndex(ix, c, k == 0, Lists.NextIn(bk.lists[c], k)).heads,
                    TakeBook(bk, c, k).lists)
  {
    hide Tiled, KindsOk, RegionsApart, Filed, Lists.ListOk, Lists.RowOk, TakeMem;
    var mem' := TakeMem(mem, bk, c, k);
    var ix' := TakeIndex(ix, c, k == 0, Lists.NextIn(bk.lists[c], k));
    var bk' := TakeBook(bk, c, k);
    forall d: nat | d < NUM_CLASSES ensures Lists.ListOk(mem', ix'.heads[d], bk'.lists[d]) {
      if d == c {
        assert Lists.ListOk(mem, ix.heads[c], bk.lists[c]);
        ListSpaced(bk, align, c);
        Lists.RemoveOk(mem, ix.heads[c], bk.lists[c], k);
        TakeMemIs(mem, bk, c, k);
      } else {
        TakeOtherList(mem, ix, bk, align, c, k, d);
      }
    }
  }

  lemma TakeMemIs(mem: Memory, bk: Book, c: nat, k: nat)
    requires c < |bk.lists| && k < |bk.lists[c]|
    ensures TakeMem(mem, bk, c, k)
         == Lists.UnlinkMem(mem, Lists.PrevIn(bk.lists[c], k), Lists.NextIn(bk.lists[c], k))
  {
  }

  lemma TakeBitmaps(mem: Memory, ix: Index, bk: Book, c: nat, k: nat)
    requires c < NUM_CLASSES == |bk.lists| && k < |bk.lists[c]|
    requires ListsOk(mem, ix.heads, bk.lists) && Lists.BitmapsOk(ix.bitmap, ix.top, bk.lists)
    ensures var ix' := TakeIndex(ix, c, k == 0, Lists.NextIn(bk.lists[c], k));
      Lists.BitmapsOk(ix'.bitmap, ix'.top, TakeBook(bk, c, k).lists)
  {
    hide Bitmap.Clear, Bitmap.Has, Bitmap.Set, Lists.RowOk;
    var s := bk.lists[c];
    assert Lists.ListOk(mem, ix.heads[c], s);
    assert k + 1 < |s| ==> Lists.NodeOk(mem, s, k + 1);
    if k == 0 && |s| == 1 {
      Lists.MarkEmpty(ix.bitmap, ix.top, bk.lists, c / NUM_SLOTS, c % NUM_SLOTS);
      assert Lists.Without(s, k) == [];
    } else {
      assert Lists.Without(s, k) != [];
      Lists.MarkNonempty(ix.bitmap, ix.top, bk.lists, c / NUM_SLOTS, c % NUM_SLOTS, Lists.Without(s, k));
    }
  }

  lemma TakeFrame(mem: Memory, bk: Book, align: nat, c: nat, k: nat)
    requires Shape(bk, align) && c < NUM_CLASSES && k < |bk.lists[c]|
    ensures Frame(mem, TakeMem(mem, bk, c, k), bk.l, bk.live)
  {
    hide TakeMem, UnlinkWord, Tiled, KindsOk, RegionsApart, Filed;
    var mem' := TakeMem(mem, bk, c, k);
    forall w | UnlinkWord(bk, c, k, w)
      ensures !OutsideChunks(bk.l, w) && forall a :: a in bk.live ==> !(a <= w < a + bk.l.size[a])
    {
      var y := UnlinkWordOwner(bk, align, c, k, w);
      InnerWord(bk, align, y, w);
    }
    forall w | !UnlinkWord(bk, c, k, w) ensures Read(mem', w) == Read(mem, w) {
      TakeRead(mem, bk, c, k, w);
    }
    HeadersIn(bk, align);
  }

  /** A word of a block that is not live is private to the allocator. */
  lemma InnerWord(bk: Book, align: nat, y: int, w: int)
    requires Shape(bk, align) && y in bk.l.size && y <= w < y + bk.l.size[y] && (y !in bk.live || w < y + HEADER)
    ensures !OutsideChunks(bk.l, w)
    ensures forall a :: a in bk.live ==> !(a + HEADER <= w < a + bk.l.size[a])
    ensures forall a :: a in bk.live && a != y ==> !(a <= w < a + bk.l.size[a])
  {
    hide Tiled, KindsOk, RegionsApart, Filed, Multiple;
    ChunkOfBlock(bk.l, align, y);
    assert !OutsideChunk(bk.l, bk.l.base[y], w);
    forall a | a in bk.live && a != y ensures !(a <= w < a + bk.l.size[a]) {
      WordElsewhere(bk.l, align, y, w, a);
    }
  }

  /** Live blocks have room for their headers. */
  lemma HeadersIn(bk: Book, align: nat)
    requires Shape(bk, align)
    ensures forall a {:trigger bk.l.size[a]} :: a in bk.live ==> bk.l.size[a] >= 32
  {
    hide Tiled, KindsOk, RegionsApart, Filed, Multiple;
    forall a | a in bk.live ensures bk.l.size[a] >= 32 {
      FreeOrLiveSize(bk, align, a);
    }
  }

  lemma ChunkOfBlock(l: Layout, align: nat, y: int)
    requires align > 0 && Tiled(l, align) && y in l.size
    ensures l.base[y] in l.chunks
    ensures var k := l.chunks[l.base[y]];
      k.sys + SYSTEM_HEADER + CHUNK_HEADER <= y && y + l.size[y] <= k.tail + HEADER <= k.sys + k.bytes
  {
    hide Multiple;
    assert BlockOk(l, align, y);
    if IsTailOf(l, y) {
      assert ChunkOk(l, l.base[y]);
    } else {
      SizeBound(l, align, y);
    }
  }

  /** Taking a free block off its list keeps the invariant; the block is then held. */
  lemma TakeOk(mem: Memory, ix: Index, bk: Book, align: nat, heap: nat, except: int, c: nat, k: nat)
    requires Core(mem, ix, bk, align, heap, except) && c < NUM_CLASSES && k < |bk.lists[c]|
    ensures Core(TakeMem(mem, bk, c, k), TakeIndex(ix, c, k == 0, Lists.NextIn(bk.lists[c], k)), TakeBook(bk, c, k),
                 align, heap, except)
    ensures Frame(mem, TakeMem(mem, bk, c, k), bk.l, bk.live)
  {
    hide Shape, TagOk, MarkerOk, Lists.BitmapsOk, TakeMem, TakeIndex, Frame;
    TakeShape(bk, align, c, k);
    var mem' := TakeMem(mem, bk, c, k);
    var bk' := TakeBook(bk, c, k);
    forall x | x in bk.l.size ensures TagOk(mem', bk'.l, bk'.free, bk'.live, heap, except, x) {
      assert TagOk(mem, bk.l, bk.free, bk.live, heap, except, x);
      TakeTag(mem, bk, align, heap, except, c, k, x);
    }
    forall d | d in bk.l.chunks ensures MarkerOk(mem', bk.l, d) {
      assert MarkerOk(mem, bk.l, d);
      TakeMarker(mem, bk, align, c, k, d);
    }
    TakeLists(mem, ix, bk, align, c, k);
    TakeBitmaps(mem, ix, bk, c, k);
    TakeFrame(mem, bk, align, c, k);
  }

  // ---- putting a held block on the list of its size ----

  function HeadOf(s: seq<nat>): nat {
    if s == [] then 0 else s[0]
  }

  function PutIndex(ix: Index, c: nat, b: nat): Index
    requires c < NUM_CLASSES && |ix.heads| == NUM_CLASSES && |ix.bitmap| == NUM_INDICES
  {
    var index, slot := c / NUM_SLOTS, c % NUM_SLOTS;
    if ix.heads[c] != 0 then ix.(heads := ix.heads[c := b])
    else Index(ix.heads[c := b], ix.bitmap[index := Bitmap.Set(ix.bitmap[index], slot)], Bitmap.Set(ix.top, index))
  }

  ghost function PutBook(bk: Book, c: nat, b: nat): Book
    requires c < |bk.lists|
  {
    bk.(free := bk.free + {b as int}, lists := bk.lists[c := [b] + bk.lists[c]])
  }

  function PutMem(mem: Memory, lists: seq<seq<nat>>, c: nat, b: nat, size: nat): Memory
    requires c < |lists|
  {
    Lists.LinkMem(mem, b, size, c, HeadOf(lists[c]))
  }

  /** b is a held block of this size whose neighbours are not free. */
  ghost predicate Putable(bk: Book, align: nat, c: nat, b: nat, size: nat) {
    && Shape(bk, align)
    && b > 0 && b in bk.l.size && bk.l.size[b] == size && !IsTailOf(bk.l, b) && b !in bk.free && b !in bk.live
    && c == FileClass(size)
    && (b != bk.l.base[b] ==> bk.l.prev[b] !in bk.free)
    && b + size !in bk.free
  }

  lemma PutableSize(bk: Book, align: nat, c: nat, b: nat, size: nat)
    requires Putable(bk, align, c, b, size)
    ensures 32 <= size <= MAX_BLOCK && size % 8 == 0
    ensures c < NUM_CLASSES == |bk.lists|
    ensures b + size in bk.l.size
  {
    hide Tiled, KindsOk, RegionsApart, Filed, FileClass;
    ChunkOfBlock(bk.l, align, b);
    SizeBound(bk.l, align, b);
    BlockMultiple(bk.l, align, b);
    MultipleTrans(size, align, 8);
  }

  lemma BlockMultiple(l: Layout, align: nat, b: int)
    requires align > 0 && Tiled(l, align) && b in l.size && l.base[b] in l.chunks && !IsTailOf(l, b)
    ensures l.size[b] % align == 0 && (b + HEADER) % align == 0
  {
    assert BlockOk(l, align, b);
  }

  lemma PutFiled(bk: Book, align: nat, c: nat, b: nat, size: nat)
    requires Putable(bk, align, c, b, size)
    ensures Filed(PutBook(bk, c, b))
  {
    hide Tiled, KindsOk, RegionsApart, FileClass;
    PutableSize(bk, align, c, b, size);
    var bk' := PutBook(bk, c, b);
    forall d: nat, i: nat | d < NUM_CLASSES && i < |bk'.lists[d]| ensures NodeFiled(bk', d, i) {
      if d == c && i == 0 {
        assert bk'.lists[d][i] == b;
      } else {
        var j := if d == c then i - 1 else i;
        assert bk'.lists[d][i] == bk.lists[d][j];
        NodeIsBlock(bk, align, d, j);
      }
    }
    forall a | a in bk'.free ensures IsFiled(bk', a) {
      if a == b {
        assert bk'.lists[c][0] == b;
      } else {
        assert IsFiled(bk, a);
      }
    }
    forall d: nat | d < NUM_CLASSES ensures Distinct(bk'.lists[d]) {
      assert Distinct(bk.lists[d]);
      if d == c {
        forall i: nat | i < |bk.lists[c]| ensures bk.lists[c][i] != b {
          NodeIsBlock(bk, align, c, i);
        }
      }
    }
  }

  lemma PutShape(bk: Book, align: nat, c: nat, b: nat, size: nat)
    requires Putable(bk, align, c, b, size)
    ensures c < |bk.lists| && Shape(PutBook(bk, c, b), align)
  {
    hide RegionsApart, Filed, FileClass, IsTailOf, Multiple;
    PutableSize(bk, align, c, b, size);
    PutFiled(bk, align, c, b, size);
    var bk' := PutBook(bk, c, b);
    forall a | a in bk'.l.size ensures KindOk(bk'.l, bk'.free, bk'.live, a) {
      assert KindOk(bk.l, bk.free, bk.live, a);
      assert PrevOk(bk.l, a);
    }
  }

  ghost predicate LinkWord(bk: Book, c: nat, b: nat, size: nat, w: int)
    requires c < |bk.lists|
  {
    b <= w < b + size || (bk.lists[c] != [] && w == bk.lists[c][0])
  }

  lemma PutRead(mem: Memory, bk: Book, c: nat, b: nat, size: nat, w: int)
    requires c < |bk.lists| && size >= 32 && !LinkWord(bk, c, b, size, w)
    ensures Read(PutMem(mem, bk.lists, c, b, size), w) == Read(mem, w)
  {
    hide Read, FreeWord;
  }

  lemma PutOwn(mem: Memory, bk: Book, align: nat, c: nat, b: nat, size: nat)
    requires Putable(bk, align, c, b, size)
    ensures c < |bk.lists|
    ensures var mem' := PutMem(mem, bk.lists, c, b, size);
      && Read(mem', b + 8) == FreeWord(Read(mem, b + 8), size, c)
      && Read(mem', b + size - 8) == size
  {
    hide Read, FreeWord, FileClass, Tiled, KindsOk, RegionsApart, Filed;
    PutableSize(bk, align, c, b, size);
    if bk.lists[c] != [] {
      NodeIsBlock(bk, align, c, 0);
      Disjoint(bk.l, align, b, bk.lists[c][0]);
    }
  }

  lemma PutTagOwn(mem: Memory, bk: Book, align: nat, heap: nat, except: int, c: nat, b: nat, size: nat)
    requires Putable(bk, align, c, b, size)
    requires TagOk(mem, bk.l, bk.free, bk.live, heap, except, b) && Type(Read(mem, b + 8)) == 0
    requires !BlockAlloc(Read(mem, b + 8))
    ensures c < |bk.lists|
    ensures TagOk(PutMem(mem, bk.lists, c, b, size), bk.l, bk.free + {b as int}, bk.live, heap, except, b)
  {
    hide Read, FreeWord, FileClass, Tiled, KindsOk, RegionsApart, Filed, Type, BlockAlloc, PreviousAlloc, FreeBytes;
    hide FreeClass;
    hide PutMem, LiveTag;
    PutableSize(bk, align, c, b, size);
    PutOwn(mem, bk, align, c, b, size);
    FreeWordFields(Read(mem, b + 8), size, c);
  }

  lemma PutTagOther(mem: Memory, bk: Book, align: nat, heap: nat, except: int, c: nat, b: nat, size: nat, x: int)
    requires Putable(bk, align, c, b, size) && x in bk.l.size && x != b
    requires TagOk(mem, bk.l, bk.free, bk.live, heap, except, x)
    ensures c < |bk.lists|
    ensures TagOk(PutMem(mem, bk.lists, c, b, size), bk.l, bk.free + {b as int}, bk.live, heap, except, x)
  {
    hide Tiled, KindsOk, RegionsApart, LiveTag, FreeTag, Filed, PutMem, FileClass;
    PutableSize(bk, align, c, b, size);
    var mem' := PutMem(mem, bk.lists, c, b, size);
    HeaderInside(bk.l, align, x);
    Disjoint(bk.l, align, b, x);
    if bk.lists[c] != [] {
      NodeIsBlock(bk, align, c, 0);
      LinkWordsMissTags(bk.l, bk.free, bk.live, align, bk.lists[c][0], bk.lists[c][0], x);
    }
    FreeOrLiveSize(bk, align, x);
    forall w | w == x + 8 || (x in bk.live && w == x) || (x in bk.free && w == x + bk.l.size[x] - 8)
      ensures Read(mem', w) == Read(mem, w)
    {
      PutRead(mem, bk, c, b, size, w);
    }
    TagFrame(mem, mem', bk.l, bk.free, bk.live, heap, except, x);
  }

  lemma FreeOrLiveSize(bk: Book, align: nat, x: int)
    requires Shape(bk, align) && x in bk.l.size
    ensures x in bk.free || x in bk.live ==> bk.l.size[x] >= 32 && !IsTailOf(bk.l, x)
  {
    hide Tiled, RegionsApart, Filed, IsTailOf;
    assert KindOk(bk.l, bk.free, bk.live, x);
    HeaderInside(bk.l, align, x);
  }

  lemma PutMarker(mem: Memory, bk: Book, align: nat, c: nat, b: nat, size: nat, d: int)
    requires Putable(bk, align, c, b, size) && d in bk.l.chunks && MarkerOk(mem, bk.l, d)
    ensures c < |bk.lists| && MarkerOk(PutMem(mem, bk.lists, c, b, size), bk.l, d)
  {
    hide Tiled, KindsOk, RegionsApart, Filed, PutMem, FileClass;
    PutableSize(bk, align, c, b, size);
    var mem' := PutMem(mem, bk.lists, c, b, size);
    MarkerWordsOutside(bk.l, align, d, b);
    if bk.lists[c] != [] {
      NodeIsBlock(bk, align, c, 0);
      MarkerWordsOutside(bk.l, align, d, bk.lists[c][0]);
    }
    forall w | w == d - 8 || w == d - 16 || w == bk.l.chunks[d].sys + 40 ensures Read(mem', w) == Read(mem, w) {
      PutRead(mem, bk, c, b, size, w);
    }
  }

  lemma PutLists(mem: Memory, ix: Index, bk: Book, align: nat, c: nat, b: nat, size: nat)
    requires Putable(bk, align, c, b, size)
    requires ListsOk(mem, ix.heads, bk.lists) && Lists.BitmapsOk(ix.bitmap, ix.top, bk.lists)
    ensures c < |bk.lists|
    ensures ListsOk(PutMem(mem, bk.lists, c, b, size), PutIndex(ix, c, b).heads, PutBook(bk, c, b).lists)
  {
    hide Tiled, KindsOk, RegionsApart, Filed, Lists.ListOk, Lists.RowOk, PutMem, FileClass;
    PutableSize(bk, align, c, b, size);
    var mem' := PutMem(mem, bk.lists, c, b, size);
    var ix' := PutIndex(ix, c, b);
    var bk' := PutBook(bk, c, b);
    forall d: nat | d < NUM_CLASSES ensures Lists.ListOk(mem', ix'.heads[d], bk'.lists[d]) {
      assert Lists.ListOk(mem, ix.heads[d], bk.lists[d]);
      if d == c {
        ListSpaced(bk, align, c);
        NodesMiss(bk, align, c, b, size, c);
        PutOwnList(mem, bk.lists, ix.heads[c], c, b, size);
      } else {
        NodesMiss(bk, align, c, b, size, d);
        PutOtherList(mem, ix, bk, align, c, b, size, d);
      }
    }
  }

  lemma NodesMiss(bk: Book, align: nat, c: nat, b: nat, size: nat, d: nat)
    requires Putable(bk, align, c, b, size) && d < NUM_CLASSES
    ensures forall i :: 0 <= i < |bk.lists[d]| ==> bk.lists[d][i] + 32 <= b || b + size <= bk.lists[d][i]
  {
    hide Tiled, KindsOk, RegionsApart, Filed, FileClass;
    forall i: nat | i < |bk.lists[d]| ensures bk.lists[d][i] + 32 <= b || b + size <= bk.lists[d][i] {
      NodeIsBlock(bk, align, d, i);
      Disjoint(bk.l, align, b, bk.lists[d][i]);
    }
  }

  lemma PutOwnList(mem: Memory, lists: seq<seq<nat>>, head: nat, c: nat, b: nat, size: nat)
    requires c < |lists| && Lists.ListOk(mem, head, lists[c]) && Lists.Spaced(lists[c]) && b > 0 && size >= 32
    requires forall i :: 0 <= i < |lists[c]| ==> lists[c][i] + 32 <= b || b + size <= lists[c][i]
    ensures Lists.ListOk(PutMem(mem, lists, c, b, size), b, [b] + lists[c])
  {
    hide Lists.LinkMem;
    Lists.PushOk(mem, head, lists[c], b, size, c);
  }

  lemma PutOtherList(mem: Memory, ix: Index, bk: Book, align: nat, c: nat, b: nat, size: nat, d: nat)
    requires Putable(bk, align, c, b, size) && d < NUM_CLASSES && d != c && c < |bk.lists|
    requires |ix.heads| == NUM_CLASSES && Lists.ListOk(mem, ix.heads[d], bk.lists[d])
    requires forall i :: 0 <= i < |bk.lists[d]| ==> bk.lists[d][i] + 32 <= b || b + size <= bk.lists[d][i]
    ensures Lists.ListOk(PutMem(mem, bk.lists, c, b, size), ix.heads[d], bk.lists[d])
  {
    hide Tiled, KindsOk, RegionsApart, Filed, FileClass, PutMem, Lists.ListOk;
    PutableSize(bk, align, c, b, size);
    var mem' := PutMem(mem, bk.lists, c, b, size);
    var s := bk.lists[d];
    forall i: nat | i < |s| ensures Read(mem', s[i]) == Read(mem, s[i])
        && Read(mem', s[i] + 16) == Read(mem, s[i] + 16) {
      if bk.lists[c] != [] {
        NodesApart(bk, align, c, 0, d, i);
      }
      PutRead(mem, bk, c, b, size, s[i]);
      PutRead(mem, bk, c, b, size, s[i] + 16);
    }
    Lists.SameListOk(mem, mem', ix.heads[d], s);
  }

  lemma PutBitmaps(mem: Memory, ix: Index, bk: Book, c: nat, b: nat)
    requires c < NUM_CLASSES == |bk.lists|
    requires ListsOk(mem, ix.heads, bk.lists) && Lists.BitmapsOk(ix.bitmap, ix.top, bk.lists)
    ensures var ix' := PutIndex(ix, c, b);
      Lists.BitmapsOk(ix'.bitmap, ix'.top, PutBook(bk, c, b).lists)
  {
    hide Bitmap.Clear, Bitmap.Has, Bitmap.Set, Lists.RowOk;
    var s := bk.lists[c];
    assert Lists.ListOk(mem, ix.heads[c], s);
    assert s != [] ==> Lists.NodeOk(mem, s, 0);
    assert [b] + s != [];
    Lists.MarkNonempty(ix.bitmap, ix.top, bk.lists, c / NUM_SLOTS, c % NUM_SLOTS, [b] + s);
  }

  lemma PutFrame(mem: Memory, bk: Book, align: nat, c: nat, b: nat, size: nat)
    requires Putable(bk, align, c, b, size)
    ensures c < |bk.lists| && Frame(mem, PutMem(mem, bk.lists, c, b, size), bk.l, bk.live)
  {
    hide PutMem, Tiled, RegionsApart, Filed, FileClass, IsTailOf;
    PutableSize(bk, align, c, b, size);
    var mem' := PutMem(mem, bk.lists, c, b, size);
    forall w | LinkWord(bk, c, b, size, w)
      ensures !OutsideChunks(bk.l, w) && forall a :: a in bk.live ==> !(a <= w < a + bk.l.size[a])
    {
      if b <= w < b + size {
        InnerWord(bk, align, b, w);
      } else {
        NodeIsBlock(bk, align, c, 0);
        assert KindOk(bk.l, bk.free, bk.live, w);
        InnerWord(bk, align, w, w);
      }
    }
    forall w | !LinkWord(bk, c, b, size, w) ensures Read(mem', w) == Read(mem, w) {
      PutRead(mem, bk, c, b, size, w);
    }
    HeadersIn(bk, align);
  }

  /** Filing a held block under its size keeps the invariant; the block is then free. */
  lemma PutOk(mem: Memory, ix: Index, bk: Book, align: nat, heap: nat, except: int, c: nat, b: nat, size: nat)
    requires Core(mem, ix, bk, align, heap, except) && Putable(bk, align, c, b, size)
    requires Type(Read(mem, b + 8)) == 0 && !BlockAlloc(Read(mem, b + 8))
    ensures c < |bk.lists| && |ix.heads| == NUM_CLASSES && |ix.bitmap| == NUM_INDICES
    ensures Core(PutMem(mem, bk.lists, c, b, size), PutIndex(ix, c, b), PutBook(bk, c, b), align, heap, except)
    ensures Frame(mem, PutMem(mem, bk.lists, c, b, size), bk.l, bk.live)
  {
    hide Tiled, KindsOk, RegionsApart, Filed, TagOk, MarkerOk, Lists.RowOk, PutMem, PutIndex, Frame, Type, BlockAlloc;
    hide Putable;
    PutableSize(bk, align, c, b, size);
    PutShape(bk, align, c, b, size);
    var mem' := PutMem(mem, bk.lists, c, b, size);
    var bk' := PutBook(bk, c, b);
    assert b in bk.l.size by { PutableIn(bk, align, c, b, size); }
    forall x | x in bk.l.size ensures TagOk(mem', bk'.l, bk'.free, bk'.live, heap, except, x) {
      assert TagOk(mem, bk.l, bk.free, bk.live, heap, except, x);
      if x == b {
        PutTagOwn(mem, bk, align, heap, except, c, b, size);
      } else {
        PutTagOther(mem, bk, align, heap, except, c, b, size, x);
      }
    }
    forall d | d in bk.l.chunks ensures MarkerOk(mem', bk.l, d) {
      assert MarkerOk(mem, bk.l, d);
      PutMarker(mem, bk, align, c, b, size, d);
    }
    PutLists(mem, ix, bk, align, c, b, size);
    PutBitmaps(mem, ix, bk, c, b);
    PutFrame(mem, bk, align, c, b, size);
  }

  lemma PutableIn(bk: Book, align: nat, c: nat, b: nat, size: nat)
    requires Putable(bk, align, c, b, size)
    ensures b in bk.l.size
  {
  }
}
