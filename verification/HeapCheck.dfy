/** The author's own heap checker, which never finds a fault, and the boundary-tag invariant in one place. */
module HeapCheck {
  import opened Bits
  import opened Memory
  import opened SizeClasses
  import opened Words
  import opened Blocks
  import opened Tags
  import opened MediumSteps
  import opened MediumMoves
  import opened MediumSystem
  import opened SystemMemory
  import opened Tlsf
  import Lists = FreeLists
  import Bitmap

  /** Block x of a valid heap, in full: it is free or in use, not both; it ends where the next header starts; the
      next block's PREVIOUS bit tells which it is; its own word, and a free block's last word, give its exact size;
      a free block lies between blocks in use, and its word names its list. */
  lemma BoundaryTags(m: MediumHeap, x: int)
    requires m.Valid() && x in m.bk.l.size && x in m.bk.l.base && !IsTailOf(m.bk.l, x)
    ensures var size, next, w := m.bk.l.size[x], x + m.bk.l.size[x], Read(m.mem, x + 8);
      && (x in m.bk.free <==> x !in m.bk.live)
      && next in m.bk.l.size && next in m.bk.l.base && m.bk.l.base[next] == m.bk.l.base[x]
      && (PreviousAlloc(Read(m.mem, next + 8)) <==> x in m.bk.live)
      && (BlockAlloc(w) <==> x in m.bk.live)
      && (x in m.bk.live ==> DecodesTo(w, size) && Type(w) == TYPE_MEDIUM)
      && (x in m.bk.free ==>
            && FreeBytes(w) == size && Read(m.mem, next - 8) == size && size >= 0 && FreeClass(w) == FileClass(size)
            && next !in m.bk.free && (x != m.bk.l.base[x] ==> x in m.bk.l.prev && m.bk.l.prev[x] in m.bk.live))
  {
    hide RegionsApart, Filed, Read, Type, BlockAlloc, PreviousAlloc, DecodesTo, FreeBytes, FreeClass, FileClass;
    hide ListsOk, MarkersOk;
    hide Lists.BitmapsOk, SysOk, AlignmentOk, Tiled;
    var l := m.bk.l;
    assert KindOk(l, m.bk.free, m.bk.live, x);
    TileOf(m.bk, m.align, x);
    var next := x + l.size[x];
    assert KindOk(l, m.bk.free, m.bk.live, next);
    assert TagOk(m.mem, l, m.bk.free, m.bk.live, m.heap, NONE, x);
    assert TagOk(m.mem, l, m.bk.free, m.bk.live, m.heap, NONE, next);
    if x != l.base[x] {
      PrevBlock(m.bk, m.align, x);
      assert !IsTailOf(l, l.prev[x]);
    }
  }

  lemma TileOf(bk: Book, align: nat, x: int)
    requires Shape(bk, align) && x in bk.l.size && x in bk.l.base && !IsTailOf(bk.l, x)
    ensures var next := x + bk.l.size[x];
      && next in bk.l.size && next in bk.l.base && next in bk.l.prev && x in bk.l.prev
      && bk.l.base[next] == bk.l.base[x] && bk.l.prev[next] == x && next != bk.l.base[next] && next > x > 0
  {
    hide RegionsApart, Filed, KindsOk, Multiple;
    assert BlockOk(bk.l, align, x);
    AddressPositive(bk.l, align, x);
  }

  /** The list of a class holds exactly the free blocks of that class, and its bit says whether there are any. */
  lemma ListExact(m: MediumHeap, c: nat)
    requires m.Valid() && c < NUM_CLASSES
    ensures |m.bk.lists| == NUM_CLASSES && |m.heads| == NUM_CLASSES && |m.bitmap| == NUM_INDICES
    ensures m.top <= Bitmap.WORD32_MAX
    ensures Lists.ListOk(m.mem, m.heads[c], m.bk.lists[c]) && Distinct(m.bk.lists[c])
    ensures forall a: nat :: a in m.bk.lists[c] <==>
      a in m.bk.free && a in m.bk.l.size && m.bk.l.size[a] >= 0 && FileClass(m.bk.l.size[a]) == c
    ensures c / NUM_SLOTS < NUM_INDICES && m.bitmap[c / NUM_SLOTS] <= Bitmap.WORD32_MAX
    ensures Bitmap.Has(m.bitmap[c / NUM_SLOTS], c % NUM_SLOTS) <==> m.bk.lists[c] != []
    ensures Bitmap.Has(m.top, c / NUM_SLOTS) <==> m.bitmap[c / NUM_SLOTS] != 0
  {
    hide RegionsApart, Read, FileClass, MarkersOk, SysOk, AlignmentOk, Tiled, KindsOk, TagsOk, Lists.ListOk, Bitmap.Has;
    assert Lists.ListOk(m.mem, m.heads[c], m.bk.lists[c]);
    assert Distinct(m.bk.lists[c]);
    assert Lists.RowOk(m.bitmap, m.top, m.bk.lists, c / NUM_SLOTS);
    assert (c / NUM_SLOTS) * NUM_SLOTS + c % NUM_SLOTS == c;
    assert Bitmap.Has(m.bitmap[c / NUM_SLOTS], c % NUM_SLOTS) <==>
        m.bk.lists[(c / NUM_SLOTS) * NUM_SLOTS + c % NUM_SLOTS] != [];
    forall a: nat
      ensures a in m.bk.lists[c] <==>
        a in m.bk.free && a in m.bk.l.size && m.bk.l.size[a] >= 0 && FileClass(m.bk.l.size[a]) == c
    {
      if a in m.bk.lists[c] {
        var i :| 0 <= i < |m.bk.lists[c]| && m.bk.lists[c][i] == a;
        assert NodeFiled(m.bk, c, i);
      }
      if a in m.bk.free {
        assert IsFiled(m.bk, a);
      }
    }
  }

  /** What the checker looks at in the k-th block of a list. */
  lemma Node(m: MediumHeap, c: nat, k: nat)
    requires m.Valid() && c < NUM_CLASSES && |m.bk.lists| == NUM_CLASSES && k < |m.bk.lists[c]|
    ensures var s, b := m.bk.lists[c], m.bk.lists[c][k];
      var w := Read(m.mem, b + 8);
      && b > 0 && !BlockAlloc(w) && FreeClass(w) == c
      && (Read(m.mem, b - 8) < PRE_HEADER ==> PreviousAlloc(w))
      && Read(m.mem, b + 16) == (if k + 1 < |s| then s[k + 1] else 0)
      && (k + 1 < |s| ==> s[k + 1] > 0 && Read(m.mem, s[k + 1]) == b)
      && FileClass(FreeBytes(w)) == c && (c != NUM_CLASSES - 1 ==> FreeBytes(w) < FREE_SIZE_LIMIT)
      && !PreviousAlloc(Read(m.mem, b + FreeBytes(w) + 8))
  {
    hide RegionsApart, Filed, Read, Type, BlockAlloc, PreviousAlloc, DecodesTo, FreeBytes, FreeClass, FileClass;
    hide SysOk, AlignmentOk, Tiled, TagsOk, KindsOk, MarkersOk, ListsOk, Lists.BitmapsOk;
    var s, b := m.bk.lists[c], m.bk.lists[c][k];
    NodeIsBlock(m.bk, m.align, c, k);
    FreeIsProper(m.bk, b);
    BoundaryTags(m, b);
    TileOf(m.bk, m.align, b);
    ChunkOfBlock(m.bk.l, m.align, b);
    SizeBound(m.bk.l, m.align, b);
    Links(m, c, k);
    FirstMarked(m, b);
    FileClassSmall(m.bk.l.size[b]);
    var w := Read(m.mem, b + 8);
    assert b > 0;
    assert !BlockAlloc(w);
    assert FreeBytes(w) == m.bk.l.size[b];
    assert FreeClass(w) == c;
    assert !PreviousAlloc(Read(m.mem, b + FreeBytes(w) + 8));
  }

  lemma FileClassSmall(size: nat)
    ensures FileClass(size) != NUM_CLASSES - 1 ==> size < FREE_SIZE_LIMIT
  {
  }

  lemma FreeIsProper(bk: Book, b: int)
    requires KindsOk(bk.l, bk.free, bk.live) && b in bk.free
    ensures b in bk.l.size && b in bk.l.base && !IsTailOf(bk.l, b)
  {
    assert KindOk(bk.l, bk.free, bk.live, b);
  }

  lemma Links(m: MediumHeap, c: nat, k: nat)
    requires m.Valid() && c < NUM_CLASSES && |m.bk.lists| == NUM_CLASSES && k < |m.bk.lists[c]|
    ensures var s := m.bk.lists[c];
      && s[k] > 0 && Read(m.mem, s[k] + 16) == (if k + 1 < |s| then s[k + 1] else 0)
      && (k + 1 < |s| ==> s[k + 1] > 0 && Read(m.mem, s[k + 1]) == s[k])
  {
    hide RegionsApart, Filed, Read, FileClass, MarkersOk, SysOk, AlignmentOk, Tiled, KindsOk, TagsOk, Lists.BitmapsOk;
    var s := m.bk.lists[c];
    assert Lists.ListOk(m.mem, m.heads[c], s);
    assert Lists.NodeOk(m.mem, s, k);
    assert k + 1 < |s| ==> Lists.NodeOk(m.mem, s, k + 1);
  }

  /** The word before a chunk's first block is its marker; before any other free block its predecessor is in use. */
  lemma FirstMarked(m: MediumHeap, b: int)
    requires m.Valid() && b in m.bk.free && b in m.bk.l.size && b in m.bk.l.base && !IsTailOf(m.bk.l, b)
    ensures Read(m.mem, b - 8) < PRE_HEADER ==> PreviousAlloc(Read(m.mem, b + 8))
  {
    hide RegionsApart, Filed, Read, Type, BlockAlloc, PreviousAlloc, FreeTag, LiveTag, ListsOk, Lists.BitmapsOk;
    hide SysOk, AlignmentOk;
    hide Tiled;
    BoundaryTags(m, b);
    TileOf(m.bk, m.align, b);
    ChunkOfBlock(m.bk.l, m.align, b);
    assert TagOk(m.mem, m.bk.l, m.bk.free, m.bk.live, m.heap, NONE, b);
    if b == m.bk.l.base[b] {
      assert MarkerOk(m.mem, m.bk.l, b);
    }
  }

  lemma BitTest(v: nat, s: nat)
    requires s < 32
    ensures And(v, Bitmap.Mask(s)) == 0 <==> !Bitmap.Has(v, s)
  {
    hide And, Bit;
    Bitmap.MaskIsPow2(s);
    OneBit(v, 31 - s);
  }

  lemma SameSlot(size: nat, index: nat, slot: nat)
    requires size < FREE_SIZE_LIMIT && index < NUM_INDICES && slot < NUM_SLOTS
    requires FileClass(size) == index * NUM_SLOTS + slot
    requires index != NUM_INDICES - 1 || slot != NUM_SLOTS - 1
    ensures var at := IndexSlotForFreeBlock(size); at.index == index && at.slot == slot
  {
    hide IndexSlotForFreeBlock;
    var at := IndexSlotForFreeBlock(size);
    assert at.Class() == index * NUM_SLOTS + slot;
  }

  // ---- the checker on any memory ----

  /** The heap structure's part that the checker reads. */
  datatype Listing = Listing(mem: Memory, heads: seq<nat>, bitmap: seq<nat>, top: nat)

  ghost predicate Readable(t: Listing) {
    |t.heads| == NUM_CLASSES && |t.bitmap| == NUM_INDICES
  }

  /** Following next links from head visits s and ends. */
  ghost predicate Chain(mem: Memory, head: nat, s: seq<nat>) {
    && head == (if s == [] then 0 else s[0])
    && forall k {:trigger s[k]} :: 0 <= k < |s| ==>
         s[k] != 0 && Read(mem, s[k] + 16) == if k + 1 < |s| then s[k + 1] else 0
  }

  /** All that the checker asserts of a block on list (index, slot): it is free; its predecessor is in use, unless it is
      a chunk's first; its word names the list; the next block on the list leads back to it; but on the last list, its
      size belongs to the list; and the block behind it knows that it is free. */
  ghost predicate NodeSound(mem: Memory, cur: nat, index: nat, slot: nat) {
    var w, next := Read(mem, cur + 8), Read(mem, cur + 16);
    && !BlockAlloc(w) && (Read(mem, cur - 8) < PRE_HEADER ==> PreviousAlloc(w))
    && FreeClass(w) == index * NUM_SLOTS + slot && (next != 0 ==> Read(mem, next) == cur)
    && (index != NUM_INDICES - 1 || slot != NUM_SLOTS - 1 ==>
        FreeBytes(w) < FREE_SIZE_LIMIT && IndexSlotForFreeBlock(FreeBytes(w)) == IndexSlot(index, slot))
    && !PreviousAlloc(Read(mem, cur + FreeBytes(w) + 8))
  }

  /** And of a list: its bit says whether it has blocks, and all of them are sound. */
  ghost predicate ListSound(t: Listing, index: nat, slot: nat, s: seq<nat>)
    requires Readable(t) && index < NUM_INDICES && slot < NUM_SLOTS
  {
    && (t.heads[index * NUM_SLOTS + slot] == 0 <==> And(t.bitmap[index], Bitmap.Mask(slot)) == 0)
    && forall k {:trigger s[k]} :: 0 <= k < |s| ==> NodeSound(t.mem, s[k], index, slot)
  }

  /** And of the whole index: the top bits say which rows have lists, and every list is sound. */
  ghost predicate RowSound(t: Listing, index: nat, lists: seq<seq<nat>>)
    requires Readable(t) && |lists| == NUM_CLASSES && index < NUM_INDICES
  {
    && (And(t.top, Bitmap.Mask(index)) == 0 <==> t.bitmap[index] == 0)
    && forall slot: nat {:trigger SlotSound(t, index, slot, lists)} :: slot < NUM_SLOTS ==>
         SlotSound(t, index, slot, lists)
  }

  ghost predicate SlotSound(t: Listing, index: nat, slot: nat, lists: seq<seq<nat>>)
    requires Readable(t) && |lists| == NUM_CLASSES && index < NUM_INDICES && slot < NUM_SLOTS
  {
    ListSound(t, index, slot, lists[index * NUM_SLOTS + slot])
  }

  ghost predicate AllSound(t: Listing, lists: seq<seq<nat>>)
    requires Readable(t) && |lists| == NUM_CLASSES
  {
    forall index: nat {:trigger RowSound(t, index, lists)} :: index < NUM_INDICES ==> RowSound(t, index, lists)
  }

  ghost predicate Chains(t: Listing, lists: seq<seq<nat>>)
    requires Readable(t) && |lists| == NUM_CLASSES
  {
    forall c: nat {:trigger Chain(t.mem, t.heads[c], lists[c])} :: c < NUM_CLASSES ==>
      Chain(t.mem, t.heads[c], lists[c])
  }

  /** One round of the list checker. */
  method CheckNode(mem: Memory, cur: nat, index: nat, slot: nat) returns (ok: bool)
    requires index < NUM_INDICES && slot < NUM_SLOTS
    ensures ok <==> NodeSound(mem, cur, index, slot)
  {
    hide Read, BlockAlloc, PreviousAlloc, FreeClass, FreeBytes, IndexSlotForFreeBlock;
    var prefix := Read(mem, cur + 8);
    if BlockAlloc(prefix) {
      return false;
    }
    if Read(mem, cur - 8) < PRE_HEADER && !PreviousAlloc(prefix) {
      return false;
    }
    if FreeClass(prefix) != index * NUM_SLOTS + slot {
      return false;
    }
    var next := Read(mem, cur + 16);
    if next != 0 && Read(mem, next) != cur {
      return false;
    }
    if FreeClass(prefix) / 32 != index || FreeClass(prefix) % 32 != slot {
      return false;
    }
    if index != NUM_INDICES - 1 || slot != NUM_SLOTS - 1 {
      if FreeBytes(prefix) >= FREE_SIZE_LIMIT {   // beyond the last index, which is asserted too
        return false;
      }
      var at := IndexSlotForFreeBlock(FreeBytes(prefix));
      if at.index != index || at.slot != slot {
        return false;
      }
    }
    if PreviousAlloc(Read(mem, cur + FreeBytes(prefix) + 8)) {
      return false;
    }
    return true;
  }

  /** stbm__medium_check_list; false stands for a failed assertion. On any list that ends, it finds a fault exactly if
      there is one. */
  method CheckList(t: Listing, index: nat, slot: nat, ghost s: seq<nat>) returns (ok: bool)
    requires Readable(t) && index < NUM_INDICES && slot < NUM_SLOTS
    requires Chain(t.mem, t.heads[index * NUM_SLOTS + slot], s)
    ensures ok <==> ListSound(t, index, slot, s)
  {
    hide Read, NodeSound, And, Bitmap.Mask;
    var c := index * NUM_SLOTS + slot;
    var cur := t.heads[c];
    ghost var k := 0;
    if (cur == 0) != (And(t.bitmap[index], Bitmap.Mask(slot)) == 0) {
      return false;
    }
    while cur != 0
      invariant 0 <= k <= |s| && cur == (if k < |s| then s[k] else 0)
      invariant forall j {:trigger s[j]} :: 0 <= j < k ==> NodeSound(t.mem, s[j], index, slot)
      decreases |s| - k
    {
      var fine := CheckNode(t.mem, cur, index, slot);
      if !fine {
        return false;
      }
      assert cur == s[k];
      cur := Read(t.mem, cur + 16);
      k := k + 1;
    }
    return true;
  }

  /** stbm__medium_check_all: likewise for the whole index. */
  method CheckAll(t: Listing, ghost lists: seq<seq<nat>>) returns (ok: bool)
    requires Readable(t) && |lists| == NUM_CLASSES && Chains(t, lists)
    ensures ok <==> AllSound(t, lists)
  {
    hide And, Bitmap.Mask, Chain, ListSound;
    for i := 0 to NUM_INDICES
      invariant forall j: nat {:trigger RowSound(t, j, lists)} :: j < i ==> RowSound(t, j, lists)
    {
      if (And(t.top, Bitmap.Mask(i)) == 0) != (t.bitmap[i] == 0) {
        assert !RowSound(t, i, lists);
        return false;
      }
      for s := 0 to NUM_SLOTS
        invariant forall r: nat {:trigger SlotSound(t, i, r, lists)} :: r < s ==> SlotSound(t, i, r, lists)
      {
        var fine := CheckList(t, i, s, lists[i * NUM_SLOTS + s]);
        if !fine {
          assert !SlotSound(t, i, s, lists) && !RowSound(t, i, lists);
          return false;
        }
      }
    }
    return true;
  }

  ghost function ListingOf(m: MediumHeap): Listing
    reads m
  {
    Listing(m.mem, m.heads, m.bitmap, m.top)
  }

  /** In a valid heap the checker finds no fault: every list ends, and is sound. */
  lemma PassesCheck(m: MediumHeap)
    requires m.Valid()
    ensures Readable(ListingOf(m)) && |m.bk.lists| == NUM_CLASSES
    ensures Chains(ListingOf(m), m.bk.lists) && AllSound(ListingOf(m), m.bk.lists)
  {
    hide MediumHeap.Valid, And, Bitmap.Has, Chain, ListSound, Bitmap.Mask;
    ListExact(m, 0);
    var t := ListingOf(m);
    forall c: nat | c < NUM_CLASSES ensures Chain(t.mem, t.heads[c], m.bk.lists[c]) {
      ListEnds(m, c);
    }
    forall index: nat | index < NUM_INDICES ensures RowSound(t, index, m.bk.lists) {
      ListExact(m, index * NUM_SLOTS);
      BitTest(m.top, index);
      forall slot: nat | slot < NUM_SLOTS ensures SlotSound(t, index, slot, m.bk.lists) {
        ListPasses(m, index, slot);
      }
    }
  }

  lemma ListEnds(m: MediumHeap, c: nat)
    requires m.Valid() && c < NUM_CLASSES
    ensures |m.heads| == NUM_CLASSES && |m.bk.lists| == NUM_CLASSES && Chain(m.mem, m.heads[c], m.bk.lists[c])
  {
    hide MediumHeap.Valid, Read, Bitmap.Has, FileClass;
    ListExact(m, c);
    var s := m.bk.lists[c];
    forall k | 0 <= k < |s| ensures s[k] != 0 && Read(m.mem, s[k] + 16) == if k + 1 < |s| then s[k + 1] else 0 {
      Links(m, c, k);
    }
  }

  lemma ListPasses(m: MediumHeap, index: nat, slot: nat)
    requires m.Valid() && index < NUM_INDICES && slot < NUM_SLOTS
    ensures Readable(ListingOf(m)) && |m.bk.lists| == NUM_CLASSES
    ensures ListSound(ListingOf(m), index, slot, m.bk.lists[index * NUM_SLOTS + slot])
  {
    hide MediumHeap.Valid, Read, BlockAlloc, PreviousAlloc, FreeClass, FreeBytes, FileClass, IndexSlotForFreeBlock;
    hide And, Bitmap.Has, Bitmap.Mask, NodeSound;
    var c := index * NUM_SLOTS + slot;
    ListExact(m, c);
    BitTest(m.bitmap[index], slot);
    var s := m.bk.lists[c];
    if s != [] {
      Links(m, c, 0);
    }
    forall k | 0 <= k < |s| ensures NodeSound(m.mem, s[k], index, slot) {
      NodePasses(m, index, slot, k);
    }
  }

  lemma NodePasses(m: MediumHeap, index: nat, slot: nat, k: nat)
    requires m.Valid() && index < NUM_INDICES && slot < NUM_SLOTS && |m.bk.lists| == NUM_CLASSES
    requires k < |m.bk.lists[index * NUM_SLOTS + slot]|
    ensures NodeSound(m.mem, m.bk.lists[index * NUM_SLOTS + slot][k], index, slot)
  {
    hide MediumHeap.Valid, Read, BlockAlloc, PreviousAlloc, FreeClass, FreeBytes, FileClass, IndexSlotForFreeBlock;
    var c := index * NUM_SLOTS + slot;
    Node(m, c, k);
    if index != NUM_INDICES - 1 || slot != NUM_SLOTS - 1 {
      SameSlot(FreeBytes(Read(m.mem, m.bk.lists[c][k] + 8)), index, slot);
    }
  }
}
