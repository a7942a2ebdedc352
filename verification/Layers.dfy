/** What a layer above the medium allocator may write: data of live blocks, and words outside every chunk and
    off the system list. No such write disturbs the medium allocator. */
module Layers {
  import opened Memory
  import opened SizeClasses
  import opened Blocks
  import opened Tags
  import opened MediumSteps
  import opened MediumMoves
  import opened MediumFrames
  import opened MediumSystem
  import Lists = FreeLists

  ghost predicate InData(bk: Book, w: int) {
    exists a {:trigger UserWord(bk.l, bk.live, a, w)} :: UserWord(bk.l, bk.live, a, w)
  }

  ghost predicate LayerWord(bk: Book, ring: seq<nat>, w: int) {
    Untouched(bk.l, ring, w) || InData(bk, w)
  }

  ghost predicate LayerWrites(m0: Memory, m1: Memory, bk: Book, ring: seq<nat>) {
    forall w {:trigger Read(m1, w)} :: !LayerWord(bk, ring, w) ==> Read(m1, w) == Read(m0, w)
  }

  /** The allocator's own words of a block are not a layer's. */
  lemma PrivateWord(bk: Book, align: nat, ring: seq<nat>, y: int, w: int)
    requires Shape(bk, align) && y in bk.l.size && y <= w < y + bk.l.size[y] && (y !in bk.live || w < y + HEADER)
    ensures !LayerWord(bk, ring, w)
  {
    hide Tiled, KindsOk, RegionsApart, Filed, OutsideChunks;
    InnerWord(bk, align, y, w);
  }

  lemma LayerTag(m0: Memory, m1: Memory, bk: Book, align: nat, heap: nat, ring: seq<nat>, x: int)
    requires Shape(bk, align) && LayerWrites(m0, m1, bk, ring) && x in bk.l.size
    requires TagOk(m0, bk.l, bk.free, bk.live, heap, NONE, x)
    ensures TagOk(m1, bk.l, bk.free, bk.live, heap, NONE, x)
  {
    hide Tiled, RegionsApart, LiveTag, FreeTag, Filed, Read, LayerWord, IsTailOf;
    HeaderInside(bk.l, align, x);
    FreeOrLiveSize(bk, align, x);
    assert KindOk(bk.l, bk.free, bk.live, x);
    forall w | w == x + 8 || (x in bk.live && w == x) || (x in bk.free && w == x + bk.l.size[x] - 8)
      ensures Read(m1, w) == Read(m0, w)
    {
      PrivateWord(bk, align, ring, x, w);
    }
    TagFrame(m0, m1, bk.l, bk.free, bk.live, heap, NONE, x);
  }

  lemma LayerLists(m0: Memory, m1: Memory, heads: seq<nat>, bk: Book, align: nat, ring: seq<nat>)
    requires Shape(bk, align) && LayerWrites(m0, m1, bk, ring) && ListsOk(m0, heads, bk.lists)
    ensures ListsOk(m1, heads, bk.lists)
  {
    hide Tiled, RegionsApart, Filed, Read, LayerWord, Lists.ListOk, FileClass, IsTailOf;
    forall c: nat | c < NUM_CLASSES ensures Lists.ListOk(m1, heads[c], bk.lists[c]) {
      var s := bk.lists[c];
      assert Lists.ListOk(m0, heads[c], s);
      forall i: nat | i < |s|
        ensures Read(m1, s[i]) == Read(m0, s[i]) && Read(m1, s[i] + 16) == Read(m0, s[i] + 16)
      {
        NodeIsBlock(bk, align, c, i);
        assert KindOk(bk.l, bk.free, bk.live, s[i]);
        PrivateWord(bk, align, ring, s[i], s[i]);
        PrivateWord(bk, align, ring, s[i], s[i] + 16);
      }
      Lists.SameListOk(m0, m1, heads[c], s);
    }
  }

  lemma LayerMarkers(m0: Memory, m1: Memory, bk: Book, align: nat, ring: seq<nat>)
    requires Shape(bk, align) && LayerWrites(m0, m1, bk, ring) && MarkersOk(m0, bk.l)
    ensures MarkersOk(m1, bk.l)
  {
    hide KindsOk, RegionsApart, Filed, Read, OutsideChunks, BlockOk, PrevOk, Before, Untouched;
    forall c | c in bk.l.chunks ensures MarkerOk(m1, bk.l, c) {
      assert MarkerOk(m0, bk.l, c) && ChunkOk(bk.l, c);
      MarkerPrivate(bk, align, ring, c, c - 8);
      MarkerPrivate(bk, align, ring, c, c - 16);
      MarkerPrivate(bk, align, ring, c, bk.l.chunks[c].sys + 40);
    }
  }

  lemma MarkerPrivate(bk: Book, align: nat, ring: seq<nat>, c: int, w: int)
    requires Shape(bk, align) && c in bk.l.chunks && (w == c - 8 || w == c - 16 || w == bk.l.chunks[c].sys + 40)
    ensures !LayerWord(bk, ring, w)
  {
    hide KindsOk, RegionsApart, Filed, OutsideChunks, BlockOk, PrevOk, Before;
    assert ChunkOk(bk.l, c);
    MarkerInside(bk.l, c, w);
    forall a | UserWord(bk.l, bk.live, a, w) ensures false {
      MarkerWordsOutside(bk.l, align, c, a);
    }
  }

  lemma LayerSystem(m0: Memory, m1: Memory, owned: map<int, nat>, heap: nat, ring: seq<nat>, cached: nat,
                    cachedSize: nat, foreign: set<int>, others: set<int>, bk: Book, align: nat)
    requires Shape(bk, align) && LayerWrites(m0, m1, bk, ring)
    requires SysOk(m0, owned, heap, ring, cached, cachedSize, foreign, others, bk.l)
    ensures SysOk(m1, owned, heap, ring, cached, cachedSize, foreign, others, bk.l)
  {
    hide SysOk, Read, Tiled, KindsOk, RegionsApart, Filed, OutsideChunks;
    forall i: int, w | 0 <= i < |ring| && ring[i] <= w < ring[i] + LIST_WORDS ensures Read(m1, w) == Read(m0, w) {
      RingWordOutside(m0, owned, heap, ring, cached, cachedSize, foreign, others, bk.l, i, w);
      forall a | UserWord(bk.l, bk.live, a, w) ensures false {
        InsideChunk(bk, align, a, w);
      }
    }
    SysFrame(m0, m1, owned, heap, ring, cached, cachedSize, foreign, others, bk.l, bk.l);
  }

  /** Layer writes keep the whole invariant of the medium allocator. */
  lemma LayerOk(m0: Memory, m1: Memory, ix: Index, bk: Book, align: nat, heap: nat, ring: seq<nat>)
    requires Core(m0, ix, bk, align, heap, NONE) && LayerWrites(m0, m1, bk, ring)
    ensures Core(m1, ix, bk, align, heap, NONE)
  {
    hide Tiled, KindsOk, RegionsApart, Filed, TagOk, LayerWrites, ListsOk, MarkersOk, Lists.BitmapsOk;
    LayerLists(m0, m1, ix.heads, bk, align, ring);
    LayerMarkers(m0, m1, bk, align, ring);
    forall x | x in bk.l.size ensures TagOk(m1, bk.l, bk.free, bk.live, heap, NONE, x) {
      assert TagOk(m0, bk.l, bk.free, bk.live, heap, NONE, x);
      LayerTag(m0, m1, bk, align, heap, ring, x);
    }
  }
}
