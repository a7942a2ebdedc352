/** The invariant of the small allocator: slabs housed in live medium blocks, kept on a full and a nonfull ring,
    except for one cached empty slab. */
module SmallSteps {
  import opened Bits
  import opened Memory
  import opened Blocks
  import opened Tags
  import opened MediumSteps
  import opened MediumFrames
  import opened MediumSystem
  import opened Layers
  import opened Slab
  import Ring

  const SMALL_LINKS: Ring.Links := Ring.Links(16, 24)
  const FULL_SENTINEL: nat := 424      // offsets of the two sentinels in the heap structure
  const NONFULL_SENTINEL: nat := 480
  const SENTINELS_END: nat := 536

  type Slabs = map<int, Cells>

  /** A slab occupies the data of a live medium block. */
  ghost predicate Housed(bk: Book, c: int) {
    c - HEADER in bk.live && c - HEADER in bk.l.size && bk.l.size[c - HEADER] >= CHUNK_SIZE + HEADER && c > 0
  }

  ghost predicate RingsOk(mem: Memory, heap: nat, nonfull: seq<nat>, full: seq<nat>) {
    && |nonfull| > 0 && Ring.RingOk(mem, SMALL_LINKS, nonfull) && nonfull[0] == heap + NONFULL_SENTINEL
    && |full| > 0 && Ring.RingOk(mem, SMALL_LINKS, full) && full[0] == heap + FULL_SENTINEL
  }

  /** Every slab is on exactly one ring, or is the cached one, or is in `out`. */
  ghost predicate Partition(slabs: Slabs, nonfull: seq<nat>, full: seq<nat>, cache: nat, out: set<int>) {
    && slabs.Keys == Members(nonfull) + Members(full) + Cached(cache) + out
    && Members(nonfull) !! Members(full) && Members(nonfull) !! Cached(cache) && Members(full) !! Cached(cache)
    && out !! Members(nonfull) && out !! Members(full) && out !! Cached(cache)
  }

  /** A slab is on the full ring exactly when it has no room, its flag says so, and only the cached slab is empty. */
  ghost predicate Placed(mem: Memory, slabs: Slabs, nonfull: seq<nat>, full: seq<nat>, cache: nat, c: int)
    requires c in slabs
  {
    && (c in Members(full) <==> NoRoom(mem, c))
    && Read(mem, c + FULL) == (if c in Members(full) then 1 else 0)
    && (c in Members(nonfull) ==> slabs[c].live != {})
    && (c in Cached(cache) ==> slabs[c].live == {})
  }

  ghost predicate SlabFine(mem: Memory, heap: nat, slabs: Slabs, nonfull: seq<nat>, full: seq<nat>, cache: nat, c: int)
    requires c in slabs
  {
    SlabOk(mem, c, slabs[c], heap) && Placed(mem, slabs, nonfull, full, cache, c)
  }

  /** The whole, save for the slabs in `loose`, whose cells or placement are being changed. */
  ghost predicate SlabsOk(mem: Memory, heap: nat, bk: Book, slabs: Slabs, nonfull: seq<nat>, full: seq<nat>, cache: nat,
                          out: set<int>, loose: set<int>) {
    && RingsOk(mem, heap, nonfull, full)
    && Partition(slabs, nonfull, full, cache, out)
    && (forall c {:trigger Housed(bk, c)} :: c in slabs ==> Housed(bk, c))
    && (forall c {:trigger SlabFine(mem, heap, slabs, nonfull, full, cache, c)} ::
          c in slabs && c !in loose ==> SlabFine(mem, heap, slabs, nonfull, full, cache, c))
  }

  /** The heap structure lies outside every chunk's data. */
  ghost predicate HeapApart(bk: Book, heap: nat) {
    forall c {:trigger Housed(bk, c)} :: Housed(bk, c) ==> heap + HEAP_BYTES <= c || c + CHUNK_SIZE <= heap
  }

  lemma HeapIsApart(mem: Memory, owned: map<int, nat>, heap: nat, ring: seq<nat>, cached: nat, cachedSize: nat,
                    foreign: set<int>, others: set<int>, bk: Book, align: nat)
    requires SysOk(mem, owned, heap, ring, cached, cachedSize, foreign, others, bk.l) && Shape(bk, align)
    ensures HeapApart(bk, heap)
  {
    hide Ring.RingOk, Tiled, KindsOk, RegionsApart, Filed;
    forall c | Housed(bk, c) ensures heap + HEAP_BYTES <= c || c + CHUNK_SIZE <= heap {
      ChunkOfBlock(bk.l, align, c - HEADER);
      var d := bk.l.base[c - HEADER];
      assert ChunkOwned(mem, owned, ring, foreign, bk.l, d);
      assert RegionPair(owned, heap, bk.l.chunks[d].sys);
    }
  }

  /** Two slabs do not overlap. */
  lemma SlabsApart(bk: Book, align: nat, c: int, d: int)
    requires Shape(bk, align) && Housed(bk, c) && Housed(bk, d) && c != d
    ensures c + CHUNK_SIZE <= d || d + CHUNK_SIZE <= c
  {
    hide Tiled, KindsOk, RegionsApart, Filed;
    Disjoint(bk.l, align, c - HEADER, d - HEADER);
  }

  // ---- which words the small allocator writes ----

  predicate IsLinkWord(heap: nat, slabs: Slabs, w: int) {
    w - 16 in slabs || w - 24 in slabs || heap + FULL_SENTINEL <= w < heap + SENTINELS_END
  }

  ghost predicate LinkWritesOnly(m0: Memory, m1: Memory, heap: nat, slabs: Slabs) {
    forall w {:trigger Read(m1, w)} :: !IsLinkWord(heap, slabs, w) ==> Read(m1, w) == Read(m0, w)
  }

  ghost predicate InSlab(slabs: Slabs, c: int, w: int) {
    c in slabs && c <= w < c + CHUNK_SIZE
  }

  ghost predicate SmallWord(heap: nat, slabs: Slabs, w: int) {
    (exists c {:trigger InSlab(slabs, c, w)} :: InSlab(slabs, c, w)) || heap + FULL_SENTINEL <= w < heap + SENTINELS_END
  }

  ghost predicate SmallWrites(m0: Memory, m1: Memory, heap: nat, slabs: Slabs) {
    forall w {:trigger Read(m1, w)} :: !SmallWord(heap, slabs, w) ==> Read(m1, w) == Read(m0, w)
  }

  lemma LinksAreSmall(m0: Memory, m1: Memory, heap: nat, slabs: Slabs)
    requires LinkWritesOnly(m0, m1, heap, slabs)
    ensures SmallWrites(m0, m1, heap, slabs)
  {
    hide Read;
    forall w | !SmallWord(heap, slabs, w) ensures Read(m1, w) == Read(m0, w) {
      assert !InSlab(slabs, w - 16, w) && !InSlab(slabs, w - 24, w);
    }
  }

  lemma SmallTrans(m0: Memory, m1: Memory, m2: Memory, heap: nat, slabs: Slabs)
    requires SmallWrites(m0, m1, heap, slabs) && SmallWrites(m1, m2, heap, slabs)
    ensures SmallWrites(m0, m2, heap, slabs)
  {
    hide Read, SmallWord;
    forall w | !SmallWord(heap, slabs, w) ensures Read(m2, w) == Read(m0, w) {
      assert Read(m1, w) == Read(m0, w);
    }
  }

  /** All of them are words a layer may write. */
  lemma SmallIsLayer(m0: Memory, m1: Memory, owned: map<int, nat>, heap: nat, ring: seq<nat>, cached: nat,
                     cachedSize: nat, foreign: set<int>, others: set<int>, bk: Book, align: nat, slabs: Slabs)
    requires SmallWrites(m0, m1, heap, slabs)
    requires forall c {:trigger Housed(bk, c)} :: c in slabs ==> Housed(bk, c)
    requires SysOk(m0, owned, heap, ring, cached, cachedSize, foreign, others, bk.l) && Shape(bk, align)
    ensures LayerWrites(m0, m1, bk, ring)
  {
    hide Read, SysOk, Tiled, KindsOk, RegionsApart, Filed, LayerWord, SmallWord;
    forall w | SmallWord(heap, slabs, w) ensures LayerWord(bk, ring, w) {
      SmallWordIsLayer(m0, owned, heap, ring, cached, cachedSize, foreign, others, bk, slabs, w);
    }
  }

  lemma SmallWordIsLayer(mem: Memory, owned: map<int, nat>, heap: nat, ring: seq<nat>, cached: nat, cachedSize: nat,
                         foreign: set<int>, others: set<int>, bk: Book, slabs: Slabs, w: int)
    requires SmallWord(heap, slabs, w)
    requires forall c {:trigger Housed(bk, c)} :: c in slabs ==> Housed(bk, c)
    requires SysOk(mem, owned, heap, ring, cached, cachedSize, foreign, others, bk.l)
    ensures LayerWord(bk, ring, w)
  {
    hide SysOk, Untouched;
    if heap + FULL_SENTINEL <= w < heap + SENTINELS_END {
      SentinelUntouched(mem, owned, heap, ring, cached, cachedSize, foreign, others, bk, w);
    } else {
      var c :| InSlab(slabs, c, w);
      assert Housed(bk, c) && UserWord(bk.l, bk.live, c - HEADER, w);
    }
  }

  lemma SentinelUntouched(mem: Memory, owned: map<int, nat>, heap: nat, ring: seq<nat>, cached: nat, cachedSize: nat,
                          foreign: set<int>, others: set<int>, bk: Book, w: int)
    requires SysOk(mem, owned, heap, ring, cached, cachedSize, foreign, others, bk.l)
    requires heap <= w < heap + HEAP_BYTES && (w < heap + SENTINEL || w >= heap + SENTINEL + LIST_WORDS)
    ensures Untouched(bk.l, ring, w)
  {
    hide Ring.RingOk;
    forall c | c in bk.l.chunks ensures OutsideChunk(bk.l, c, w) {
      assert ChunkOwned(mem, owned, ring, foreign, bk.l, c);
      assert RegionPair(owned, heap, bk.l.chunks[c].sys);
    }
    forall i | 0 <= i < |ring| ensures w < ring[i] || w >= ring[i] + LIST_WORDS {
      if i > 0 {
        assert ring[i] as int in Members(ring);
        assert ring[i] as int in owned.Keys;
        assert RegionPair(owned, heap, ring[i]);
      }
    }
  }

  // ---- ring moves ----

  /** Slabs other than the loose ones survive changes to link words. */
  lemma LinksKeepSlab(m0: Memory, m1: Memory, heap: nat, bk: Book, align: nat, slabs: Slabs, c: int)
    requires Shape(bk, align) && HeapApart(bk, heap) && LinkWritesOnly(m0, m1, heap, slabs)
    requires forall d {:trigger Housed(bk, d)} :: d in slabs ==> Housed(bk, d)
    requires c in slabs && SlabOk(m0, c, slabs[c], heap)
    ensures SlabOk(m1, c, slabs[c], heap) && (NoRoom(m1, c) <==> NoRoom(m0, c))
    ensures Read(m1, c + FULL) == Read(m0, c + FULL)
  {
    hide Read, SlabOk, Shape, NoRoom;
    LinksKeepWords(m0, m1, heap, bk, align, slabs, c);
    SlabFrame(m0, m1, c, slabs[c], heap);
  }

  /** Changes to link words alter nothing else of a slab. */
  lemma LinksKeepWords(m0: Memory, m1: Memory, heap: nat, bk: Book, align: nat, slabs: Slabs, c: int)
    requires Shape(bk, align) && HeapApart(bk, heap) && LinkWritesOnly(m0, m1, heap, slabs)
    requires forall d {:trigger Housed(bk, d)} :: d in slabs ==> Housed(bk, d)
    requires c in slabs
    ensures forall w {:trigger Read(m1, w)} ::
      c <= w < c + CHUNK_SIZE && w != c + NEXT && w != c + PREV ==> Read(m1, w) == Read(m0, w)
  {
    hide Read, Shape;
    assert Housed(bk, c);
    forall w | c <= w < c + CHUNK_SIZE && w != c + NEXT && w != c + PREV ensures Read(m1, w) == Read(m0, w) {
      if IsLinkWord(heap, slabs, w) {
        if w - 16 in slabs {
          assert Housed(bk, w - 16);
          SlabsApart(bk, align, c, w - 16);
        } else if w - 24 in slabs {
          assert Housed(bk, w - 24);
          SlabsApart(bk, align, c, w - 24);
        }
      }
    }
  }

  lemma MemberIn(ring: seq<nat>, i: nat)
    requires 0 < i < |ring|
    ensures ring[i] as int in Members(ring)
  {
  }

  /** Every node of a ring: its sentinel or a slab. */
  lemma RingUnlinkWrites(mem: Memory, heap: nat, slabs: Slabs, ring: seq<nat>, at: nat)
    requires Ring.RingOk(mem, SMALL_LINKS, ring) && 0 < at < |ring| && Members(ring) <= slabs.Keys
    requires ring[0] == heap + FULL_SENTINEL || ring[0] == heap + NONFULL_SENTINEL
    ensures LinkWritesOnly(mem, Ring.UnlinkMem(mem, SMALL_LINKS, ring[at]), heap, slabs)
  {
    hide Read, Ring.UnlinkMem, Ring.RingOk, Members;
    forall w | !IsLinkWord(heap, slabs, w) ensures Read(Ring.UnlinkMem(mem, SMALL_LINKS, ring[at]), w) == Read(mem, w) {
      forall i: nat | i < |ring| ensures w != ring[i] + 16 && w != ring[i] + 24 {
        if i > 0 {
          MemberIn(ring, i);
        }
      }
      Ring.UnlinkFrame(mem, SMALL_LINKS, ring, at, w);
    }
  }

  lemma RingLinkWrites(mem: Memory, heap: nat, slabs: Slabs, ring: seq<nat>, c: nat)
    requires |ring| > 0 && Ring.RingOk(mem, SMALL_LINKS, ring) && c in slabs && Members(ring) <= slabs.Keys
    requires ring[0] == heap + FULL_SENTINEL || ring[0] == heap + NONFULL_SENTINEL
    ensures LinkWritesOnly(mem, Ring.LinkMem(mem, SMALL_LINKS, ring[0], c), heap, slabs)
  {
    hide Read, Ring.LinkMem, Ring.RingOk, Members;
    forall w | !IsLinkWord(heap, slabs, w) ensures Read(Ring.LinkMem(mem, SMALL_LINKS, ring[0], c), w) == Read(mem, w) {
      forall i: nat | i < |ring| ensures w != ring[i] + 16 && w != ring[i] + 24 {
        if i > 0 {
          MemberIn(ring, i);
        }
      }
      Ring.LinkFrame(mem, SMALL_LINKS, ring, c, w);
    }
  }

  /** w is a link word neither of this ring's nodes nor of these slabs. */
  ghost predicate NoLink(ring: seq<nat>, extra: set<int>, w: int) {
    && (forall i :: 0 <= i < |ring| ==> w != ring[i] + 16 && w != ring[i] + 24)
    && (forall c :: c in extra ==> w != c + 16 && w != c + 24)
  }

  /** The other ring's nodes are different nodes, so its link words stay. */
  lemma OtherRingKept(m0: Memory, m1: Memory, heap: nat, bk: Book, align: nat, ring: seq<nat>, other: seq<nat>,
                      extra: set<int>)
    requires Shape(bk, align) && HeapApart(bk, heap) && |ring| > 0 && |other| > 0
    requires (ring[0] == heap + FULL_SENTINEL && other[0] == heap + NONFULL_SENTINEL)
          || (ring[0] == heap + NONFULL_SENTINEL && other[0] == heap + FULL_SENTINEL)
    requires forall c :: c in Members(ring) + extra + Members(other) ==> Housed(bk, c)
    requires (Members(ring) + extra) !! Members(other)
    requires Ring.RingOk(m0, SMALL_LINKS, other)
    requires forall w {:trigger Read(m1, w)} :: NoLink(ring, extra, w) ==> Read(m1, w) == Read(m0, w)
    ensures Ring.RingOk(m1, SMALL_LINKS, other)
  {
    hide Read, Shape, Ring.Spaced;
    forall j: nat | j < |other| ensures Ring.NodeOk(m1, SMALL_LINKS, other, j) {
      assert Ring.NodeOk(m0, SMALL_LINKS, other, j);
      if j > 0 {
        MemberIn(other, j);
        assert Housed(bk, other[j]);
      }
      forall i: nat | i < |ring| ensures NodesApart(ring[i], other[j]) {
        if i > 0 {
          MemberIn(ring, i);
          assert Housed(bk, ring[i]);
        }
        if i > 0 && j > 0 {
          SlabsApart(bk, align, ring[i], other[j]);
        }
      }
      forall c | c in extra ensures NodesApart(c, other[j]) {
        assert Housed(bk, c);
        if j > 0 {
          SlabsApart(bk, align, c, other[j]);
        }
      }
    }
  }

  predicate NodesApart(x: int, y: int) {
    x + 16 != y + 16 && x + 16 != y + 24 && x + 24 != y + 16 && x + 24 != y + 24
  }

  /** Membership of all slabs but c agrees. */
  ghost predicate SameRings(nonfull: seq<nat>, full: seq<nat>, nonfull': seq<nat>, full': seq<nat>, c: int) {
    && Members(nonfull') - {c} == Members(nonfull) - {c}
    && Members(full') - {c} == Members(full) - {c}
  }

  /** Link-word changes and moving only the loose slab c keep every other slab fine. */
  lemma OthersFine(m0: Memory, m1: Memory, heap: nat, bk: Book, align: nat, slabs: Slabs, nonfull: seq<nat>,
                   full: seq<nat>,
                   nonfull': seq<nat>, full': seq<nat>, cache: nat, out: set<int>, loose: set<int>, c: int)
    requires Shape(bk, align) && HeapApart(bk, heap) && LinkWritesOnly(m0, m1, heap, slabs)
    requires SlabsOk(m0, heap, bk, slabs, nonfull, full, cache, out, loose) && c in loose
    requires SameRings(nonfull, full, nonfull', full', c)
    ensures forall d {:trigger SlabFine(m1, heap, slabs, nonfull', full', cache, d)} ::
              d in slabs && d !in loose ==> SlabFine(m1, heap, slabs, nonfull', full', cache, d)
  {
    hide Read, SlabOk, Shape, NoRoom, RingsOk, Partition, Members;
    forall d | d in slabs && d !in loose ensures SlabFine(m1, heap, slabs, nonfull', full', cache, d) {
      assert SlabFine(m0, heap, slabs, nonfull, full, cache, d);
      LinksKeepSlab(m0, m1, heap, bk, align, slabs, d);
      assert d in Members(nonfull') <==>
        d in Members(nonfull) by { assert d in Members(nonfull') - {c} <==> d in Members(nonfull) - {c}; }
      assert d in Members(full') <==>
        d in Members(full) by { assert d in Members(full') - {c} <==> d in Members(full) - {c}; }
    }
  }

  function Pick<T>(b: bool, x: T, y: T): T { if b then x else y }

  /** Taking loose slab c off the ring it is on. */
  lemma DetachOk(mem: Memory, heap: nat, bk: Book, align: nat, slabs: Slabs, nonfull: seq<nat>, full: seq<nat>,
                 cache: nat, out: set<int>, loose: set<int>, fromFull: bool, at: nat)
    requires Shape(bk, align) && HeapApart(bk, heap) && SlabsOk(mem, heap, bk, slabs, nonfull, full, cache, out, loose)
    requires 0 < at < |Pick(fromFull, full, nonfull)| && Pick(fromFull, full, nonfull)[at] as int in loose
    ensures var ring := Pick(fromFull, full, nonfull);
      var m1 := Ring.UnlinkMem(mem, SMALL_LINKS, ring[at]);
      var ring' := Ring.Removed(ring, at);
      && LinkWritesOnly(mem, m1, heap, slabs)
      && SlabsOk(m1, heap, bk, slabs, Pick(fromFull, nonfull, ring'), Pick(fromFull, ring', full), cache,
                 out + {ring[at] as int}, loose)
  {
    hide Read, SlabFine, Shape, Ring.UnlinkMem, Ring.RingOk, Ring.Removed, Members;
    var ring := Pick(fromFull, full, nonfull);
    var other := Pick(fromFull, nonfull, full);
    var c := ring[at];
    var m1 := Ring.UnlinkMem(mem, SMALL_LINKS, c);
    var ring' := Ring.Removed(ring, at);
    RingUnlinkWrites(mem, heap, slabs, ring, at);
    Ring.RemoveOk(mem, SMALL_LINKS, ring, at);
    RingIsSpaced(mem, ring);
    MembersRemoved(ring, at);
    RemovedHead(ring, at);
    MemberIn(ring, at);
    forall w | NoLink(ring, {}, w) ensures Read(m1, w) == Read(mem, w) {
      Ring.UnlinkFrame(mem, SMALL_LINKS, ring, at, w);
    }
    HousedMembers(bk, slabs, nonfull, full);
    OtherRingKept(mem, m1, heap, bk, align, ring, other, {});
    OthersFine(mem, m1, heap, bk, align, slabs, nonfull, full, Pick(fromFull, nonfull, ring'),
               Pick(fromFull, ring', full), cache, out, loose, c);
  }

  lemma RingIsSpaced(mem: Memory, ring: seq<nat>)
    requires Ring.RingOk(mem, SMALL_LINKS, ring)
    ensures Ring.Spaced(ring)
  {
  }

  lemma HousedMembers(bk: Book, slabs: Slabs, nonfull: seq<nat>, full: seq<nat>)
    requires forall c {:trigger Housed(bk, c)} :: c in slabs ==> Housed(bk, c)
    requires Members(nonfull) + Members(full) <= slabs.Keys
    ensures forall c :: c in Members(nonfull) + Members(full) ==> Housed(bk, c)
  {
  }

  /** Putting loose slab c, which is on no ring, on one. */
  lemma AttachOk(mem: Memory, heap: nat, bk: Book, align: nat, slabs: Slabs, nonfull: seq<nat>, full: seq<nat>,
                 cache: nat, out: set<int>, loose: set<int>, toFull: bool, c: nat)
    requires Shape(bk, align) && HeapApart(bk, heap) && SlabsOk(mem, heap, bk, slabs, nonfull, full, cache, out, loose)
    requires c in out && c in loose
    ensures |Pick(toFull, full, nonfull)| > 0
    ensures var ring := Pick(toFull, full, nonfull);
      var m1 := Ring.LinkMem(mem, SMALL_LINKS, ring[0], c);
      var ring' := Ring.Inserted(ring, c);
      && LinkWritesOnly(mem, m1, heap, slabs)
      && SlabsOk(m1, heap, bk, slabs, Pick(toFull, nonfull, ring'), Pick(toFull, ring', full), cache,
                 out - {c as int}, loose)
  {
    hide Read, SlabFine, Shape, Ring.LinkMem, Ring.RingOk, Ring.Inserted, Members;
    var ring := Pick(toFull, full, nonfull);
    var other := Pick(toFull, nonfull, full);
    var m1 := Ring.LinkMem(mem, SMALL_LINKS, ring[0], c);
    var ring' := Ring.Inserted(ring, c);
    RingLinkWrites(mem, heap, slabs, ring, c);
    HousedMembers(bk, slabs, nonfull, full);
    assert Housed(bk, c);
    RingAway(bk, align, heap, ring, c);
    Ring.InsertOk(mem, SMALL_LINKS, ring, c);
    MembersInserted(ring, c);
    InsertedHead(ring, c);
    forall w | NoLink(ring, {c as int}, w) ensures Read(m1, w) == Read(mem, w) {
      Ring.LinkFrame(mem, SMALL_LINKS, ring, c, w);
    }
    OtherRingKept(mem, m1, heap, bk, align, ring, other, {c as int});
    OthersFine(mem, m1, heap, bk, align, slabs, nonfull, full, Pick(toFull, nonfull, ring'), Pick(toFull, ring', full),
               cache, out, loose, c);
  }

  lemma RingAway(bk: Book, align: nat, heap: nat, ring: seq<nat>, c: nat)
    requires Shape(bk, align) && HeapApart(bk, heap) && |ring| > 0
    requires ring[0] == heap + FULL_SENTINEL || ring[0] == heap + NONFULL_SENTINEL
    requires forall d :: d in Members(ring) ==> Housed(bk, d)
    requires Housed(bk, c) && c !in Members(ring)
    ensures Ring.AwayFrom(ring, c)
  {
    hide Shape;
    forall i: nat | i < |ring| ensures Ring.Apart(ring[i], c) {
      if i > 0 {
        MemberIn(ring, i);
        SlabsApart(bk, align, ring[i], c);
      }
    }
  }

  /** Once its cells and placement are right again, a slab is no longer loose. */
  lemma TightenOk(mem: Memory, heap: nat, bk: Book, slabs: Slabs, nonfull: seq<nat>, full: seq<nat>, cache: nat, c: int)
    requires SlabsOk(mem, heap, bk, slabs, nonfull, full, cache, {}, {c})
    requires c in slabs ==> SlabFine(mem, heap, slabs, nonfull, full, cache, c)
    ensures SlabsOk(mem, heap, bk, slabs, nonfull, full, cache, {}, {})
  {
    hide SlabFine;
  }

  /** Changing words of loose slab c, links only if it is on no ring, and its ghost cells, keeps the rest. */
  lemma LooseWrites(m0: Memory, m1: Memory, heap: nat, bk: Book, align: nat, slabs: Slabs, k: Cells, nonfull: seq<nat>,
                    full: seq<nat>, cache: nat, out: set<int>, loose: set<int>, c: int)
    requires Shape(bk, align) && HeapApart(bk, heap) && SlabsOk(m0, heap, bk, slabs, nonfull, full, cache, out, loose)
    requires c in slabs && c in loose
    requires forall w {:trigger Read(m1, w)} ::
      (w < c || w >= c + CHUNK_SIZE || (c !in out && (w == c + NEXT || w == c + PREV))) ==> Read(m1, w) == Read(m0, w)
    ensures SlabsOk(m1, heap, bk, slabs[c := k], nonfull, full, cache, out, loose)
    ensures SmallWrites(m0, m1, heap, slabs)
  {
    hide Read, Shape, Ring.RingOk, Members, SlabOk;
    assert Housed(bk, c);
    HousedMembers(bk, slabs, nonfull, full);
    LooseRing(m0, m1, bk, align, heap, nonfull, c);
    LooseRing(m0, m1, bk, align, heap, full, c);
    var slabs' := slabs[c := k];
    assert slabs'.Keys == slabs.Keys;
    forall d | d in slabs' && d !in loose ensures SlabFine(m1, heap, slabs', nonfull, full, cache, d) {
      assert SlabFine(m0, heap, slabs, nonfull, full, cache, d);
      assert Housed(bk, d);
      SlabsApart(bk, align, c, d);
      SlabFrame(m0, m1, d, slabs[d], heap);
    }
    forall w | !SmallWord(heap, slabs, w) ensures Read(m1, w) == Read(m0, w) {
      assert !InSlab(slabs, c, w);
    }
  }

  lemma LooseRing(m0: Memory, m1: Memory, bk: Book, align: nat, heap: nat, ring: seq<nat>, c: int)
    requires Shape(bk, align) && HeapApart(bk, heap) && Housed(bk, c) && |ring| > 0
    requires ring[0] == heap + FULL_SENTINEL || ring[0] == heap + NONFULL_SENTINEL
    requires forall d :: d in Members(ring) ==> Housed(bk, d)
    requires Ring.RingOk(m0, SMALL_LINKS, ring)
    requires forall w {:trigger Read(m1, w)} ::
      (w < c || w >= c + CHUNK_SIZE || (c in Members(ring) && (w == c + NEXT || w == c + PREV))) ==>
        Read(m1, w) == Read(m0, w)
    ensures Ring.RingOk(m1, SMALL_LINKS, ring)
  {
    hide Read, Shape, Ring.Spaced;
    forall j: nat | j < |ring| ensures Ring.NodeOk(m1, SMALL_LINKS, ring, j) {
      assert Ring.NodeOk(m0, SMALL_LINKS, ring, j);
      if j > 0 {
        MemberIn(ring, j);
        if ring[j] != c {
          SlabsApart(bk, align, ring[j], c);
        }
      }
    }
  }

  // ---- data of live cells ----

  /** x is a live cell of slab c. */
  ghost predicate LiveIn(slabs: Slabs, c: int, x: int) {
    c in slabs && x in slabs[c].live
  }

  /** Both words of small allocations that survive are unchanged: the prefix and the data. */
  ghost predicate CellsKept(m0: Memory, m1: Memory, slabs0: Slabs, slabs1: Slabs) {
    forall c, x {:trigger LiveIn(slabs1, c, x)} :: LiveIn(slabs0, c, x) && LiveIn(slabs1, c, x) ==>
      Read(m1, x + 8) == Read(m0, x + 8) && Read(m1, x) == Read(m0, x)
  }

  lemma LiveRange(mem: Memory, c: int, k: Cells, heap: nat, x: int)
    requires SlabOk(mem, c, k, heap) && x in k.live
    ensures IsCell(c, x) && Read(mem, x) == c
  {
    hide Read;
    assert LiveCell(mem, c, x);
  }

  /** Live cells lie in their slabs. */
  ghost predicate AllCells(slabs: Slabs) {
    forall c, x {:trigger LiveIn(slabs, c, x)} :: LiveIn(slabs, c, x) ==> IsCell(c, x)
  }

  lemma CellsInPlace(mem: Memory, heap: nat, slabs: Slabs)
    requires forall d :: d in slabs ==> SlabOk(mem, d, slabs[d], heap)
    ensures AllCells(slabs)
  {
    hide SlabOk;
    forall c, x | LiveIn(slabs, c, x) ensures IsCell(c, x) {
      LiveRange(mem, c, slabs[c], heap, x);
    }
  }

  lemma LinksKeepCells(m0: Memory, m1: Memory, heap: nat, bk: Book, align: nat, slabs: Slabs)
    requires Shape(bk, align) && HeapApart(bk, heap) && LinkWritesOnly(m0, m1, heap, slabs)
    requires forall d {:trigger Housed(bk, d)} :: d in slabs ==> Housed(bk, d)
    requires AllCells(slabs)
    ensures CellsKept(m0, m1, slabs, slabs)
  {
    hide Read, SlabOk, Shape;
    forall c, x | LiveIn(slabs, c, x) ensures Read(m1, x + 8) == Read(m0, x + 8) && Read(m1, x) == Read(m0, x) {
      assert Housed(bk, c);
      NoLinkWord(bk, heap, align, slabs, c, x);
      NoLinkWord(bk, heap, align, slabs, c, x + 8);
    }
  }

  /** A slab's links are in its header. */
  lemma NoLinkWord(bk: Book, heap: nat, align: nat, slabs: Slabs, c: int, w: int)
    requires Shape(bk, align) && HeapApart(bk, heap) && c in slabs && c + FIRST_CELL <= w <= c + LAST_CELL + 8
    requires forall d {:trigger Housed(bk, d)} :: d in slabs ==> Housed(bk, d)
    ensures !IsLinkWord(heap, slabs, w)
  {
    hide Shape;
    assert Housed(bk, c);
    if IsLinkWord(heap, slabs, w) {
      var d := if w - 16 in slabs then w - 16 else w - 24;
      if d in slabs && d != c {
        assert Housed(bk, d);
        SlabsApart(bk, align, c, d);
      }
    }
  }

  lemma CellsTrans(m0: Memory, m1: Memory, m2: Memory, slabs0: Slabs, slabs1: Slabs, slabs2: Slabs)
    requires CellsKept(m0, m1, slabs0, slabs1) && CellsKept(m1, m2, slabs1, slabs2)
    requires forall c, x {:trigger LiveIn(slabs1, c, x)} :: LiveIn(slabs0, c, x) && LiveIn(slabs2, c, x) ==>
      LiveIn(slabs1, c, x)
    ensures CellsKept(m0, m2, slabs0, slabs2)
  {
    hide Read, LiveIn;
    forall c, x | LiveIn(slabs0, c, x) && LiveIn(slabs2, c, x)
      ensures Read(m2, x + 8) == Read(m0, x + 8) && Read(m2, x) == Read(m0, x)
    {
      assert LiveIn(slabs1, c, x);
    }
  }

  /** Changes confined to one slab, away from its surviving live data, keep all live data. */
  lemma OneSlabCells(m0: Memory, m1: Memory, bk: Book, align: nat, slabs: Slabs, c: int, k: Cells, changed: set<int>)
    requires Shape(bk, align) && AllCells(slabs)
    requires forall d {:trigger Housed(bk, d)} :: d in slabs ==> Housed(bk, d)
    requires c in slabs && forall w {:trigger Read(m1, w)} :: w !in changed ==> Read(m1, w) == Read(m0, w)
    requires forall w :: w in changed ==> c <= w < c + CHUNK_SIZE
    requires forall x :: x in slabs[c].live && x in k.live ==> x !in changed && x + 8 !in changed
    ensures CellsKept(m0, m1, slabs, slabs[c := k])
  {
    hide Read, SlabOk, Shape;
    forall d, x | LiveIn(slabs, d, x) && LiveIn(slabs[c := k], d, x)
      ensures Read(m1, x + 8) == Read(m0, x + 8) && Read(m1, x) == Read(m0, x)
    {
      assert IsCell(d, x) by { assert LiveIn(slabs, d, x); }
      if d != c {
        assert Housed(bk, d) && Housed(bk, c);
        SlabsApart(bk, align, c, d);
      }
    }
  }

  /** A step of the medium allocator that leaves every slab's block live leaves the slabs alone. */
  lemma MediumKeepsSlabs(m0: Memory, m1: Memory, heap: nat, bk0: Book, bk1: Book, live: set<int>, slabs: Slabs,
                         nonfull: seq<nat>, full: seq<nat>, cache: nat, out: set<int>, loose: set<int>)
    requires SlabsOk(m0, heap, bk0, slabs, nonfull, full, cache, out, loose)
    requires LiveKept(m0, m1, bk0.l, bk1.l, live)
    requires forall c :: c in slabs ==> c - HEADER in live && c - HEADER in bk1.live
    requires forall w {:trigger Read(m1, w)} :: heap + FULL_SENTINEL <= w < heap + SENTINELS_END ==>
      Read(m1, w) == Read(m0, w)
    ensures SlabsOk(m1, heap, bk1, slabs, nonfull, full, cache, out, loose)
    ensures forall c, w {:trigger InSlab(slabs, c, w)} :: InSlab(slabs, c, w) ==> Read(m1, w) == Read(m0, w)
  {
    hide Read, Ring.RingOk, Members, SlabOk, NoRoom, Untouched;
    forall c, w | InSlab(slabs, c, w) ensures Read(m1, w) == Read(m0, w) {
      assert Housed(bk0, c) && UserKept(m0, m1, bk1.l, c - HEADER) && SameSize(bk0.l, bk1.l, c - HEADER);
    }
    forall c | c in slabs ensures Housed(bk1, c) {
      assert Housed(bk0, c) && SameSize(bk0.l, bk1.l, c - HEADER);
    }
    KeptSmallRing(m0, m1, heap, slabs, nonfull);
    KeptSmallRing(m0, m1, heap, slabs, full);
    forall c | c in slabs && c !in loose ensures SlabFine(m1, heap, slabs, nonfull, full, cache, c) {
      assert SlabFine(m0, heap, slabs, nonfull, full, cache, c);
      forall w | c <= w < c + CHUNK_SIZE ensures Read(m1, w) == Read(m0, w) {
        assert InSlab(slabs, c, w);
      }
      SlabFrame(m0, m1, c, slabs[c], heap);
    }
  }

  lemma KeptSmallRing(m0: Memory, m1: Memory, heap: nat, slabs: Slabs, ring: seq<nat>)
    requires |ring| > 0 && Ring.RingOk(m0, SMALL_LINKS, ring) && Members(ring) <= slabs.Keys
    requires ring[0] == heap + FULL_SENTINEL || ring[0] == heap + NONFULL_SENTINEL
    requires forall w {:trigger Read(m1, w)} :: heap + FULL_SENTINEL <= w < heap + SENTINELS_END ==>
      Read(m1, w) == Read(m0, w)
    requires forall c, w {:trigger InSlab(slabs, c, w)} :: InSlab(slabs, c, w) ==> Read(m1, w) == Read(m0, w)
    ensures Ring.RingOk(m1, SMALL_LINKS, ring)
  {
    hide Read, Ring.Spaced;
    forall i: nat | i < |ring| ensures Ring.NodeOk(m1, SMALL_LINKS, ring, i) {
      assert Ring.NodeOk(m0, SMALL_LINKS, ring, i);
      if i > 0 {
        MemberIn(ring, i);
        assert InSlab(slabs, ring[i], ring[i] + 16) && InSlab(slabs, ring[i], ring[i] + 24);
      }
    }
  }

  // ---- what an operation of the small allocator leaves alone ----

  /** Data of other small allocations and of medium blocks that house no slab, and all words outside the allocators,
      are unchanged. */
  ghost predicate SmallQuiet(m0: Memory, m1: Memory, heap: nat, bk: Book, ring: seq<nat>, slabs0: Slabs,
                             slabs1: Slabs) {
    && CellsKept(m0, m1, slabs0, slabs1)
    && (forall a {:trigger OtherBlock(slabs0, a)} :: OtherBlock(slabs0, a) && a in bk.live ==>
        UserKept(m0, m1, bk.l, a))
    && (forall w {:trigger Read(m1, w)} ::
          Untouched(bk.l, ring, w) && !(heap + FULL_SENTINEL <= w < heap + SENTINELS_END) ==>
            Read(m1, w) == Read(m0, w))
  }

  /** a houses no slab. */
  predicate OtherBlock(slabs: Slabs, a: int) {
    a + HEADER !in slabs
  }

  lemma WritesAreQuiet(m0: Memory, m1: Memory, owned: map<int, nat>, heap: nat, ring: seq<nat>, cached: nat,
                       cachedSize: nat, foreign: set<int>, others: set<int>, bk: Book, align: nat, slabs0: Slabs,
                           slabs1: Slabs)
    requires SmallWrites(m0, m1, heap, slabs0) && CellsKept(m0, m1, slabs0, slabs1)
    requires forall c {:trigger Housed(bk, c)} :: c in slabs0 ==> Housed(bk, c)
    requires SysOk(m0, owned, heap, ring, cached, cachedSize, foreign, others, bk.l) && Shape(bk, align)
    ensures SmallQuiet(m0, m1, heap, bk, ring, slabs0, slabs1)
  {
    hide Read, SysOk, Tiled, RegionsApart, Filed, CellsKept, OutsideChunks;
    forall a | OtherBlock(slabs0, a) && a in bk.live ensures UserKept(m0, m1, bk.l, a) {
      FreeOrLiveSize(bk, align, a);
      forall w | a <= w < a + bk.l.size[a] ensures Read(m1, w) == Read(m0, w) {
        NotSmall(m0, owned, heap, ring, cached, cachedSize, foreign, others, bk, align, slabs0, a, w);
      }
    }
    forall w | Untouched(bk.l, ring, w) && !(heap + FULL_SENTINEL <= w < heap + SENTINELS_END)
      ensures Read(m1, w) == Read(m0, w)
    {
      forall c | c in slabs0 ensures !InSlab(slabs0, c, w) {
        assert Housed(bk, c);
        if c <= w < c + CHUNK_SIZE {
          InsideChunk(bk, align, c - HEADER, w);
        }
      }
    }
  }

  lemma NotSmall(mem: Memory, owned: map<int, nat>, heap: nat, ring: seq<nat>, cached: nat, cachedSize: nat,
                 foreign: set<int>, others: set<int>, bk: Book, align: nat, slabs: Slabs, a: int, w: int)
    requires forall c {:trigger Housed(bk, c)} :: c in slabs ==> Housed(bk, c)
    requires SysOk(mem, owned, heap, ring, cached, cachedSize, foreign, others, bk.l) && Shape(bk, align)
    requires a in bk.live && a in bk.l.size && a <= w < a + bk.l.size[a] && a + HEADER !in slabs
    ensures !SmallWord(heap, slabs, w)
  {
    hide SysOk, Tiled, KindsOk, RegionsApart, Filed, OutsideChunks;
    InsideChunk(bk, align, a, w);
    if heap + FULL_SENTINEL <= w < heap + SENTINELS_END {
      SentinelUntouched(mem, owned, heap, ring, cached, cachedSize, foreign, others, bk, w);
    }
    forall c | c in slabs ensures !InSlab(slabs, c, w) {
      assert Housed(bk, c);
      Disjoint(bk.l, align, a, c - HEADER);
    }
  }

  /** The small sentinels are never among the words a medium operation may change. */
  lemma SentinelsKept(m0: Memory, m1: Memory, owned0: map<int, nat>, owned1: map<int, nat>, heap: nat, ring0: seq<nat>,
                      ring1: seq<nat>, cached0: nat, cached1: nat, size0: nat, size1: nat, foreign: set<int>,
                      others0: set<int>, others1: set<int>, bk0: Book, bk1: Book, live: set<int>)
    requires SysOk(m0, owned0, heap, ring0, cached0, size0, foreign, others0, bk0.l)
    requires SysOk(m1, owned1, heap, ring1, cached1, size1, foreign, others1, bk1.l)
    requires Quiet(m0, m1, bk0.l, ring0, bk1.l, ring1, live)
    ensures forall w {:trigger Read(m1, w)} :: heap + FULL_SENTINEL <= w < heap + SENTINELS_END ==>
      Read(m1, w) == Read(m0, w)
  {
    hide SysOk, Read, Untouched;
    forall w | heap + FULL_SENTINEL <= w < heap + SENTINELS_END ensures Read(m1, w) == Read(m0, w) {
      SentinelUntouched(m0, owned0, heap, ring0, cached0, size0, foreign, others0, bk0, w);
      SentinelUntouched(m1, owned1, heap, ring1, cached1, size1, foreign, others1, bk1, w);
    }
  }

  /** A slab on no ring can leave the books. */
  lemma DropSlab(mem: Memory, heap: nat, bk: Book, slabs: Slabs, nonfull: seq<nat>, full: seq<nat>, cache: nat, c: int)
    requires SlabsOk(mem, heap, bk, slabs, nonfull, full, cache, {c}, {c})
    ensures SlabsOk(mem, heap, bk, slabs - {c}, nonfull, full, cache, {}, {})
  {
    hide SlabOk, NoRoom, Ring.RingOk, Members;
    var slabs' := slabs - {c};
    assert slabs'.Keys == slabs.Keys - {c};
    forall d | d in slabs' ensures SlabFine(mem, heap, slabs', nonfull, full, cache, d) {
      assert SlabFine(mem, heap, slabs, nonfull, full, cache, d);
    }
  }

  /** The emptied slab becomes the cached one. */
  lemma CacheSlab(mem: Memory, heap: nat, bk: Book, slabs: Slabs, nonfull: seq<nat>, full: seq<nat>, c: nat)
    requires SlabsOk(mem, heap, bk, slabs, nonfull, full, 0, {c as int}, {c as int}) && c > 0
    requires c in slabs && SlabOk(mem, c, slabs[c], heap) && !NoRoom(mem, c) && slabs[c].live == {}
    requires Read(mem, c + FULL) == 0
    ensures SlabsOk(mem, heap, bk, slabs, nonfull, full, c, {}, {})
  {
    hide SlabOk, NoRoom, Ring.RingOk, Members;
    forall d | d in slabs ensures SlabFine(mem, heap, slabs, nonfull, full, c, d) {
      if d != c {
        assert SlabFine(mem, heap, slabs, nonfull, full, 0, d);
      }
    }
  }

  /** The cached slab is taken up again. */
  lemma UncacheSlab(mem: Memory, heap: nat, bk: Book, slabs: Slabs, nonfull: seq<nat>, full: seq<nat>, cache: nat)
    requires SlabsOk(mem, heap, bk, slabs, nonfull, full, cache, {}, {}) && cache != 0
    ensures SlabsOk(mem, heap, bk, slabs, nonfull, full, 0, {cache as int}, {cache as int})
    ensures cache in slabs && SlabOk(mem, cache, slabs[cache], heap) && !NoRoom(mem, cache)
    ensures Read(mem, cache + FULL) == 0
    ensures slabs[cache].live == {}
  {
    hide SlabOk, NoRoom, Ring.RingOk, Members, Read;
    assert SlabFine(mem, heap, slabs, nonfull, full, cache, cache);
    forall d | d in slabs && d != cache ensures SlabFine(mem, heap, slabs, nonfull, full, 0, d) {
      assert SlabFine(mem, heap, slabs, nonfull, full, cache, d);
    }
  }

  /** A freshly allocated block becomes a slab on no ring. */
  lemma AddSlab(mem: Memory, heap: nat, bk: Book, slabs: Slabs, nonfull: seq<nat>, full: seq<nat>, cache: nat, c: int)
    requires SlabsOk(mem, heap, bk, slabs, nonfull, full, cache, {}, {}) && c !in slabs && Housed(bk, c)
    ensures SlabsOk(mem, heap, bk, slabs[c := Cells({}, [])], nonfull, full, cache, {c}, {c})
  {
    hide SlabOk, NoRoom, Ring.RingOk, Members, Read;
    var slabs' := slabs[c := Cells({}, [])];
    assert slabs'.Keys == slabs.Keys + {c};
    forall d | d in slabs' && d != c ensures SlabFine(mem, heap, slabs', nonfull, full, cache, d) {
      assert SlabFine(mem, heap, slabs, nonfull, full, cache, d);
    }
  }

  /** The first node of the nonfull ring: the sentinel itself, or a slab with room. */
  lemma FirstNonfull(mem: Memory, heap: nat, bk: Book, slabs: Slabs, nonfull: seq<nat>, full: seq<nat>, cache: nat)
    requires SlabsOk(mem, heap, bk, slabs, nonfull, full, cache, {}, {})
    ensures var c := Read(mem, heap + NONFULL_SENTINEL + 16);
      c != heap + NONFULL_SENTINEL ==>
        && c as int in Members(nonfull) && c in slabs && SlabOk(mem, c, slabs[c], heap) && !NoRoom(mem, c)
        && c as int !in Members(full) && Read(mem, c + FULL) == 0
  {
    hide SlabOk, NoRoom, Read;
    assert Ring.NodeOk(mem, SMALL_LINKS, nonfull, 0);
    if |nonfull| > 1 {
      MemberIn(nonfull, 1);
      assert SlabFine(mem, heap, slabs, nonfull, full, cache, nonfull[1]);
    }
  }
}
