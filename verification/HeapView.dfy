/** What the three allocators' structures mean to a caller: a map from live pointers to usable sizes. */
module HeapView {
  import opened Memory
  import opened Words
  import opened Blocks
  import opened Tags
  import opened MediumSteps
  import opened MediumMoves
  import opened MediumFrames
  import opened MediumSystem
  import opened Slab
  import opened SmallSteps
  import opened Tlsf
  import opened Small
  import opened Large
  import opened Tally
  import Ring

  datatype Snapshot = Snapshot(mem: Memory, owned: map<int, nat>, ring: seq<nat>, cached: nat, cachedSize: nat,
                               foreign: set<int>, others: set<int>, bk: Book, slabs: Slabs, larges: Larges,
                               bare: Bare)

  /** The part of the invariant that places things in the address space. */
  ghost predicate Whole(s: Snapshot, align: nat, heap: nat) {
    && Shape(s.bk, align)
    && SysOk(s.mem, s.owned, heap, s.ring, s.cached, s.cachedSize, s.foreign, s.others, s.bk.l)
    && (forall c {:trigger Housed(s.bk, c)} :: c in s.slabs ==> Housed(s.bk, c))
    && AllCells(s.slabs)
    && LargesOk(s.mem, s.owned, heap, align, s.foreign, s.larges, s.bare)
  }

  /** A medium block that houses no slab belongs to a caller. */
  ghost predicate UserBlock(s: Snapshot, p: int) {
    p - HEADER in s.bk.live && p - HEADER in s.bk.l.size && p !in s.slabs
  }

  ghost predicate LargeAt(s: Snapshot, r: int, p: int, n: int) {
    r in s.larges && r in s.owned && s.larges[r] == p && n == r + s.owned[r] - p
  }

  /** p is a live allocation of n usable bytes. */
  ghost predicate Extent(s: Snapshot, p: int, n: int) {
    || (UserBlock(s, p) && n == s.bk.l.size[p - HEADER] - HEADER)
    || (SmallLive(s.slabs, p) && n == SMALLEST_ALLOCATION)
    || (exists r {:trigger LargeAt(s, r, p, n)} :: LargeAt(s, r, p, n))
  }

  /** The map holds exactly the live allocations. */
  ghost predicate Refines(live: map<int, int>, s: Snapshot) {
    forall p, n {:trigger Extent(s, p, n)} :: Extent(s, p, n) <==> p in live && live[p] == n
  }

  // ---- live allocations do not overlap ----

  predicate Apart(p: int, n: int, q: int, m: int) {
    p + n <= q || q + m <= p
  }

  ghost predicate Hosted(s: Snapshot, a: int, p: int, n: int) {
    a in s.bk.live && a in s.bk.l.size && a + HEADER <= p && p + n <= a + s.bk.l.size[a] && n > 0
  }

  /** Medium and small allocations lie in a live block's data; small ones only in blocks that house slabs. */
  lemma Host(s: Snapshot, align: nat, heap: nat, p: int, n: int) returns (a: int)
    requires Whole(s, align, heap)
    requires (UserBlock(s, p) && n == s.bk.l.size[p - HEADER] - HEADER)
      || (SmallLive(s.slabs, p) && n == SMALLEST_ALLOCATION)
    ensures Hosted(s, a, p, n)
    ensures UserBlock(s, p) && n == s.bk.l.size[p - HEADER] - HEADER ==> a == p - HEADER
    ensures !(UserBlock(s, p) && n == s.bk.l.size[p - HEADER] - HEADER) ==>
      LiveIn(s.slabs, a + HEADER, p - 8) && n == SMALLEST_ALLOCATION
  {
    hide SysOk, Tiled, RegionsApart, Filed, LargesOk;
    if UserBlock(s, p) && n == s.bk.l.size[p - HEADER] - HEADER {
      a := p - HEADER;
      assert KindOk(s.bk.l, s.bk.free, s.bk.live, a);
      FreeOrLiveSize(s.bk, align, a);
    } else {
      var c :| LiveIn(s.slabs, c, p - 8);
      a := c - HEADER;
      assert Housed(s.bk, c);
    }
  }

  lemma HostsApart(s: Snapshot, align: nat, heap: nat, a: int, p: int, n: int, b: int, q: int, m: int)
    requires Whole(s, align, heap) && Hosted(s, a, p, n) && Hosted(s, b, q, m) && a != b
    ensures Apart(p, n, q, m)
  {
    hide SysOk, Tiled, KindsOk, RegionsApart, Filed, LargesOk;
    Disjoint(s.bk.l, align, a, b);
  }

  /** A block lies in a region that is not a large allocation's. */
  lemma HostRegion(s: Snapshot, align: nat, heap: nat, a: int, p: int, n: int) returns (r: int)
    requires Whole(s, align, heap) && Hosted(s, a, p, n)
    ensures r in s.owned && r <= p && p + n <= r + s.owned[r] && r !in s.foreign
  {
    hide Tiled, KindsOk, RegionsApart, Filed, LargesOk, Ring.RingOk;
    ChunkOfBlock(s.bk.l, align, a);
    var c := s.bk.l.base[a];
    r := s.bk.l.chunks[c].sys;
    assert ChunkOwned(s.mem, s.owned, s.ring, s.foreign, s.bk.l, c);
  }

  lemma LargeRegion(s: Snapshot, align: nat, heap: nat, r: int, p: int, n: int)
    requires Whole(s, align, heap) && LargeAt(s, r, p, n)
    ensures r in s.foreign && r in s.owned && r < p && p + n == r + s.owned[r] && n > 0 && align > 0 && p % align == 0
  {
    hide SysOk, Tiled, KindsOk, RegionsApart, Filed, Type;
    assert LargeFine(s.mem, s.owned, heap, align, s.bare, r, s.larges[r]);
  }

  lemma RegionsApartHere(s: Snapshot, align: nat, heap: nat, q: int, r: int)
    requires Whole(s, align, heap) && q in s.owned && r in s.owned && q != r
    ensures q + s.owned[q] <= r || r + s.owned[r] <= q
  {
    hide Ring.RingOk, Tiled, KindsOk, RegionsApart, Filed, LargesOk;
    assert RegionPair(s.owned, q, r);
  }

  /** Where an allocation lives: its hosting block, or its own region. */
  ghost predicate IsSmallOrMedium(s: Snapshot, p: int, n: int) {
    (UserBlock(s, p) && n == s.bk.l.size[p - HEADER] - HEADER) || (SmallLive(s.slabs, p) && n == SMALLEST_ALLOCATION)
  }

  /** Two different live allocations never overlap. */
  lemma ExtentsApart(s: Snapshot, align: nat, heap: nat, p: int, n: int, q: int, m: int)
    requires Whole(s, align, heap) && Extent(s, p, n) && Extent(s, q, m) && (p != q || n != m)
    ensures Apart(p, n, q, m)
  {
    hide Whole, SmallLive;
    if IsSmallOrMedium(s, p, n) && IsSmallOrMedium(s, q, m) {
      var a := Host(s, align, heap, p, n);
      var b := Host(s, align, heap, q, m);
      if a != b {
        HostsApart(s, align, heap, a, p, n, b, q, m);
      } else {
        SameHost(s, align, heap, a, p, n, q, m);
      }
    } else if IsSmallOrMedium(s, p, n) {
      var r :| LargeAt(s, r, q, m);
      LargeRegion(s, align, heap, r, q, m);
      var a := Host(s, align, heap, p, n);
      var t := HostRegion(s, align, heap, a, p, n);
      RegionsApartHere(s, align, heap, r, t);
    } else if IsSmallOrMedium(s, q, m) {
      var r :| LargeAt(s, r, p, n);
      LargeRegion(s, align, heap, r, p, n);
      var b := Host(s, align, heap, q, m);
      var t := HostRegion(s, align, heap, b, q, m);
      RegionsApartHere(s, align, heap, r, t);
    } else {
      var r :| LargeAt(s, r, p, n);
      var t :| LargeAt(s, t, q, m);
      LargeRegion(s, align, heap, r, p, n);
      LargeRegion(s, align, heap, t, q, m);
      if r != t {
        RegionsApartHere(s, align, heap, r, t);
      }
    }
  }

  /** Two allocations in one block are two cells of its slab. */
  lemma SameHost(s: Snapshot, align: nat, heap: nat, a: int, p: int, n: int, q: int, m: int)
    requires Whole(s, align, heap) && (p != q || n != m)
    requires IsSmallOrMedium(s, p, n) && IsSmallOrMedium(s, q, m)
    requires UserBlock(s, p) && n == s.bk.l.size[p - HEADER] - HEADER ==> a == p - HEADER
    requires !(UserBlock(s, p) && n == s.bk.l.size[p - HEADER] - HEADER) ==>
      LiveIn(s.slabs, a + HEADER, p - 8) && n == SMALLEST_ALLOCATION
    requires UserBlock(s, q) && m == s.bk.l.size[q - HEADER] - HEADER ==> a == q - HEADER
    requires !(UserBlock(s, q) && m == s.bk.l.size[q - HEADER] - HEADER) ==>
      LiveIn(s.slabs, a + HEADER, q - 8) && m == SMALLEST_ALLOCATION
    ensures Apart(p, n, q, m)
  {
    hide SysOk, Shape, LargesOk, Housed;
    var c := a + HEADER;
    if LiveIn(s.slabs, c, p - 8) && LiveIn(s.slabs, c, q - 8) {
      assert IsCell(c, p - 8) && IsCell(c, q - 8);
      CellsApart(c, p - 8, q - 8);
    }
  }

  lemma ExtentUnique(s: Snapshot, align: nat, heap: nat, p: int, n: int, m: int)
    requires Whole(s, align, heap) && Extent(s, p, n) && Extent(s, p, m)
    ensures n == m && n > 0
  {
    hide Whole, SmallLive;
    ExtentPositive(s, align, heap, p, n);
    ExtentPositive(s, align, heap, p, m);
    if n != m {
      ExtentsApart(s, align, heap, p, n, p, m);
    }
  }

  lemma ExtentPositive(s: Snapshot, align: nat, heap: nat, p: int, n: int)
    requires Whole(s, align, heap) && Extent(s, p, n)
    ensures n > 0
  {
    hide Whole, SmallLive;
    if IsSmallOrMedium(s, p, n) {
      var a := Host(s, align, heap, p, n);
    } else {
      var r :| LargeAt(s, r, p, n);
      LargeRegion(s, align, heap, r, p, n);
    }
  }

  /** Every live allocation lies inside one system allocation that has not been returned. */
  lemma ExtentContained(s: Snapshot, align: nat, heap: nat, p: int, n: int) returns (r: int)
    requires Whole(s, align, heap) && Extent(s, p, n)
    ensures r in s.owned && r <= p && p + n <= r + s.owned[r]
  {
    hide Whole, SmallLive;
    if IsSmallOrMedium(s, p, n) {
      var a := Host(s, align, heap, p, n);
      r := HostRegion(s, align, heap, a, p, n);
    } else {
      r :| LargeAt(s, r, p, n);
      LargeRegion(s, align, heap, r, p, n);
    }
  }
}
