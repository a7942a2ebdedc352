/** One operation of any of the three allocators, seen as one allocation coming or going. */
module HeapSteps {
  import opened Memory
  import opened SizeClasses
  import opened Words
  import opened Blocks
  import opened Tags
  import opened MediumSteps
  import opened MediumMoves
  import opened MediumFrames
  import opened MediumSystem
  import opened Slab
  import opened SmallSteps
  import opened SystemMemory
  import opened Tlsf
  import opened Small
  import opened Large
  import opened Tally
  import opened HeapView
  import Ring

  const LARGE_THRESHOLD: nat := 262144

  /** The class a medium request is served from. */
  function ClassFor(size: nat, align: nat): nat {
    if Servable(size, align) then WantOf(size, align).Class() else NUM_CLASSES
  }

  /** The usable size tells how a request was served: a cell has 8 bytes, a block its class's or 16 more, and a region
      of its own less than one alignment more than was asked for. */
  predicate Measured(n: int, size: nat, align: nat) {
    if size <= SMALLEST_ALLOCATION then n == SMALLEST_ALLOCATION
    else if size < LARGE_THRESHOLD then
      && ClassFor(size, align) < NUM_CLASSES
      && (n + HEADER == ClassSize(ClassFor(size, align)) || n + HEADER == ClassSize(ClassFor(size, align)) + EXTRA_SIZE)
    else n < size + align
  }

  // ---- a pointer is live in one way only ----

  lemma KindsDiffer(s: Snapshot, align: nat, heap: nat, p: int)
    requires Whole(s, align, heap)
    ensures UserBlock(s, p) ==> !SmallLive(s.slabs, p)
    ensures forall r, n {:trigger LargeAt(s, r, p, n)} :: LargeAt(s, r, p, n) ==>
      !UserBlock(s, p) && !SmallLive(s.slabs, p)
  {
    hide Whole, SmallLive;
    if UserBlock(s, p) {
      UserIsNotSmall(s, align, heap, p);
    }
    forall r, m | LargeAt(s, r, p, m) ensures !UserBlock(s, p) && !SmallLive(s.slabs, p) {
      if UserBlock(s, p) {
        LargeIsAlone(s, align, heap, p, s.bk.l.size[p - HEADER] - HEADER, r, m);
      }
      if SmallLive(s.slabs, p) {
        LargeIsAlone(s, align, heap, p, SMALLEST_ALLOCATION, r, m);
      }
    }
  }

  lemma LargeIsAlone(s: Snapshot, align: nat, heap: nat, p: int, n: int, r: int, m: int)
    requires Whole(s, align, heap) && IsSmallOrMedium(s, p, n)
    ensures !LargeAt(s, r, p, m)
  {
    hide Whole, SmallLive;
    if LargeAt(s, r, p, m) {
      LargeRegion(s, align, heap, r, p, m);
      var a := Host(s, align, heap, p, n);
      var t := HostRegion(s, align, heap, a, p, n);
      RegionsApartHere(s, align, heap, r, t);
    }
  }

  lemma UserIsNotSmall(s: Snapshot, align: nat, heap: nat, p: int)
    requires Whole(s, align, heap) && UserBlock(s, p)
    ensures !SmallLive(s.slabs, p)
  {
    hide Whole, SmallLive;
    if SmallLive(s.slabs, p) {
      var n := s.bk.l.size[p - HEADER] - HEADER;
      UserIsSizeable(s, align, heap, p);
      ExtentUnique(s, align, heap, p, n, SMALLEST_ALLOCATION);
    }
  }

  lemma UserIsSizeable(s: Snapshot, align: nat, heap: nat, p: int)
    requires Whole(s, align, heap) && UserBlock(s, p)
    ensures s.bk.l.size[p - HEADER] - HEADER >= 16
  {
    hide SysOk, Tiled, RegionsApart, Filed, LargesOk;
    assert KindOk(s.bk.l, s.bk.free, s.bk.live, p - HEADER);
    FreeOrLiveSize(s.bk, align, p - HEADER);
  }

  lemma OneRegion(s: Snapshot, align: nat, heap: nat, p: int, r: int, n: int, t: int, m: int)
    requires Whole(s, align, heap) && LargeAt(s, r, p, n) && LargeAt(s, t, p, m)
    ensures r == t
  {
    hide Whole;
    LargeRegion(s, align, heap, r, p, n);
    LargeRegion(s, align, heap, t, p, m);
    if r != t {
      RegionsApartHere(s, align, heap, r, t);
    }
  }

  /** A cell belongs to one slab. */
  lemma OneSlab(s: Snapshot, align: nat, heap: nat, c: int, d: int, x: int)
    requires Whole(s, align, heap) && LiveIn(s.slabs, c, x) && LiveIn(s.slabs, d, x)
    ensures c == d
  {
    hide SysOk, Shape, LargesOk;
    assert IsCell(c, x) && IsCell(d, x) && Housed(s.bk, c) && Housed(s.bk, d);
    if c != d {
      SlabsApart(s.bk, align, c, d);
    }
  }

  // ---- steps ----

  /** Pointers other than x are live in s1 exactly as in s0. */
  ghost predicate SameElse(s0: Snapshot, s1: Snapshot, x: int) {
    && (forall p {:trigger UserBlock(s1, p)} :: p != x ==>
          (UserBlock(s1, p) <==> UserBlock(s0, p)) && (UserBlock(s0, p) ==> SameSize(s0.bk.l, s1.bk.l, p - HEADER)))
    && (forall c, y {:trigger LiveIn(s1.slabs, c, y)} :: y + 8 != x ==>
        (LiveIn(s1.slabs, c, y) <==> LiveIn(s0.slabs, c, y)))
    && (forall r, p, n {:trigger LargeAt(s1, r, p, n)} :: p != x ==> (LargeAt(s1, r, p, n) <==> LargeAt(s0, r, p, n)))
  }

  ghost predicate NoExtent(s: Snapshot, x: int) {
    forall n {:trigger Extent(s, x, n)} :: !Extent(s, x, n)
  }

  /** Words of allocations that are live before and after are unchanged, whatever their kind. */
  ghost predicate KindsKept(s0: Snapshot, s1: Snapshot) {
    && (forall p {:trigger UserBlock(s1, p)} :: UserBlock(s0, p) && UserBlock(s1, p) ==>
        UserKept(s0.mem, s1.mem, s1.bk.l, p - HEADER))
    && CellsKept(s0.mem, s1.mem, s0.slabs, s1.slabs)
    && LargesKept(s0.mem, s1.mem, s0.owned, s0.foreign, NONE)
  }

  /** A whole word of the data of live allocation p. */
  predicate DataWord(live: map<int, int>, p: int, w: int) {
    p in live && p <= w && w + 8 <= p + live[p]
  }

  ghost predicate DataKept(live0: map<int, int>, live1: map<int, int>, m0: Memory, m1: Memory) {
    forall p, w {:trigger DataWord(live1, p, w)} :: DataWord(live0, p, w) && DataWord(live1, p, w) ==>
      Read(m1, w) == Read(m0, w)
  }

  /** The userdata of what is live before and after is unchanged, except where the header was not written yet. */
  ghost predicate UserdataKept(live0: map<int, int>, live1: map<int, int>, bare: set<int>, m0: Memory, m1: Memory) {
    forall p {:trigger UserdataOf(m1, p)} :: p in live0 && p in live1 && p !in bare ==>
      UserdataOf(m1, p) == UserdataOf(m0, p)
  }

  lemma SmallElsewhere(s0: Snapshot, s1: Snapshot, x: int, p: int)
    requires SameElse(s0, s1, x) && p != x
    ensures SmallLive(s1.slabs, p) <==> SmallLive(s0.slabs, p)
  {
    hide LiveIn, UserBlock, LargeAt;
    if SmallLive(s0.slabs, p) {
      var c :| LiveIn(s0.slabs, c, p - 8);
      assert LiveIn(s1.slabs, c, p - 8);
    }
    if SmallLive(s1.slabs, p) {
      var c :| LiveIn(s1.slabs, c, p - 8);
      assert LiveIn(s0.slabs, c, p - 8);
    }
  }

  lemma ElsewhereSame(s0: Snapshot, s1: Snapshot, x: int, p: int, n: int)
    requires SameElse(s0, s1, x) && p != x
    ensures Extent(s1, p, n) <==> Extent(s0, p, n)
  {
    hide LargeAt, LiveIn;
    SmallElsewhere(s0, s1, x, p);
    UserElsewhere(s0, s1, x, p);
    if Extent(s0, p, n) && !IsSmallOrMedium(s0, p, n) {
      var r :| LargeAt(s0, r, p, n);
      assert LargeAt(s1, r, p, n);
    }
    if Extent(s1, p, n) && !IsSmallOrMedium(s1, p, n) {
      var r :| LargeAt(s1, r, p, n);
      assert LargeAt(s0, r, p, n);
    }
  }

  lemma UserElsewhere(s0: Snapshot, s1: Snapshot, x: int, p: int)
    requires SameElse(s0, s1, x) && p != x
    ensures UserBlock(s1, p) <==> UserBlock(s0, p)
    ensures UserBlock(s0, p) ==> s0.bk.l.size[p - HEADER] == s1.bk.l.size[p - HEADER]
  {
    hide LiveIn, LargeAt;
  }

  lemma LiveExtent(live: map<int, int>, s: Snapshot, p: int)
    requires Refines(live, s) && p in live
    ensures Extent(s, p, live[p])
  {
    hide Extent;
  }

  /** One allocation more. */
  lemma Gained(live: map<int, int>, s0: Snapshot, s1: Snapshot, align: nat, heap: nat, x: int, n: int)
    requires Refines(live, s0) && Whole(s1, align, heap) && SameElse(s0, s1, x) && NoExtent(s0, x) && Extent(s1, x, n)
    ensures x !in live && Refines(live[x := n], s1)
  {
    hide Whole, SameElse, Extent;
    if x in live {
      LiveExtent(live, s0, x);
    }
    var live' := live[x := n];
    forall p, m ensures Extent(s1, p, m) <==> p in live' && live'[p] == m {
      if p == x {
        if Extent(s1, x, m) {
          ExtentUnique(s1, align, heap, x, n, m);
        }
      } else {
        ElsewhereSame(s0, s1, x, p, m);
        assert Extent(s0, p, m) <==> p in live && live[p] == m;
      }
    }
  }

  /** One allocation less. */
  lemma Lost(live: map<int, int>, s0: Snapshot, s1: Snapshot, x: int)
    requires Refines(live, s0) && SameElse(s0, s1, x) && NoExtent(s1, x)
    ensures Refines(live - {x}, s1)
  {
    hide SameElse, Extent;
    var live' := live - {x};
    forall p, m ensures Extent(s1, p, m) <==> p in live' && live'[p] == m {
      if p == x {
        assert !Extent(s1, x, m);
      } else {
        ElsewhereSame(s0, s1, x, p, m);
        assert Extent(s0, p, m) <==> p in live && live[p] == m;
      }
    }
  }

  /** Data of the survivors is kept. */
  lemma SurvivorsKept(live0: map<int, int>, live1: map<int, int>, s0: Snapshot, s1: Snapshot, align: nat, heap: nat,
                      x: int)
    requires Refines(live0, s0) && Refines(live1, s1) && SameElse(s0, s1, x) && KindsKept(s0, s1)
    requires Whole(s0, align, heap) && (x !in live0 || x !in live1)
    ensures DataKept(live0, live1, s0.mem, s1.mem) && UserdataKept(live0, live1, {}, s0.mem, s1.mem)
  {
    hide Whole, SameElse, KindsKept, Extent, Read, UserdataOf;
    forall p | p in live0 && p in live1 ensures UserdataOf(s1.mem, p) == UserdataOf(s0.mem, p) {
      assert Extent(s0, p, live0[p]);
      PrefixKept(s0, s1, align, heap, x, p, live0[p]);
    }
    forall p, w | DataWord(live0, p, w) && DataWord(live1, p, w) ensures Read(s1.mem, w) == Read(s0.mem, w) {
      assert Extent(s0, p, live0[p]);
      WordKept(s0, s1, align, heap, x, p, live0[p], w);
    }
  }

  lemma WordKept(s0: Snapshot, s1: Snapshot, align: nat, heap: nat, x: int, p: int, n: int, w: int)
    requires SameElse(s0, s1, x) && KindsKept(s0, s1) && p != x && Extent(s0, p, n) && Whole(s0, align, heap)
    requires p <= w && w + 8 <= p + n
    ensures Read(s1.mem, w) == Read(s0.mem, w)
  {
    hide Whole, Read, LiveIn, CellsKept;
    if UserBlock(s0, p) && n == s0.bk.l.size[p - HEADER] - HEADER {
      assert UserBlock(s1, p);
      assert UserKept(s0.mem, s1.mem, s1.bk.l, p - HEADER);
      assert SameSize(s0.bk.l, s1.bk.l, p - HEADER);
    } else if SmallLive(s0.slabs, p) && n == SMALLEST_ALLOCATION {
      var c :| LiveIn(s0.slabs, c, p - 8);
      assert LiveIn(s1.slabs, c, p - 8);
      SmallWordKept(s0, s1, p, c);
    } else {
      var r :| LargeAt(s0, r, p, n);
      LargeWord(s0, align, heap, r, p, n, w);
      assert r in s0.foreign && RegionWord(s0.owned, r, w);
    }
  }

  lemma PrefixKept(s0: Snapshot, s1: Snapshot, align: nat, heap: nat, x: int, p: int, n: int)
    requires SameElse(s0, s1, x) && KindsKept(s0, s1) && p != x && Extent(s0, p, n) && Whole(s0, align, heap)
    ensures UserdataOf(s1.mem, p) == UserdataOf(s0.mem, p)
  {
    hide Whole, Read, LiveIn, CellsKept, Type, Userdata;
    if UserBlock(s0, p) && n == s0.bk.l.size[p - HEADER] - HEADER {
      assert UserBlock(s1, p);
      assert UserKept(s0.mem, s1.mem, s1.bk.l, p - HEADER);
    } else if SmallLive(s0.slabs, p) && n == SMALLEST_ALLOCATION {
      var c :| LiveIn(s0.slabs, c, p - 8);
      assert LiveIn(s1.slabs, c, p - 8);
      SmallWordKept(s0, s1, p, c);
    } else {
      var r :| LargeAt(s0, r, p, n);
      LargeWord(s0, align, heap, r, p, n, p - 8);
      assert r in s0.foreign && RegionWord(s0.owned, r, p - 8);
    }
  }

  lemma LargeWord(s: Snapshot, align: nat, heap: nat, r: int, p: int, n: int, w: int)
    requires Whole(s, align, heap) && LargeAt(s, r, p, n) && p - 8 <= w && (w + 8 <= p + n || w + 8 <= p)
    ensures r in s.foreign && r in s.owned && RegionWord(s.owned, r, w) && r != NONE
  {
    hide Shape, Type;
    assert LargeFine(s.mem, s.owned, heap, align, s.bare, r, s.larges[r]);
    assert s.owned[r] >= 0;
  }

  lemma SmallWordKept(s0: Snapshot, s1: Snapshot, p: int, c: int)
    requires LiveIn(s0.slabs, c, p - 8) && LiveIn(s1.slabs, c, p - 8) && CellsKept(s0.mem, s1.mem, s0.slabs, s1.slabs)
    ensures Read(s1.mem, p) == Read(s0.mem, p) && Read(s1.mem, p - 8) == Read(s0.mem, p - 8)
  {
    hide LiveIn, Read;
    var y := p - 8;
    assert Read(s1.mem, y + 8) == Read(s0.mem, y + 8) && Read(s1.mem, y) == Read(s0.mem, y);
  }

  // ---- the medium allocator's operations ----

  /** Nothing of the other two allocators changed. */
  ghost predicate OthersSame(s0: Snapshot, s1: Snapshot) {
    && s1.slabs == s0.slabs && s1.larges == s0.larges && s1.bare == s0.bare && s1.foreign == s0.foreign
    && RegionsKept(s0.owned, s1.owned, s0.foreign)
    && LargesKept(s0.mem, s1.mem, s0.owned, s0.foreign, NONE)
  }

  lemma SlabWordsKept(s0: Snapshot, s1: Snapshot, live: set<int>)
    requires LiveKept(s0.mem, s1.mem, s0.bk.l, s1.bk.l, live) && s1.slabs == s0.slabs && AllCells(s0.slabs)
    requires forall c {:trigger Housed(s0.bk, c)} :: c in s0.slabs ==> Housed(s0.bk, c)
    requires forall c {:trigger Housed(s1.bk, c)} :: c in s0.slabs ==> Housed(s1.bk, c)
    requires forall c :: c in s0.slabs ==> c - HEADER in live
    ensures CellsKept(s0.mem, s1.mem, s0.slabs, s1.slabs)
  {
    hide Read;
    forall c, x | LiveIn(s1.slabs, c, x)
      ensures Read(s1.mem, x + 8) == Read(s0.mem, x + 8) && Read(s1.mem, x) == Read(s0.mem, x)
    {
      assert IsCell(c, x) && Housed(s1.bk, c);
      assert UserKept(s0.mem, s1.mem, s1.bk.l, c - HEADER);
    }
  }

  lemma LargesSame(s0: Snapshot, s1: Snapshot, align: nat, heap: nat)
    requires Whole(s0, align, heap) && OthersSame(s0, s1)
    ensures forall r, p, n {:trigger LargeAt(s1, r, p, n)} :: LargeAt(s1, r, p, n) <==> LargeAt(s0, r, p, n)
  {
    hide Shape, SysOk, LargesKept, AllCells;
    forall r, p, n ensures LargeAt(s1, r, p, n) <==> LargeAt(s0, r, p, n) {
      assert r in s0.larges ==> r in s0.foreign;
    }
  }

  lemma MediumGain(s0: Snapshot, s1: Snapshot, align: nat, heap: nat, a: int)
    requires Whole(s0, align, heap) && Whole(s1, align, heap) && OthersSame(s0, s1)
    requires a !in s0.bk.live && s1.bk.live == s0.bk.live + {a} && a in s1.bk.l.size
    requires LiveKept(s0.mem, s1.mem, s0.bk.l, s1.bk.l, s0.bk.live)
    ensures SameElse(s0, s1, a + HEADER) && NoExtent(s0, a + HEADER) && KindsKept(s0, s1)
    ensures Extent(s1, a + HEADER, s1.bk.l.size[a] - HEADER)
  {
    hide Shape, SysOk, LargesOk, LargesKept, LiveIn, CellsKept, LargeAt, UserKept;
    var x := a + HEADER;
    assert x in s0.slabs ==> Housed(s0.bk, x);
    assert UserBlock(s1, x);
    LargesSame(s0, s1, align, heap);
    forall c | c in s0.slabs ensures c - HEADER in s0.bk.live {
      assert Housed(s0.bk, c);
    }
    SlabWordsKept(s0, s1, s0.bk.live);
    KindsDiffer(s1, align, heap, x);
    forall p | p != x
      ensures (UserBlock(s1, p) <==> UserBlock(s0, p)) && (UserBlock(s0, p) ==> SameSize(s0.bk.l, s1.bk.l, p - HEADER))
    {
      assert p - HEADER in s0.bk.live ==> SameSize(s0.bk.l, s1.bk.l, p - HEADER);
    }
    forall n ensures !Extent(s0, x, n) {
      assert !UserBlock(s0, x) && !SmallLive(s0.slabs, x);
      forall r ensures !LargeAt(s0, r, x, n) {
        assert LargeAt(s1, r, x, n) <==> LargeAt(s0, r, x, n);
      }
    }
  }

  lemma MediumLoss(s0: Snapshot, s1: Snapshot, align: nat, heap: nat, a: int)
    requires Whole(s0, align, heap) && Whole(s1, align, heap) && OthersSame(s0, s1)
    requires a in s0.bk.live && s1.bk.live == s0.bk.live - {a} && a in s0.bk.l.size && a + HEADER !in s0.slabs
    requires LiveKept(s0.mem, s1.mem, s0.bk.l, s1.bk.l, s1.bk.live)
    ensures SameElse(s0, s1, a + HEADER) && NoExtent(s1, a + HEADER) && KindsKept(s0, s1)
  {
    hide Shape, SysOk, LargesOk, LargesKept, LiveIn, CellsKept, LargeAt, UserKept;
    var x := a + HEADER;
    assert UserBlock(s0, x);
    LargesSame(s0, s1, align, heap);
    forall c | c in s0.slabs ensures c - HEADER in s1.bk.live {
      assert Housed(s1.bk, c);
    }
    SlabWordsKept(s0, s1, s1.bk.live);
    KindsDiffer(s0, align, heap, x);
    forall p | p != x
      ensures (UserBlock(s1, p) <==> UserBlock(s0, p)) && (UserBlock(s0, p) ==> SameSize(s0.bk.l, s1.bk.l, p - HEADER))
    {
      assert p - HEADER in s1.bk.live ==> SameSize(s0.bk.l, s1.bk.l, p - HEADER);
    }
    forall n ensures !Extent(s1, x, n) {
      assert !UserBlock(s1, x) && !SmallLive(s1.slabs, x);
    }
  }

  // ---- the small allocator's operations ----

  /** The small allocator's frame, together with what it says of large allocations. */
  ghost predicate SmallStep(s0: Snapshot, s1: Snapshot, heap: nat) {
    && SmallQuiet(s0.mem, s1.mem, heap, s0.bk, s0.ring, s0.slabs, s1.slabs)
    && s1.bk == s0.bk && s1.larges == s0.larges && s1.foreign == s0.foreign && s1.owned == s0.owned
    && s1.slabs.Keys == s0.slabs.Keys
    && LargesKept(s0.mem, s1.mem, s0.owned, s0.foreign, NONE)
  }

  lemma UsersSame(s0: Snapshot, s1: Snapshot, align: nat, heap: nat, p: int)
    requires Whole(s0, align, heap) && SmallStep(s0, s1, heap)
    ensures UserBlock(s1, p) <==> UserBlock(s0, p)
    ensures UserBlock(s0, p) ==> SameSize(s0.bk.l, s1.bk.l, p - HEADER) && UserKept(s0.mem, s1.mem, s1.bk.l, p - HEADER)
  {
    hide SysOk, LargesOk, LargesKept, LiveIn, CellsKept, UserKept, Tiled, RegionsApart, Filed, Untouched, Read;
    assert p in s0.slabs.Keys <==> p in s1.slabs.Keys;
    assert OtherBlock(s0.slabs, p - HEADER) <==> p !in s0.slabs;
  }

  lemma LargesSameSmall(s0: Snapshot, s1: Snapshot, heap: nat)
    requires SmallStep(s0, s1, heap)
    ensures forall r, p, n {:trigger LargeAt(s1, r, p, n)} :: LargeAt(s1, r, p, n) <==> LargeAt(s0, r, p, n)
  {
    hide LargesKept, SmallQuiet;
  }

  lemma SmallKinds(s0: Snapshot, s1: Snapshot, align: nat, heap: nat)
    requires Whole(s0, align, heap) && SmallStep(s0, s1, heap)
    ensures KindsKept(s0, s1)
  {
    hide Whole, LiveIn, CellsKept, UserKept, UserBlock, LargesKept, Untouched, Read;
    forall p | UserBlock(s0, p) && UserBlock(s1, p) ensures UserKept(s0.mem, s1.mem, s1.bk.l, p - HEADER) {
      UsersSame(s0, s1, align, heap, p);
    }
  }

  lemma SmallGain(s0: Snapshot, s1: Snapshot, align: nat, heap: nat, x: nat)
    requires Whole(s0, align, heap) && Whole(s1, align, heap) && SmallStep(s0, s1, heap)
    requires SmallTaken(s0.slabs, s1.slabs, x)
    ensures SameElse(s0, s1, x + 8) && NoExtent(s0, x + 8) && KindsKept(s0, s1)
    ensures Extent(s1, x + 8, SMALLEST_ALLOCATION)
  {
    hide Whole, SmallStep, LargeAt, UserBlock, KindsKept, Housed, Taken;
    var c :| LiveIn(s1.slabs, c, x) && !LiveIn(s0.slabs, c, x) && c in s0.slabs && Taken(s0.slabs[c], c, x)
        && s1.slabs == s0.slabs[c := After(s0.slabs[c], x)];
    SmallKinds(s0, s1, align, heap);
    LargesSameSmall(s0, s1, heap);
    forall p ensures (UserBlock(s1, p) <==> UserBlock(s0, p))
        && (UserBlock(s0, p) ==> SameSize(s0.bk.l, s1.bk.l, p - HEADER)) {
      UsersSame(s0, s1, align, heap, p);
    }
    assert SmallLive(s1.slabs, x + 8) by { assert LiveIn(s1.slabs, c, (x + 8) - 8); }
    KindsDiffer(s1, align, heap, x + 8);
    if SmallLive(s0.slabs, x + 8) {
      var d :| LiveIn(s0.slabs, d, (x + 8) - 8);
      assert LiveIn(s1.slabs, d, x);
      OneSlab(s1, align, heap, c, d, x);
    }
    var p := x + 8;
    forall n ensures !Extent(s0, p, n) {
      assert !UserBlock(s0, p) && !SmallLive(s0.slabs, p);
      forall r ensures !LargeAt(s0, r, p, n) {
        assert LargeAt(s1, r, p, n) <==> LargeAt(s0, r, p, n);
      }
    }
  }

  lemma SmallLoss(s0: Snapshot, s1: Snapshot, align: nat, heap: nat, x: nat)
    requires Whole(s0, align, heap) && SmallStep(s0, s1, heap) && SmallFreed(s0.slabs, s1.slabs, x)
    ensures SameElse(s0, s1, x + 8) && NoExtent(s1, x + 8) && KindsKept(s0, s1)
  {
    hide Whole, SmallStep, LargeAt, UserBlock, KindsKept, Housed;
    var c :| LiveIn(s0.slabs, c, x)
        && s1.slabs == s0.slabs[c := Cells(s0.slabs[c].live - {x as int}, [x] + s0.slabs[c].free)];
    SmallKinds(s0, s1, align, heap);
    LargesSameSmall(s0, s1, heap);
    forall p ensures (UserBlock(s1, p) <==> UserBlock(s0, p))
        && (UserBlock(s0, p) ==> SameSize(s0.bk.l, s1.bk.l, p - HEADER)) {
      UsersSame(s0, s1, align, heap, p);
    }
    assert SmallLive(s0.slabs, x + 8) by { assert LiveIn(s0.slabs, c, (x + 8) - 8); }
    KindsDiffer(s0, align, heap, x + 8);
    if SmallLive(s1.slabs, x + 8) {
      var d :| LiveIn(s1.slabs, d, (x + 8) - 8);
      assert LiveIn(s0.slabs, d, x);
      OneSlab(s0, align, heap, c, d, x);
    }
    var p := x + 8;
    forall n ensures !Extent(s1, p, n) {
      assert !UserBlock(s1, p) && !SmallLive(s1.slabs, p);
    }
  }

  // ---- a medium block comes to house a slab, or houses it no more ----

  /** The same heap, but that block c is an ordinary one in s0 and houses an empty slab in s1. */
  ghost predicate HousedIn(s0: Snapshot, s1: Snapshot, c: int) {
    && c !in s0.slabs && c in s1.slabs && s1.slabs[c].live == {} && s0.slabs == s1.slabs - {c}
    && Housed(s0.bk, c) && s0 == s1.(slabs := s0.slabs)
  }

  lemma HousedElse(s0: Snapshot, s1: Snapshot, align: nat, heap: nat, c: int)
    requires Whole(s0, align, heap) && HousedIn(s0, s1, c)
    ensures Whole(s1, align, heap) && UserBlock(s0, c)
    ensures SameElse(s0, s1, c) && SameElse(s1, s0, c) && NoExtent(s1, c)
    ensures Extent(s0, c, s0.bk.l.size[c - HEADER] - HEADER)
  {
    hide SysOk, LargesOk, Shape;
    CellsSame(s0, s1, c);
    forall d, x | LiveIn(s1.slabs, d, x) ensures IsCell(d, x) {
      assert LiveIn(s0.slabs, d, x);
    }
    assert UserBlock(s0, c);
    KindsDiffer(s0, align, heap, c);
    BlockSizes(s0, align);
    forall n ensures !Extent(s1, c, n) {
      assert !SmallLive(s0.slabs, c) && !SmallLive(s1.slabs, c);
      forall r ensures !LargeAt(s1, r, c, n) {
        assert LargeAt(s1, r, c, n) <==> LargeAt(s0, r, c, n);
      }
    }
  }

  lemma CellsSame(s0: Snapshot, s1: Snapshot, c: int)
    requires HousedIn(s0, s1, c)
    ensures forall d, x {:trigger LiveIn(s0.slabs, d, x)} {:trigger LiveIn(s1.slabs, d, x)} ::
      LiveIn(s1.slabs, d, x) <==> LiveIn(s0.slabs, d, x)
  {
    hide Housed;
  }

  lemma BlockSizes(s: Snapshot, align: nat)
    requires Shape(s.bk, align)
    ensures forall p {:trigger UserBlock(s, p)} :: UserBlock(s, p) ==> SameSize(s.bk.l, s.bk.l, p - HEADER)
  {
    hide Tiled, RegionsApart, Filed;
    forall p | UserBlock(s, p) ensures SameSize(s.bk.l, s.bk.l, p - HEADER) {
      FreeOrLiveSize(s.bk, align, p - HEADER);
    }
  }

  // ---- the large allocator's operations ----

  ghost predicate LargeStep(s0: Snapshot, s1: Snapshot) {
    && s1.bk == s0.bk && s1.slabs == s0.slabs
    && SameInside(s0.mem, s1.mem, s0.bk.l) && LargesKept(s0.mem, s1.mem, s0.owned, s0.foreign, NONE)
  }

  lemma InsideLive(s0: Snapshot, m1: Memory, align: nat, heap: nat)
    requires Whole(s0, align, heap) && SameInside(s0.mem, m1, s0.bk.l)
    ensures LiveKept(s0.mem, m1, s0.bk.l, s0.bk.l, s0.bk.live)
  {
    hide SysOk, LargesOk, Read, Tiled, RegionsApart, Filed, OutsideChunks;
    forall a | a in s0.bk.live ensures UserKept(s0.mem, m1, s0.bk.l, a) && SameSize(s0.bk.l, s0.bk.l, a) {
      assert KindOk(s0.bk.l, s0.bk.free, s0.bk.live, a);
      FreeOrLiveSize(s0.bk, align, a);
      forall w | a <= w < a + s0.bk.l.size[a] ensures Read(m1, w) == Read(s0.mem, w) {
        InsideChunk(s0.bk, align, a, w);
      }
    }
  }

  /** No live block, and so no slab, is touched. */
  lemma InsideKept(s0: Snapshot, s1: Snapshot, align: nat, heap: nat)
    requires Whole(s0, align, heap) && LargeStep(s0, s1)
    ensures LiveKept(s0.mem, s1.mem, s0.bk.l, s0.bk.l, s0.bk.live) && KindsKept(s0, s1)
  {
    hide SysOk, LargesOk, Read, Tiled, KindsOk, RegionsApart, Filed, SameInside, LargesKept;
    InsideLive(s0, s1.mem, align, heap);
    forall c | c in s0.slabs ensures c - HEADER in s0.bk.live {
      assert Housed(s0.bk, c);
    }
    SlabWordsKept(s0, s1, s0.bk.live);
  }

  lemma BlocksStay(s0: Snapshot, s1: Snapshot, align: nat, heap: nat, p: int)
    requires Whole(s0, align, heap) && s1.bk == s0.bk && s1.slabs == s0.slabs
    ensures UserBlock(s1, p) <==> UserBlock(s0, p)
    ensures UserBlock(s0, p) ==> SameSize(s0.bk.l, s1.bk.l, p - HEADER)
  {
    hide Whole;
  }

  lemma LargeGain(s0: Snapshot, s1: Snapshot, align: nat, heap: nat, r: nat, p: nat, size: nat)
    requires Whole(s0, align, heap) && Whole(s1, align, heap) && LargeStep(s0, s1)
    requires LargeAdded(s0.larges, s1.larges, s1.owned, r, p, size) && s1.owned == s0.owned
    ensures SameElse(s0, s1, p) && NoExtent(s0, p) && KindsKept(s0, s1) && Extent(s1, p, r + s1.owned[r] - p)
  {
    hide Whole, UserBlock, KindsKept, SmallLive, SameInside, LargesKept;
    InsideKept(s0, s1, align, heap);
    assert LargeAt(s1, r, p, r + s1.owned[r] - p);
    KindsDiffer(s1, align, heap, p);
    forall q ensures (UserBlock(s1, q) <==> UserBlock(s0, q))
        && (UserBlock(s0, q) ==> SameSize(s0.bk.l, s1.bk.l, q - HEADER)) {
      BlocksStay(s0, s1, align, heap, q);
    }
    forall n ensures !Extent(s0, p, n) {
      assert !UserBlock(s0, p) && !SmallLive(s0.slabs, p);
      forall t ensures !LargeAt(s0, t, p, n) {
        if LargeAt(s0, t, p, n) {
          OneRegion(s1, align, heap, p, r, r + s1.owned[r] - p, t, n);
        }
      }
    }
  }

  lemma LargeLoss(s0: Snapshot, s1: Snapshot, align: nat, heap: nat, r: int, p: nat)
    requires Whole(s0, align, heap) && Whole(s1, align, heap) && LargeStep(s0, s1)
    requires r in s0.larges && r in s0.owned && s0.larges[r] == p && s1.larges == s0.larges - {r}
    requires s1.owned == s0.owned
    ensures SameElse(s0, s1, p) && NoExtent(s1, p) && KindsKept(s0, s1)
  {
    hide Whole, UserBlock, KindsKept, SmallLive, SameInside, LargesKept;
    InsideKept(s0, s1, align, heap);
    assert LargeAt(s0, r, p, r + s0.owned[r] - p);
    KindsDiffer(s0, align, heap, p);
    forall q ensures (UserBlock(s1, q) <==> UserBlock(s0, q))
        && (UserBlock(s0, q) ==> SameSize(s0.bk.l, s1.bk.l, q - HEADER)) {
      BlocksStay(s0, s1, align, heap, q);
    }
    forall n ensures !Extent(s1, p, n) {
      assert !UserBlock(s1, p) && !SmallLive(s1.slabs, p);
      forall t ensures !LargeAt(s1, t, p, n) {
        if LargeAt(s1, t, p, n) {
          OneRegion(s0, align, heap, p, r, r + s0.owned[r] - p, t, n);
        }
      }
    }
  }

  // ---- callers' own writes ----

  /** A word of a live block's data belongs to no large allocation and is no sentinel word. */
  lemma DataIsElsewhere(s: Snapshot, align: nat, heap: nat, a: int, w: int, v: nat)
    requires Whole(s, align, heap) && UserWord(s.bk.l, s.bk.live, a, w)
    ensures LargesKept(s.mem, Write(s.mem, w, v), s.owned, s.foreign, NONE)
    ensures forall x {:trigger Read(Write(s.mem, w, v), x)} ::
      heap + FULL_SENTINEL <= x < heap + SENTINELS_END ==> Read(Write(s.mem, w, v), x) == Read(s.mem, x)
  {
    hide SysOk, LargesOk, Read, Write, Tiled, KindsOk, RegionsApart, Filed, OutsideChunks, AllCells;
    InsideChunk(s.bk, align, a, w);
    forall r, x | r in s.foreign && r in s.owned && RegionWord(s.owned, r, x)
      ensures Read(Write(s.mem, w, v), x) == Read(s.mem, x)
    {
      LargeUntouched(s.mem, s.owned, heap, s.ring, s.cached, s.cachedSize, s.foreign, s.others, s.bk.l, r, x);
    }
    forall x | heap + FULL_SENTINEL <= x < heap + SENTINELS_END ensures Read(Write(s.mem, w, v), x) == Read(s.mem, x) {
      SentinelUntouched(s.mem, s.owned, heap, s.ring, s.cached, s.cachedSize, s.foreign, s.others, s.bk, x);
    }
  }

  lemma StoreInBlock(s: Snapshot, align: nat, heap: nat, p: int, w: int, v: nat, nonfull: seq<nat>, full: seq<nat>,
                     cache: nat)
    requires Whole(s, align, heap) && UserBlock(s, p) && UserWord(s.bk.l, s.bk.live, p - HEADER, w)
    requires SlabsOk(s.mem, heap, s.bk, s.slabs, nonfull, full, cache, {}, {})
    ensures SlabsOk(Write(s.mem, w, v), heap, s.bk, s.slabs, nonfull, full, cache, {}, {})
    ensures LargesOk(Write(s.mem, w, v), s.owned, heap, align, s.foreign, s.larges, s.bare)
  {
    hide SysOk, LargesOk, Read, Write, Tiled, RegionsApart, Filed, SlabsOk, AllCells, LargesKept;
    var a := p - HEADER;
    var m1 := Write(s.mem, w, v);
    DataIsElsewhere(s, align, heap, a, w, v);
    ForeignOwned(s.mem, s.owned, heap, s.ring, s.cached, s.cachedSize, s.foreign, s.others, s.bk.l);
    LargesStayOk(s.mem, m1, s.owned, s.owned, heap, align, s.foreign, s.larges, s.bare);
    var rest := s.bk.live - {a};
    forall b | b in rest ensures UserKept(s.mem, m1, s.bk.l, b) && SameSize(s.bk.l, s.bk.l, b) {
      assert KindOk(s.bk.l, s.bk.free, s.bk.live, b);
      FreeOrLiveSize(s.bk, align, b);
      Disjoint(s.bk.l, align, a, b);
    }
    forall c | c in s.slabs ensures c - HEADER in rest {
      assert Housed(s.bk, c);
    }
    MediumKeepsSlabs(s.mem, m1, heap, s.bk, s.bk, rest, s.slabs, nonfull, full, cache, {}, {});
  }

  lemma StoreInCell(s: Snapshot, align: nat, heap: nat, c: int, p: int, v: nat, nonfull: seq<nat>, full: seq<nat>,
                    cache: nat)
    requires Whole(s, align, heap) && LiveIn(s.slabs, c, p - 8) && HeapApart(s.bk, heap)
    requires SlabsOk(s.mem, heap, s.bk, s.slabs, nonfull, full, cache, {}, {})
    ensures UserWord(s.bk.l, s.bk.live, c - HEADER, p)
    ensures SlabsOk(Write(s.mem, p, v), heap, s.bk, s.slabs, nonfull, full, cache, {}, {})
    ensures LargesOk(Write(s.mem, p, v), s.owned, heap, align, s.foreign, s.larges, s.bare)
  {
    hide SysOk, LargesOk, Read, Write, Shape, SlabsOk, LargesKept, SlabOk, NoRoom, HeapApart;
    var m1 := Write(s.mem, p, v);
    assert Housed(s.bk, c) && IsCell(c, p - 8);
    DataIsElsewhere(s, align, heap, c - HEADER, p, v);
    ForeignOwned(s.mem, s.owned, heap, s.ring, s.cached, s.cachedSize, s.foreign, s.others, s.bk.l);
    LargesStayOk(s.mem, m1, s.owned, s.owned, heap, align, s.foreign, s.larges, s.bare);
    Loosen(s.mem, heap, s.bk, s.slabs, nonfull, full, cache, c);
    LooseWrites(s.mem, m1, heap, s.bk, align, s.slabs, s.slabs[c], nonfull, full, cache, {}, {c}, c);
    assert s.slabs[c := s.slabs[c]] == s.slabs;
    StoreKeepsSlab(s.mem, m1, heap, s.bk, s.slabs, nonfull, full, cache, c, p, v);
    TightenOk(m1, heap, s.bk, s.slabs, nonfull, full, cache, c);
  }

  lemma StoreKeepsSlab(m0: Memory, m1: Memory, heap: nat, bk: Book, slabs: Slabs, nonfull: seq<nat>, full: seq<nat>,
                       cache: nat, c: int, p: int, v: nat)
    requires SlabsOk(m0, heap, bk, slabs, nonfull, full, cache, {}, {}) && LiveIn(slabs, c, p - 8) && IsCell(c, p - 8)
    requires m1 == Write(m0, p, v)
    ensures SlabFine(m1, heap, slabs, nonfull, full, cache, c)
  {
    hide Read, SlabOk, NoRoom, RingsOk, Partition, Members;
    assert SlabFine(m0, heap, slabs, nonfull, full, cache, c);
    SlabFrame(m0, m1, c, slabs[c], heap);
  }

  lemma StoreInRegion(s: Snapshot, m1: Memory, align: nat, heap: nat, r: int, p: int, nonfull: seq<nat>,
                      full: seq<nat>, cache: nat)
    requires Whole(s, align, heap) && r in s.larges && s.larges[r] == p && r in s.owned && r in s.foreign && r > 0
    requires forall x {:trigger Read(m1, x)} :: !(p <= x < r + s.owned[r]) ==> Read(m1, x) == Read(s.mem, x)
    requires SameInside(s.mem, m1, s.bk.l) && LargesKept(s.mem, m1, s.owned, s.foreign, r)
    requires SlabsOk(s.mem, heap, s.bk, s.slabs, nonfull, full, cache, {}, {})
    ensures SlabsOk(m1, heap, s.bk, s.slabs, nonfull, full, cache, {}, {})
    ensures LargesOk(m1, s.owned, heap, align, s.foreign, s.larges, s.bare)
  {
    hide SysOk, Read, Shape, SlabsOk, AllCells, LargesKept, SameInside, Type;
    assert LargeFine(s.mem, s.owned, heap, align, s.bare, r, p);
    SlabsAway(s, m1, align, heap, r, nonfull, full, cache);
    forall t | t in s.larges ensures LargeFine(m1, s.owned, heap, align, s.bare, t, s.larges[t]) {
      assert LargeFine(s.mem, s.owned, heap, align, s.bare, t, s.larges[t]);
      if t != r {
        LargeStaysFine(s.mem, m1, s.owned, s.owned, heap, align, s.foreign, s.larges, s.bare, t, r);
      }
    }
  }

  lemma RegionIsNotHeap(s: Snapshot, align: nat, heap: nat, r: int)
    requires Whole(s, align, heap) && (r in s.foreign || r in s.others) && r in s.owned
    ensures r + s.owned[r] <= heap || heap + HEAP_BYTES <= r
  {
    hide Ring.RingOk, Shape, LargesOk, AllCells;
    assert RegionPair(s.owned, heap, r);
  }

  /** Slabs do not notice what is written in another layer's region, or in one in hand. */
  lemma SlabsAway(s: Snapshot, m1: Memory, align: nat, heap: nat, r: int, nonfull: seq<nat>, full: seq<nat>, cache: nat)
    requires Whole(s, align, heap) && (r in s.foreign || r in s.others) && r in s.owned
    requires forall x {:trigger Read(m1, x)} :: !(r <= x < r + s.owned[r]) ==> Read(m1, x) == Read(s.mem, x)
    requires SameInside(s.mem, m1, s.bk.l) && SlabsOk(s.mem, heap, s.bk, s.slabs, nonfull, full, cache, {}, {})
    ensures SlabsOk(m1, heap, s.bk, s.slabs, nonfull, full, cache, {}, {})
  {
    hide SysOk, Read, Shape, SlabsOk, AllCells, SameInside, LiveKept, LargesOk;
    InsideLive(s, m1, align, heap);
    RegionIsNotHeap(s, align, heap, r);
    forall c | c in s.slabs ensures c - HEADER in s.bk.live {
      assert Housed(s.bk, c);
    }
    MediumKeepsSlabs(s.mem, m1, heap, s.bk, s.bk, s.bk.live, s.slabs, nonfull, full, cache, {}, {});
  }
}
