/** The dispatch layer: one heap over the small, medium and large allocators, seen as a map from live pointers to
    usable sizes. */
module Heap {
  import opened Bits
  import opened Memory
  import opened SizeClasses
  import opened Words
  import opened Blocks
  import opened Tags
  import opened MediumSteps
  import opened MediumMoves
  import opened MediumFrames
  import opened MediumSystem
  import opened Spinning
  import opened SystemMemory
  import opened Slab
  import opened SmallSteps
  import opened Tlsf
  import opened Small
  import opened Large
  import opened Tally
  import opened HeapView
  import opened HeapSteps
  import opened Counters
  import Ring

  /** What a request for size bytes does to the live map: nothing, or one new allocation. */
  ghost predicate Served(live0: map<int, int>, live1: map<int, int>, p: nat, size: nat, align: nat) {
    if p == 0 then live1 == live0
    else
      && p !in live0 && p in live1 && live1 == live0[p as int := live1[p]]
      && live1[p] >= size && p % 16 == 0 && align > 0 && (size > SMALLEST_ALLOCATION ==> p % align == 0)
  }

  /** Whether an allocation is a medium block does not change while it is live, nor does its userdata; and a pinned
      chunk stays pinned. */
  ghost predicate KindsStay(live0: map<int, int>, s0: Snapshot, live1: map<int, int>, s1: Snapshot) {
    && s0.bk.l.pinned <= s1.bk.l.pinned && UserdataKept(live0, live1, s0.bare.Keys, s0.mem, s1.mem)
    && forall p {:trigger UserBlock(s1, p)} :: p in live0 && p in live1 ==> (UserBlock(s1, p) <==> UserBlock(s0, p))
  }

  /** A region of so many bytes can be set up as a chunk for this request. */
  ghost predicate RoomFor(size: nat, align: nat, region: nat) {
    && Servable(size, align) && SYSTEM_HEADER <= region <= MAX_CHUNK
    && region >= ClassSize(WantOf(size, align).Class()) + align + 256
  }

  // ---- which allocator serves a request, and how ----

  /** The new chunk at a is the cached region, or one the system has just given, after the cached one went back. */
  ghost predicate ChunkFrom(s0: Snapshot, s1: Snapshot, a: int) {
    && a in s1.bk.l.chunks
    && var k := s1.bk.l.chunks[a];
       || (s0.cached != 0 && k.sys == s0.cached && s1.owned == s0.owned)
       || (k.sys !in s0.owned - Cached(s0.cached) && s1.owned == (s0.owned - Cached(s0.cached))[k.sys := k.bytes])
  }

  /** From the lists by good fit and without the system, if they have a block of the class or a greater one; else from
      a new chunk. */
  ghost predicate BlockServed(s0: Snapshot, s1: Snapshot, p: nat, size: nat, align: nat) {
    var c := ClassFor(size, align);
    && (p == 0 ==> NoneFrom(s0.bk.lists, c) && s1.bk == s0.bk)
    && (p != 0 ==> Allocated(s0.bk, s1.bk, p - HEADER, size, c))
    && (!NoneFrom(s0.bk.lists, c) ==> p != 0 && s1.owned == s0.owned)
    && (NoneFrom(s0.bk.lists, c) && p != 0 ==> ChunkFrom(s0, s1, p - HEADER))
  }

  ghost predicate MediumServed(s0: Snapshot, s1: Snapshot, p: nat, size: nat, align: nat) {
    && BlockServed(s0, s1, p, size, align) && (p != 0 ==> UserBlock(s1, p))
    && s1.slabs == s0.slabs && s1.larges == s0.larges
  }

  /** A cell of a slab, without anything else changing; or, when none is left, of a new slab, in a block that is served
      as a medium request is. */
  ghost predicate SmallServed(s0: Snapshot, s1: Snapshot, p: nat, align: nat) {
    && s1.larges == s0.larges
    && if p != 0 && SmallTaken(s0.slabs, s1.slabs, p - 8) then s1.bk == s0.bk && s1.owned == s0.owned
       else
         && NoCellLeft(s0.slabs)
         && if p == 0 then s1.slabs == s0.slabs && BlockServed(s0, s1, 0, CHUNK_SIZE, align)
            else
              exists c: nat {:trigger NewSlabGives(s0.slabs, s1.slabs, c, p)} ::
                NewSlabGives(s0.slabs, s1.slabs, c, p) && c != 0 && BlockServed(s0, s1, c, CHUNK_SIZE, align)
  }

  /** A region of its own, just large enough for the headers and any alignment. */
  ghost predicate LargeServed(s0: Snapshot, s1: Snapshot, p: nat, size: nat, align: nat) {
    && s1.bk == s0.bk && s1.slabs == s0.slabs
    && if p == 0 then s1.larges == s0.larges && s1.owned == s0.owned
       else
         exists r: nat {:trigger s0.larges[r as int := p]} ::
           && r !in s0.owned && s1.owned == s0.owned[r as int := OVERHEAD + (align - 1) + size]
           && s1.larges == s0.larges[r as int := p]
  }

  /** The block was freed; the region s of its chunk, if the chunk went and the region was not cached, is to go back. */
  ghost predicate Released(s0: Snapshot, s1: Snapshot, a: int, policy: CachePolicy, s: nat) {
    && Freed(s0.bk, s1.bk, a, policy != CacheAll && !PreviousAlloc(Read(s0.mem, a + 8))) && s1.owned == s0.owned
    && Retired(policy, s0.bk.l.chunks, s1.bk.l.chunks, a, s, s0.cached, s0.cachedSize, s1.cached, s1.cachedSize)
  }

  /** p has a region of its own, from p on n bytes. */
  ghost predicate LargeLive(s: Snapshot, p: int, n: int) {
    exists r {:trigger LargeAt(s, r, p, n)} :: LargeAt(s, r, p, n)
  }

  /** stbm__heap_alloc's three ways. */
  ghost predicate ServedBy(s0: Snapshot, s1: Snapshot, p: nat, size: nat, align: nat) {
    if size <= SMALLEST_ALLOCATION then SmallServed(s0, s1, p, align)
    else if size < LARGE_THRESHOLD then MediumServed(s0, s1, p, size, align)
    else LargeServed(s0, s1, p, size, align)
  }

  /** The block at a is merged with its free neighbours, and its chunk goes if it may (Freed); the region of a chunk
      that goes is cached, when that is the policy and none is, or returned to the system, which otherwise is not
      called. */
  ghost predicate BlockFreed(s0: Snapshot, s1: Snapshot, a: int, policy: CachePolicy) {
    && Freed(s0.bk, s1.bk, a, policy != CacheAll && !PreviousAlloc(Read(s0.mem, a + 8)))
    && if a in s0.bk.l.chunks && a !in s1.bk.l.chunks && !(policy == CacheOne && s0.cached == 0) then
         s1.cached == s0.cached && s1.owned == s0.owned - {s0.bk.l.chunks[a].sys}
       else
         && s1.owned == s0.owned
         && s1.cached == if a in s0.bk.l.chunks && a !in s1.bk.l.chunks then s0.bk.l.chunks[a].sys else s0.cached
  }

  ghost predicate MediumReturned(s0: Snapshot, s1: Snapshot, p: int, policy: CachePolicy) {
    BlockFreed(s0, s1, p - HEADER, policy) && s1.slabs == s0.slabs && s1.larges == s0.larges
  }

  /** Cell p was the last one in use of slab c, which is given up. */
  ghost predicate LastCell(slabs0: Slabs, slabs1: Slabs, c: int, p: int) {
    LiveIn(slabs0, c, p - 8) && slabs0[c].live == {p - 8} && slabs1 == slabs0 - {c}
  }

  /** The cell is free again; or it was its slab's last, another empty slab was cached, and the slab's block goes. */
  ghost predicate SmallReturned(s0: Snapshot, s1: Snapshot, p: int, policy: CachePolicy) {
    && s1.larges == s0.larges
    && if s1.slabs.Keys == s0.slabs.Keys then
         && p >= 8 && SmallFreed(s0.slabs, s1.slabs, p - 8)
         && s1.bk == s0.bk && s1.owned == s0.owned && s1.cached == s0.cached
       else
         exists c {:trigger LastCell(s0.slabs, s1.slabs, c, p)} ::
           LastCell(s0.slabs, s1.slabs, c, p) && BlockFreed(s0, s1, c - HEADER, policy)
  }

  /** The allocation's region goes back to the system. */
  ghost predicate LargeReturned(s0: Snapshot, s1: Snapshot, p: int) {
    && s1.bk == s0.bk && s1.slabs == s0.slabs
    && exists r {:trigger s0.larges - {r}} :: r in s0.larges && s0.larges[r] == p
         && s1.larges == s0.larges - {r} && s1.owned == s0.owned - {r}
  }

  /** stbm__heap_free's three ways. */
  ghost predicate FreedBy(s0: Snapshot, s1: Snapshot, p: int, policy: CachePolicy) {
    if UserBlock(s0, p) then MediumReturned(s0, s1, p, policy)
    else if SmallLive(s0.slabs, p) then SmallReturned(s0, s1, p, policy)
    else LargeReturned(s0, s1, p)
  }

  /** The first block of the chunk that was set up in region s. */
  ghost predicate Completed(bk0: Book, bk1: Book, a: int, s: nat, region: nat, size: nat, align: nat) {
    && Granted(bk0, bk1, a, size, ClassFor(size, align)) && a !in bk0.l.size && a in bk1.l.chunks
    && bk1.l.chunks[a].sys == s && bk1.l.chunks[a].bytes == region
  }

  /** The same, before the system is asked. */
  ghost predicate Began(s0: Snapshot, s1: Snapshot, p: nat, size: nat, align: nat) {
    var c := ClassFor(size, align);
    && (p == 0 ==> NoneFrom(s0.bk.lists, c) && s1.bk == s0.bk && s1.owned == s0.owned - Cached(s0.cached))
    && (p != 0 ==> Allocated(s0.bk, s1.bk, p - HEADER, size, c))
    && (!NoneFrom(s0.bk.lists, c) ==> p != 0 && s1.owned == s0.owned)
    && (NoneFrom(s0.bk.lists, c) && p != 0 ==> ChunkFrom(s0, s1, p - HEADER))
  }

  class StbmHeap {
    const medium: MediumHeap
    const small: SmallHeap
    const large: LargeHeap

    ghost var live: map<int, int>

    ghost function Snap(): Snapshot
      reads this, medium, medium.system, small, large
    {
      Snapshot(medium.mem, medium.system.owned, medium.ring, medium.cached, medium.cachedSize, medium.foreign,
               medium.others, medium.bk, small.slabs, large.larges, large.bare)
    }

    /** The three allocators' invariants, on one memory. */
    ghost predicate Sane()
      reads this, medium, medium.system, small, large
    {
      small.medium == medium && large.medium == medium && small.Valid() && large.Valid()
    }

    /** Sane, were memory to hold m. */
    ghost predicate SaneAt(m: Memory)
      reads this, medium, medium.system, small, large
    {
      && small.medium == medium && large.medium == medium && medium.ValidAt(m)
      && SlabsOk(m, medium.heap, medium.bk, small.slabs, small.nonfull, small.full, small.chunkcache, {}, {})
      && LargesOk(m, medium.system.owned, medium.heap, medium.align, medium.foreign, large.larges, large.bare)
      && Whole(Snap().(mem := m), medium.align, medium.heap)
    }

    ghost predicate Valid()
      reads this, medium, medium.system, small, large
    {
      Sane() && Refines(live, Snap()) && Counted(medium.count, medium.bytes, Snap())
    }

    /** Valid, no thread in a critical section, and every header written. */
    ghost predicate Idle()
      reads this, medium, medium.system, medium.lock, small, large
    {
      Valid() && medium.lock.Free() && large.bare == map[]
    }

    /** stbm_heap_init, on storage obtained from the system. */
    constructor (system: System, lock: SpinLock, heap: nat, align: nat, ghost alignLog: nat, mem: Memory,
                 policy: CachePolicy)
      requires AlignmentOk(align, alignLog)
      requires heap > 0 && heap in system.owned && system.owned == map[heap as int := system.owned[heap]]
      requires system.owned[heap] >= HEAP_BYTES
      requires lock.Free()
      ensures Idle() && live == map[] && medium.others == {} && medium.align == align && medium.heap == heap
      ensures medium.system == system && medium.lock == lock
      ensures fresh(medium) && fresh(small) && fresh(large) && small.slabs == map[]
    {
      hide Core, SysOk, SlabsOk, LargesOk, Settled, AlignmentOk, Refines, Counted;
      var m := new MediumHeap(system, lock, heap, align, alignLog, mem, policy);
      var s := new SmallHeap(m);
      var l := new LargeHeap(m);
      medium, small, large := m, s, l;
      live := map[];
      new;
      EmptyView(Snap());
    }

    // Between its critical sections a thread may hold a region of the system's, which is then among medium.others,
    // or a medium block that is to house a slab or did, which is then an ordinary live allocation.

    /** system_alloc, called without the lock. */
    method Obtain(bytes: nat) returns (s: nat)
      requires Valid() && bytes >= SYSTEM_HEADER
      modifies medium.system, medium`others
      ensures Valid() && medium.system.refusals == old(medium.system.refusals) + if s == 0 then 1 else 0
      ensures s == 0 ==> medium.system.owned == old(medium.system.owned) && medium.others == old(medium.others)
      ensures s != 0 ==> s as int !in old(medium.others) && medium.others == old(medium.others) + {s as int}
      ensures s != 0 ==>
        s !in old(medium.system.owned) && medium.system.owned == old(medium.system.owned)[s as int := bytes]
      ensures KindsStay(live, old(Snap()), live, Snap())
    {
      hide Core, SysOk, SlabsOk, Settled, AlignmentOk, LargesOk, Refines, Counted, Whole;
      ghost var s0 := Snap();
      WholeHere(this);
      ForeignKept(s0, medium.align, medium.heap);
      s := medium.Obtain(bytes);
      if s != 0 {
        KeptGrant(s0.owned, s0.owned, s0.foreign, s, bytes);
      }
      RegionsMoved(this, s0);
    }

    /** system_free, called without the lock. */
    method Discard(s: nat)
      requires Valid() && s as int in medium.others
      modifies medium.system, medium`others
      ensures Valid() && medium.others == old(medium.others) - {s as int}
      ensures s in old(medium.system.owned) && medium.system.owned == old(medium.system.owned) - {s as int}
      ensures medium.system.refusals == old(medium.system.refusals)
      ensures KindsStay(live, old(Snap()), live, Snap())
    {
      hide Core, SysOk, SlabsOk, Settled, AlignmentOk, LargesOk, Refines, Counted, Whole;
      ghost var s0 := Snap();
      WholeHere(this);
      HandsNotForeign(s0, medium.align, medium.heap, s);
      ForeignKept(s0, medium.align, medium.heap);
      KeptReturn(s0.owned, s0.foreign, s);
      medium.Discard(s);
      RegionsMoved(this, s0);
    }

    /** The first critical section of stbm__medium_alloc; when it cannot serve the request, how large a region to ask
        the system for. */
    method MediumBegin(size: nat, ghost me: nat) returns (p: nat, ask: nat)
      requires medium.lock.HeldBy(me) && Valid() && 0 < size < LARGE_THRESHOLD
      modifies medium, medium.lock, medium.system, this`live
      ensures medium.lock.Free() && Valid() && Served(old(live), live, p, size, medium.align)
      ensures medium.others == old(medium.others)
      ensures p != 0 ==> p % medium.align == 0 && UserBlock(Snap(), p)
      ensures p != 0 && size > SMALLEST_ALLOCATION ==> Measured(live[p], size, medium.align)
      ensures p == 0 ==> RoomFor(size, medium.align, ask)
      ensures Began(old(Snap()), Snap(), p, size, medium.align)
      ensures DataKept(old(live), live, old(medium.mem), medium.mem) && KindsStay(old(live), old(Snap()), live, Snap())
      ensures RegionsKept(old(medium.system.owned), medium.system.owned, medium.others)
      ensures medium.system.refusals == old(medium.system.refusals)
    {
      hide Core, SysOk, Read, SlabsOk, Settled, AlignmentOk, LargesOk, Quiet, LargesKept, Refines, Counted;
      hide Servable, WantOf;
      hide NoneFrom, DataKept, Whole, Allocated, Granted, Housed, SlabOk, Supplied, RegionsKept, KindsStay, ClassSize;
      hide Began, Measured;
      ghost var s0, count0, bytes0, cur0 := Snap(), medium.count, medium.bytes, medium.curChunk;
      WholeHere(this);
      MediumParts(medium);
      BelowThreshold(size, medium.align, medium.alignLog);
      AlignmentFacts(medium.align, medium.alignLog);
      PinnedHere(medium);
      p, ask := medium.Begin(size, me);
      MediumParts(medium);
      ghost var s1 := Snap();
      BeganHere(s0, s1, p, ask, size, medium.align, cur0, medium.curChunk, medium.maxChunk, medium.heap)
        by { ShapeHere(medium); }
      if p == 0 {
        OwnedMoved(s0, s1, medium.align, medium.heap);
        WholeHere(this);
        NothingDone(live, s0, s1, medium.align, medium.heap, count0, bytes0);
        return;
      }
      AllocatedGranted(s0.bk, medium.bk, p - HEADER, size, WantOf(size, medium.align).Class());
      NewBlock(s0.bk, medium.bk, p - HEADER, size, WantOf(size, medium.align).Class());
      BlockCame(this, s0, p, count0, bytes0);
      live := live[p as int := medium.bk.l.size[p - HEADER] - HEADER];
      if size > SMALLEST_ALLOCATION {
        BlockMeasured(s0.bk, medium.bk, p - HEADER, size, medium.align) by { ClassIs(size, medium.align); }
      }
      MultipleTrans(p, medium.align, 16);
    }

    /** The second critical section of stbm__medium_alloc: the request is served from region s. */
    method MediumComplete(s: nat, region: nat, size: nat, ghost me: nat) returns (p: nat)
      requires medium.lock.HeldBy(me) && Valid() && 0 < size < LARGE_THRESHOLD && RoomFor(size, medium.align, region)
      requires s as int in medium.others && s in medium.system.owned && medium.system.owned[s] == region
      modifies medium, medium.lock, this`live
      ensures medium.lock.Free() && Valid() && p != 0 && Served(old(live), live, p, size, medium.align)
      ensures medium.others == old(medium.others) - {s as int}
      ensures p % medium.align == 0 && UserBlock(Snap(), p)
      ensures size > SMALLEST_ALLOCATION ==> Measured(live[p], size, medium.align)
      ensures Completed(old(medium.bk), medium.bk, p - HEADER, s, region, size, medium.align)
      ensures DataKept(old(live), live, old(medium.mem), medium.mem) && KindsStay(old(live), old(Snap()), live, Snap())
    {
      hide Core, SysOk, Read, SlabsOk, Settled, AlignmentOk, LargesOk, Quiet, LargesKept, Refines, Counted;
      hide Servable, WantOf;
      hide DataKept, Whole, Granted, Housed, SlabOk, KindsStay, ClassSize;
      ghost var s0, count0, bytes0 := Snap(), medium.count, medium.bytes;
      WholeHere(this);
      MediumParts(medium);
      ForeignKept(s0, medium.align, medium.heap);
      AlignmentFacts(medium.align, medium.alignLog);
      PinnedHere(medium);
      p := medium.Complete(s, region, size, me);
      NewBlock(s0.bk, medium.bk, p - HEADER, size, WantOf(size, medium.align).Class());
      BlockCame(this, s0, p, count0, bytes0);
      live := live[p as int := medium.bk.l.size[p - HEADER] - HEADER];
      if size > SMALLEST_ALLOCATION {
        BlockMeasured(s0.bk, medium.bk, p - HEADER, size, medium.align) by { ClassIs(size, medium.align); }
      }
      MultipleTrans(p, medium.align, 16);
    }

    /** stbm__medium_alloc. */
    method MediumAlloc(size: nat) returns (p: nat)
      requires Idle() && 0 < size < LARGE_THRESHOLD
      modifies medium, medium.system, medium.lock, this`live
      ensures Idle() && Served(old(live), live, p, size, medium.align) && medium.others == old(medium.others)
      ensures p != 0 ==> p % medium.align == 0 && UserBlock(Snap(), p)
      ensures MediumServed(old(Snap()), Snap(), p, size, medium.align)
      ensures medium.system.refusals == old(medium.system.refusals) + if p == 0 then 1 else 0
      ensures DataKept(old(live), live, old(medium.mem), medium.mem)
      ensures UserdataKept(old(live), live, {}, old(medium.mem), medium.mem)
    {
      hide Sane, Refines, Counted, DataKept, UserdataKept, KindsStay, Valid, UserBlock, RoomFor, Began, MediumServed;
      hide Completed;
      ghost var others0, s0, live0 := medium.others, Snap(), live;
      var ask;
      medium.lock.Acquire(0);
      p, ask := MediumBegin(size, 0);
      KindsUserdata(live0, s0, live, Snap());
      BeganServed(s0, Snap(), p, size, medium.align);
      if p != 0 {
        return;
      }
      ghost var m1, begun := medium.mem, Snap();
      RoomForIs(size, medium.align, ask);
      var s := Obtain(ask);
      if s == 0 {
        RefusedServed(s0, begun, Snap(), size, medium.align);
        return 0;
      }
      ghost var s1 := Snap();
      medium.lock.Acquire(0);
      p := MediumComplete(s, ask, size, 0);
      CompletedServed(s0, begun, Snap(), p, size, medium.align, s, ask);
      KindsUserdata(live0, s1, live, Snap());
      DataTrans(live0, live0, live, s0.mem, m1, medium.mem);
      UserdataTrans(live0, live0, live, {}, s0.mem, m1, medium.mem);
      assert medium.others == others0;
    }

    /** The critical section of stbm__medium_free; s is a region to return, unless 0. */
    method MediumRelease(p: nat, ghost me: nat) returns (s: nat)
      requires medium.lock.HeldBy(me) && Valid() && p in live && UserBlock(Snap(), p)
      modifies medium, medium.lock, this`live
      ensures medium.lock.Free() && Valid() && live == old(live) - {p as int}
      ensures InHand(old(medium.others), medium.others, s)
      ensures Released(old(Snap()), Snap(), p - HEADER, medium.policy, s)
      ensures DataKept(old(live), live, old(medium.mem), medium.mem) && KindsStay(old(live), old(Snap()), live, Snap())
    {
      hide Core, SysOk, Read, SlabsOk, Settled, AlignmentOk, LargesOk, Quiet, LargesKept, Refines, Counted;
      hide DataKept, Whole;
      hide Freed, Housed, SlabOk, PreviousAlloc, InHand, Retired, KindsStay, Released;
      ghost var s0, count0, bytes0 := Snap(), medium.count, medium.bytes;
      WholeHere(this);
      MediumParts(medium);
      ForeignKept(s0, medium.align, medium.heap);
      LiveBlockPositive(s0, medium.align, medium.heap, p);
      s := medium.Release(p, me);
      FreedLive(s0.bk, medium.bk, p - HEADER, medium.policy != CacheAll && !PreviousAlloc(Read(s0.mem, p - 8)));
      MediumParts(medium);
      ghost var s1 := Snap();
      ReleasedHere(s0, s1, p - HEADER, medium.policy, s);
      SlabsSurvive(s0, s1, medium.heap, medium.bk.live, small.nonfull, small.full, small.chunkcache, medium.align);
      LargesSurvive(s0, s1, medium.align, medium.heap, medium.bk.live);
      WholeHere(this);
      MediumFreed(live, s0, s1, medium.align, medium.heap, p - HEADER, count0, bytes0, medium.count, medium.bytes);
      live := live - {p as int};
    }

    /** stbm__medium_free of a caller's block. */
    method MediumFree(p: nat)
      requires Idle() && p in live && UserBlock(Snap(), p)
      modifies medium, medium.system, medium.lock, this`live
      ensures Idle() && live == old(live) - {p as int} && medium.others == old(medium.others)
      ensures MediumReturned(old(Snap()), Snap(), p, medium.policy)
      ensures medium.system.refusals == old(medium.system.refusals)
      ensures DataKept(old(live), live, old(medium.mem), medium.mem)
      ensures UserdataKept(old(live), live, {}, old(medium.mem), medium.mem)
    {
      hide Sane, Refines, Counted, DataKept, UserdataKept, KindsStay, Valid, UserBlock, InHand, Released, BlockFreed;
      ghost var others0, s0, live0 := medium.others, Snap(), live;
      ChunksHere(this);
      medium.lock.Acquire(0);
      var s := MediumRelease(p, 0);
      KindsUserdata(live0, s0, live, Snap());
      HandIs(others0, medium.others, s);
      ghost var s1 := Snap();
      if s != 0 {
        Discard(s);
      }
      ReleasedFreed(s0, s1, Snap(), p - HEADER, medium.policy, s);
    }

    /** The first critical section of stbm__small_alloc; 0 when every slab is full. */
    method SmallTry(ghost me: nat) returns (p: nat)
      requires medium.lock.HeldBy(me) && Valid()
      modifies medium, medium.lock, small, this`live
      ensures medium.lock.Free() && Valid() && Served(old(live), live, p, SMALLEST_ALLOCATION, medium.align)
      ensures medium.others == old(medium.others) && (p != 0 ==> live[p] == SMALLEST_ALLOCATION)
      ensures p == 0 ==> small.slabs == old(small.slabs) && NoCellLeft(small.slabs)
      ensures p != 0 ==> SmallTaken(old(small.slabs), small.slabs, p - 8)
      ensures medium.bk == old(medium.bk) && medium.cached == old(medium.cached)
      ensures DataKept(old(live), live, old(medium.mem), medium.mem) && KindsStay(old(live), old(Snap()), live, Snap())
    {
      hide Core, SysOk, Read, SlabsOk, Settled, AlignmentOk, LargesOk, SmallWrites, LargesKept, Refines, Counted;
      hide DataKept;
      hide Whole, SlabOk, SmallTaken, NoCellLeft, SmallStep, CellsKept, KindsStay;
      ghost var s0, count0, bytes0 := Snap(), medium.count, medium.bytes;
      WholeHere(this);
      MediumParts(medium);
      AlignmentFacts(medium.align, medium.alignLog);
      p := small.TryAlloc(me);
      MediumParts(medium);
      ghost var s1 := Snap();
      if p == 0 {
        SnapSame(live, s0, s1);
        return;
      }
      SmallStepHere(s0, s1, medium.align, medium.heap);
      WholeHere(this);
      SmallAllocated(live, s0, s1, medium.align, medium.heap, p - 8, count0, bytes0, medium.count, medium.bytes);
      live := live[p as int := SMALLEST_ALLOCATION];
    }

    /** The second critical section of stbm__small_alloc: block c comes to house a slab, which serves the request. */
    method SmallAdopt(c: nat, ghost me: nat) returns (p: nat)
      requires medium.lock.HeldBy(me) && Valid() && UserBlock(Snap(), c) && c in live && live[c] >= CHUNK_SIZE
      requires c % 16 == 0
      modifies medium, medium.lock, small, this`live
      ensures medium.lock.Free() && Valid() && p != 0 && p % 16 == 0 && medium.others == old(medium.others)
      ensures p !in old(live) - {c as int} && live == (old(live) - {c as int})[p as int := SMALLEST_ALLOCATION]
      ensures NewSlabGives(old(small.slabs), small.slabs, c, p)
      ensures medium.bk == old(medium.bk) && medium.cached == old(medium.cached)
      ensures DataKept(old(live), live, old(medium.mem), medium.mem) && KindsStay(old(live), old(Snap()), live, Snap())
    {
      hide Core, SysOk, Read, SlabsOk, Settled, AlignmentOk, LargesOk, SmallWrites, LargesKept, Refines, Counted;
      hide DataKept;
      hide Whole, SlabOk, SmallTaken, SmallStep, CellsKept, KindsStay, Housed, HousedIn;
      ghost var s0, count0, bytes0 := Snap(), medium.count, medium.bytes;
      WholeHere(this);
      MediumParts(medium);
      BlockHouses(live, s0, medium.align, medium.heap, c);
      ghost var s' := s0.(slabs := s0.slabs[c as int := Cells({}, [])]);
      HousedEmpty(s0, s', c);
      p := small.Adopt(c, me);
      MediumParts(medium);
      ghost var s1 := Snap();
      Housing(live, s0, s', medium.align, medium.heap, c, count0, bytes0);
      SmallStepHere(s', s1, medium.align, medium.heap);
      WholeHere(this);
      SmallAllocated(live - {c as int}, s', s1, medium.align, medium.heap, p - 8, count0, bytes0, medium.count,
                     medium.bytes);
      AdoptedKept(live, (live - {c as int})[p as int := SMALLEST_ALLOCATION], s0, s', s1, c, p);
      live := (live - {c as int})[p as int := SMALLEST_ALLOCATION];
    }

    /** stbm__small_alloc; 0 when there is no memory. */
    method SmallAlloc(size: nat) returns (p: nat)
      requires Idle() && size <= SMALLEST_ALLOCATION
      modifies medium, medium.system, medium.lock, small, this`live
      ensures Idle() && Served(old(live), live, p, size, medium.align) && medium.others == old(medium.others)
      ensures medium.system.refusals == old(medium.system.refusals) + if p == 0 then 1 else 0
      ensures p != 0 ==> CellGiven(old(small.slabs), small.slabs, p)
      ensures SmallServed(old(Snap()), Snap(), p, medium.align)
      ensures DataKept(old(live), live, old(medium.mem), medium.mem)
      ensures UserdataKept(old(live), live, {}, old(medium.mem), medium.mem)
    {
      hide Sane, Refines, Counted, DataKept, UserdataKept, KindsStay, Valid, UserBlock, NoCellLeft, SmallTaken;
      hide BlockServed, NewSlabGives;
      ghost var m0, live0, s0 := medium.mem, live, Snap();
      medium.lock.Acquire(0);
      p := SmallTry(0);
      KindsUserdata(live0, s0, live, Snap());
      if p == 0 {
        ghost var m1, s1 := medium.mem, Snap();
        var c := MediumAlloc(CHUNK_SIZE);
        ghost var m2, live2 := medium.mem, live;
        DataTrans(live0, live0, live2, m0, m1, m2);
        UserdataTrans(live0, live0, live2, {}, m0, m1, m2);
        BlockLater(s0, s1, Snap(), c, CHUNK_SIZE, medium.align);
        if c == 0 {
          return 0;
        }
        ghost var s2 := Snap();
        medium.lock.Acquire(0);
        p := SmallAdopt(c, 0);
        BlockStays(s0, s2, Snap(), c, CHUNK_SIZE, medium.align);
        NewNotOld(s0.slabs, small.slabs, c, p);
        KindsUserdata(live2, s2, live, Snap());
        assert live == live0[p as int := SMALLEST_ALLOCATION];
        DataTrans(live0, live2, live, m0, m2, medium.mem);
        UserdataTrans(live0, live2, live, {}, m0, m2, medium.mem);
      }
    }

    /** The critical section of stbm__small_free; c is a block to free, unless 0. */
    method SmallRelease(p: nat, ghost me: nat) returns (c: nat)
      requires medium.lock.HeldBy(me) && Valid() && p in live && SmallLive(small.slabs, p)
      modifies medium, medium.lock, small, this`live
      ensures medium.lock.Free() && Valid() && medium.others == old(medium.others)
      ensures p >= 8 && (c == 0 ==> live == old(live) - {p as int})
      ensures c == 0 ==> SmallFreed(old(small.slabs), small.slabs, p - 8) && small.slabs.Keys == old(small.slabs).Keys
      ensures c != 0 ==> LastCell(old(small.slabs), small.slabs, c, p)
      ensures medium.bk == old(medium.bk) && medium.cached == old(medium.cached)
      ensures c != 0 ==> Read(medium.mem, c - 8) == old(Read(medium.mem, c - 8))
      ensures c != 0 ==>
        c !in old(live) && c in live && live == (old(live) - {p as int})[c as int := live[c]] && UserBlock(Snap(), c)
      ensures DataKept(old(live), live, old(medium.mem), medium.mem) && KindsStay(old(live), old(Snap()), live, Snap())
    {
      hide Core, SysOk, Read, SlabsOk, Settled, AlignmentOk, LargesOk, SmallWrites, LargesKept, Refines, Counted;
      hide DataKept;
      hide Whole, SlabOk, SmallFreed, SmallLive, SmallStep, CellsKept, KindsStay, HousedIn, LiveIn, Housed, LastCell;
      ghost var s0, count0, bytes0 := Snap(), medium.count, medium.bytes;
      WholeHere(this);
      MediumParts(medium);
      CellPositive(s0, medium.align, medium.heap, p);
      c := small.FreeCell(p, me);
      MediumParts(medium);
      ghost var s1 := Snap();
      if c == 0 {
        SmallStepHere(s0, s1, medium.align, medium.heap);
        WholeHere(this);
        SmallFreedStep(live, s0, s1, medium.align, medium.heap, p - 8, count0, bytes0, medium.count, medium.bytes);
        live := live - {p as int};
      } else {
        ghost var s' := s1.(slabs := Emptied(s0.slabs, c, p - 8));
        EmptiedFacts(s0, s', s1, medium.heap, c, p - 8);
        SlabHeaderKept(s0, medium.mem, medium.align, medium.heap, c);
        LastCellIs(s0.slabs, small.slabs, c, p);
        SmallStepHere(s0, s', medium.align, medium.heap);
        WholeHere(this);
        SmallFreedStep(live, s0, s', medium.align, medium.heap, p - 8, count0, bytes0, medium.count, medium.bytes);
        HousedSized(s1.bk, c);
        ghost var n := s1.bk.l.size[c - HEADER] - HEADER;
        Unhousing(live - {p as int}, s1, s', medium.align, medium.heap, c, medium.count, medium.bytes);
        ReleasedKept(live, (live - {p as int})[c as int := n], s0, s', s1, c, p);
        live := (live - {p as int})[c as int := n];
      }
    }

    /** stbm__small_free of a live cell. */
    method SmallFree(p: nat)
      requires Idle() && p in live && SmallLive(small.slabs, p)
      modifies medium, medium.system, medium.lock, small, this`live
      ensures Idle() && live == old(live) - {p as int} && medium.others == old(medium.others)
      ensures SmallReturned(old(Snap()), Snap(), p, medium.policy)
      ensures medium.system.refusals == old(medium.system.refusals)
      ensures DataKept(old(live), live, old(medium.mem), medium.mem)
      ensures UserdataKept(old(live), live, {}, old(medium.mem), medium.mem)
    {
      hide Sane, Refines, Counted, DataKept, UserdataKept, KindsStay, Valid, UserBlock, SmallLive;
      hide BlockFreed, SmallFreed;
      ghost var m0, live0, s0 := medium.mem, live, Snap();
      medium.lock.Acquire(0);
      var c := SmallRelease(p, 0);
      KindsUserdata(live0, s0, live, Snap());
      if c != 0 {
        ghost var m1, live1, s1 := medium.mem, live, Snap();
        MediumFree(c);
        LastReturned(s0, s1, Snap(), c, p, medium.policy);
        assert live == live0 - {p as int};
        DataTrans(live0, live1, live, m0, m1, medium.mem);
        UserdataTrans(live0, live1, live, {}, m0, m1, medium.mem);
      }
    }

    /** The critical section of stbm__large_alloc, for region s obtained before it. */
    method LargeEnlist(s: nat, size: nat, ghost me: nat) returns (p: nat, userSize: nat)
      requires medium.lock.HeldBy(me) && Valid() && 0 < size < WORD64 - 0x10_0000 && medium.align > 0
      requires s as int in medium.others && s in medium.system.owned
      requires medium.system.owned[s] == OVERHEAD + (medium.align - 1) + size
      modifies medium, medium.lock, large, this`live
      ensures medium.lock.Free() && Valid() && p != 0 && Served(old(live), live, p, size, medium.align)
      ensures medium.others == old(medium.others) - {s as int} && userSize == live[p]
      ensures p !in old(large.bare) && large.bare == old(large.bare)[p as int := s]
      ensures medium.bk == old(medium.bk) && large.larges == old(large.larges)[s as int := p]
      ensures live[p] == s + medium.system.owned[s] - p < size + medium.align
      ensures DataKept(old(live), live, old(medium.mem), medium.mem) && KindsStay(old(live), old(Snap()), live, Snap())
    {
      hide Core, SysOk, Read, SlabsOk, Settled, AlignmentOk, LargesOk, LargeQuiet, LargesKept, Refines, Counted;
      hide DataKept;
      hide Whole, SlabOk, LargeAdded, KindsStay;
      ghost var s0, count0, bytes0 := Snap(), medium.count, medium.bytes;
      WholeHere(this);
      MediumParts(medium);
      AlignmentFacts(medium.align, medium.alignLog);
      p, userSize := large.Enlist(s, size, me);
      ghost var s1 := Snap();
      LargeAddedIs(s0.larges, large.larges, medium.system.owned, s, p, size);
      SlabsUnderLarge(s0, s1, medium.align, medium.heap, s, medium.system.owned[s], small.nonfull, small.full,
                      small.chunkcache);
      WholeHere(this);
      LargeAllocated(live, s0, s1, medium.align, medium.heap, s, p, size, count0, bytes0, medium.count, medium.bytes);
      live := live[p as int := UserSize(s, medium.system.owned[s], p)];
      MultipleTrans(p, medium.align, 16);
    }

    /** The words before the user data, written after the lock is released; until then only the thread that allocated
        it has the pointer. */
    method LargeHeader(s: nat, p: nat, userSize: nat)
      requires Valid() && p in live && p in large.bare && large.bare[p] == s && userSize == live[p]
      modifies medium`mem, large`bare
      ensures Valid() && large.bare == old(large.bare) - {p as int}
      ensures DataKept(live, live, old(medium.mem), medium.mem) && KindsStay(live, old(Snap()), live, Snap())
    {
      hide Core, SysOk, Read, SlabsOk, Settled, AlignmentOk, LargesOk, LargesKept, Refines, Counted, DataKept;
      hide Whole, SlabOk, SameInside, KindsStay;
      ghost var s0 := Snap();
      WholeHere(this);
      BareAt(live, s0, medium.align, medium.heap, p);
      large.WriteHeader(s, p, userSize);
      HeaderNotData(live, s0, medium.mem, medium.align, medium.heap, s, p);
      SlabsAway(s0, medium.mem, medium.align, medium.heap, s, small.nonfull, small.full, small.chunkcache);
      SameExtents(live, s0, Snap(), medium.count, medium.bytes);
      KindsAt(live, s0, Snap(), {p as int});
    }

    /** stbm__large_alloc; 0 when there is no memory. */
    method LargeAlloc(size: nat) returns (p: nat)
      requires Idle() && 0 < size < WORD64 - 0x10_0000
      modifies medium, medium.system, medium.lock, large, this`live
      ensures Idle() && Served(old(live), live, p, size, medium.align) && medium.others == old(medium.others)
      ensures LargeServed(old(Snap()), Snap(), p, size, medium.align)
      ensures p != 0 ==> LargeLive(Snap(), p, live[p])
      ensures medium.system.refusals == old(medium.system.refusals) + if p == 0 then 1 else 0
      ensures DataKept(old(live), live, old(medium.mem), medium.mem)
      ensures UserdataKept(old(live), live, {}, old(medium.mem), medium.mem)
    {
      hide Core, SysOk, SlabsOk, Settled, LargesOk, Refines, Counted, DataKept, UserdataKept, KindsStay, Whole;
      ghost var others0, live0, m0 := medium.others, live, medium.mem;
      AlignmentFacts(medium.align, medium.alignLog);
      var s := Obtain(large.Actual(size));
      if s == 0 {
        NoDataLost(live, medium.mem);
        return 0;
      }
      ghost var s0 := Snap();
      medium.lock.Acquire(0);
      var userSize;
      p, userSize := LargeEnlist(s, size, 0);
      ghost var s1 := Snap();
      KindsUserdata(live0, s0, live, s1);
      LargeHeader(s, p, userSize);
      assert LargeAt(Snap(), s, p, live[p]);
      KindsUserdata(live, s1, live, Snap());
      assert medium.others == others0 && s1.bare.Keys == {p as int};
      DataTrans(live0, live, live, m0, s1.mem, medium.mem);
      UserdataTrans(live0, live, live, {p as int}, m0, s1.mem, medium.mem);
    }

    /** The critical section of stbm__large_free; s is the region to return. */
    method LargeDelist(p: nat, ghost r: int, ghost me: nat) returns (s: nat)
      requires medium.lock.HeldBy(me) && Valid() && p in live && r in large.larges && large.larges[r] == p
      requires p !in large.bare
      modifies medium, medium.lock, large, this`live
      ensures medium.lock.Free() && Valid() && live == old(live) - {p as int} && large.bare == old(large.bare)
      ensures s != 0 && s as int !in old(medium.others) && medium.others == old(medium.others) + {s as int}
      ensures s == r && large.larges == old(large.larges) - {r} && medium.bk == old(medium.bk)
      ensures DataKept(old(live), live, old(medium.mem), medium.mem) && KindsStay(old(live), old(Snap()), live, Snap())
    {
      hide Core, SysOk, Read, SlabsOk, Settled, AlignmentOk, LargesOk, LargeQuiet, LargesKept, Refines, Counted;
      hide DataKept;
      hide Whole, SlabOk, KindsStay;
      ghost var s0, count0, bytes0 := Snap(), medium.count, medium.bytes;
      WholeHere(this);
      s := large.Delist(p, r, me);
      ghost var s1 := Snap();
      SlabsUnderLarge(s0, s1, medium.align, medium.heap, 0, 0, small.nonfull, small.full, small.chunkcache);
      WholeHere(this);
      LargeFreedStep(live, s0, s1, medium.align, medium.heap, r, p, count0, bytes0, medium.count, medium.bytes);
      live := live - {p as int};
    }

    /** stbm__large_free. */
    method LargeFree(p: nat, ghost r: int)
      requires Idle() && p in live && r in large.larges && large.larges[r] == p
      modifies medium, medium.system, medium.lock, large, this`live
      ensures Idle() && live == old(live) - {p as int} && medium.others == old(medium.others)
      ensures LargeReturned(old(Snap()), Snap(), p)
      ensures medium.system.refusals == old(medium.system.refusals)
      ensures DataKept(old(live), live, old(medium.mem), medium.mem)
      ensures UserdataKept(old(live), live, {}, old(medium.mem), medium.mem)
    {
      hide Sane, Refines, Counted, DataKept, UserdataKept, KindsStay, Valid;
      ghost var others0, s0, live0 := medium.others, Snap(), live;
      medium.lock.Acquire(0);
      var s := LargeDelist(p, r, 0);
      KindsUserdata(live0, s0, live, Snap());
      Discard(s);
      assert medium.others == others0;
    }

    /** stbm__heap_alloc; 0 when there is no memory. */
    method HeapAlloc(size: nat) returns (p: nat)
      requires Idle() && size < WORD64 - 0x10_0000
      modifies medium, medium.system, medium.lock, small, large, this`live
      ensures Idle() && Served(old(live), live, p, size, medium.align) && medium.others == old(medium.others)
      ensures medium.system.refusals == old(medium.system.refusals) + if p == 0 then 1 else 0
      ensures size <= SMALLEST_ALLOCATION && p != 0 ==> CellGiven(old(small.slabs), small.slabs, p)
      ensures SMALLEST_ALLOCATION < size < LARGE_THRESHOLD && p != 0 ==> UserBlock(Snap(), p)
      ensures size >= LARGE_THRESHOLD && p != 0 ==> LargeLive(Snap(), p, live[p])
      ensures ServedBy(old(Snap()), Snap(), p, size, medium.align)
      ensures DataKept(old(live), live, old(medium.mem), medium.mem)
      ensures UserdataKept(old(live), live, {}, old(medium.mem), medium.mem)
    {
      hide *;
      ghost var s0 := Snap();
      ThreeWays();
      if size <= SMALLEST_ALLOCATION {
        p := SmallAlloc(size);
        ServedSmall(s0, Snap(), p, size, medium.align);
      } else if size < LARGE_THRESHOLD {
        p := MediumAlloc(size);
        ServedMedium(s0, Snap(), p, size, medium.align);
      } else {
        p := LargeAlloc(size);
        ServedLarge(s0, Snap(), p, size, medium.align);
      }
    }

    /** stbm__heap_free. */
    method HeapFree(p: nat)
      requires Idle() && p in live
      modifies medium, medium.system, medium.lock, small, large, this`live
      ensures Idle() && live == old(live) - {p as int} && medium.others == old(medium.others)
      ensures FreedBy(old(Snap()), Snap(), p, medium.policy)
      ensures medium.system.refusals == old(medium.system.refusals)
      ensures DataKept(old(live), live, old(medium.mem), medium.mem)
      ensures UserdataKept(old(live), live, {}, old(medium.mem), medium.mem)
    {
      hide Sane, Refines, Counted, DataKept, UserdataKept, Read, Type, UserBlock, SmallLive, Valid;
      hide MediumReturned, SmallReturned, LargeReturned;
      Tagged(this, p);
      OneKind(this, p);
      var prefix := Read(medium.mem, p - 8);
      if Type(prefix) == TYPE_MEDIUM {
        MediumFree(p);
      } else if Type(prefix) == TYPE_SMALL {
        SmallFree(p);
      } else {
        assert Type(prefix) == TYPE_LARGE;   // otherwise the header is corrupt
        ghost var r :| LargeAt(Snap(), r, p, live[p]);
        LargeFree(p, r);
      }
    }

    /** stbm_get_allocation_size, for allocations of this layer. */
    method GetAllocationSize(p: nat) returns (size: int)
      requires Valid() && p in live && p !in large.bare
      ensures size == live[p]
    {
      hide Core, SysOk, SlabsOk, Settled, AlignmentOk, LargesOk, Refines, Counted, Read, Type, SmallLive;
      Tagged(this, p);
      var prefix := Read(medium.mem, p - 8);
      if Type(prefix) == TYPE_MEDIUM {
        BlockTag(this, p);
        size := medium.SizeOf(p);
      } else if Type(prefix) == TYPE_SMALL {
        size := SMALLEST_BLOCK_SIZE - 8;
      } else {
        ghost var r :| LargeAt(Snap(), r, p, live[p]);
        LargeWords(this, p, r);
        size := Read(medium.mem, p - 24);
      }
    }

    /** stbm_get_heap. */
    method GetHeap(p: nat) returns (h: nat)
      requires Valid() && p in live && p !in large.bare
      ensures h == medium.heap
    {
      hide Core, SysOk, SlabsOk, Settled, AlignmentOk, LargesOk, Refines, Counted, Read, Type, SmallLive;
      Tagged(this, p);
      var prefix := Read(medium.mem, p - 8);
      if MediumOrLarge(prefix) {
        if Type(prefix) == TYPE_MEDIUM {
          BlockTag(this, p);
        } else {
          ghost var r :| LargeAt(Snap(), r, p, live[p]);
          LargeWords(this, p, r);
        }
        h := Read(medium.mem, p - 16);
      } else {
        CellTag(this, p);
        h := Read(medium.mem, prefix + 8);
      }
    }

    /** A caller stores a word in its own live allocation. */
    method Store(p: nat, w: nat, v: nat)
      requires Valid() && DataWord(live, p, w) && p !in large.bare
      modifies medium`mem
      ensures Valid() && medium.mem == Write(old(medium.mem), w, v)
      ensures UserdataKept(live, live, {}, old(medium.mem), medium.mem)
    {
      hide Core, SysOk, SlabsOk, Settled, AlignmentOk, LargesOk, Read, Refines, Counted, Type, SmallLive, Write, Whole;
      hide UserdataKept;
      ghost var s := Snap();
      Tagged(this, p);
      WholeHere(this);
      StoreNotPrefix(live, s, medium.align, medium.heap, p, w, v);
      medium.mem := Write(medium.mem, w, v);
      if UserBlock(s, p) && live[p] == s.bk.l.size[p - HEADER] - HEADER {
        StoredInBlock(this, s.mem, p, w, v);
      } else if SmallLive(s.slabs, p) && live[p] == SMALLEST_ALLOCATION {
        StoredInCell(this, s.mem, p, v);
      } else {
        ghost var r :| LargeAt(s, r, p, live[p]);
        StoredInRegion(this, s.mem, r, p, live[p], w, v);
      }
      SameExtents(live, s, Snap(), medium.count, medium.bytes);
    }

    /** stbm_heap_free: every listed allocation and the cached chunk go back to the system, each exactly once; only
        the heap structure itself is left. */
    method Teardown()
      requires Valid() && medium.others == {}   // no thread is inside the heap
      modifies medium.system
      ensures medium.system.owned.Keys == {medium.heap as int}
    {
      hide Core, SlabsOk, Settled, AlignmentOk, LargesOk, Read, Refines, Counted, SysOk, Chain, Ring.Spaced;
      ghost var ring := medium.ring;
      Listed(this);
      ChainHere(this);
      var sentinel := medium.heap + SENTINEL;
      ChainAt(medium.mem, ring, sentinel, 0);
      var cur := Read(medium.mem, sentinel + 16);
      ghost var i := 1;
      while cur != sentinel
        invariant 1 <= i <= |ring| && cur == (if i < |ring| then ring[i] else sentinel)
        invariant medium.system.owned.Keys == {medium.heap as int} + Rest(ring, i) + Cached(medium.cached)
        decreases |ring| - i
      {
        ChainAt(medium.mem, ring, sentinel, i);
        var next := Read(medium.mem, cur + 16);
        assert Read(medium.mem, cur) == MAGIC_LARGE || Read(medium.mem, cur) == MAGIC_MEDIUM;
        RestNext(ring, i);
        medium.system.Free(cur);
        cur := next;
        i := i + 1;
      }
      if i < |ring| {
        ChainAt(medium.mem, ring, sentinel, i);
      }
      if medium.cached != 0 {
        medium.system.Free(medium.cached);
      }
    }

    /** A thread writes a word of the region in its hand, without the lock. */
    method Fill(s: nat, w: nat, v: nat)
      requires Valid() && s as int in medium.others && s in medium.system.owned
      requires s <= w < s + medium.system.owned[s]
      modifies medium`mem
      ensures Valid() && medium.mem == Write(old(medium.mem), w, v)
      ensures DataKept(live, live, old(medium.mem), medium.mem) && KindsStay(live, old(Snap()), live, Snap())
    {
      hide Core, SysOk, SlabsOk, Settled, AlignmentOk, LargesOk, Read, Refines, Counted, Write, Whole, DataKept;
      hide KindsStay, LargeStep;
      ghost var s0 := Snap();
      WholeHere(this);
      medium.mem := Write(medium.mem, w, v);
      Filled(this, s0.mem, s, w, v);
      SameExtents(live, s0, Snap(), medium.count, medium.bytes);
      SameSpread(live, s0, Snap(), medium.align, medium.heap);
      KindsAt(live, s0, Snap(), {});
    }

    /** The API layer rewrites the prefix of an allocation that is not a small cell, outside the allocator's lock. */
    method Stamp(p: nat, v: nat)
      requires Valid() && p in live && p !in large.bare && live[p] > SMALLEST_ALLOCATION && v < 0x1_0000_0000
      requires SameBlockFields(Read(medium.mem, p - 8), v)
      requires (PreviousAlloc(v) <==> PreviousAlloc(Read(medium.mem, p - 8)))
      modifies medium`mem
      ensures Valid() && medium.mem == Write(old(medium.mem), p - 8, v)
      ensures DataKept(live, live, old(medium.mem), medium.mem)
      ensures UserdataKept(live, live, {p as int}, old(medium.mem), medium.mem)
    {
      hide Core, SysOk, SlabsOk, Settled, AlignmentOk, LargesOk, Read, Refines, Counted, Type, SmallLive, Write, Whole;
      hide PreviousAlloc, DataKept, DataWord, SizeData, BlockAlloc, UserdataKept;
      ghost var s := Snap();
      Tagged(this, p);
      WholeHere(this);
      PrefixNotData(live, s, medium.align, medium.heap, p, v);
      medium.mem := Write(medium.mem, p - 8, v);
      if UserBlock(s, p) && live[p] == s.bk.l.size[p - HEADER] - HEADER {
        StampedBlock(this, s.mem, p, v);
      } else {
        ghost var r :| LargeAt(s, r, p, live[p]);
        StampedRegion(this, s.mem, r, p, live[p], v);
      }
      SameExtents(live, s, Snap(), medium.count, medium.bytes);
    }
  }

  lemma BeganHere(s0: Snapshot, s1: Snapshot, p: nat, ask: nat, size: nat, align: nat, cur0: nat, cur1: nat, max: nat,
                  heap: nat)
    requires Servable(size, align) && Whole(s0, align, heap) && Shape(s1.bk, align)
    requires Supplied(NoneFrom(s0.bk.lists, WantOf(size, align).Class()),
                      ClassSize(WantOf(size, align).Class()) + align + 256, max, p, ask,
                      ChunkAt(s1.bk.l, p - HEADER), cur0, s0.owned, s0.cached, s0.cachedSize,
                      s0.ring, cur1, s1.owned, s1.cached, s1.cachedSize, s1.ring)
    requires p == 0 ==> s1.bk == s0.bk
    requires p != 0 ==> Allocated(s0.bk, s1.bk, p - HEADER, size, WantOf(size, align).Class())
    ensures Began(s0, s1, p, size, align)
  {
    hide NoneFrom, Allocated, ClassSize, WantOf, Servable, Shape, SysOk, LargesOk, AllCells, ChunkFrom;
    var c := WantOf(size, align).Class();
    CachedFacts(s0.mem, s0.owned, heap, s0.ring, s0.cached, s0.cachedSize, s0.foreign, s0.others, s0.bk.l);
    if NoneFrom(s0.bk.lists, c) && p != 0 {
      NewHere(s0.bk, s1.bk, align, p - HEADER, size, c);
      ChunkIsHere(s0, s1, p - HEADER);
    }
  }

  /** A good fit that no list could give is a new chunk's first block. */
  lemma NewHere(bk0: Book, bk1: Book, align: nat, a: int, size: nat, c: nat)
    requires Shape(bk0, align) && Shape(bk1, align) && NoneFrom(bk0.lists, c) && Allocated(bk0, bk1, a, size, c)
    ensures a in bk1.l.chunks && bk1.l.chunks[a].sys > 0
  {
    hide ClassSize, Carved, RegionsApart, KindsOk, Filed, NoneFrom, BlockOk, PrevOk;
    assert a !in bk0.free;
    assert ChunkOk(bk1.l, a);
  }

  lemma ChunkIsHere(s0: Snapshot, s1: Snapshot, a: int)
    requires a in s1.bk.l.chunks && s1.bk.l.chunks[a].sys == s0.cached && s0.cached != 0 && s1.owned == s0.owned
    ensures ChunkFrom(s0, s1, a)
  {
  }

  lemma BeganServed(s0: Snapshot, s1: Snapshot, p: nat, size: nat, align: nat)
    requires Began(s0, s1, p, size, align) && s1.slabs == s0.slabs && s1.larges == s0.larges
    requires p != 0 ==> UserBlock(s1, p)
    ensures p != 0 ==> MediumServed(s0, s1, p, size, align)
  {
    hide NoneFrom, Allocated, ClassFor, ChunkFrom, UserBlock;
  }

  lemma NewNotOld(slabs0: Slabs, slabs1: Slabs, c: int, p: int)
    requires NewSlabGives(slabs0, slabs1, c, p)
    ensures !SmallTaken(slabs0, slabs1, p - 8)
  {
    hide Taken, LiveIn, After;
    assert c in slabs1.Keys && c !in slabs0.Keys;
  }

  lemma LargeAddedIs(larges0: Larges, larges1: Larges, owned: map<int, nat>, s: nat, p: nat, size: nat)
    requires LargeAdded(larges0, larges1, owned, s, p, size)
    ensures larges1 == larges0[s as int := p] && s + OVERHEAD <= p
  {
  }

  lemma ThreeWays()
    ensures SMALLEST_ALLOCATION < LARGE_THRESHOLD
  {
  }

  lemma ServedSmall(s0: Snapshot, s1: Snapshot, p: nat, size: nat, align: nat)
    requires size <= SMALLEST_ALLOCATION && SmallServed(s0, s1, p, align)
    ensures ServedBy(s0, s1, p, size, align)
  {
    hide SmallServed;
  }

  lemma ServedMedium(s0: Snapshot, s1: Snapshot, p: nat, size: nat, align: nat)
    requires SMALLEST_ALLOCATION < size < LARGE_THRESHOLD && MediumServed(s0, s1, p, size, align)
    ensures ServedBy(s0, s1, p, size, align)
  {
    hide MediumServed;
  }

  lemma ServedLarge(s0: Snapshot, s1: Snapshot, p: nat, size: nat, align: nat)
    requires size >= LARGE_THRESHOLD && LargeServed(s0, s1, p, size, align)
    ensures ServedBy(s0, s1, p, size, align)
  {
    hide LargeServed;
  }

  lemma ChunksPositive(s: Snapshot, align: nat, heap: nat)
    requires Whole(s, align, heap)
    ensures forall c :: c in s.bk.l.chunks ==> s.bk.l.chunks[c].sys > 0
  {
    hide SysOk, LargesOk, AllCells, RegionsApart, KindsOk;
    ChunkSysPositive(s.mem, s.owned, heap, s.ring, s.cached, s.cachedSize, s.foreign, s.others, s.bk.l);
  }

  /** The small allocator does not touch the headers of the blocks that house its slabs. */
  lemma SlabHeaderKept(s: Snapshot, m1: Memory, align: nat, heap: nat, c: int)
    requires Whole(s, align, heap) && c in s.slabs && SmallWrites(s.mem, m1, heap, s.slabs)
    ensures Read(m1, c - 8) == Read(s.mem, c - 8)
  {
    hide SysOk, Tiled, RegionsApart, Filed, LargesOk, OutsideChunks, Read, AllCells;
    assert Housed(s.bk, c);
    FreeOrLiveSize(s.bk, align, c - HEADER);
    InsideChunk(s.bk, align, c - HEADER, c - 8);
    if heap + FULL_SENTINEL <= c - 8 < heap + SENTINELS_END {
      SentinelUntouched(s.mem, s.owned, heap, s.ring, s.cached, s.cachedSize, s.foreign, s.others, s.bk, c - 8);
    }
    forall d | d in s.slabs ensures !InSlab(s.slabs, d, c - 8) {
      assert Housed(s.bk, d);
      if d != c {
        Disjoint(s.bk.l, align, c - HEADER, d - HEADER);
      }
    }
  }

  lemma LastReturned(s0: Snapshot, s1: Snapshot, s2: Snapshot, c: nat, p: nat, policy: CachePolicy)
    requires s1.larges == s0.larges && s1.bk == s0.bk && s1.owned == s0.owned && s1.cached == s0.cached
    requires LastCell(s0.slabs, s1.slabs, c, p)
    requires Read(s1.mem, c - 8) == Read(s0.mem, c - 8) && MediumReturned(s1, s2, c, policy)
    ensures SmallReturned(s0, s2, p, policy)
  {
    hide Freed, PreviousAlloc, Read;
    assert c in s0.slabs.Keys && c !in s2.slabs.Keys;
    assert BlockFreed(s0, s2, c - HEADER, policy) && LastCell(s0.slabs, s2.slabs, c, p);
  }

  lemma LastCellIs(slabs0: Slabs, slabs1: Slabs, c: int, p: int)
    requires LiveIn(slabs0, c, p - 8) && slabs0[c].live == {p - 8} && slabs1 == slabs0 - {c}
    ensures LastCell(slabs0, slabs1, c, p)
  {
  }

  lemma ChunksHere(h: StbmHeap)
    requires h.Valid()
    ensures forall c :: c in h.medium.bk.l.chunks ==> h.medium.bk.l.chunks[c].sys > 0
  {
    hide Whole, StbmHeap.Sane, Refines, Counted;
    WholeHere(h);
    ChunksPositive(h.Snap(), h.medium.align, h.medium.heap);
  }

  lemma ExactSize(h: StbmHeap, s0: Snapshot, p: nat, size: nat)
    requires h.Valid() && p != 0 && p in h.live && ServedBy(s0, h.Snap(), p, size, h.medium.align)
    ensures Measured(h.live[p], size, h.medium.align)
  {
    hide Whole, StbmHeap.Sane, Counted, ClassSize, ClassFor, Taken, NoneFrom, BlockServed;
    var s1, align: nat, heap := h.Snap(), h.medium.align, h.medium.heap;
    WholeHere(h);
    LiveExtent(h.live, s1, p);
    if size <= SMALLEST_ALLOCATION {
      GivenCell(s0, s1, p, align);
      ExtentUnique(s1, align, heap, p, h.live[p], SMALLEST_ALLOCATION);
    } else if size < LARGE_THRESHOLD {
      ExtentUnique(s1, align, heap, p, h.live[p], s1.bk.l.size[p - HEADER] - HEADER);
      BlockSize(s0, s1, p, size, align);
    } else {
      var r: nat :| r !in s0.owned && s1.owned == s0.owned[r as int := OVERHEAD + (align - 1) + size]
        && s1.larges == s0.larges[r as int := p];
      assert LargeAt(s1, r, p, r + s1.owned[r] - p);
      ExtentUnique(s1, align, heap, p, h.live[p], r + s1.owned[r] - p);
      LargeStart(s1, align, heap, r);
    }
  }

  lemma GivenCell(s0: Snapshot, s1: Snapshot, p: nat, align: nat)
    requires SmallServed(s0, s1, p, align) && p != 0
    ensures SmallLive(s1.slabs, p)
  {
    hide Taken, BlockServed, NoCellLeft, LiveIn;
  }

  lemma BlockSize(s0: Snapshot, s1: Snapshot, p: nat, size: nat, align: nat)
    requires MediumServed(s0, s1, p, size, align) && p != 0
    ensures p - HEADER in s1.bk.l.size && ClassFor(size, align) < NUM_CLASSES
    ensures var n, c := s1.bk.l.size[p - HEADER], ClassSize(ClassFor(size, align)); n == c || n == c + EXTRA_SIZE
  {
    hide ClassSize, ClassFor, Carved, GoodFit, NoneFrom, ChunkFrom;
  }

  lemma OneKind(h: StbmHeap, p: nat)
    requires h.Valid()
    ensures UserBlock(h.Snap(), p) ==> !SmallLive(h.small.slabs, p)
    ensures forall r, n {:trigger LargeAt(h.Snap(), r, p, n)} :: LargeAt(h.Snap(), r, p, n) ==>
      !UserBlock(h.Snap(), p) && !SmallLive(h.small.slabs, p)
  {
    hide Whole, StbmHeap.Sane, Refines, Counted, UserBlock, SmallLive;
    WholeHere(h);
    KindsDiffer(h.Snap(), h.medium.align, h.medium.heap, p);
  }

  lemma ReleasedHere(s0: Snapshot, s1: Snapshot, a: int, policy: CachePolicy, s: nat)
    requires Freed(s0.bk, s1.bk, a, policy != CacheAll && !PreviousAlloc(Read(s0.mem, a + HEADER - 8)))
    requires Retired(policy, s0.bk.l.chunks, s1.bk.l.chunks, a, s, s0.cached, s0.cachedSize, s1.cached, s1.cachedSize)
    requires s1.owned == s0.owned
    ensures Released(s0, s1, a, policy, s)
  {
    hide Freed, PreviousAlloc, Read, Retired;
  }

  lemma ReleasedFreed(s0: Snapshot, s1: Snapshot, s2: Snapshot, a: int, policy: CachePolicy, s: nat)
    requires Released(s0, s1, a, policy, s) && s2.bk == s1.bk && s2.cached == s1.cached
    requires s2.owned == if s != 0 then s1.owned - {s as int} else s1.owned
    requires a in s0.bk.l.chunks ==> s0.bk.l.chunks[a].sys > 0
    ensures BlockFreed(s0, s2, a, policy)
  {
    hide Freed, PreviousAlloc, Read;
  }

  lemma BlockLater(s0: Snapshot, s: Snapshot, s1: Snapshot, p: nat, size: nat, align: nat)
    requires s.bk == s0.bk && s.owned == s0.owned && s.cached == s0.cached && MediumServed(s, s1, p, size, align)
    ensures BlockServed(s0, s1, p, size, align)
  {
    hide NoneFrom, Allocated, ClassFor, UserBlock;
  }

  lemma BlockStays(s0: Snapshot, s: Snapshot, s1: Snapshot, p: nat, size: nat, align: nat)
    requires s1.bk == s.bk && s1.owned == s.owned && BlockServed(s0, s, p, size, align)
    ensures BlockServed(s0, s1, p, size, align)
  {
    hide NoneFrom, Allocated, ClassFor;
  }

  /** The system refused: no list could have served the request. */
  lemma RefusedServed(s0: Snapshot, begun: Snapshot, s1: Snapshot, size: nat, align: nat)
    requires Began(s0, begun, 0, size, align) && s1.slabs == s0.slabs && s1.larges == s0.larges && s1.bk == begun.bk
    ensures MediumServed(s0, s1, 0, size, align)
  {
    hide NoneFrom, Allocated, ClassFor, ChunkFrom;
  }

  /** The system gave a region. */
  lemma CompletedServed(s0: Snapshot, begun: Snapshot, s1: Snapshot, p: nat, size: nat, align: nat, s: nat,
                        region: nat)
    requires Began(s0, begun, 0, size, align) && s1.slabs == s0.slabs && s1.larges == s0.larges && p != 0
    requires s !in begun.owned && s1.owned == begun.owned[s as int := region]
    requires UserBlock(s1, p) && Completed(begun.bk, s1.bk, p - HEADER, s, region, size, align)
    ensures MediumServed(s0, s1, p, size, align)
  {
    hide NoneFrom, Allocated, ClassFor, UserBlock, Granted, GoodFit;
    NewIsGoodFit(s0.bk, ClassFor(size, align), p - HEADER);
    GrantedGoodFit(s0.bk, s1.bk, p - HEADER, size, ClassFor(size, align));
  }

  lemma ShapeHere(m: MediumHeap)
    requires m.Valid()
    ensures Shape(m.bk, m.align)
  {
    hide Shape, SysOk, Settled, TagsOk, MarkersOk, ListsOk;
  }

  lemma PinnedHere(m: MediumHeap)
    requires m.Valid()
    ensures m.bk.l.pinned <= m.bk.l.size.Keys
  {
    hide Core;
    MediumParts(m);
    PinnedSized(m.mem, Index(m.heads, m.bitmap, m.top), m.bk, m.align, m.heap, NONE);
  }

  lemma NewBlock(bk0: Book, bk1: Book, a: int, size: nat, c: nat)
    requires Granted(bk0, bk1, a, size, c) && bk0.l.pinned <= bk0.l.size.Keys
    ensures a !in bk0.live && bk1.live == bk0.live + {a} && a in bk1.l.size && bk1.l.size[a] >= size + HEADER
    ensures bk0.l.pinned <= bk1.l.pinned
  {
    hide ClassSize, Carved;
    if a in bk0.free {
      CarvedPins(bk0.(free := bk0.free - {a}), bk1, a);
    } else {
      CarvedPins(ChunkBook(bk0, a, bk1.l.chunks[a]), bk1, a);
    }
  }

  lemma AllocatedGranted(bk0: Book, bk1: Book, a: int, size: nat, c: nat)
    requires Allocated(bk0, bk1, a, size, c)
    ensures Granted(bk0, bk1, a, size, c)
  {
    hide GoodFit, Granted;
  }

  lemma CarvedPins(bk0: Book, bk1: Book, a: int)
    requires Carved(bk0, bk1, a)
    ensures bk1.l.pinned == bk0.l.pinned
  {
  }

  /** The parts of the invariant, taken together. */
  lemma WholeHere(h: StbmHeap)
    requires h.Sane()
    ensures Whole(h.Snap(), h.medium.align, h.medium.heap)
  {
    hide Core, SysOk, SlabsOk, Settled, AlignmentOk, LargesOk, Shape, SlabOk, AllCells;
    MediumFacts(h.medium);
    AllHoused(h.medium.mem, h.medium.heap, h.medium.bk, h.small.slabs, h.small.nonfull, h.small.full,
              h.small.chunkcache, {}, {});
    AllSlabs(h.medium.mem, h.medium.heap, h.medium.bk, h.small.slabs, h.small.nonfull, h.small.full,
             h.small.chunkcache);
    CellsInPlace(h.medium.mem, h.medium.heap, h.small.slabs);
  }

  ghost predicate SameOwners(s0: Snapshot, s1: Snapshot) {
    && s1.slabs == s0.slabs && s1.larges == s0.larges && s1.bare == s0.bare && s1.foreign == s0.foreign
    && RegionsKept(s0.owned, s1.owned, s0.foreign)
  }

  /** Slabs survive a step of the medium allocator. */
  lemma SlabsSurvive(s0: Snapshot, s1: Snapshot, heap: nat, live: set<int>, nonfull: seq<nat>, full: seq<nat>,
                     cache: nat, align: nat)
    requires Whole(s0, align, heap)
    requires SysOk(s1.mem, s1.owned, heap, s1.ring, s1.cached, s1.cachedSize, s1.foreign, s1.others, s1.bk.l)
    requires SlabsOk(s0.mem, heap, s0.bk, s0.slabs, nonfull, full, cache, {}, {}) && s1.foreign == s0.foreign
    requires Quiet(s0.mem, s1.mem, s0.bk.l, s0.ring, s1.bk.l, s1.ring, live)
    requires forall c :: c in s0.slabs ==> c - HEADER in s0.bk.live ==> c - HEADER in live && c - HEADER in s1.bk.live
    ensures SlabsOk(s1.mem, heap, s1.bk, s0.slabs, nonfull, full, cache, {}, {})
  {
    hide SysOk, Read, SlabsOk, LargesOk, Quiet, LiveKept, Shape, AllCells;
    forall c | c in s0.slabs ensures c - HEADER in live && c - HEADER in s1.bk.live {
      assert Housed(s0.bk, c);
    }
    SentinelsKept(s0.mem, s1.mem, s0.owned, s1.owned, heap, s0.ring, s1.ring, s0.cached, s1.cached, s0.cachedSize,
                  s1.cachedSize, s0.foreign, s0.others, s1.others, s0.bk, s1.bk, live);
    QuietLive(s0.mem, s1.mem, s0.bk.l, s0.ring, s1.bk.l, s1.ring, live);
    MediumKeepsSlabs(s0.mem, s1.mem, heap, s0.bk, s1.bk, live, s0.slabs, nonfull, full, cache, {}, {});
  }

  /** And so do large allocations. */
  lemma LargesSurvive(s0: Snapshot, s1: Snapshot, align: nat, heap: nat, live: set<int>)
    requires Whole(s0, align, heap) && SameOwners(s0, s1)
    requires SysOk(s1.mem, s1.owned, heap, s1.ring, s1.cached, s1.cachedSize, s1.foreign, s1.others, s1.bk.l)
    requires Quiet(s0.mem, s1.mem, s0.bk.l, s0.ring, s1.bk.l, s1.ring, live)
    ensures OthersSame(s0, s1) && LargesOk(s1.mem, s1.owned, heap, align, s1.foreign, s1.larges, s1.bare)
  {
    hide SysOk, Read, LargesOk, LiveKept, Shape, AllCells, LargesKept, Untouched;
    QuietKeepsLarges(s0.mem, s1.mem, s0.owned, s1.owned, heap, s0.ring, s1.ring, s0.cached, s1.cached, s0.cachedSize,
                     s1.cachedSize, s0.foreign, s0.others, s1.others, s0.bk.l, s1.bk.l);
    ForeignOwned(s0.mem, s0.owned, heap, s0.ring, s0.cached, s0.cachedSize, s0.foreign, s0.others, s0.bk.l);
    LargesStayOk(s0.mem, s1.mem, s0.owned, s1.owned, heap, align, s0.foreign, s0.larges, s0.bare);
  }

  /** Nothing but the system's books moved. */
  lemma OwnedMoved(s0: Snapshot, s1: Snapshot, align: nat, heap: nat)
    requires Whole(s0, align, heap) && SameOwners(s0, s1) && s1.mem == s0.mem
    ensures OthersSame(s0, s1) && LargesOk(s1.mem, s1.owned, heap, align, s1.foreign, s1.larges, s1.bare)
  {
    hide SysOk, Read, LargesOk, Shape, AllCells;
    ForeignOwned(s0.mem, s0.owned, heap, s0.ring, s0.cached, s0.cachedSize, s0.foreign, s0.others, s0.bk.l);
    LargesStayOk(s0.mem, s1.mem, s0.owned, s1.owned, heap, align, s0.foreign, s0.larges, s0.bare);
  }

  lemma NothingDone(live: map<int, int>, s0: Snapshot, s1: Snapshot, align: nat, heap: nat, count: int, bytes: int)
    requires Whole(s0, align, heap) && OthersSame(s0, s1) && s1.mem == s0.mem && s1.bk == s0.bk
    requires Refines(live, s0) && Counted(count, bytes, s0)
    ensures Refines(live, s1) && Counted(count, bytes, s1) && DataKept(live, live, s0.mem, s1.mem)
    ensures KindsStay(live, s0, live, s1)
  {
    hide Whole, LargeAt, MediumBytes, LargeBytes, CellCount, LargesKept;
    LargesSame(s0, s1, align, heap);
    forall p, n ensures Extent(s1, p, n) <==> p in live && live[p] == n {
      assert Extent(s0, p, n) <==> p in live && live[p] == n;
      assert UserBlock(s1, p) <==> UserBlock(s0, p);
      forall r ensures LargeAt(s1, r, p, n) <==> LargeAt(s0, r, p, n) {
      }
    }
    OwnersListed(s0, align, heap);
    SameLargeBytes(s0.larges, s0.owned, s1.owned);
  }

  lemma OwnersListed(s: Snapshot, align: nat, heap: nat)
    requires Whole(s, align, heap)
    ensures s.larges.Keys == s.foreign
  {
    hide SysOk, Shape, AllCells;
  }

  /** A medium block more. */
  lemma MediumAllocated(live: map<int, int>, s0: Snapshot, s1: Snapshot, align: nat, heap: nat, a: int,
                        count0: int, bytes0: int, count1: int, bytes1: int)
    requires Whole(s0, align, heap) && Whole(s1, align, heap) && OthersSame(s0, s1)
    requires Refines(live, s0) && Counted(count0, bytes0, s0)
    requires a !in s0.bk.live && s1.bk.live == s0.bk.live + {a} && a in s1.bk.l.size
    requires Quiet(s0.mem, s1.mem, s0.bk.l, s0.ring, s1.bk.l, s1.ring, s0.bk.live)
    requires count1 == count0 + 1 && bytes1 == bytes0 + (s1.bk.l.size[a] - HEADER)
    requires s0.bk.l.pinned <= s1.bk.l.pinned
    ensures var live' := live[a + HEADER := s1.bk.l.size[a] - HEADER];
      && a + HEADER !in live && Refines(live', s1) && Counted(count1, bytes1, s1)
        && DataKept(live, live', s0.mem, s1.mem) && KindsStay(live, s0, live', s1)
  {
    hide Whole, Refines, Quiet, LiveKept, SameElse, NoExtent, KindsKept, Extent, LargesKept, DataKept, KindsStay;
    hide MediumBytes, LargeBytes, CellCount;
    var n := s1.bk.l.size[a] - HEADER;
    QuietLive(s0.mem, s1.mem, s0.bk.l, s0.ring, s1.bk.l, s1.ring, s0.bk.live);
    MediumGain(s0, s1, align, heap, a);
    Gained(live, s0, s1, align, heap, a + HEADER, n);
    SurvivorsKept(live, live[a + HEADER := n], s0, s1, align, heap, a + HEADER);
    KindsOf(live, live[a + HEADER := n], s0, s1, a + HEADER);
    BlockAdded(s0.mem, s1.mem, s0.bk, s0.ring, s1.bk, s1.ring, a);
    OwnersListed(s0, align, heap);
    SameLargeBytes(s0.larges, s0.owned, s1.owned);
  }

  lemma EmptyView(s: Snapshot)
    requires s.bk.live == {} && s.slabs == map[] && s.larges == map[]
    ensures Refines(map[], s) && Counted(0, 0, s)
  {
    forall p, n ensures !Extent(s, p, n) {
    }
    assert CellCount(s.slabs) == 0 && LargeBytes(s.larges, s.owned) == 0;
  }

  lemma FreedLive(bk0: Book, bk1: Book, a: int, mayRelease: bool)
    requires Freed(bk0, bk1, a, mayRelease)
    ensures bk1.live == bk0.live - {a} && bk0.l.pinned <= bk1.l.pinned
  {
  }

  lemma KindsOf(live0: map<int, int>, live1: map<int, int>, s0: Snapshot, s1: Snapshot, x: int)
    requires SameElse(s0, s1, x) && (x !in live0 || x !in live1) && s0.bk.l.pinned <= s1.bk.l.pinned
    requires UserdataKept(live0, live1, {}, s0.mem, s1.mem)
    ensures KindsStay(live0, s0, live1, s1)
  {
    hide UserBlock, LiveIn, LargeAt, UserdataOf;
  }

  lemma DataTrans(live0: map<int, int>, live1: map<int, int>, live2: map<int, int>, m0: Memory, m1: Memory, m2: Memory)
    requires DataKept(live0, live1, m0, m1) && DataKept(live1, live2, m1, m2)
    requires forall p {:trigger p in live1} :: p in live0 && p in live2 ==> p in live1 && live1[p] == live0[p]
    ensures DataKept(live0, live2, m0, m2)
  {
    hide Read;
    forall p, w | DataWord(live0, p, w) && DataWord(live2, p, w) ensures Read(m2, w) == Read(m0, w) {
      assert p in live1;
      assert DataWord(live1, p, w);
    }
  }

  lemma KindsUserdata(live0: map<int, int>, s0: Snapshot, live1: map<int, int>, s1: Snapshot)
    requires KindsStay(live0, s0, live1, s1)
    ensures UserdataKept(live0, live1, s0.bare.Keys, s0.mem, s1.mem)
    ensures s0.bare == map[] ==> UserdataKept(live0, live1, {}, s0.mem, s1.mem)
  {
    hide UserdataOf;
  }

  lemma UserdataTrans(live0: map<int, int>, live1: map<int, int>, live2: map<int, int>, bare: set<int>, m0: Memory,
                      m1: Memory, m2: Memory)
    requires UserdataKept(live0, live1, {}, m0, m1) && UserdataKept(live1, live2, bare, m1, m2)
    requires bare !! live0.Keys
    requires forall p {:trigger p in live1} :: p in live0 && p in live2 ==> p in live1
    ensures UserdataKept(live0, live2, {}, m0, m2)
  {
    hide UserdataOf;
    forall p | p in live0 && p in live2 ensures UserdataOf(m2, p) == UserdataOf(m0, p) {
      assert p in live1;
      assert UserdataOf(m1, p) == UserdataOf(m0, p);
    }
  }

  lemma RoomForIs(size: nat, align: nat, region: nat)
    requires RoomFor(size, align, region)
    ensures region >= SYSTEM_HEADER
  {
  }

  /** The regions of large allocations are still out. */
  lemma ForeignKept(s: Snapshot, align: nat, heap: nat)
    requires Whole(s, align, heap)
    ensures RegionsKept(s.owned, s.owned, s.foreign)
  {
    hide SysOk, LargesOk, Shape, AllCells;
    ForeignOwned(s.mem, s.owned, heap, s.ring, s.cached, s.cachedSize, s.foreign, s.others, s.bk.l);
    OwnedKept(s.owned, s.foreign);
  }

  lemma HandsNotForeign(s: Snapshot, align: nat, heap: nat, r: int)
    requires Whole(s, align, heap) && r in s.others
    ensures r !in s.foreign
  {
    hide SysOk, LargesOk, Shape, AllCells;
    HandNotForeign(s.mem, s.owned, heap, s.ring, s.cached, s.cachedSize, s.foreign, s.others, s.bk.l, r);
  }

  lemma HandNotHeap(s: Snapshot, align: nat, heap: nat, r: int)
    requires Whole(s, align, heap) && r in s.others && r in s.owned
    ensures heap in s.owned && (r + s.owned[r] <= heap || heap + s.owned[heap] <= r)
  {
    hide Ring.RingOk, LargesOk, Shape, AllCells;
    assert RegionPair(s.owned, heap, r);
  }

  /** Only regions in hand came or went. */
  lemma RegionsMoved(h: StbmHeap, s0: Snapshot)
    requires h.small.medium == h.medium && h.large.medium == h.medium && h.medium.Valid()
    requires h.Snap() == s0.(owned := h.medium.system.owned, others := h.medium.others)
    requires RegionsKept(s0.owned, h.medium.system.owned, s0.foreign)
    requires Whole(s0, h.medium.align, h.medium.heap) && Refines(h.live, s0)
    requires Counted(h.medium.count, h.medium.bytes, s0)
    requires SlabsOk(s0.mem, h.medium.heap, s0.bk, s0.slabs, h.small.nonfull, h.small.full, h.small.chunkcache, {}, {})
    ensures h.Valid() && KindsStay(h.live, s0, h.live, h.Snap())
  {
    hide Core, SysOk, SlabsOk, Settled, AlignmentOk, LargesOk, Refines, Counted, Whole, KindsStay, RegionsKept;
    var s1 := h.Snap();
    OwnedMoved(s0, s1, h.medium.align, h.medium.heap);
    NothingDone(h.live, s0, s1, h.medium.align, h.medium.heap, h.medium.count, h.medium.bytes);
  }

  lemma SnapSame(live: map<int, int>, s0: Snapshot, s1: Snapshot)
    requires s1 == s0
    ensures DataKept(live, live, s0.mem, s1.mem) && KindsStay(live, s0, live, s1)
  {
    hide Read, UserBlock;
  }

  lemma ClassIs(size: nat, align: nat)
    requires Servable(size, align)
    ensures ClassFor(size, align) == WantOf(size, align).Class()
  {
    hide WantOf, Servable;
  }

  lemma BlockMeasured(bk0: Book, bk1: Book, a: int, size: nat, align: nat)
    requires Granted(bk0, bk1, a, size, ClassFor(size, align)) && SMALLEST_ALLOCATION < size < LARGE_THRESHOLD
    ensures a in bk1.l.size && Measured(bk1.l.size[a] - HEADER, size, align)
  {
    hide Carved, ClassSize, ClassFor;
  }

  /** What a new medium block means for the whole heap. */
  lemma BlockCame(h: StbmHeap, s0: Snapshot, p: nat, count0: int, bytes0: int)
    requires h.small.medium == h.medium && h.large.medium == h.medium && h.medium.Valid() && p >= HEADER
    requires Whole(s0, h.medium.align, h.medium.heap) && Refines(h.live, s0) && Counted(count0, bytes0, s0)
    requires SlabsOk(s0.mem, h.medium.heap, s0.bk, s0.slabs, h.small.nonfull, h.small.full, h.small.chunkcache, {}, {})
    requires SameOwners(s0, h.Snap())
    requires p - HEADER !in s0.bk.live && h.medium.bk.live == s0.bk.live + {p - HEADER}
    requires p - HEADER in h.medium.bk.l.size
    requires Quiet(s0.mem, h.medium.mem, s0.bk.l, s0.ring, h.medium.bk.l, h.medium.ring, s0.bk.live)
    requires h.medium.count == count0 + 1 && h.medium.bytes == bytes0 + (h.medium.bk.l.size[p - HEADER] - HEADER)
    requires s0.bk.l.pinned <= h.medium.bk.l.pinned
    ensures h.Sane() && p !in h.live && UserBlock(h.Snap(), p)
    ensures var live' := h.live[p as int := h.medium.bk.l.size[p - HEADER] - HEADER];
      && Refines(live', h.Snap()) && Counted(h.medium.count, h.medium.bytes, h.Snap())
      && DataKept(h.live, live', s0.mem, h.medium.mem) && KindsStay(h.live, s0, live', h.Snap())
  {
    hide Core, SysOk, Read, SlabsOk, Settled, AlignmentOk, LargesOk, Quiet, LargesKept, Refines, Counted, DataKept;
    hide Whole;
    hide Housed, KindsStay;
    var s1 := h.Snap();
    MediumParts(h.medium);
    SlabsSurvive(s0, s1, h.medium.heap, s0.bk.live, h.small.nonfull, h.small.full, h.small.chunkcache, h.medium.align);
    LargesSurvive(s0, s1, h.medium.align, h.medium.heap, s0.bk.live);
    WholeHere(h);
    NewIsUser(s0, s1, h.medium.align, h.medium.heap, p);
    MediumAllocated(h.live, s0, s1, h.medium.align, h.medium.heap, p - HEADER, count0, bytes0, h.medium.count,
                    h.medium.bytes);
  }

  lemma NewIsUser(s0: Snapshot, s1: Snapshot, align: nat, heap: nat, p: int)
    requires Whole(s0, align, heap) && s1.slabs == s0.slabs && p - HEADER !in s0.bk.live && p - HEADER in s1.bk.live
    requires p - HEADER in s1.bk.l.size
    ensures UserBlock(s1, p)
  {
    hide SysOk, LargesOk, Shape, AllCells;
    assert p in s0.slabs ==> Housed(s0.bk, p);
  }

  // ---- blocks that come to house slabs, and no longer do ----

  lemma HousedSized(bk: Book, c: int)
    requires Housed(bk, c)
    ensures c - HEADER in bk.l.size
  {
  }

  lemma BlockHouses(live: map<int, int>, s: Snapshot, align: nat, heap: nat, c: int)
    requires Whole(s, align, heap) && Refines(live, s) && UserBlock(s, c) && c in live && live[c] >= CHUNK_SIZE
    ensures Housed(s.bk, c) && c !in s.slabs
  {
    hide Whole, Extent;
    LiveBlockPositive(s, align, heap, c);
    LiveExtent(live, s, c);
    assert Extent(s, c, s.bk.l.size[c - HEADER] - HEADER) by { OwnExtent(s, c); }
    ExtentUnique(s, align, heap, c, live[c], s.bk.l.size[c - HEADER] - HEADER);
  }

  lemma OwnExtent(s: Snapshot, p: int)
    requires UserBlock(s, p)
    ensures Extent(s, p, s.bk.l.size[p - HEADER] - HEADER)
  {
  }

  lemma HousedEmpty(s0: Snapshot, s1: Snapshot, c: int)
    requires c !in s0.slabs && Housed(s0.bk, c) && s1 == s0.(slabs := s0.slabs[c := Cells({}, [])])
    ensures HousedIn(s0, s1, c)
  {
    hide Housed;
    assert s0.slabs == s1.slabs - {c};
  }

  lemma Housing(live: map<int, int>, s0: Snapshot, s1: Snapshot, align: nat, heap: nat, c: int, count: int, bytes: int)
    requires Whole(s0, align, heap) && HousedIn(s0, s1, c) && Refines(live, s0) && Counted(count, bytes, s0)
    ensures Whole(s1, align, heap) && Refines(live - {c}, s1) && Counted(count, bytes, s1)
    ensures KindsStay(live, s0, live - {c}, s1)
  {
    hide Whole, Refines, SameElse, NoExtent, Extent, Housed, MediumBytes, LargeBytes, CellCount, KindsStay;
    HousedElse(s0, s1, align, heap, c);
    Lost(live, s0, s1, c);
    EmptySlabUncounted(s0.slabs, s1.slabs, c);
    KindsOf(live, live - {c}, s0, s1, c);
  }

  lemma Unhousing(live: map<int, int>, s0: Snapshot, s1: Snapshot, align: nat, heap: nat, c: int, count: int,
                  bytes: int)
    requires Whole(s0, align, heap) && HousedIn(s0, s1, c) && Refines(live, s1) && Counted(count, bytes, s1)
    ensures c - HEADER in s0.bk.l.size && c !in live && UserBlock(s0, c)
    ensures var live' := live[c := s0.bk.l.size[c - HEADER] - HEADER];
      Refines(live', s0) && Counted(count, bytes, s0) && KindsStay(live, s1, live', s0)
  {
    hide Whole, Refines, SameElse, NoExtent, Extent, MediumBytes, LargeBytes, CellCount, KindsStay, Housed;
    HousedElse(s0, s1, align, heap, c);
    Gained(live, s1, s0, align, heap, c, s0.bk.l.size[c - HEADER] - HEADER);
    EmptySlabUncounted(s0.slabs, s1.slabs, c);
    KindsOf(live, live[c := s0.bk.l.size[c - HEADER] - HEADER], s1, s0, c);
  }

  ghost function Emptied(slabs: Slabs, c: int, x: nat): Slabs
    requires c in slabs
  {
    slabs[c := Cells(slabs[c].live - {x as int}, [x] + slabs[c].free)]
  }

  lemma EmptiedFacts(s0: Snapshot, s': Snapshot, s1: Snapshot, heap: nat, c: int, x: nat)
    requires LiveIn(s0.slabs, c, x) && s0.slabs[c].live == {x as int} && s1.slabs == s0.slabs - {c} && Housed(s1.bk, c)
    requires s' == s1.(slabs := Emptied(s0.slabs, c, x)) && CellsKept(s0.mem, s1.mem, s0.slabs, s1.slabs)
    ensures SmallFreed(s0.slabs, s'.slabs, x) && s'.slabs.Keys == s0.slabs.Keys && HousedIn(s1, s', c)
    ensures CellsKept(s0.mem, s'.mem, s0.slabs, s'.slabs)
  {
    hide Housed, Read;
    assert s1.slabs == s'.slabs - {c};
    forall d, y | LiveIn(s0.slabs, d, y) && LiveIn(s'.slabs, d, y)
      ensures Read(s'.mem, y + 8) == Read(s0.mem, y + 8) && Read(s'.mem, y) == Read(s0.mem, y)
    {
      assert LiveIn(s1.slabs, d, y);
    }
  }

  lemma AdoptedKept(live0: map<int, int>, live1: map<int, int>, s0: Snapshot, s': Snapshot, s1: Snapshot, c: int,
                    p: int)
    requires live1 == (live0 - {c})[p := SMALLEST_ALLOCATION] && p != c && p !in live0 - {c}
    requires s'.mem == s0.mem && s'.bare == s0.bare
    requires DataKept(live0 - {c}, live1, s'.mem, s1.mem) && KindsStay(live0, s0, live0 - {c}, s')
    requires KindsStay(live0 - {c}, s', live1, s1)
    ensures DataKept(live0, live1, s0.mem, s1.mem) && KindsStay(live0, s0, live1, s1)
  {
    hide Read, UserBlock, UserdataOf;
    forall q, w | DataWord(live0, q, w) && DataWord(live1, q, w) ensures Read(s1.mem, w) == Read(s0.mem, w) {
      assert DataWord(live0 - {c}, q, w);
    }
    forall q | q in live0 && q in live1 ensures UserBlock(s1, q) <==> UserBlock(s0, q) {
      assert UserBlock(s', q) <==> UserBlock(s0, q);
    }
  }

  lemma ReleasedKept(live0: map<int, int>, live1: map<int, int>, s0: Snapshot, s': Snapshot, s1: Snapshot, c: int,
                     p: int)
    requires c in live1 && live1 == (live0 - {p})[c := live1[c]] && p != c && c !in live0 - {p} && s'.mem == s1.mem
    requires DataKept(live0, live0 - {p}, s0.mem, s'.mem) && KindsStay(live0, s0, live0 - {p}, s')
    requires KindsStay(live0 - {p}, s', live1, s1)
    ensures c !in live0 && DataKept(live0, live1, s0.mem, s1.mem) && KindsStay(live0, s0, live1, s1)
  {
    hide Read, UserBlock, UserdataOf;
    forall q, w | DataWord(live0, q, w) && DataWord(live1, q, w) ensures Read(s1.mem, w) == Read(s0.mem, w) {
      assert DataWord(live0 - {p}, q, w);
    }
    forall q | q in live0 && q in live1 ensures UserBlock(s1, q) <==> UserBlock(s0, q) {
      assert UserBlock(s', q) <==> UserBlock(s0, q);
    }
  }

  lemma NoDataLost(live: map<int, int>, mem: Memory)
    ensures DataKept(live, live, mem, mem) && UserdataKept(live, live, {}, mem, mem)
  {
    hide Read, UserdataOf;
  }

  lemma LiveBlockPositive(s: Snapshot, align: nat, heap: nat, p: int)
    requires Whole(s, align, heap) && UserBlock(s, p)
    ensures p > HEADER
  {
    hide SysOk, LargesOk, Tiled, KindsOk, RegionsApart, Filed;
    AddressPositive(s.bk.l, align, p - HEADER);
  }

  lemma CellPositive(s: Snapshot, align: nat, heap: nat, p: int)
    requires Whole(s, align, heap) && SmallLive(s.slabs, p)
    ensures p >= 8
  {
    hide SysOk, LargesOk, Shape;
    var c :| LiveIn(s.slabs, c, p - 8);
    assert Housed(s.bk, c);
  }

  /** A medium block less. */
  lemma MediumFreed(live: map<int, int>, s0: Snapshot, s1: Snapshot, align: nat, heap: nat, a: int,
                    count0: int, bytes0: int, count1: int, bytes1: int)
    requires Whole(s0, align, heap) && Whole(s1, align, heap) && OthersSame(s0, s1)
    requires Refines(live, s0) && Counted(count0, bytes0, s0)
    requires a in s0.bk.live && s1.bk.live == s0.bk.live - {a} && a in s0.bk.l.size && a + HEADER !in s0.slabs
    requires Quiet(s0.mem, s1.mem, s0.bk.l, s0.ring, s1.bk.l, s1.ring, s1.bk.live)
    requires count1 == count0 - 1 && bytes1 == bytes0 - (s0.bk.l.size[a] - HEADER)
    requires s0.bk.l.pinned <= s1.bk.l.pinned
    ensures var live' := live - {a + HEADER};
      Refines(live', s1) && Counted(count1, bytes1, s1) && DataKept(live, live', s0.mem, s1.mem)
          && KindsStay(live, s0, live', s1)
  {
    hide Whole, Refines, Quiet, LiveKept, SameElse, NoExtent, KindsKept, Extent, LargesKept, DataKept, KindsStay;
    hide MediumBytes, LargeBytes, CellCount;
    QuietLive(s0.mem, s1.mem, s0.bk.l, s0.ring, s1.bk.l, s1.ring, s1.bk.live);
    MediumLoss(s0, s1, align, heap, a);
    Lost(live, s0, s1, a + HEADER);
    SurvivorsKept(live, live - {a + HEADER}, s0, s1, align, heap, a + HEADER);
    KindsOf(live, live - {a + HEADER}, s0, s1, a + HEADER);
    BlockRemoved(s0.mem, s1.mem, s0.bk, s0.ring, s1.bk, s1.ring, a);
    OwnersListed(s0, align, heap);
    SameLargeBytes(s0.larges, s0.owned, s1.owned);
  }

  lemma SmallStepHere(s0: Snapshot, s1: Snapshot, align: nat, heap: nat)
    requires Whole(s0, align, heap) && SmallWrites(s0.mem, s1.mem, heap, s0.slabs)
    requires CellsKept(s0.mem, s1.mem, s0.slabs, s1.slabs)
    requires s1.slabs.Keys == s0.slabs.Keys && s1 == s0.(mem := s1.mem, slabs := s1.slabs)
    requires SysOk(s1.mem, s1.owned, heap, s1.ring, s1.cached, s1.cachedSize, s1.foreign, s1.others, s1.bk.l)
    ensures SmallStep(s0, s1, heap) && LargesOk(s1.mem, s1.owned, heap, align, s1.foreign, s1.larges, s1.bare)
  {
    hide SysOk, Read, LargesOk, Shape, AllCells, LargesKept, Untouched, CellsKept, SmallWrites;
    WritesAreQuiet(s0.mem, s1.mem, s0.owned, heap, s0.ring, s0.cached, s0.cachedSize, s0.foreign, s0.others, s0.bk,
                   align, s0.slabs, s1.slabs);
    ForeignKept(s0, align, heap);
    QuietKeepsLarges(s0.mem, s1.mem, s0.owned, s1.owned, heap, s0.ring, s1.ring, s0.cached, s1.cached, s0.cachedSize,
                     s1.cachedSize, s0.foreign, s0.others, s1.others, s0.bk.l, s1.bk.l);
    LargesStayOk(s0.mem, s1.mem, s0.owned, s1.owned, heap, align, s0.foreign, s0.larges, s0.bare);
  }

  /** A small cell more. */
  lemma SmallAllocated(live: map<int, int>, s0: Snapshot, s1: Snapshot, align: nat, heap: nat, x: nat,
                       count0: int, bytes0: int, count1: int, bytes1: int)
    requires Whole(s0, align, heap) && Whole(s1, align, heap) && SmallStep(s0, s1, heap)
    requires SmallTaken(s0.slabs, s1.slabs, x)
    requires Refines(live, s0) && Counted(count0, bytes0, s0) && count1 == count0 + 1
    requires bytes1 == bytes0 + SMALLEST_ALLOCATION
    ensures var live' := live[x + 8 := SMALLEST_ALLOCATION];
      && x + 8 !in live && Refines(live', s1) && Counted(count1, bytes1, s1) && DataKept(live, live', s0.mem, s1.mem)
        && KindsStay(live, s0, live', s1)
  {
    hide Whole, Refines, SameElse, NoExtent, KindsKept, Extent, LargesKept, DataKept, KindsStay, SmallQuiet, SmallTaken;
    hide MediumBytes, LargeBytes, CellCount;
    SmallGain(s0, s1, align, heap, x);
    Gained(live, s0, s1, align, heap, x + 8, SMALLEST_ALLOCATION);
    SurvivorsKept(live, live[x + 8 := SMALLEST_ALLOCATION], s0, s1, align, heap, x + 8);
    KindsOf(live, live[x + 8 := SMALLEST_ALLOCATION], s0, s1, x + 8);
    CellTaken(s0.slabs, s1.slabs, x);
    OwnersListed(s0, align, heap);
    ForeignKept(s0, align, heap);
    SameLargeBytes(s0.larges, s0.owned, s1.owned);
  }

  /** A small cell less. */
  lemma SmallFreedStep(live: map<int, int>, s0: Snapshot, s1: Snapshot, align: nat, heap: nat, x: nat,
                       count0: int, bytes0: int, count1: int, bytes1: int)
    requires Whole(s0, align, heap) && SmallStep(s0, s1, heap) && SmallFreed(s0.slabs, s1.slabs, x)
    requires Refines(live, s0) && Counted(count0, bytes0, s0) && count1 == count0 - 1
    requires bytes1 == bytes0 - SMALLEST_ALLOCATION
    ensures var live' := live - {x + 8};
      Refines(live', s1) && Counted(count1, bytes1, s1) && DataKept(live, live', s0.mem, s1.mem)
          && KindsStay(live, s0, live', s1)
  {
    hide Whole, Refines, SameElse, NoExtent, KindsKept, Extent, LargesKept, DataKept, KindsStay, SmallQuiet, SmallFreed;
    hide MediumBytes, LargeBytes, CellCount;
    SmallLoss(s0, s1, align, heap, x);
    Lost(live, s0, s1, x + 8);
    SurvivorsKept(live, live - {x + 8}, s0, s1, align, heap, x + 8);
    KindsOf(live, live - {x + 8}, s0, s1, x + 8);
    CellFreed(s0.slabs, s1.slabs, x);
    OwnersListed(s0, align, heap);
    ForeignKept(s0, align, heap);
    SameLargeBytes(s0.larges, s0.owned, s1.owned);
  }

  /** Slabs survive a step of the large allocator. */
  lemma SlabsUnderLarge(s0: Snapshot, s1: Snapshot, align: nat, heap: nat, r: int, n: nat, nonfull: seq<nat>,
                        full: seq<nat>, cache: nat)
    requires Whole(s0, align, heap) && LargeQuiet(s0.mem, s1.mem, s0.bk.l, s0.ring, r, n)
    requires (n == 0 || (r in s0.owned && s0.owned[r] == n && r in s0.others))
    requires LargesKept(s0.mem, s1.mem, s0.owned, s0.foreign, NONE) && s1.bk == s0.bk && s1.slabs == s0.slabs
    requires SlabsOk(s0.mem, heap, s0.bk, s0.slabs, nonfull, full, cache, {}, {})
    ensures LargeStep(s0, s1) && SlabsOk(s1.mem, heap, s1.bk, s1.slabs, nonfull, full, cache, {}, {})
  {
    hide SysOk, Read, SlabsOk, LargesOk, LiveKept, Shape, AllCells, LargesKept, KindsKept, SameInside, Untouched;
    InsideKept(s0, s1, align, heap);
    HeapOwned(s0, align, heap);
    forall w | heap + FULL_SENTINEL <= w < heap + SENTINELS_END ensures Read(s1.mem, w) == Read(s0.mem, w) {
      SentinelUntouched(s0.mem, s0.owned, heap, s0.ring, s0.cached, s0.cachedSize, s0.foreign, s0.others, s0.bk, w);
      if n != 0 {
        HandNotHeap(s0, align, heap, r);
      }
    }
    forall c | c in s0.slabs ensures c - HEADER in s0.bk.live {
      assert Housed(s0.bk, c);
    }
    MediumKeepsSlabs(s0.mem, s1.mem, heap, s0.bk, s0.bk, s0.bk.live, s0.slabs, nonfull, full, cache, {}, {});
  }

  lemma HeapOwned(s: Snapshot, align: nat, heap: nat)
    requires Whole(s, align, heap)
    ensures heap in s.owned && s.owned[heap] >= HEAP_BYTES
  {
    hide Ring.RingOk, Shape, LargesOk, AllCells;
  }

  /** A large allocation more. */
  lemma LargeAllocated(live: map<int, int>, s0: Snapshot, s1: Snapshot, align: nat, heap: nat, r: nat, p: nat,
                       size: nat, count0: int, bytes0: int, count1: int, bytes1: int)
    requires Whole(s0, align, heap) && Whole(s1, align, heap) && LargeStep(s0, s1)
    requires LargeAdded(s0.larges, s1.larges, s1.owned, r, p, size) && s1.owned == s0.owned
    requires Refines(live, s0) && Counted(count0, bytes0, s0)
    requires count1 == count0 + 1 && bytes1 == bytes0 + (r + s1.owned[r] - p)
    ensures var live' := live[p as int := UserSize(r, s1.owned[r], p)];
      && p !in live && Refines(live', s1) && Counted(count1, bytes1, s1) && DataKept(live, live', s0.mem, s1.mem)
        && KindsStay(live, s0, live', s1)
      && live'[p] >= size
  {
    hide Whole, Refines, SameElse, NoExtent, KindsKept, Extent, LargesKept, DataKept, KindsStay, SameInside, Clear;
    hide MediumBytes, LargeBytes, CellCount;
    LargeGain(s0, s1, align, heap, r, p, size);
    Gained(live, s0, s1, align, heap, p, UserSize(r, s1.owned[r], p));
    SurvivorsKept(live, live[p as int := UserSize(r, s1.owned[r], p)], s0, s1, align, heap, p);
    KindsOf(live, live[p as int := UserSize(r, s1.owned[r], p)], s0, s1, p);
    LargeCounted(s0.larges, s1.larges, s1.owned, r, p, size);
  }

  /** A large allocation less. */
  lemma LargeFreedStep(live: map<int, int>, s0: Snapshot, s1: Snapshot, align: nat, heap: nat, r: int, p: nat,
                       count0: int, bytes0: int, count1: int, bytes1: int)
    requires Whole(s0, align, heap) && Whole(s1, align, heap) && LargeStep(s0, s1)
    requires r in s0.larges && r in s0.owned && s0.larges[r] == p && s1.larges == s0.larges - {r}
    requires s1.owned == s0.owned
    requires Refines(live, s0) && Counted(count0, bytes0, s0)
    requires count1 == count0 - 1 && bytes1 == bytes0 - (r + s0.owned[r] - p)
    ensures var live' := live - {p as int};
      Refines(live', s1) && Counted(count1, bytes1, s1) && DataKept(live, live', s0.mem, s1.mem)
          && KindsStay(live, s0, live', s1)
  {
    hide Whole, Refines, SameElse, NoExtent, KindsKept, Extent, LargesKept, DataKept, KindsStay, SameInside;
    hide MediumBytes, LargeBytes, CellCount;
    LargeLoss(s0, s1, align, heap, r, p);
    Lost(live, s0, s1, p);
    SurvivorsKept(live, live - {p as int}, s0, s1, align, heap, p);
    KindsOf(live, live - {p as int}, s0, s1, p);
    LargeUncounted(s0.larges, s0.owned, r);
  }

  const SMALLEST_BLOCK_SIZE: nat := 16

  /** The type bit that medium and large headers share. */
  predicate MediumOrLarge(prefix: nat) {
    And(Type(prefix), 4) != 0
  }

  /** The word before a live pointer tells which allocator it came from, and how large it is follows. */
  lemma Tagged(h: StbmHeap, p: nat)
    requires h.Valid() && p in h.live && p !in h.large.bare
    ensures var t := Type(Read(h.medium.mem, p - 8));
      || (t == TYPE_MEDIUM && UserBlock(h.Snap(), p) && h.live[p] == h.medium.bk.l.size[p - HEADER] - HEADER)
      || (t == TYPE_SMALL && SmallLive(h.small.slabs, p) && h.live[p] == SMALLEST_ALLOCATION)
      || (t == TYPE_LARGE && exists r {:trigger LargeAt(h.Snap(), r, p, h.live[p])} :: LargeAt(h.Snap(), r, p,
          h.live[p]))
    ensures MediumOrLarge(Read(h.medium.mem, p - 8)) <==> Type(Read(h.medium.mem, p - 8)) != TYPE_SMALL
  {
    hide Core, SysOk, SlabsOk, Settled, AlignmentOk, LargesOk, Counted, Read, Type, SmallLive;
    var s := h.Snap();
    assert Extent(s, p, h.live[p]);
    if UserBlock(s, p) && h.live[p] == s.bk.l.size[p - HEADER] - HEADER {
      BlockTag(h, p);
    } else if SmallLive(s.slabs, p) && h.live[p] == SMALLEST_ALLOCATION {
      CellTag(h, p);
    } else {
      var r :| LargeAt(s, r, p, h.live[p]);
      LargeWords(h, p, r);
    }
  }

  lemma BlockTag(h: StbmHeap, p: nat)
    requires h.Sane() && UserBlock(h.Snap(), p)
    ensures Type(Read(h.medium.mem, p - 8)) == TYPE_MEDIUM && Read(h.medium.mem, p - 16) == h.medium.heap && p > HEADER
  {
    hide Core, SysOk, SlabsOk, Settled, AlignmentOk, LargesOk, Read, Type, DecodesTo;
    var m := h.medium;
    LiveSize(m.mem, Index(m.heads, m.bitmap, m.top), m.bk, m.align, m.heap, p - HEADER);
  }

  lemma CellTag(h: StbmHeap, p: nat)
    requires h.Sane() && SmallLive(h.small.slabs, p)
    ensures Type(Read(h.medium.mem, p - 8)) == TYPE_SMALL
    ensures Read(h.medium.mem, Read(h.medium.mem, p - 8) + 8) == h.medium.heap
  {
    hide Core, SysOk, SlabsOk, Settled, AlignmentOk, LargesOk, Read, Type;
    var c :| LiveIn(h.small.slabs, c, p - 8);
    var m := h.medium;
    AllSlabs(m.mem, m.heap, m.bk, h.small.slabs, h.small.nonfull, h.small.full, h.small.chunkcache);
    LiveRange(m.mem, c, h.small.slabs[c], m.heap, p - 8);
    SlabWords(m.mem, c, h.small.slabs[c], m.heap);
    TagBits(Read(m.mem, p - 8));
    MultipleTrans(c, 16, 8);
  }

  lemma SlabWords(mem: Memory, c: int, k: Cells, heap: nat)
    requires SlabOk(mem, c, k, heap)
    ensures c > 0 && c % 16 == 0 && Read(mem, c + 8) == heap
  {
  }

  lemma LargeWords(h: StbmHeap, p: nat, r: int)
    requires h.Sane() && r in h.large.larges && h.large.larges[r] == p && p !in h.large.bare
    ensures r in h.medium.system.owned && Read(h.medium.mem, p - 24) == UserSize(r, h.medium.system.owned[r], p)
    ensures Type(Read(h.medium.mem, p - 8)) == TYPE_LARGE && Read(h.medium.mem, p - 16) == h.medium.heap
  {
    hide Core, SysOk, SlabsOk, Settled, AlignmentOk, Read, Type;
    assert LargeFine(h.medium.mem, h.medium.system.owned, h.medium.heap, h.medium.align, h.large.bare, r, p);
  }

  lemma StoredInBlock(h: StbmHeap, m0: Memory, p: int, w: int, v: nat)
    requires h.SaneAt(m0) && h.medium.mem == Write(m0, w, v) && UserBlock(h.Snap(), p)
    requires UserWord(h.medium.bk.l, h.medium.bk.live, p - HEADER, w)
    ensures h.Sane()
  {
    hide Core, SysOk, SlabsOk, Settled, AlignmentOk, LargesOk, Read, Write, Whole;
    var s := h.Snap().(mem := m0);
    StoreInBlock(s, h.medium.align, h.medium.heap, p, w, v, h.small.nonfull, h.small.full, h.small.chunkcache);
    UserWriteOk(h.medium, m0, p - HEADER, w, v);
  }

  lemma StoredInCell(h: StbmHeap, m0: Memory, p: int, v: nat)
    requires h.SaneAt(m0) && h.medium.mem == Write(m0, p, v) && SmallLive(h.small.slabs, p)
    ensures h.Sane()
  {
    hide Core, SysOk, SlabsOk, Settled, AlignmentOk, LargesOk, Read, Write, Whole, LiveIn;
    var s := h.Snap().(mem := m0);
    var c :| LiveIn(s.slabs, c, p - 8);
    ApartHere(s, h.medium.align, h.medium.heap);
    StoreInCell(s, h.medium.align, h.medium.heap, c, p, v, h.small.nonfull, h.small.full, h.small.chunkcache);
    UserWriteOk(h.medium, m0, c - HEADER, p, v);
  }

  lemma ApartHere(s: Snapshot, align: nat, heap: nat)
    requires Whole(s, align, heap)
    ensures HeapApart(s.bk, heap)
  {
    hide SysOk, Shape, LargesOk, HeapApart;
    HeapIsApart(s.mem, s.owned, heap, s.ring, s.cached, s.cachedSize, s.foreign, s.others, s.bk, align);
  }

  lemma StoredInRegion(h: StbmHeap, m0: Memory, r: int, p: int, n: int, w: int, v: nat)
    requires h.SaneAt(m0) && h.medium.mem == Write(m0, w, v) && LargeAt(h.Snap(), r, p, n) && p <= w < p + n
    ensures h.Sane()
  {
    hide Core, SysOk, SlabsOk, Settled, AlignmentOk, LargesOk, Read, Write, Whole, SameInside, LargesKept;
    var m := h.medium;
    var s := h.Snap().(mem := m0);
    assert LargeAt(s, r, p, n);
    LargeRegion(s, m.align, m.heap, r, p, n);
    LargeStart(s, m.align, m.heap, r);
    RegionWrite(m0, m.mem, Index(m.heads, m.bitmap, m.top), m.bk, m.align, m.system.owned,
                m.heap, m.ring, m.cached, m.cachedSize, m.foreign, m.others, r);
    StoreInRegion(s, m.mem, m.align, m.heap, r, p, h.small.nonfull, h.small.full, h.small.chunkcache);
  }

  lemma LargeStart(s: Snapshot, align: nat, heap: nat, r: int)
    requires Whole(s, align, heap) && r in s.larges
    ensures r in s.owned && r > 0 && r + OVERHEAD <= s.larges[r]
  {
    hide SysOk, Shape, Type;
    assert LargeFine(s.mem, s.owned, heap, align, s.bare, r, s.larges[r]);
    ForeignOwned(s.mem, s.owned, heap, s.ring, s.cached, s.cachedSize, s.foreign, s.others, s.bk.l);
  }

  /** The words of a region in hand belong to no layer. */
  lemma HandUntouched(s: Snapshot, align: nat, heap: nat, r: int, w: int)
    requires Whole(s, align, heap) && r in s.others && r in s.owned && r <= w < r + s.owned[r]
    ensures Untouched(s.bk.l, s.ring, w)
    ensures forall f :: f in s.foreign && f in s.owned ==> !RegionWord(s.owned, f, w)
  {
    hide Ring.RingOk, Shape, LargesOk, AllCells;
    forall c | c in s.bk.l.chunks ensures OutsideChunk(s.bk.l, c, w) {
      assert ChunkOwned(s.mem, s.owned, s.ring, s.foreign, s.bk.l, c);
      assert RegionPair(s.owned, s.bk.l.chunks[c].sys, r);
    }
    forall i | 0 <= i < |s.ring| ensures w < s.ring[i] || w >= s.ring[i] + LIST_WORDS {
      if i == 0 {
        assert RegionPair(s.owned, heap, r);
      } else {
        assert s.ring[i] as int in Members(s.ring);
        assert s.ring[i] as int in s.owned.Keys;
        assert s.owned[s.ring[i] as int] >= SYSTEM_HEADER;
        assert RegionPair(s.owned, s.ring[i], r);
      }
    }
    forall f | f in s.foreign && f in s.owned ensures !RegionWord(s.owned, f, w) {
      assert RegionPair(s.owned, f, r);
    }
  }

  lemma Filled(h: StbmHeap, m0: Memory, r: int, w: nat, v: nat)
    requires h.SaneAt(m0) && h.medium.mem == Write(m0, w, v)
    requires r in h.medium.others && r in h.medium.system.owned && r <= w < r + h.medium.system.owned[r]
    ensures h.Sane() && LargeStep(h.Snap().(mem := m0), h.Snap())
  {
    hide Core, SysOk, SlabsOk, Settled, AlignmentOk, LargesOk, Read, Whole, OutsideChunks;
    var m := h.medium;
    var s := h.Snap().(mem := m0);
    HandUntouched(s, m.align, m.heap, r, w);
    ForeignKept(s, m.align, m.heap);
    OutsideOk(m0, m.mem, Index(m.heads, m.bitmap, m.top), m.bk, m.align, m.heap, NONE);
    SysFrame(m0, m.mem, s.owned, m.heap, s.ring, s.cached, s.cachedSize, s.foreign, s.others, s.bk.l, s.bk.l);
    SlabsAway(s, m.mem, m.align, m.heap, r, h.small.nonfull, h.small.full, h.small.chunkcache);
    LargesStayOk(m0, m.mem, s.owned, s.owned, m.heap, m.align, s.foreign, s.larges, s.bare);
  }

  /** No data moves when only words outside the allocations do. */
  lemma SameSpread(live: map<int, int>, s0: Snapshot, s1: Snapshot, align: nat, heap: nat)
    requires Whole(s0, align, heap) && LargeStep(s0, s1) && Refines(live, s0)
    requires s1 == s0.(mem := s1.mem)
    ensures DataKept(live, live, s0.mem, s1.mem) && UserdataKept(live, live, {}, s0.mem, s1.mem)
  {
    hide Whole, Refines, KindsKept, SameInside, LargesKept, Read, Extent, SameElse, UserdataOf;
    InsideKept(s0, s1, align, heap);
    forall p | p in live ensures UserdataOf(s1.mem, p) == UserdataOf(s0.mem, p) {
      LiveExtent(live, s0, p);
      NoneElse(s0, s1, align, heap, p + 1);
      PrefixKept(s0, s1, align, heap, p + 1, p, live[p]);
    }
    forall p, w | DataWord(live, p, w) ensures Read(s1.mem, w) == Read(s0.mem, w) {
      LiveExtent(live, s0, p);
      NoneElse(s0, s1, align, heap, p + 1);
      WordKept(s0, s1, align, heap, p + 1, p, live[p], w);
    }
  }

  lemma NoneElse(s0: Snapshot, s1: Snapshot, align: nat, heap: nat, x: int)
    requires Whole(s0, align, heap) && s1 == s0.(mem := s1.mem)
    ensures SameElse(s0, s1, x)
  {
    hide Whole;
    forall p ensures UserBlock(s1, p) <==> UserBlock(s0, p)
      ensures UserBlock(s0, p) ==> SameSize(s0.bk.l, s1.bk.l, p - HEADER)
    {
      BlocksStay(s0, s1, align, heap, p);
    }
  }

  /** Which allocations are live does not depend on memory. */
  lemma SameExtents(live: map<int, int>, s0: Snapshot, s1: Snapshot, count: int, bytes: int)
    requires Refines(live, s0) && Counted(count, bytes, s0)
    requires s1.bk == s0.bk && s1.slabs == s0.slabs && s1.larges == s0.larges && s1.owned == s0.owned
    ensures Refines(live, s1) && Counted(count, bytes, s1)
  {
    forall p, n ensures Extent(s1, p, n) <==> p in live && live[p] == n {
      assert Extent(s0, p, n) <==> p in live && live[p] == n;
      forall r ensures LargeAt(s1, r, p, n) <==> LargeAt(s0, r, p, n) {
      }
    }
  }

  function Rest(ring: seq<nat>, i: nat): set<int> {
    set j | i <= j < |ring| :: ring[j] as int
  }

  lemma RestNext(ring: seq<nat>, i: nat)
    requires i < |ring| && Ring.Spaced(ring)
    ensures ring[i] as int in Rest(ring, i) && Rest(ring, i + 1) == Rest(ring, i) - {ring[i] as int}
  {
    forall r | r in Rest(ring, i + 1) ensures r in Rest(ring, i) && r != ring[i] {
      var j :| i + 1 <= j < |ring| && ring[j] as int == r;
      assert Ring.Apart(ring[i], ring[j]);
    }
  }

  /** The system list holds everything but the heap structure and the cached chunk. */
  lemma Listed(h: StbmHeap)
    requires h.Sane() && h.medium.others == {}
    ensures var m := h.medium;
      && |m.ring| > 0 && Ring.Spaced(m.ring) && m.ring[0] == m.heap + SENTINEL
      && m.system.owned.Keys == {m.heap as int} + Rest(m.ring, 1) + Cached(m.cached)
      && m.heap != m.cached && m.heap !in Rest(m.ring, 1) && Rest(m.ring, 1) !! Cached(m.cached)
  {
    hide Core, SlabsOk, Settled, AlignmentOk, LargesOk, Read;
    assert Rest(h.medium.ring, 1) == Members(h.medium.ring);
  }

  /** Following next links from the sentinel visits the list and returns; each listed allocation carries a known
      mark, and none is mistaken for the sentinel. */
  ghost predicate Chain(mem: Memory, ring: seq<nat>, sentinel: nat) {
    forall i: nat {:trigger Linked(mem, ring, sentinel, i)} :: i < |ring| ==> Linked(mem, ring, sentinel, i)
  }

  ghost predicate Linked(mem: Memory, ring: seq<nat>, sentinel: nat, i: nat)
    requires i < |ring|
  {
    && Read(mem, ring[i] + 16) == (if i + 1 < |ring| then ring[i + 1] else sentinel)
    && (i > 0 ==> ring[i] != sentinel && (Read(mem, ring[i]) == MAGIC_LARGE || Read(mem, ring[i]) == MAGIC_MEDIUM))
  }

  lemma ChainAt(mem: Memory, ring: seq<nat>, sentinel: nat, i: nat)
    requires Chain(mem, ring, sentinel) && i < |ring|
    ensures Read(mem, ring[i] + 16) == (if i + 1 < |ring| then ring[i + 1] else sentinel)
    ensures i > 0 ==> ring[i] != sentinel && (Read(mem, ring[i]) == MAGIC_LARGE || Read(mem, ring[i]) == MAGIC_MEDIUM)
  {
    assert Linked(mem, ring, sentinel, i);
  }

  lemma ChainHere(h: StbmHeap)
    requires h.Sane()
    ensures Chain(h.medium.mem, h.medium.ring, h.medium.heap + SENTINEL)
  {
    hide Core, SlabsOk, Settled, AlignmentOk, LargesOk, Read, SysOk;
    var m := h.medium;
    var sentinel := m.heap + SENTINEL;
    MediumParts(m);
    forall i: nat | i < |m.ring| ensures Linked(m.mem, m.ring, sentinel, i) {
      ListNext(m.mem, m.system.owned, m.heap, m.ring, m.cached, m.cachedSize, m.foreign, m.others, m.bk.l, i);
    }
  }

  lemma ListNext(mem: Memory, owned: map<int, nat>, heap: nat, ring: seq<nat>, cached: nat, cachedSize: nat,
                 foreign: set<int>, others: set<int>, l: Layout, i: nat)
    requires SysOk(mem, owned, heap, ring, cached, cachedSize, foreign, others, l) && i < |ring|
    ensures Read(mem, ring[i] + 16) == (if i + 1 < |ring| then ring[i + 1] else heap + SENTINEL)
    ensures i > 0 ==>
      ring[i] != heap + SENTINEL && (Read(mem, ring[i]) == MAGIC_LARGE || Read(mem, ring[i]) == MAGIC_MEDIUM)
  {
    hide Read;
    assert Ring.NodeOk(mem, SYS_LINKS, ring, i);
    if i > 0 {
      assert Ring.Apart(ring[0], ring[i]);
      MemberOf(ring, i);
      if ring[i] as int !in foreign {
        assert ChunkSys(l, ring[i]);
        var c :| c in l.chunks && l.chunks[c].sys == ring[i];
        assert ChunkOwned(mem, owned, ring, foreign, l, c);
      }
    }
  }

  lemma MemberOf(ring: seq<nat>, i: nat)
    requires 1 <= i < |ring|
    ensures ring[i] as int in Members(ring)
  {
  }

  /** The prefix of an allocation is no word of any allocation's data. */
  lemma PrefixNotData(live: map<int, int>, s: Snapshot, align: nat, heap: nat, p: int, v: nat)
    requires Refines(live, s) && Whole(s, align, heap) && p in live && live[p] > SMALLEST_ALLOCATION
    ensures DataKept(live, live, s.mem, Write(s.mem, p - 8, v))
    ensures UserdataKept(live, live, {p}, s.mem, Write(s.mem, p - 8, v))
  {
    hide Whole, Read, Extent, Refines, Type, Userdata;
    LiveExtent(live, s, p);
    forall q, w | DataWord(live, q, w) ensures Read(Write(s.mem, p - 8, v), w) == Read(s.mem, w) {
      LiveExtent(live, s, q);
      PrefixOutside(s, align, heap, p, live[p], q, live[q]);
    }
  }

  /** A caller's store does not reach the prefix of any allocation. */
  lemma StoreNotPrefix(live: map<int, int>, s: Snapshot, align: nat, heap: nat, p: int, w: int, v: nat)
    requires Refines(live, s) && Whole(s, align, heap) && DataWord(live, p, w)
    ensures UserdataKept(live, live, {}, s.mem, Write(s.mem, w, v))
  {
    hide Whole, Read, Extent, Refines, Type, Userdata;
    LiveExtent(live, s, p);
    forall q | q in live ensures UserdataOf(Write(s.mem, w, v), q) == UserdataOf(s.mem, q) {
      LiveExtent(live, s, q);
      PrefixOutside(s, align, heap, q, live[q], p, live[p]);
    }
  }

  /** The word before an allocation is in the data of none. */
  lemma PrefixOutside(s: Snapshot, align: nat, heap: nat, p: int, n: int, q: int, m: int)
    requires Whole(s, align, heap) && Extent(s, p, n) && Extent(s, q, m)
    ensures p - 8 < q || q + m <= p - 8
  {
    hide Whole, SmallLive;
    if IsSmallOrMedium(s, p, n) {
      var a := Host(s, align, heap, p, n);
      HostedPrefix(s, align, heap, a, p, n);
      if IsSmallOrMedium(s, q, m) {
        var b := Host(s, align, heap, q, m);
        if b != a {
          BlocksDisjoint(s, align, heap, a, b);
        } else if a != p - HEADER {
          SameSlab(s, align, heap, a, p, q, m);
        }
      } else {
        var t :| LargeAt(s, t, q, m);
        LargeRegion(s, align, heap, t, q, m);
        var r := BlockRegion(s, align, heap, a);
        RegionsApartHere(s, align, heap, r, t);
      }
    } else {
      var r :| LargeAt(s, r, p, n);
      LargeStart(s, align, heap, r);
      LargeRegion(s, align, heap, r, p, n);
      if IsSmallOrMedium(s, q, m) {
        var b := Host(s, align, heap, q, m);
        var t := HostRegion(s, align, heap, b, q, m);
        RegionsApartHere(s, align, heap, r, t);
      } else {
        var t :| LargeAt(s, t, q, m);
        LargeRegion(s, align, heap, t, q, m);
        if t != r {
          RegionsApartHere(s, align, heap, r, t);
        }
      }
    }
  }

  /** The word before a medium or small allocation is in its host block. */
  lemma HostedPrefix(s: Snapshot, align: nat, heap: nat, a: int, p: int, n: int)
    requires Whole(s, align, heap) && Hosted(s, a, p, n) && (a == p - HEADER || LiveIn(s.slabs, a + HEADER, p - 8))
    ensures a <= p - 8 && p <= a + s.bk.l.size[a] && (a != p - HEADER ==> IsCell(a + HEADER, p - 8))
  {
    hide SysOk, Shape, LargesOk;
  }

  lemma SameSlab(s: Snapshot, align: nat, heap: nat, a: int, p: int, q: int, m: int)
    requires Whole(s, align, heap) && IsSmallOrMedium(s, q, m) && Hosted(s, a, q, m)
    requires UserBlock(s, q) && m == s.bk.l.size[q - HEADER] - HEADER ==> a == q - HEADER
    requires !(UserBlock(s, q) && m == s.bk.l.size[q - HEADER] - HEADER) ==>
      LiveIn(s.slabs, a + HEADER, q - 8) && m == SMALLEST_ALLOCATION
    requires LiveIn(s.slabs, a + HEADER, p - 8) && IsCell(a + HEADER, p - 8)
    ensures p - 8 < q || q + m <= p - 8
  {
    hide SysOk, Shape, LargesOk;
    if LiveIn(s.slabs, a + HEADER, q - 8) && p != q {
      CellsApart(a + HEADER, p - 8, q - 8);
    }
  }

  /** No other allocation's prefix is where the headers of a large one are. */
  lemma PrefixElsewhere(s: Snapshot, align: nat, heap: nat, r: int, p: int, n: int, q: int, m: int)
    requires Whole(s, align, heap) && LargeAt(s, r, p, n) && Extent(s, q, m) && q != p
    ensures !(r <= q - 8 < p)
  {
    hide Whole, SmallLive;
    LargeRegion(s, align, heap, r, p, n);
    if IsSmallOrMedium(s, q, m) {
      var b := Host(s, align, heap, q, m);
      HostedPrefix(s, align, heap, b, q, m);
      var t := BlockRegion(s, align, heap, b);
      RegionsApartHere(s, align, heap, r, t);
    } else {
      var t :| LargeAt(s, t, q, m);
      LargeRegion(s, align, heap, t, q, m);
      LargeStart(s, align, heap, t);
      RegionsApartHere(s, align, heap, r, t);
    }
  }

  /** No allocation has data where the headers of a large one are. */
  lemma HeaderOutside(s: Snapshot, align: nat, heap: nat, r: int, p: int, n: int, q: int, m: int, w: int)
    requires Whole(s, align, heap) && LargeAt(s, r, p, n) && Extent(s, q, m) && q <= w && w + 8 <= q + m
    ensures !(r <= w < p)
  {
    hide Whole, SmallLive;
    LargeRegion(s, align, heap, r, p, n);
    if IsSmallOrMedium(s, q, m) {
      var b := Host(s, align, heap, q, m);
      var t := HostRegion(s, align, heap, b, q, m);
      RegionsApartHere(s, align, heap, r, t);
    } else {
      var t :| LargeAt(s, t, q, m);
      LargeRegion(s, align, heap, t, q, m);
      if t != r {
        RegionsApartHere(s, align, heap, r, t);
      }
    }
  }

  lemma HeaderNotData(live: map<int, int>, s: Snapshot, m1: Memory, align: nat, heap: nat, r: int, p: int)
    requires Refines(live, s) && Whole(s, align, heap) && p in live && LargeAt(s, r, p, live[p])
    requires forall w {:trigger Read(m1, w)} :: !(r <= w < p) ==> Read(m1, w) == Read(s.mem, w)
    ensures DataKept(live, live, s.mem, m1) && UserdataKept(live, live, {p}, s.mem, m1)
  {
    hide Whole, Read, Extent, Refines, LargeAt, Type, Userdata;
    forall q | q in live && q != p ensures UserdataOf(m1, q) == UserdataOf(s.mem, q) {
      LiveExtent(live, s, q);
      PrefixElsewhere(s, align, heap, r, p, live[p], q, live[q]);
    }
    forall q, w | DataWord(live, q, w) ensures Read(m1, w) == Read(s.mem, w) {
      LiveExtent(live, s, q);
      HeaderOutside(s, align, heap, r, p, live[p], q, live[q], w);
    }
  }

  /** An allocation without its header is a large one. */
  lemma BareAt(live: map<int, int>, s: Snapshot, align: nat, heap: nat, p: nat)
    requires Refines(live, s) && Whole(s, align, heap) && p in s.bare && p in live
    ensures LargeAt(s, s.bare[p], p, live[p]) && s.bare[p] in s.foreign && s.bare[p] in s.owned && s.bare[p] >= 0
  {
    hide SysOk, Shape, AllCells, LargesOk;
    BareFacts(s.mem, s.owned, heap, align, s.foreign, s.larges, s.bare, p);
    var r := s.bare[p];
    var n := r + s.owned[r] - p;
    assert LargeAt(s, r, p, n);
    assert Extent(s, p, n);
  }

  /** Which allocations are blocks does not depend on memory. */
  lemma KindsAt(live: map<int, int>, s0: Snapshot, s1: Snapshot, bare: set<int>)
    requires s1.bk == s0.bk && s1.slabs == s0.slabs && bare <= s0.bare.Keys
    requires UserdataKept(live, live, bare, s0.mem, s1.mem)
    ensures KindsStay(live, s0, live, s1)
  {
  }

  lemma BlocksDisjoint(s: Snapshot, align: nat, heap: nat, a: int, b: int)
    requires Whole(s, align, heap) && a in s.bk.l.size && b in s.bk.l.size && a != b
    ensures a + s.bk.l.size[a] <= b || b + s.bk.l.size[b] <= a
  {
    hide SysOk, Tiled, KindsOk, RegionsApart, Filed, LargesOk, AllCells;
    Disjoint(s.bk.l, align, a, b);
  }

  lemma BlockRegion(s: Snapshot, align: nat, heap: nat, a: int) returns (r: int)
    requires Whole(s, align, heap) && a in s.bk.live && a in s.bk.l.size
    ensures r in s.owned && r <= a && a + s.bk.l.size[a] <= r + s.owned[r] && r !in s.foreign
  {
    hide Tiled, KindsOk, RegionsApart, Filed, LargesOk, Ring.RingOk, AllCells;
    ChunkOfBlock(s.bk.l, align, a);
    var c := s.bk.l.base[a];
    r := s.bk.l.chunks[c].sys;
    assert ChunkOwned(s.mem, s.owned, s.ring, s.foreign, s.bk.l, c);
  }

  lemma StampedBlock(h: StbmHeap, m0: Memory, p: int, v: nat)
    requires h.SaneAt(m0) && h.medium.mem == Write(m0, p - 8, v) && UserBlock(h.Snap(), p) && v < 0x1_0000_0000
    requires SameBlockFields(Read(m0, p - 8), v) && (PreviousAlloc(v) <==> PreviousAlloc(Read(m0, p - 8)))
    ensures h.Sane()
  {
    hide Core, SysOk, SlabsOk, Settled, AlignmentOk, LargesOk, Read, Write, Whole, SameBlockFields, PreviousAlloc;
    hide Quiet;
    HeaderStampOk(h.medium, m0, p, v);
    var s0, s1 := h.Snap().(mem := m0), h.Snap();
    MediumParts(h.medium);
    ForeignStay(s0, s1, h.medium.align, h.medium.heap);
    var others := h.medium.bk.live - {p - HEADER};
    NotSlabs(s0, h.medium.align, h.medium.heap, p);
    SlabsSurvive(s0, s1, h.medium.heap, others, h.small.nonfull, h.small.full, h.small.chunkcache, h.medium.align);
    LargesSurvive(s0, s1, h.medium.align, h.medium.heap, others);
  }

  lemma NotSlabs(s: Snapshot, align: nat, heap: nat, p: int)
    requires Whole(s, align, heap) && UserBlock(s, p)
    ensures forall c :: c in s.slabs ==> c - HEADER in s.bk.live && c - HEADER != p - HEADER
  {
    hide SysOk, Shape, LargesOk, AllCells;
    forall c | c in s.slabs ensures c - HEADER in s.bk.live {
      assert Housed(s.bk, c);
    }
  }

  lemma ForeignStay(s0: Snapshot, s1: Snapshot, align: nat, heap: nat)
    requires Whole(s0, align, heap)
    requires s1.slabs == s0.slabs && s1.larges == s0.larges && s1.bare == s0.bare
    requires s1.foreign == s0.foreign && s1.owned == s0.owned
    ensures SameOwners(s0, s1)
  {
    hide SysOk, Shape, LargesOk, AllCells;
    ForeignOwned(s0.mem, s0.owned, heap, s0.ring, s0.cached, s0.cachedSize, s0.foreign, s0.others, s0.bk.l);
  }

  lemma StampedRegion(h: StbmHeap, m0: Memory, r: int, p: int, n: int, v: nat)
    requires h.SaneAt(m0) && h.medium.mem == Write(m0, p - 8, v) && LargeAt(h.Snap(), r, p, n) && v < 0x1_0000_0000
    requires Type(v) == Type(Read(m0, p - 8))
    ensures h.Sane()
  {
    hide Core, SysOk, SlabsOk, Settled, AlignmentOk, LargesOk, Read, Write, Whole, SameInside, LargesKept, Type;
    var m := h.medium;
    var s := h.Snap().(mem := m0);
    assert LargeAt(s, r, p, n);
    LargeRegion(s, m.align, m.heap, r, p, n);
    LargeStart(s, m.align, m.heap, r);
    RegionWrite(m0, m.mem, Index(m.heads, m.bitmap, m.top), m.bk, m.align, m.system.owned,
                m.heap, m.ring, m.cached, m.cachedSize, m.foreign, m.others, r);
    StampInRegion(s, m.mem, m.align, m.heap, r, p, v, h.small.nonfull, h.small.full, h.small.chunkcache);
  }

  lemma StampInRegion(s: Snapshot, m1: Memory, align: nat, heap: nat, r: int, p: int, v: nat, nonfull: seq<nat>,
                      full: seq<nat>, cache: nat)
    requires Whole(s, align, heap) && r in s.larges && s.larges[r] == p && r in s.owned && r in s.foreign && r > 0
    requires m1 == Write(s.mem, p - 8, v) && v < 0x1_0000_0000 && Type(v) == Type(Read(s.mem, p - 8))
    requires SameInside(s.mem, m1, s.bk.l) && LargesKept(s.mem, m1, s.owned, s.foreign, r)
    requires SlabsOk(s.mem, heap, s.bk, s.slabs, nonfull, full, cache, {}, {})
    ensures SlabsOk(m1, heap, s.bk, s.slabs, nonfull, full, cache, {}, {})
    ensures LargesOk(m1, s.owned, heap, align, s.foreign, s.larges, s.bare)
  {
    hide SysOk, Read, Shape, SlabsOk, AllCells, LargesKept, SameInside, Type;
    assert LargeFine(s.mem, s.owned, heap, align, s.bare, r, p);
    SlabsAway(s, m1, align, heap, r, nonfull, full, cache);
    forall t | t in s.larges ensures LargeFine(m1, s.owned, heap, align, s.bare, t, s.larges[t]) {
      assert LargeFine(s.mem, s.owned, heap, align, s.bare, t, s.larges[t]);
      if t != r {
        LargeStaysFine(s.mem, m1, s.owned, s.owned, heap, align, s.foreign, s.larges, s.bare, t, r);
      }
    }
  }

  /** Live allocations of a heap never overlap, and each lies in one system allocation still held. */
  lemma LiveApart(h: StbmHeap, p: int, q: int)
    requires h.Valid() && p in h.live && q in h.live && p != q
    ensures Apart(p, h.live[p], q, h.live[q])
  {
    hide StbmHeap.Sane, Whole, Extent;
    WholeHere(h);
    LiveExtent(h.live, h.Snap(), p);
    LiveExtent(h.live, h.Snap(), q);
    ExtentsApart(h.Snap(), h.medium.align, h.medium.heap, p, h.live[p], q, h.live[q]);
  }

  lemma LiveContained(h: StbmHeap, p: int) returns (r: int)
    requires h.Valid() && p in h.live
    ensures var owned := h.medium.system.owned; r in owned && r <= p && p + h.live[p] <= r + owned[r] && h.live[p] > 0
  {
    hide StbmHeap.Sane, Whole, Extent;
    WholeHere(h);
    LiveExtent(h.live, h.Snap(), p);
    ExtentPositive(h.Snap(), h.medium.align, h.medium.heap, p, h.live[p]);
    r := ExtentContained(h.Snap(), h.medium.align, h.medium.heap, p, h.live[p]);
  }
}
