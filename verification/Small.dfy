/** The small allocator: requests of at most eight bytes, served from 16-byte cells of slabs that live in medium
    blocks. */
module Small {
  import opened Bits
  import opened SizeClasses
  import opened SystemMemory
  import opened Memory
  import opened Words
  import opened Blocks
  import opened Tags
  import opened MediumSteps
  import opened MediumMoves
  import opened MediumFrames
  import opened MediumSystem
  import opened Layers
  import opened Slab
  import opened Tally
  import opened SmallSteps
  import opened Tlsf
  import Ring

  ghost predicate SmallLive(slabs: Slabs, p: int) {
    exists c {:trigger LiveIn(slabs, c, p - 8)} :: LiveIn(slabs, c, p - 8)
  }

  lemma MediumFacts(m: MediumHeap)
    requires m.Valid()
    ensures Shape(m.bk, m.align) && HeapApart(m.bk, m.heap) && m.ValidAt(m.mem)
  {
    hide Core, SysOk, Settled, AlignmentOk;
    CoreShape(m.mem, Index(m.heads, m.bitmap, m.top), m.bk, m.align, m.heap, NONE);
    HeapIsApart(m.mem, m.system.owned, m.heap, m.ring, m.cached, m.cachedSize, m.foreign, m.others, m.bk, m.align);
  }

  /** Writes to slab words and to the two sentinels keep the medium allocator valid. */
  lemma StillValid(m: MediumHeap, m0: Memory, slabs: Slabs)
    requires m.ValidAt(m0) && SmallWrites(m0, m.mem, m.heap, slabs)
    requires forall c {:trigger Housed(m.bk, c)} :: c in slabs ==> Housed(m.bk, c)
    ensures m.Valid()
  {
    hide Core, SysOk, Settled, AlignmentOk, SmallWrites, LayerWrites, Housed;
    CoreShape(m0, Index(m.heads, m.bitmap, m.top), m.bk, m.align, m.heap, NONE);
    SmallIsLayer(m0, m.mem, m.system.owned, m.heap, m.ring, m.cached, m.cachedSize, m.foreign, m.others, m.bk,
                 m.align, slabs);
    LayerOk(m0, m.mem, Index(m.heads, m.bitmap, m.top), m.bk, m.align, m.heap, m.ring);
    LayerSystem(m0, m.mem, m.system.owned, m.heap, m.ring, m.cached, m.cachedSize, m.foreign, m.others, m.bk, m.align);
  }

  lemma PlaceOn(mem: Memory, heap: nat, bk: Book, slabs: Slabs, nonfull: seq<nat>, full: seq<nat>, cache: nat,
                out: set<int>, loose: set<int>, onFull: bool, c: nat) returns (at: nat)
    requires SlabsOk(mem, heap, bk, slabs, nonfull, full, cache, out, loose)
    requires c in Members(Pick(onFull, full, nonfull))
    ensures 0 < at < |Pick(onFull, full, nonfull)| && Pick(onFull, full, nonfull)[at] == c
    ensures var ring := Pick(onFull, full, nonfull);
      && Read(mem, c + 16) == Ring.After(ring, at) && Read(mem, c + 24) == Ring.Prior(ring, at)
  {
    hide Read;
    var ring := Pick(onFull, full, nonfull);
    at :| 1 <= at < |ring| && ring[at] == c;
    assert Ring.NodeOk(mem, SMALL_LINKS, ring, at);
  }

  lemma FreshRings(mem: Memory, heap: nat)
    ensures var f, n := heap + FULL_SENTINEL, heap + NONFULL_SENTINEL;
      var m1 := Write(Write(Write(Write(mem, f + 24, f), f + 16, f), n + 24, n), n + 16, n);
      RingsOk(m1, heap, [n], [f]) && SmallWrites(mem, m1, heap, map[])
  {
    hide Read;
  }

  lemma AllHoused(mem: Memory, heap: nat, bk: Book, slabs: Slabs, nonfull: seq<nat>, full: seq<nat>, cache: nat,
                  out: set<int>, loose: set<int>)
    requires SlabsOk(mem, heap, bk, slabs, nonfull, full, cache, out, loose)
    ensures forall c {:trigger Housed(bk, c)} :: c in slabs ==> Housed(bk, c)
  {
  }

  lemma SentinelOf(mem: Memory, heap: nat, bk: Book, slabs: Slabs, nonfull: seq<nat>, full: seq<nat>, cache: nat,
                   out: set<int>, loose: set<int>, onFull: bool)
    requires SlabsOk(mem, heap, bk, slabs, nonfull, full, cache, out, loose)
    ensures |Pick(onFull, full, nonfull)| > 0
    ensures Pick(onFull, full, nonfull)[0] == heap + Pick(onFull, FULL_SENTINEL, NONFULL_SENTINEL)
  {
  }

  lemma LinkIs(mem: Memory, sentinel: nat, c: nat)
    ensures Ring.LinkMem(mem, SMALL_LINKS, sentinel, c)
         == (var m1 := Write(Write(mem, c + 16, Read(mem, sentinel + 16)), c + 24, sentinel);
             Write(Write(m1, Read(m1, sentinel + 16) + 24, c), sentinel + 16, c))
  {
  }

  lemma UnlinkIs(mem: Memory, c: nat)
    ensures Ring.UnlinkMem(mem, SMALL_LINKS, c)
         == Write(Write(mem, Read(mem, c + 16) + 24, Read(mem, c + 24)), Read(mem, c + 24) + 16, Read(mem, c + 16))
  {
  }

  class SmallHeap {
    const medium: MediumHeap
    var chunkcache: nat

    ghost var slabs: Slabs
    ghost var nonfull: seq<nat>
    ghost var full: seq<nat>

    /** stbm__small_init. */
    constructor (medium: MediumHeap)
      requires medium.Valid()
      modifies medium`mem
      ensures Valid() && this.medium == medium && slabs == map[] && chunkcache == 0
    {
      hide Core, SysOk, Settled, AlignmentOk, Read;
      this.medium := medium;
      chunkcache := 0;
      slabs := map[];
      ghost var m0 := medium.mem;
      nonfull, full := [medium.heap + NONFULL_SENTINEL], [medium.heap + FULL_SENTINEL];
      new;
      MediumFacts(medium);
      var f, n := medium.heap + FULL_SENTINEL, medium.heap + NONFULL_SENTINEL;
      medium.mem := Write(Write(medium.mem, f + 24, f), f + 16, f);
      medium.mem := Write(Write(medium.mem, n + 24, n), n + 16, n);
      FreshRings(m0, medium.heap);
      StillValid(medium, m0, slabs);
    }

    ghost predicate Loose(out: set<int>, loose: set<int>)
      reads this, medium, medium.system
    {
      && medium.Valid()
      && SlabsOk(medium.mem, medium.heap, medium.bk, slabs, nonfull, full, chunkcache, out, loose)
    }

    ghost predicate Valid()
      reads this, medium, medium.system
    {
      Loose({}, {})
    }

    /** stbm__smallchunk_unlink. */
    method UnlinkSlab(c: nat, ghost fromFull: bool, ghost out: set<int>, ghost loose: set<int>)
      requires Loose(out, loose) && c as int in loose && c as int in Members(Pick(fromFull, full, nonfull))
      modifies medium`mem, this`nonfull, this`full
      ensures Loose(out + {c as int}, loose)
      ensures LinkWritesOnly(old(medium.mem), medium.mem, medium.heap, slabs)
    {
      hide Core, SysOk, Read, SlabsOk, Settled, Ring.UnlinkMem, Ring.RingOk, LinkWritesOnly, AlignmentOk;
      ghost var m0, nonfull0, full0 := medium.mem, nonfull, full;
      ghost var ring := Pick(fromFull, full, nonfull);
      ghost var at := PlaceOn(m0, medium.heap, medium.bk, slabs, nonfull, full, chunkcache, out, loose, fromFull, c);
      MediumFacts(medium);
      DetachOk(m0, medium.heap, medium.bk, medium.align, slabs, nonfull, full, chunkcache, out, loose, fromFull, at);
      var next, prev := Read(medium.mem, c + 16), Read(medium.mem, c + 24);
      medium.mem := Write(medium.mem, next + 24, prev);
      medium.mem := Write(medium.mem, prev + 16, next);
      UnlinkIs(m0, c);
      LinksAreSmall(m0, medium.mem, medium.heap, slabs);
      nonfull, full := Pick(fromFull, nonfull, Ring.Removed(ring, at)), Pick(fromFull, Ring.Removed(ring, at), full);
      AllHoused(m0, medium.heap, medium.bk, slabs, nonfull0, full0, chunkcache, out, loose);
      StillValid(medium, m0, slabs);
    }

    /** stbm__smallchunk_link. */
    method LinkSlab(c: nat, ghost toFull: bool, sentinel: nat, ghost out: set<int>, ghost loose: set<int>)
      requires Loose(out, loose) && c as int in out && c as int in loose
      requires sentinel == medium.heap + Pick(toFull, FULL_SENTINEL, NONFULL_SENTINEL)
      modifies medium`mem, this`nonfull, this`full
      ensures Loose(out - {c as int}, loose)
      ensures LinkWritesOnly(old(medium.mem), medium.mem, medium.heap, slabs)
      ensures c as int in Members(Pick(toFull, full, nonfull))
    {
      hide Core, SysOk, Read, SlabsOk, Settled, Ring.LinkMem, Ring.RingOk, LinkWritesOnly, AlignmentOk;
      hide Ring.Inserted, Members;
      ghost var m0, nonfull0, full0 := medium.mem, nonfull, full;
      MediumFacts(medium);
      AttachOk(m0, medium.heap, medium.bk, medium.align, slabs, nonfull, full, chunkcache, out, loose, toFull, c);
      SentinelOf(m0, medium.heap, medium.bk, slabs, nonfull, full, chunkcache, out, loose, toFull);
      medium.mem := Write(medium.mem, c + 16, Read(medium.mem, sentinel + 16));
      medium.mem := Write(medium.mem, c + 24, sentinel);
      medium.mem := Write(medium.mem, Read(medium.mem, sentinel + 16) + 24, c);
      medium.mem := Write(medium.mem, sentinel + 16, c);
      LinkIs(m0, sentinel, c);
      LinksAreSmall(m0, medium.mem, medium.heap, slabs);
      ghost var ring := Pick(toFull, full, nonfull);
      MembersInserted(ring, c);
      nonfull, full := Pick(toFull, nonfull, Ring.Inserted(ring, c)), Pick(toFull, Ring.Inserted(ring, c), full);
      AllHoused(m0, medium.heap, medium.bk, slabs, nonfull0, full0, chunkcache, out, loose);
      StillValid(medium, m0, slabs);
    }

    /** The cell goes on its slab's free list, and the slab is loose until re-placed. */
    method PushCell(c: nat, x: nat)
      requires Valid() && LiveIn(slabs, c, x)
      modifies medium`mem, this`slabs
      ensures Loose({}, {c as int}) && c in old(slabs) && c in slabs
      ensures slabs == old(slabs)[c as int := Cells(old(slabs)[c].live - {x as int}, [x] + old(slabs)[c].free)]
      ensures SlabOk(medium.mem, c, slabs[c], medium.heap) && !NoRoom(medium.mem, c)
      ensures Read(medium.mem, c + FULL) == (if c as int in Members(full) then 1 else 0)
      ensures c as int in Members(full) + Members(nonfull) && c as int !in Cached(chunkcache)
      ensures c as int in Members(full) ==> slabs[c].live != {}
      ensures SmallWrites(old(medium.mem), medium.mem, medium.heap, old(slabs))
      ensures CellsKept(old(medium.mem), medium.mem, old(slabs), slabs)
    {
      hide Core, SysOk, Read, SlabsOk, Settled, AlignmentOk, Members, SlabOk, NoRoom, CellsKept, SmallWrites, Shape;
      hide Housed;
      ghost var m0, slabs0, k0 := medium.mem, slabs, slabs[c];
      MediumFacts(medium);
      BeforePush(m0, medium.heap, medium.bk, slabs, nonfull, full, chunkcache, c, x);
      medium.mem := Write(medium.mem, x + 8, Read(medium.mem, c + FIRST_FREE));
      medium.mem := Write(medium.mem, x, FREE_MAGIC);
      medium.mem := Write(medium.mem, c + FIRST_FREE, x);
      medium.mem := Write(medium.mem, c + NUM_ALLOC, Read(medium.mem, c + NUM_ALLOC) - 1);
      slabs := slabs[c as int := Cells(k0.live - {x as int}, [x] + k0.free)];
      AfterPush(m0, medium.mem, medium.heap, medium.bk, medium.align, slabs0, nonfull, full, chunkcache, c, x);
      AllHoused(m0, medium.heap, medium.bk, slabs0, nonfull, full, chunkcache, {}, {});
      StillValid(medium, m0, slabs0);
    }

    /** A slab that was full and got a free cell moves to the nonfull ring. */
    method Unfill(c: nat)
      requires Loose({}, {c as int}) && c in slabs && SlabOk(medium.mem, c, slabs[c], medium.heap)
      requires !NoRoom(medium.mem, c) && c as int in Members(full) && slabs[c].live != {}
      requires forall d :: d in slabs ==> SlabOk(medium.mem, d, slabs[d], medium.heap)
      modifies medium`mem, this`nonfull, this`full
      ensures Valid()
      ensures SmallWrites(old(medium.mem), medium.mem, medium.heap, slabs)
      ensures CellsKept(old(medium.mem), medium.mem, slabs, slabs)
    {
      hide Core, SysOk, Read, SlabsOk, Settled, AlignmentOk, Members, SlabOk, NoRoom, CellsKept, SmallWrites, Shape;
      hide Housed;
      hide LinkWritesOnly, HeapApart;
      ghost var m0 := medium.mem;
      MediumFacts(medium);
      AllHoused(m0, medium.heap, medium.bk, slabs, nonfull, full, chunkcache, {}, {c as int});
      medium.mem := Write(medium.mem, c + FULL, 0);
      ghost var m1 := medium.mem;
      FlagWrite(m0, medium.heap, medium.bk, medium.align, slabs, nonfull, full, chunkcache, {}, {c as int}, c, 0);
      StillValid(medium, m0, slabs);
      UnlinkSlab(c, true, {}, {c as int});
      ghost var m2 := medium.mem;
      RingStep(m1, m2, medium.heap, medium.bk, medium.align, slabs, c);
      assert {} + {c as int} == {c as int} && {c as int} - {c as int} == {};
      LinkSlab(c, false, medium.heap + NONFULL_SENTINEL, {c as int}, {c as int});
      ghost var m3 := medium.mem;
      RingStep(m2, m3, medium.heap, medium.bk, medium.align, slabs, c);
      SmallTrans(m0, m1, m2, medium.heap, slabs);
      SmallTrans(m0, m2, m3, medium.heap, slabs);
      CellsTrans(m0, m1, m2, slabs, slabs, slabs);
      CellsTrans(m0, m2, m3, slabs, slabs, slabs);
      PlacedNonfull(m3, medium.heap, medium.bk, slabs, nonfull, full, chunkcache, c);
    }

    /** An emptied slab leaves its ring; it is cached, or must be returned. */
    method Retire(c: nat) returns (gone: bool)
      requires Loose({}, {c as int}) && c in slabs && SlabOk(medium.mem, c, slabs[c], medium.heap)
      requires !NoRoom(medium.mem, c) && c as int in Members(nonfull) && slabs[c].live == {}
      requires Read(medium.mem, c + FULL) == 0
      requires forall d :: d in slabs ==> SlabOk(medium.mem, d, slabs[d], medium.heap)
      modifies medium`mem, this`nonfull, this`full, this`chunkcache
      ensures if gone then Loose({c as int}, {c as int}) else Valid()
      ensures gone <==> old(chunkcache) != 0
      ensures SmallWrites(old(medium.mem), medium.mem, medium.heap, slabs)
      ensures CellsKept(old(medium.mem), medium.mem, slabs, slabs)
    {
      hide Core, SysOk, Read, SlabsOk, Settled, AlignmentOk, Members, SlabOk, NoRoom, CellsKept, SmallWrites, Shape;
      hide Housed;
      hide LinkWritesOnly, HeapApart;
      ghost var m0 := medium.mem;
      MediumFacts(medium);
      AllHoused(m0, medium.heap, medium.bk, slabs, nonfull, full, chunkcache, {}, {c as int});
      UnlinkSlab(c, false, {}, {c as int});
      assert {} + {c as int} == {c as int};
      RingStep(m0, medium.mem, medium.heap, medium.bk, medium.align, slabs, c);
      gone := chunkcache != 0;
      if !gone {
        PositiveSlab(medium.mem, c, slabs[c], medium.heap);
        chunkcache := c;
        CacheSlab(medium.mem, medium.heap, medium.bk, slabs, nonfull, full, c);
      }
    }

    /** The critical section of stbm__small_free: c is the slab's block, if the slab was emptied and another is cached
        already; the block is then an ordinary one, to be freed once the lock is released. */
    method FreeCell(ptr: nat, ghost me: nat) returns (c: nat)
      requires medium.lock.HeldBy(me) && Valid() && ptr >= 8 && SmallLive(slabs, ptr)
      modifies medium.lock, medium`mem, medium`count, medium`bytes, this
      ensures medium.lock.Free() && Valid()
      ensures c == 0 ==> SmallFreed(old(slabs), slabs, ptr - 8) && slabs.Keys == old(slabs).Keys
      ensures c != 0 ==>
        && LiveIn(old(slabs), c, ptr - 8) && old(slabs)[c].live == {ptr - 8} && slabs == old(slabs) - {c as int}
        && Housed(medium.bk, c)
      ensures c != 0 ==> old(chunkcache) != 0 && ptr > c && c in old(slabs)
      ensures SmallWrites(old(medium.mem), medium.mem, medium.heap, old(slabs))
      ensures CellsKept(old(medium.mem), medium.mem, old(slabs), slabs)
      ensures medium.count == old(medium.count) - 1 && medium.bytes == old(medium.bytes) - SMALLEST_ALLOCATION
    {
      hide Core, SysOk, Read, SlabsOk, Settled, AlignmentOk, Members, SlabOk, NoRoom, CellsKept, SmallWrites, Shape;
      hide Housed;
      hide HeapApart, SmallFreed;
      ghost var m0, slabs0 := medium.mem, slabs;
      var x := ptr - 8;
      ghost var c0 :| LiveIn(slabs, c0, x);
      MediumFacts(medium);
      AllSlabs(m0, medium.heap, medium.bk, slabs, nonfull, full, chunkcache);
      LiveRange(m0, c0, slabs[c0], medium.heap, x);
      c := Read(medium.mem, x);
      PushCell(c, x);
      ghost var m1, slabs1 := medium.mem, slabs;
      OthersStill(m1, medium.heap, medium.bk, slabs, nonfull, full, chunkcache, c);
      NumIs(m1, c, slabs[c], medium.heap);
      medium.count, medium.bytes := medium.count - 1, medium.bytes - SMALLEST_ALLOCATION;
      var gone := false;
      if Read(medium.mem, c + NUM_ALLOC) != 0 {
        if Read(medium.mem, c + FULL) != 0 {
          Unfill(c);
        } else {
          PlacedNonfull(m1, medium.heap, medium.bk, slabs, nonfull, full, chunkcache, c);
          NoChange(m1, medium.heap, slabs);
        }
      } else {
        gone := Retire(c);
      }
      ghost var m2 := medium.mem;
      SmallTransKeys(m0, m1, m2, medium.heap, slabs0, slabs1);
      CellsTrans(m0, m1, m2, slabs0, slabs1, slabs1);
      if gone {
        AllHoused(m2, medium.heap, medium.bk, slabs, nonfull, full, chunkcache, {c as int}, {c as int});
        DropSlab(m2, medium.heap, medium.bk, slabs, nonfull, full, chunkcache, c);
        slabs := slabs - {c as int};
        SlabGone(m0, m2, medium.bk, slabs0, slabs1, slabs, c, x);
      } else {
        FreedCell(slabs0, slabs1, c, x);
        c := 0;
      }
      medium.lock.Unlock(me);
    }

    /** A slab that has run out of room moves to the full ring. */
    method MoveToFull(c: nat)
      requires Loose({}, {c as int}) && c in slabs && c as int in Members(nonfull) && AllCells(slabs)
      modifies medium`mem, this`nonfull, this`full
      ensures Loose({}, {c as int}) && c as int in Members(full) && Read(medium.mem, c + FULL) == 1
      ensures SameBut(old(medium.mem), medium.mem, c, {})
      ensures SmallWrites(old(medium.mem), medium.mem, medium.heap, slabs)
      ensures CellsKept(old(medium.mem), medium.mem, slabs, slabs)
    {
      hide Core, SysOk, Read, SlabsOk, Settled, AlignmentOk, Members, SlabOk, NoRoom, CellsKept, SmallWrites, Shape;
      hide Housed;
      hide LinkWritesOnly, HeapApart, AllCells;
      ghost var m0 := medium.mem;
      MediumFacts(medium);
      AllHoused(m0, medium.heap, medium.bk, slabs, nonfull, full, chunkcache, {}, {c as int});
      UnlinkSlab(c, false, {}, {c as int});
      ghost var m1 := medium.mem;
      assert {} + {c as int} == {c as int} && {c as int} - {c as int} == {};
      LooseRingStep(m0, m1, medium.heap, medium.bk, medium.align, slabs, c);
      LinkSlab(c, true, medium.heap + FULL_SENTINEL, {c as int}, {c as int});
      ghost var m2 := medium.mem;
      LooseRingStep(m1, m2, medium.heap, medium.bk, medium.align, slabs, c);
      medium.mem := Write(medium.mem, c + FULL, 1);
      OwnWrite(m2, medium.heap, medium.bk, medium.align, slabs, nonfull, full, chunkcache, c, c + FULL, 1);
      StillValid(medium, m2, slabs);
      SmallTrans(m0, m1, m2, medium.heap, slabs);
      SmallTrans(m0, m2, medium.mem, medium.heap, slabs);
      CellsTrans(m0, m1, m2, slabs, slabs, slabs);
      CellsTrans(m0, m2, medium.mem, slabs, slabs, slabs);
    }

    method WriteHeader(c: nat)
      requires c % 16 == 0
      modifies medium`mem
      ensures medium.mem == HeaderMem(old(medium.mem), c, medium.heap)
    {
      hide Read, AlignAddress;
      TailStart(c);
      medium.mem := Write(medium.mem, c + WRAPPED_PTR, 0);
      medium.mem := Write(medium.mem, c + HEAP_PTR, medium.heap);
      medium.mem := Write(medium.mem, c + FIRST_FREE, 0);
      medium.mem := Write(medium.mem, c + PREV, 0);
      medium.mem := Write(medium.mem, c + NEXT, 0);
      medium.mem := Write(medium.mem, c + NUM_ALLOC, 0);
      medium.mem := Write(medium.mem, c + FULL, 0);
      medium.mem := Write(medium.mem, c + UNUSED, AlignAddress(c + CHUNK_SIZE - CELL, 16, 16 - 8));
    }

    /** Write the header of a new slab: no cell live or free, all of it untouched tail. */
    method SetUp(c: nat)
      requires Loose({c as int}, {c as int}) && c in slabs && slabs[c] == Cells({}, []) && c % 16 == 0 && c > 0
      modifies medium`mem
      ensures Loose({c as int}, {c as int})
      ensures SlabOk(medium.mem, c, Cells({}, []), medium.heap) && !NoRoom(medium.mem, c)
      ensures Read(medium.mem, c + FULL) == 0
      ensures forall w {:trigger Read(medium.mem, w)} :: w < c || w >= c + CHUNK_SIZE ==>
        Read(medium.mem, w) == Read(old(medium.mem), w)
    {
      hide Core, SysOk, Read, SlabsOk, Settled, AlignmentOk, SlabOk, NoRoom, Shape, SmallWrites, HeaderMem;
      hide HeapApart, Housed;
      ghost var m1 := medium.mem;
      MediumFacts(medium);
      WriteHeader(c);
      HeaderWritten(m1, medium.mem, c, medium.heap);
      LooseWrites(m1, medium.mem, medium.heap, medium.bk, medium.align, slabs, Cells({}, []), nonfull, full, chunkcache,
                  {c as int}, {c as int}, c);
      assert slabs[c as int := Cells({}, [])] == slabs;
      AllHoused(m1, medium.heap, medium.bk, slabs, nonfull, full, chunkcache, {c as int}, {c as int});
      StillValid(medium, m1, slabs);
    }

    /** A slab with room, on the nonfull ring: its first, else the cached one, else 0. */
    method NextSlab() returns (c: nat)
      requires Valid()
      modifies medium`mem, this`nonfull, this`full, this`chunkcache
      ensures c == 0 ==>
        Valid() && medium.mem == old(medium.mem) && nonfull == old(nonfull) && full == old(full) && chunkcache == 0
      ensures c == 0 ==> old(chunkcache) == 0 && AllFull(medium.mem, slabs)
      ensures c != 0 ==> Ready(c)
      ensures SmallWrites(old(medium.mem), medium.mem, medium.heap, slabs)
      ensures CellsKept(old(medium.mem), medium.mem, slabs, slabs)
    {
      hide Core, SysOk, Read, SlabsOk, Settled, AlignmentOk, Members, SlabOk, NoRoom, Shape, SmallWrites, AllCells;
      hide HeapApart, Housed, CellsKept, LinkWritesOnly, AllFull;
      ghost var m0 := medium.mem;
      AllSlabs(m0, medium.heap, medium.bk, slabs, nonfull, full, chunkcache);
      CellsInPlace(m0, medium.heap, slabs);
      NoChange(m0, medium.heap, slabs);
      var sentinel := medium.heap + NONFULL_SENTINEL;
      c := Read(medium.mem, sentinel + 16);
      FirstNonfull(m0, medium.heap, medium.bk, slabs, nonfull, full, chunkcache);
      MediumFacts(medium);
      if c != sentinel {
        PositiveSlab(m0, c, slabs[c], medium.heap);
        Loosen(m0, medium.heap, medium.bk, slabs, nonfull, full, chunkcache, c);
      } else if chunkcache != 0 {
        c := chunkcache;
        UncacheSlab(m0, medium.heap, medium.bk, slabs, nonfull, full, chunkcache);
        chunkcache := 0;
        Enlist(c);
      } else {
        NoneHasRoom(m0, medium.heap, medium.bk, slabs, nonfull, full);
        c := 0;
      }
    }

    /** Slab c has room and can be served from. */
    ghost predicate Ready(c: nat)
      reads this, medium, medium.system
    {
      && c != 0 && Loose({}, {c as int}) && c in slabs && SlabOk(medium.mem, c, slabs[c], medium.heap)
      && !NoRoom(medium.mem, c) && c as int in Members(nonfull) && Read(medium.mem, c + FULL) == 0 && AllCells(slabs)
    }

    /** A slab in order but on no ring goes on the nonfull ring. */
    method Enlist(c: nat)
      requires Loose({c as int}, {c as int}) && c in slabs && SlabOk(medium.mem, c, slabs[c], medium.heap)
      requires !NoRoom(medium.mem, c) && Read(medium.mem, c + FULL) == 0 && AllCells(slabs)
      modifies medium`mem, this`nonfull, this`full
      ensures Ready(c)
      ensures SmallWrites(old(medium.mem), medium.mem, medium.heap, slabs)
      ensures CellsKept(old(medium.mem), medium.mem, slabs, slabs)
    {
      hide Core, SysOk, Read, SlabsOk, Settled, AlignmentOk, Members, SlabOk, NoRoom, Shape, SmallWrites, AllCells;
      hide HeapApart, Housed, CellsKept, LinkWritesOnly;
      ghost var m0 := medium.mem;
      MediumFacts(medium);
      PositiveSlab(m0, c, slabs[c], medium.heap);
      assert {c as int} - {c as int} == {};
      AllHoused(m0, medium.heap, medium.bk, slabs, nonfull, full, chunkcache, {c as int}, {c as int});
      LinkSlab(c, false, medium.heap + NONFULL_SENTINEL, {c as int}, {c as int});
      LooseRingStep(m0, medium.mem, medium.heap, medium.bk, medium.align, slabs, c);
      LinksKeepSlab(m0, medium.mem, medium.heap, medium.bk, medium.align, slabs, c);
    }

    /** The first critical section of stbm__small_alloc; 0 when every slab is full. */
    method TryAlloc(ghost me: nat) returns (p: nat)
      requires medium.lock.HeldBy(me) && Valid()
      modifies medium.lock, medium`mem, medium`count, medium`bytes, this
      ensures medium.lock.Free() && Valid()
      ensures p == 0 ==>
        slabs == old(slabs) && medium.mem == old(medium.mem) && NoCellLeft(slabs) && old(chunkcache) == 0
      ensures p == 0 ==> medium.count == old(medium.count) && medium.bytes == old(medium.bytes)
      ensures p != 0 ==> p >= 8 && p % 16 == 0 && SmallTaken(old(slabs), slabs, p - 8) && slabs.Keys == old(slabs).Keys
      ensures p != 0 ==>
        medium.count == old(medium.count) + 1 && medium.bytes == old(medium.bytes) + SMALLEST_ALLOCATION
      ensures SmallWrites(old(medium.mem), medium.mem, medium.heap, old(slabs))
      ensures CellsKept(old(medium.mem), medium.mem, old(slabs), slabs)
    {
      hide Core, SysOk, Read, SlabsOk, Settled, AlignmentOk, SmallWrites, CellsKept, AllFull, NoCellLeft, Ready;
      ghost var m0 := medium.mem;
      var c := NextSlab();
      if c == 0 {
        AllSlabs(m0, medium.heap, medium.bk, slabs, nonfull, full, chunkcache);
        FullMeansLive(m0, slabs, medium.heap);
        medium.lock.Unlock(me);
        return 0;
      }
      ghost var m1, slabs1 := medium.mem, slabs;
      p := Serve(c);
      SmallTrans(m0, m1, medium.mem, medium.heap, slabs1);
      CellsTrans(m0, m1, medium.mem, slabs1, slabs1, slabs);
      medium.lock.Unlock(me);
    }

    /** Hand out a cell of a slab that has room. */
    method Serve(c: nat) returns (p: nat)
      requires Ready(c)
      modifies medium`mem, medium`count, medium`bytes, this`slabs, this`nonfull, this`full
      ensures Valid()
      ensures p >= 8 && p % 16 == 0 && SmallTaken(old(slabs), slabs, p - 8) && slabs.Keys == old(slabs).Keys
      ensures c in slabs && LiveIn(slabs, c, p - 8) && IsCell(c, p - 8)
      ensures medium.count == old(medium.count) + 1 && medium.bytes == old(medium.bytes) + SMALLEST_ALLOCATION
      ensures SmallWrites(old(medium.mem), medium.mem, medium.heap, old(slabs))
      ensures CellsKept(old(medium.mem), medium.mem, old(slabs), slabs)
      ensures forall d, x {:trigger LiveIn(slabs, d, x)} :: LiveIn(old(slabs), d, x) ==> LiveIn(slabs, d, x)
    {
      hide Core, SysOk, Read, SlabsOk, Settled, AlignmentOk, Members, SlabOk, NoRoom, Shape, SmallWrites, AllCells;
      hide HeapApart, Housed, CellsKept, Taken, After, LiveIn;
      ghost var m0, slabs0 := medium.mem, slabs;
      CellAligned(m0, c, slabs[c], medium.heap);
      var b := TakeCell(c);
      medium.count, medium.bytes := medium.count + 1, medium.bytes + SMALLEST_ALLOCATION;
      p := b + 8;
      TakenIsNew(slabs0, slabs, c, b);
      GrowingCells(slabs0, slabs, c, b);
    }

    /** The second critical section of stbm__small_alloc: medium block c becomes a slab, and serves the request. */
    method Adopt(c: nat, ghost me: nat) returns (p: nat)
      requires medium.lock.HeldBy(me) && Valid() && Housed(medium.bk, c) && c !in slabs && c % 16 == 0
      modifies medium.lock, medium`mem, medium`count, medium`bytes, this
      ensures medium.lock.Free() && Valid()
      ensures p >= 8 && p % 16 == 0 && p > c && SmallTaken(old(slabs)[c as int := Cells({}, [])], slabs, p - 8)
      ensures slabs.Keys == old(slabs).Keys + {c as int}
      ensures medium.count == old(medium.count) + 1 && medium.bytes == old(medium.bytes) + SMALLEST_ALLOCATION
      ensures SmallWrites(old(medium.mem), medium.mem, medium.heap, old(slabs)[c as int := Cells({}, [])])
      ensures CellsKept(old(medium.mem), medium.mem, old(slabs)[c as int := Cells({}, [])], slabs)
    {
      hide Core, SysOk, Read, SlabsOk, Settled, AlignmentOk, SlabOk, NoRoom, SmallWrites, CellsKept, Ready, Housed;
      hide Shape, AllCells;
      hide HeapApart;
      ghost var m0 := medium.mem;
      MediumFacts(medium);
      HousedPositive(medium.bk, medium.align, c);
      AllSlabs(m0, medium.heap, medium.bk, slabs, nonfull, full, chunkcache);
      CellsInPlace(m0, medium.heap, slabs);
      AddSlab(m0, medium.heap, medium.bk, slabs, nonfull, full, chunkcache, c);
      AddedCells(slabs, slabs[c as int := Cells({}, [])], c);
      slabs := slabs[c as int := Cells({}, [])];
      ghost var slabs1 := slabs;
      SetUp(c);
      ghost var m1 := medium.mem;
      AllHoused(m0, medium.heap, medium.bk, slabs, nonfull, full, chunkcache, {c as int}, {c as int});
      SetUpIsSmall(m0, m1, medium.heap, medium.bk, medium.align, slabs, c);
      Enlist(c);
      ghost var m2 := medium.mem;
      SmallTrans(m0, m1, m2, medium.heap, slabs1);
      CellsTrans(m0, m1, m2, slabs1, slabs1, slabs1);
      p := Serve(c);
      CellRoom(c, p - 8);
      SmallTrans(m0, m2, medium.mem, medium.heap, slabs1);
      CellsTrans(m0, m2, medium.mem, slabs1, slabs1, slabs);
      medium.lock.Unlock(me);
    }

    /** The first half of handing out a cell: the first free one, else the top of the untouched tail. */
    method GrabCell(c: nat) returns (b: nat)
      requires Loose({}, {c as int}) && c in slabs && SlabOk(medium.mem, c, slabs[c], medium.heap)
      requires !NoRoom(medium.mem, c) && AllCells(slabs)
      modifies medium`mem, this`slabs
      ensures Loose({}, {c as int}) && AllCells(slabs) && b - CELL >= 0
      ensures c in old(slabs) && Taken(old(slabs)[c], c, b) && slabs == old(slabs)[c as int := After(old(slabs)[c], b)]
      ensures old(slabs)[c].free == [] ==> b == Read(old(medium.mem), c + UNUSED)
      ensures medium.mem == GrabMem(old(medium.mem), c, old(slabs)[c], b)
      ensures Read(medium.mem, c + FULL) == Read(old(medium.mem), c + FULL)
      ensures SmallWrites(old(medium.mem), medium.mem, medium.heap, old(slabs))
      ensures CellsKept(old(medium.mem), medium.mem, old(slabs), slabs)
    {
      hide Core, SysOk, Read, SlabsOk, Settled, AlignmentOk, Members, SlabOk, NoRoom, CellsKept, SmallWrites, Shape;
      hide Housed;
      hide HeapApart, AllCells, Taken, After;
      ghost var m0, slabs0, k0 := medium.mem, slabs, slabs[c];
      MediumFacts(medium);
      AllHoused(m0, medium.heap, medium.bk, slabs, nonfull, full, chunkcache, {}, {c as int});
      BeforeTake(m0, c, k0, medium.heap);
      if Read(medium.mem, c + FIRST_FREE) != 0 {
        b := Read(medium.mem, c + FIRST_FREE);
        medium.mem := Write(medium.mem, c + FIRST_FREE, Read(medium.mem, b + 8));
        assert Read(medium.mem, b) == FREE_MAGIC;   // otherwise the slab is corrupt
        medium.mem := Write(medium.mem, b, c);
      } else {
        b := Read(medium.mem, c + UNUSED);
        medium.mem := Write(medium.mem, b, c);
        medium.mem := Write(medium.mem, c + UNUSED, b - CELL);
        if Read(medium.mem, c + UNUSED) < c + FIRST_CELL {
          medium.mem := Write(medium.mem, c + UNUSED, 0);
        }
      }
      slabs := slabs[c as int := After(k0, b)];
      TakeWrites(m0, medium.mem, medium.heap, medium.bk, medium.align, slabs0, nonfull, full, chunkcache, c, b);
      StillValid(medium, m0, slabs0);
      MemTake(m0, medium.mem, c, k0, medium.heap, b);
    }

    /** Hand out a cell of a slab that has room; a slab that runs out of room moves to the full ring. */
    method TakeCell(c: nat) returns (b: nat)
      requires Loose({}, {c as int}) && c in slabs && SlabOk(medium.mem, c, slabs[c], medium.heap)
      requires !NoRoom(medium.mem, c) && c as int in Members(nonfull) && Read(medium.mem, c + FULL) == 0
      requires AllCells(slabs)
      modifies medium`mem, this`slabs, this`nonfull, this`full
      ensures Valid()
      ensures c in old(slabs) && Taken(old(slabs)[c], c, b) && slabs == old(slabs)[c as int := After(old(slabs)[c], b)]
      ensures SmallWrites(old(medium.mem), medium.mem, medium.heap, old(slabs))
      ensures CellsKept(old(medium.mem), medium.mem, old(slabs), slabs)
    {
      hide Core, SysOk, Read, SlabsOk, Settled, AlignmentOk, Members, SlabOk, NoRoom, CellsKept, SmallWrites, Shape;
      hide Housed;
      hide HeapApart, AllCells, Taken, After, GrabMem;
      ghost var m0, slabs0, k0 := medium.mem, slabs, slabs[c];
      b := GrabCell(c);
      ghost var m1 := medium.mem;
      RoomIs(m1, c);
      OnOneRing(m1, medium.heap, medium.bk, slabs, nonfull, full, chunkcache, c);
      if Read(medium.mem, c + FIRST_FREE) == 0 && Read(medium.mem, c + UNUSED) == 0 {
        MoveToFull(c);
      } else {
        NoChange(m1, medium.heap, slabs);
      }
      ghost var m2 := medium.mem;
      MediumFacts(medium);
      medium.mem := Write(medium.mem, c + NUM_ALLOC, Read(medium.mem, c + NUM_ALLOC) + 1);
      ghost var m3 := medium.mem;
      OwnWrite(m2, medium.heap, medium.bk, medium.align, slabs, nonfull, full, chunkcache, c, c + NUM_ALLOC,
               Read(m2, c + NUM_ALLOC) + 1);
      AllHoused(m2, medium.heap, medium.bk, slabs, nonfull, full, chunkcache, {}, {c as int});
      StillValid(medium, m2, slabs);
      TakenSlab(m0, m1, m2, m3, c, k0, medium.heap, b);
      TakePlaced(m1, m3, medium.heap, medium.bk, slabs, nonfull, full, chunkcache, c);
      SmallTransKeys(m0, m1, m2, medium.heap, slabs0, slabs);
      SmallTransKeys(m0, m2, m3, medium.heap, slabs0, slabs);
      CellsTrans(m1, m2, m3, slabs, slabs, slabs);
      GrowingCells(slabs0, slabs, c, b);
      CellsTrans(m0, m1, m3, slabs0, slabs, slabs);
    }
  }

  /** The cell that is handed out, the last one freed or else the highest that is left; and the slab afterwards. */
  ghost predicate Taken(k: Cells, c: int, b: int) {
    && IsCell(c, b) && b !in k.live
    && (if k.free != [] then b == k.free[0] else forall x {:trigger IsCell(c, x)} :: IsCell(c, x) && x > b ==>
        x in k.live)
  }

  ghost function After(k: Cells, b: int): Cells {
    Cells(k.live + {b}, if k.free != [] then k.free[1..] else [])
  }

  lemma RoomIs(mem: Memory, c: int)
    ensures NoRoom(mem, c) <==> Read(mem, c + FIRST_FREE) == 0 && Read(mem, c + UNUSED) == 0
  {
  }

  lemma OnOneRing(mem: Memory, heap: nat, bk: Book, slabs: Slabs, nonfull: seq<nat>, full: seq<nat>, cache: nat, c: int)
    requires SlabsOk(mem, heap, bk, slabs, nonfull, full, cache, {}, {c}) && c in Members(nonfull)
    ensures c !in Members(full)
  {
    hide Members, Ring.RingOk;
  }

  lemma BeforeTake(mem: Memory, c: nat, k: Cells, heap: nat)
    requires SlabOk(mem, c, k, heap) && !NoRoom(mem, c)
    ensures Read(mem, c + FIRST_FREE) != 0 <==> k.free != []
    ensures var b := if k.free != [] then k.free[0] else Read(mem, c + UNUSED);
      && Taken(k, c, b) && b > c && b - CELL >= 0
      && (k.free != [] ==> Read(mem, c + FIRST_FREE) == b && Read(mem, b) == FREE_MAGIC)
  {
    hide Read;
    var u := Read(mem, c + UNUSED);
    if k.free != [] {
      assert FreeNode(mem, c, k.free, 0);
      assert CellOk(k, u, k.free[0]);
    } else {
      assert CellOk(k, u, u);
      forall x | IsCell(c, x) && x > u ensures x in k.live {
        assert CellOk(k, u, x);
      }
    }
  }

  /** The first writes of taking a cell: only the cell's header word and the slab's bookkeeping. */
  lemma MemTake(m0: Memory, m1: Memory, c: nat, k: Cells, heap: nat, b: nat)
    requires SlabOk(m0, c, k, heap) && !NoRoom(m0, c) && Taken(k, c, b) && b - CELL >= 0
    requires k.free == [] ==> b == Read(m0, c + UNUSED)
    requires m1 == GrabMem(m0, c, k, b)
    ensures SameBut(m0, m1, c, {b as int, c + FIRST_FREE, c + UNUSED})
    ensures Read(m1, b) == c && Read(m1, c + NUM_ALLOC) == Read(m0, c + NUM_ALLOC)
    ensures Read(m1, c + FULL) == Read(m0, c + FULL)
    ensures if k.free != [] then Read(m1, c + FIRST_FREE) == Read(m0, b + 8)
      && Read(m1, c + UNUSED) == Read(m0, c + UNUSED)
            else Read(m1, c + FIRST_FREE) == Read(m0, c + FIRST_FREE)
                 && Read(m1, c + UNUSED) == (if b - CELL < c + FIRST_CELL then 0 else b - CELL)
  {
    hide Read, Slab.SlabOk;
  }

  ghost function GrabMem(m0: Memory, c: nat, k: Cells, b: nat): Memory
    requires b - CELL >= 0
  {
    if k.free != [] then Write(Write(m0, c + FIRST_FREE, Read(m0, b + 8)), b, c)
    else
      var m := Write(Write(m0, b, c), c + UNUSED, b - CELL);
      if b - CELL < c + FIRST_CELL then Write(m, c + UNUSED, 0) else m
  }

  lemma TakeWrites(m0: Memory, m1: Memory, heap: nat, bk: Book, align: nat, slabs: Slabs, nonfull: seq<nat>,
                   full: seq<nat>, cache: nat, c: nat, b: nat)
    requires Shape(bk, align) && HeapApart(bk, heap) && AllCells(slabs) && c in slabs
    requires SlabsOk(m0, heap, bk, slabs, nonfull, full, cache, {}, {c as int})
    requires Taken(slabs[c], c, b) && b - CELL >= 0 && m1 == GrabMem(m0, c, slabs[c], b)
    ensures var slabs' := slabs[c as int := After(slabs[c], b)];
      && SlabsOk(m1, heap, bk, slabs', nonfull, full, cache, {}, {c as int}) && AllCells(slabs')
      && SmallWrites(m0, m1, heap, slabs) && CellsKept(m0, m1, slabs, slabs')
  {
    hide Read, SlabsOk, Shape, CellsKept, SmallWrites, HeapApart, Write;
    var k := After(slabs[c], b);
    LooseWrites(m0, m1, heap, bk, align, slabs, k, nonfull, full, cache, {}, {c as int}, c);
    AllHoused(m0, heap, bk, slabs, nonfull, full, cache, {}, {c as int});
    forall x | x in slabs[c].live
      ensures x !in {b as int, c + FIRST_FREE, c + UNUSED} && x + 8 !in {b as int, c + FIRST_FREE, c + UNUSED}
    {
      assert LiveIn(slabs, c, x);
      CellsApart(c, x, b);
    }
    OneSlabCells(m0, m1, bk, align, slabs, c, k, {b as int, c + FIRST_FREE, c + UNUSED});
    forall d, x | LiveIn(slabs[c as int := k], d, x) ensures IsCell(d, x) {
      if !(d == c && x == b) {
        assert LiveIn(slabs, d, x);
      }
    }
  }

  /** A single write to a loose slab's own bookkeeping. */
  lemma OwnWrite(m0: Memory, heap: nat, bk: Book, align: nat, slabs: Slabs, nonfull: seq<nat>, full: seq<nat>,
                 cache: nat, c: nat, w: nat, v: nat)
    requires Shape(bk, align) && HeapApart(bk, heap) && AllCells(slabs) && c in slabs
    requires SlabsOk(m0, heap, bk, slabs, nonfull, full, cache, {}, {c as int}) && (w == c + FULL || w == c + NUM_ALLOC)
    ensures var m1 := Write(m0, w, v);
      && SlabsOk(m1, heap, bk, slabs, nonfull, full, cache, {}, {c as int})
      && SmallWrites(m0, m1, heap, slabs) && CellsKept(m0, m1, slabs, slabs)
      && (w == c + FULL ==> SameBut(m0, m1, c, {})) && Read(m1, w) == v
  {
    hide Read, SlabsOk, Shape, CellsKept, SmallWrites, HeapApart, Write;
    var m1 := Write(m0, w, v);
    LooseWrites(m0, m1, heap, bk, align, slabs, slabs[c], nonfull, full, cache, {}, {c as int}, c);
    assert slabs[c as int := slabs[c]] == slabs;
    AllHoused(m0, heap, bk, slabs, nonfull, full, cache, {}, {c as int});
    forall x | x in slabs[c].live ensures x !in {w as int} && x + 8 !in {w as int} {
      assert LiveIn(slabs, c, x);
    }
    OneSlabCells(m0, m1, bk, align, slabs, c, slabs[c], {w as int});
  }

  /** A ring move while slab c is loose. */
  lemma LooseRingStep(m0: Memory, m1: Memory, heap: nat, bk: Book, align: nat, slabs: Slabs, c: int)
    requires Shape(bk, align) && HeapApart(bk, heap) && LinkWritesOnly(m0, m1, heap, slabs) && AllCells(slabs)
    requires forall d {:trigger Housed(bk, d)} :: d in slabs ==> Housed(bk, d)
    requires c in slabs
    ensures SameBut(m0, m1, c, {}) && SmallWrites(m0, m1, heap, slabs) && CellsKept(m0, m1, slabs, slabs)
  {
    hide Read, Shape, CellsKept, SmallWrites, LinkWritesOnly, HeapApart, Housed, AllCells;
    LinksKeepWords(m0, m1, heap, bk, align, slabs, c);
    LinksAreSmall(m0, m1, heap, slabs);
    LinksKeepCells(m0, m1, heap, bk, align, slabs);
  }

  /** After all its writes the slab is in order, with the cell live. */
  lemma TakenSlab(m0: Memory, m1: Memory, m2: Memory, m3: Memory, c: nat, k: Cells, heap: nat, b: nat)
    requires SlabOk(m0, c, k, heap) && !NoRoom(m0, c) && Taken(k, c, b) && b - CELL >= 0
    requires k.free == [] ==> b == Read(m0, c + UNUSED)
    requires m1 == GrabMem(m0, c, k, b)
    requires SameBut(m1, m2, c, {}) && m3 == Write(m2, c + NUM_ALLOC, Read(m2, c + NUM_ALLOC) + 1)
    ensures SlabOk(m3, c, After(k, b), heap)
    ensures NoRoom(m3, c) <==> NoRoom(m1, c)
  {
    hide Read, Slab.SlabOk, GrabMem;
    MemTake(m0, m1, c, k, heap, b);
    CellRoom(c, b);
    assert c <= c + NUM_ALLOC < c + CHUNK_SIZE;
    assert Read(m2, c + NUM_ALLOC) == Read(m1, c + NUM_ALLOC);
    assert Read(m2, c + UNUSED) == Read(m1, c + UNUSED) && Read(m2, c + FIRST_FREE) == Read(m1, c + FIRST_FREE);
    assert Read(m2, b) == Read(m1, b);
    if k.free != [] {
      PopCell(m0, m3, c, k, heap);
    } else {
      BeforeTake(m0, c, k, heap);
      CarveCell(m0, m3, c, k, heap);
    }
  }

  lemma CellRoom(c: int, b: int)
    requires IsCell(c, b)
    ensures c + FIRST_CELL <= b && b + CELL <= c + CHUNK_SIZE
  {
  }

  lemma TakePlaced(m1: Memory, m3: Memory, heap: nat, bk: Book, slabs: Slabs, nonfull: seq<nat>, full: seq<nat>,
                   cache: nat, c: nat)
    requires SlabsOk(m3, heap, bk, slabs, nonfull, full, cache, {}, {c as int}) && c in slabs
    requires SlabOk(m3, c, slabs[c], heap) && exists k, b :: slabs[c] == After(k, b)
    requires (c as int in Members(full) <==> NoRoom(m3, c)) && c as int in Members(full) + Members(nonfull)
    requires Read(m3, c + FULL) == (if c as int in Members(full) then 1 else 0)
    ensures SlabsOk(m3, heap, bk, slabs, nonfull, full, cache, {}, {})
  {
    hide Slab.SlabOk, NoRoom, Members, Ring.RingOk, Read;
    TightenOk(m3, heap, bk, slabs, nonfull, full, cache, c);
  }

  lemma GrowingCells(slabs0: Slabs, slabs1: Slabs, c: int, b: int)
    requires c in slabs0 && slabs1 == slabs0[c := After(slabs0[c], b)]
    ensures forall d, x {:trigger LiveIn(slabs1, d, x)} :: LiveIn(slabs0, d, x) ==> LiveIn(slabs1, d, x)
  {
  }

  lemma HousedPositive(bk: Book, align: nat, c: int)
    requires Shape(bk, align) && Housed(bk, c)
    ensures c > HEADER && c - HEADER in bk.live
  {
    AddressPositive(bk.l, align, c - HEADER);
  }

  /** One live cell became free. */
  ghost predicate SmallFreed(slabs0: Slabs, slabs1: Slabs, x: nat) {
    exists c {:trigger LiveIn(slabs0, c, x)} :: LiveIn(slabs0, c, x) &&
      slabs1 == slabs0[c := Cells(slabs0[c].live - {x as int}, [x] + slabs0[c].free)]
  }

  lemma FreedCell(slabs0: Slabs, slabs1: Slabs, c: int, x: nat)
    requires LiveIn(slabs0, c, x) && slabs1 == slabs0[c := Cells(slabs0[c].live - {x as int}, [x] + slabs0[c].free)]
    ensures SmallFreed(slabs0, slabs1, x)
  {
  }

  /** Freeing a slab's last cell takes the slab away too. */
  lemma SlabGone(m0: Memory, m2: Memory, bk: Book, slabs0: Slabs, slabs1: Slabs, slabs2: Slabs, c: int, x: nat)
    requires LiveIn(slabs0, c, x) && slabs1 == slabs0[c := Cells(slabs0[c].live - {x as int}, [x] + slabs0[c].free)]
    requires slabs1[c].live == {} && slabs2 == slabs1 - {c} && CellsKept(m0, m2, slabs0, slabs1)
    requires forall d {:trigger Housed(bk, d)} :: d in slabs1 ==> Housed(bk, d)
    ensures slabs0[c].live == {x as int} && slabs2 == slabs0 - {c} && CellsKept(m0, m2, slabs0, slabs2)
    ensures Housed(bk, c) && c > 0
  {
    hide Read;
    assert slabs2 == slabs0 - {c};
    assert slabs0[c].live == (slabs0[c].live - {x as int}) + {x as int};
    forall d, y | LiveIn(slabs0, d, y) && LiveIn(slabs2, d, y)
      ensures Read(m2, y + 8) == Read(m0, y + 8) && Read(m2, y) == Read(m0, y)
    {
      assert LiveIn(slabs1, d, y);
    }
  }

  lemma OthersStill(mem: Memory, heap: nat, bk: Book, slabs: Slabs, nonfull: seq<nat>, full: seq<nat>, cache: nat,
                    c: int)
    requires SlabsOk(mem, heap, bk, slabs, nonfull, full, cache, {}, {c})
    requires c in slabs ==> SlabOk(mem, c, slabs[c], heap)
    ensures forall d :: d in slabs ==> SlabOk(mem, d, slabs[d], heap)
  {
    hide Slab.SlabOk;
    forall d | d in slabs ensures SlabOk(mem, d, slabs[d], heap) {
      if d != c {
        assert SlabFine(mem, heap, slabs, nonfull, full, cache, d);
      }
    }
  }

  lemma NumIs(mem: Memory, c: int, k: Cells, heap: nat)
    requires SlabOk(mem, c, k, heap)
    ensures Read(mem, c + NUM_ALLOC) == 0 <==> k.live == {}
  {
  }

  lemma PositiveSlab(mem: Memory, c: int, k: Cells, heap: nat)
    requires SlabOk(mem, c, k, heap)
    ensures c > 0
  {
  }

  lemma NoChange(mem: Memory, heap: nat, slabs: Slabs)
    ensures SmallWrites(mem, mem, heap, slabs) && CellsKept(mem, mem, slabs, slabs)
  {
  }

  lemma SmallTransKeys(m0: Memory, m1: Memory, m2: Memory, heap: nat, slabs0: Slabs, slabs1: Slabs)
    requires SmallWrites(m0, m1, heap, slabs0) && SmallWrites(m1, m2, heap, slabs1) && slabs1.Keys == slabs0.Keys
    ensures SmallWrites(m0, m2, heap, slabs0)
  {
    hide Read;
    forall w | !SmallWord(heap, slabs0, w) ensures Read(m2, w) == Read(m0, w) {
      forall c ensures InSlab(slabs1, c, w) <==> InSlab(slabs0, c, w) {
      }
      assert Read(m1, w) == Read(m0, w);
    }
  }

  /** Writing the full flag of a loose slab. */
  lemma FlagWrite(m0: Memory, heap: nat, bk: Book, align: nat, slabs: Slabs, nonfull: seq<nat>, full: seq<nat>,
                  cache: nat, out: set<int>, loose: set<int>, c: int, v: nat)
    requires Shape(bk, align) && HeapApart(bk, heap) && SlabsOk(m0, heap, bk, slabs, nonfull, full, cache, out, loose)
    requires c in slabs && c in loose && forall d :: d in slabs ==> SlabOk(m0, d, slabs[d], heap)
    ensures var m1 := Write(m0, c + FULL, v);
      && SlabsOk(m1, heap, bk, slabs, nonfull, full, cache, out, loose)
      && (forall d :: d in slabs ==> SlabOk(m1, d, slabs[d], heap)) && (NoRoom(m1, c) <==> NoRoom(m0, c))
      && Read(m1, c + FULL) == v
      && SmallWrites(m0, m1, heap, slabs) && CellsKept(m0, m1, slabs, slabs)
  {
    hide Read, SlabsOk, Shape, CellsKept, SmallWrites, HeapApart, Slab.SlabOk, NoRoom, Write;
    var m1 := Write(m0, c + FULL, v);
    LooseWrites(m0, m1, heap, bk, align, slabs, slabs[c], nonfull, full, cache, out, loose, c);
    assert slabs[c := slabs[c]] == slabs;
    AllHoused(m0, heap, bk, slabs, nonfull, full, cache, out, loose);
    assert Housed(bk, c);
    FlagMisses(m0, heap, slabs, c);
    CellsInPlace(m0, heap, slabs);
    OneSlabCells(m0, m1, bk, align, slabs, c, slabs[c], {c + FULL});
    forall d | d in slabs ensures SlabOk(m1, d, slabs[d], heap) && (NoRoom(m1, d) <==> NoRoom(m0, d)) {
      assert Housed(bk, d);
      if d != c {
        SlabsApart(bk, align, c, d);
      }
      SlabFrame(m0, m1, d, slabs[d], heap);
    }
  }

  lemma FlagMisses(mem: Memory, heap: nat, slabs: Slabs, c: int)
    requires c in slabs && SlabOk(mem, c, slabs[c], heap)
    ensures forall x :: x in slabs[c].live ==> x !in {c + FULL} && x + 8 !in {c + FULL}
  {
    hide Slab.SlabOk, Read;
    forall x | x in slabs[c].live ensures x !in {c + FULL} && x + 8 !in {c + FULL} {
      LiveRange(mem, c, slabs[c], heap, x);
    }
  }

  /** A ring move: slabs, their room, the flag and live data all stay. */
  lemma RingStep(m0: Memory, m1: Memory, heap: nat, bk: Book, align: nat, slabs: Slabs, c: int)
    requires Shape(bk, align) && HeapApart(bk, heap) && LinkWritesOnly(m0, m1, heap, slabs)
    requires forall d {:trigger Housed(bk, d)} :: d in slabs ==> Housed(bk, d)
    requires forall d :: d in slabs ==> SlabOk(m0, d, slabs[d], heap)
    requires c in slabs
    ensures forall d :: d in slabs ==> SlabOk(m1, d, slabs[d], heap)
    ensures (NoRoom(m1, c) <==> NoRoom(m0, c)) && Read(m1, c + FULL) == Read(m0, c + FULL)
    ensures SmallWrites(m0, m1, heap, slabs) && CellsKept(m0, m1, slabs, slabs)
  {
    hide Read, Slab.SlabOk, Shape, NoRoom, CellsKept, SmallWrites, LinkWritesOnly, HeapApart, Housed;
    forall d | d in slabs
      ensures SlabOk(m1, d, slabs[d], heap) && (NoRoom(m1, d) <==> NoRoom(m0, d))
      ensures Read(m1, d + FULL) == Read(m0, d + FULL)
    {
      LinksKeepSlab(m0, m1, heap, bk, align, slabs, d);
    }
    LinksAreSmall(m0, m1, heap, slabs);
    CellsInPlace(m0, heap, slabs);
    LinksKeepCells(m0, m1, heap, bk, align, slabs);
  }

  lemma PlacedNonfull(mem: Memory, heap: nat, bk: Book, slabs: Slabs, nonfull: seq<nat>, full: seq<nat>, cache: nat,
                      c: int)
    requires SlabsOk(mem, heap, bk, slabs, nonfull, full, cache, {}, {c}) && c in slabs && c in Members(nonfull)
    requires SlabOk(mem, c, slabs[c], heap) && !NoRoom(mem, c) && Read(mem, c + FULL) == 0 && slabs[c].live != {}
    ensures SlabsOk(mem, heap, bk, slabs, nonfull, full, cache, {}, {})
  {
    hide Slab.SlabOk, NoRoom, Members, Ring.RingOk, Read;
    TightenOk(mem, heap, bk, slabs, nonfull, full, cache, c);
  }

  lemma BeforePush(mem: Memory, heap: nat, bk: Book, slabs: Slabs, nonfull: seq<nat>, full: seq<nat>, cache: nat,
                   c: nat, x: nat)
    requires SlabsOk(mem, heap, bk, slabs, nonfull, full, cache, {}, {}) && LiveIn(slabs, c, x)
    ensures SlabOk(mem, c, slabs[c], heap) && Read(mem, c + NUM_ALLOC) == |slabs[c].live| >= 1
    ensures IsCell(c, x) && Read(mem, x) == c
    ensures c as int in Members(full) + Members(nonfull) && c as int !in Cached(cache)
    ensures Read(mem, c + FULL) == (if c as int in Members(full) then 1 else 0)
    ensures c as int in Members(full) ==> slabs[c].live - {x as int} != {}
  {
    hide Read;
    assert SlabFine(mem, heap, slabs, nonfull, full, cache, c);
    LiveRange(mem, c, slabs[c], heap, x);
    assert slabs[c].live == {x as int} + (slabs[c].live - {x as int});
    if c as int in Members(full) {
      FullHasMany(mem, c, slabs[c], heap);
    }
  }

  lemma AfterPush(m0: Memory, m1: Memory, heap: nat, bk: Book, align: nat, slabs: Slabs, nonfull: seq<nat>,
                  full: seq<nat>, cache: nat, c: nat, x: nat)
    requires Shape(bk, align) && HeapApart(bk, heap)
    requires SlabsOk(m0, heap, bk, slabs, nonfull, full, cache, {}, {}) && LiveIn(slabs, c, x)
    requires Read(m0, c + NUM_ALLOC) >= 1 && IsCell(c, x)
    requires m1 == Write(Write(Write(Write(m0, x + 8, Read(m0, c + FIRST_FREE)), x, FREE_MAGIC), c + FIRST_FREE, x),
                         c + NUM_ALLOC, Read(m0, c + NUM_ALLOC) - 1)
    ensures var slabs' := slabs[c as int := Cells(slabs[c].live - {x as int}, [x] + slabs[c].free)];
      && SlabsOk(m1, heap, bk, slabs', nonfull, full, cache, {}, {c as int})
      && SlabOk(m1, c, slabs'[c], heap) && !NoRoom(m1, c) && Read(m1, c + FULL) == Read(m0, c + FULL)
      && SmallWrites(m0, m1, heap, slabs) && CellsKept(m0, m1, slabs, slabs')
  {
    hide Read, SlabsOk, Shape, CellsKept, SmallWrites, HeapApart, Slab.SlabOk;
    var k := Cells(slabs[c].live - {x as int}, [x] + slabs[c].free);
    BeforePush(m0, heap, bk, slabs, nonfull, full, cache, c, x);
    PushCell(m0, m1, c, slabs[c], heap, x);
    Loosen(m0, heap, bk, slabs, nonfull, full, cache, c);
    LooseWrites(m0, m1, heap, bk, align, slabs, k, nonfull, full, cache, {}, {c as int}, c);
    AllHoused(m0, heap, bk, slabs, nonfull, full, cache, {}, {});
    AllSlabs(m0, heap, bk, slabs, nonfull, full, cache);
    LiveApart(m0, heap, slabs, c, x);
    CellsInPlace(m0, heap, slabs);
    OneSlabCells(m0, m1, bk, align, slabs, c, k, {x as int, x + 8, c + FIRST_FREE, c + NUM_ALLOC});
  }

  lemma LiveApart(mem: Memory, heap: nat, slabs: Slabs, c: nat, x: nat)
    requires c in slabs && SlabOk(mem, c, slabs[c], heap) && IsCell(c, x)
    ensures forall y :: y in slabs[c].live && y != x ==>
      && y !in {x as int, x + 8, c + FIRST_FREE, c + NUM_ALLOC}
      && y + 8 !in {x as int, x + 8, c + FIRST_FREE, c + NUM_ALLOC}
  {
    hide Slab.SlabOk, Read;
    forall y | y in slabs[c].live && y != x
      ensures y !in {x as int, x + 8, c + FIRST_FREE, c + NUM_ALLOC}
      ensures y + 8 !in {x as int, x + 8, c + FIRST_FREE, c + NUM_ALLOC}
    {
      LiveRange(mem, c, slabs[c], heap, y);
      CellsApart(c, x, y);
    }
  }

  lemma Loosen(mem: Memory, heap: nat, bk: Book, slabs: Slabs, nonfull: seq<nat>, full: seq<nat>, cache: nat, c: int)
    requires SlabsOk(mem, heap, bk, slabs, nonfull, full, cache, {}, {})
    ensures SlabsOk(mem, heap, bk, slabs, nonfull, full, cache, {}, {c})
  {
  }

  lemma AllSlabs(mem: Memory, heap: nat, bk: Book, slabs: Slabs, nonfull: seq<nat>, full: seq<nat>, cache: nat)
    requires SlabsOk(mem, heap, bk, slabs, nonfull, full, cache, {}, {})
    ensures forall d :: d in slabs ==> SlabOk(mem, d, slabs[d], heap)
  {
    hide Slab.SlabOk;
    forall d | d in slabs ensures SlabOk(mem, d, slabs[d], heap) {
      assert SlabFine(mem, heap, slabs, nonfull, full, cache, d);
    }
  }

  ghost predicate AllFull(mem: Memory, slabs: Slabs) {
    forall c :: c in slabs ==> NoRoom(mem, c)
  }

  /** Every cell is live. */
  ghost predicate NoCellLeft(slabs: Slabs) {
    forall c, x {:trigger IsCell(c, x)} :: c in slabs && IsCell(c, x) ==> x in slabs[c].live
  }

  lemma FullMeansLive(mem: Memory, slabs: Slabs, heap: nat)
    requires AllFull(mem, slabs) && forall c :: c in slabs ==> SlabOk(mem, c, slabs[c], heap)
    ensures NoCellLeft(slabs)
  {
    hide Read;
    forall c, x | c in slabs && IsCell(c, x) ensures x in slabs[c].live {
      assert SlabOk(mem, c, slabs[c], heap) && NoRoom(mem, c);
      assert CellOk(slabs[c], Read(mem, c + UNUSED), x);
      HeadZero(mem, c, slabs[c], heap);
    }
  }

  lemma HeadZero(mem: Memory, c: int, k: Cells, heap: nat)
    requires SlabOk(mem, c, k, heap) && Read(mem, c + FIRST_FREE) == 0
    ensures k.free == []
  {
    hide Read;
    if k.free != [] {
      FreePositive(mem, c, k, heap);
    }
  }

  lemma FreePositive(mem: Memory, c: int, k: Cells, heap: nat)
    requires SlabOk(mem, c, k, heap) && k.free != []
    ensures Read(mem, c + FIRST_FREE) > 0
  {
    hide Read;
    assert FreeNode(mem, c, k.free, 0);
  }

  /** One cell more is live. */
  ghost predicate SmallTaken(slabs0: Slabs, slabs1: Slabs, x: int) {
    exists c {:trigger LiveIn(slabs1, c, x)} :: LiveIn(slabs1, c, x) && !LiveIn(slabs0, c, x)
      && c in slabs0 && Taken(slabs0[c], c, x) && slabs1 == slabs0[c := After(slabs0[c], x)]
  }

  /** The cell p was given out from a slab that had one left, or from a new slab when none had. */
  ghost predicate CellGiven(slabs0: Slabs, slabs1: Slabs, p: int) {
    || SmallTaken(slabs0, slabs1, p - 8)
    || (NoCellLeft(slabs0)
        && exists c {:trigger NewSlabGives(slabs0, slabs1, c, p)} :: NewSlabGives(slabs0, slabs1, c, p))
  }

  ghost predicate NewSlabGives(slabs0: Slabs, slabs1: Slabs, c: int, p: int) {
    c !in slabs0 && SmallTaken(slabs0[c := Cells({}, [])], slabs1, p - 8)
  }

  lemma TakenIsNew(slabs0: Slabs, slabs1: Slabs, c: nat, b: nat)
    requires c in slabs0 && Taken(slabs0[c], c, b) && slabs1 == slabs0[c as int := After(slabs0[c], b)]
    ensures SmallTaken(slabs0, slabs1, b) && slabs1.Keys == slabs0.Keys && LiveIn(slabs1, c, b) && IsCell(c, b)
  {
    assert LiveIn(slabs1, c, b) && !LiveIn(slabs0, c, b);
  }

  lemma CellAligned(mem: Memory, c: nat, k: Cells, heap: nat)
    requires SlabOk(mem, c, k, heap)
    ensures forall b: nat {:trigger Taken(k, c, b)} :: Taken(k, c, b) ==> (b + 8) % 16 == 0
  {
    forall b: nat | Taken(k, c, b) ensures (b + 8) % 16 == 0 {
    }
  }

  /** Where the untouched tail of a 4040-byte slab starts. */
  lemma TailStart(c: nat)
    requires c % 16 == 0
    ensures AlignAddress(c + CHUNK_SIZE - CELL, 16, 16 - 8) == c + LAST_CELL
  {
    hide And;
    AlignAddressIs(c + CHUNK_SIZE - CELL, 4, 8);
  }

  function HeaderMem(mem: Memory, c: nat, heap: nat): Memory {
    Write(Write(Write(Write(Write(Write(Write(Write(mem, c + WRAPPED_PTR, 0), c + HEAP_PTR, heap), c + FIRST_FREE, 0),
          c + PREV, 0), c + NEXT, 0), c + NUM_ALLOC, 0), c + FULL, 0), c + UNUSED, c + LAST_CELL)
  }

  lemma HeaderWritten(m1: Memory, m2: Memory, c: nat, heap: nat)
    requires c > 0 && c % 16 == 0 && m2 == HeaderMem(m1, c, heap)
    ensures SlabOk(m2, c, Cells({}, []), heap) && !NoRoom(m2, c) && Read(m2, c + FULL) == 0
    ensures forall w {:trigger Read(m2, w)} :: w < c || w >= c + CHUNK_SIZE ==> Read(m2, w) == Read(m1, w)
  {
    hide Read;
    FreshSlab(m2, c, heap);
  }

  /** Setting up slab c, which has no cell yet, writes only words of c. */
  lemma SetUpIsSmall(m0: Memory, m1: Memory, heap: nat, bk: Book, align: nat, slabs: Slabs, c: int)
    requires Shape(bk, align) && c in slabs && slabs[c].live == {} && AllCells(slabs)
    requires forall d {:trigger Housed(bk, d)} :: d in slabs ==> Housed(bk, d)
    requires forall w {:trigger Read(m1, w)} :: w < c || w >= c + CHUNK_SIZE ==> Read(m1, w) == Read(m0, w)
    ensures SmallWrites(m0, m1, heap, slabs) && CellsKept(m0, m1, slabs, slabs)
  {
    hide Read, Shape;
    forall w | !SmallWord(heap, slabs, w) ensures Read(m1, w) == Read(m0, w) {
      assert c <= w < c + CHUNK_SIZE ==> InSlab(slabs, c, w);
    }
    forall d, x | LiveIn(slabs, d, x) ensures Read(m1, x + 8) == Read(m0, x + 8) && Read(m1, x) == Read(m0, x) {
      assert Housed(bk, d) && Housed(bk, c);
      SlabsApart(bk, align, c, d);
    }
  }

  lemma NoneHasRoom(mem: Memory, heap: nat, bk: Book, slabs: Slabs, nonfull: seq<nat>, full: seq<nat>)
    requires SlabsOk(mem, heap, bk, slabs, nonfull, full, 0, {}, {})
    requires Read(mem, heap + NONFULL_SENTINEL + 16) == heap + NONFULL_SENTINEL
    requires HeapApart(bk, heap)
    ensures AllFull(mem, slabs)
  {
    hide Slab.SlabOk, NoRoom, Read;
    if |nonfull| > 1 {
      FirstIsSlab(mem, heap, bk, slabs, nonfull, full, 0);
    }
    forall c | c in slabs ensures NoRoom(mem, c) {
      assert SlabFine(mem, heap, slabs, nonfull, full, 0, c);
    }
  }

  lemma FirstIsSlab(mem: Memory, heap: nat, bk: Book, slabs: Slabs, nonfull: seq<nat>, full: seq<nat>, cache: nat)
    requires SlabsOk(mem, heap, bk, slabs, nonfull, full, cache, {}, {}) && HeapApart(bk, heap) && |nonfull| > 1
    ensures Read(mem, heap + NONFULL_SENTINEL + 16) != heap + NONFULL_SENTINEL
  {
    hide Slab.SlabOk, NoRoom, Read;
    assert Ring.NodeOk(mem, SMALL_LINKS, nonfull, 0);
    MemberIn(nonfull, 1);
    assert Housed(bk, nonfull[1]);
  }

  lemma AddedCells(slabs0: Slabs, slabs1: Slabs, c: int)
    requires AllCells(slabs0) && slabs1 == slabs0[c := Cells({}, [])]
    ensures AllCells(slabs1)
  {
    forall d, x | LiveIn(slabs1, d, x) ensures IsCell(d, x) {
      assert LiveIn(slabs0, d, x);
    }
  }
}
