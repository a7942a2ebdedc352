/** The large allocator: each allocation is a system allocation of its own, on the system list. */
module Large {
  import opened Bits
  import opened Memory
  import opened SizeClasses
  import opened Words
  import opened Blocks
  import opened Tags
  import opened MediumSteps
  import opened MediumMoves
  import opened MediumFrames
  import opened MediumSystem
  import opened SystemMemory
  import opened Tlsf
  import Ring

  const OVERHEAD: nat := 80        // both headers

  /** Large allocations: where each system allocation's user data begins. */
  type Larges = map<int, nat>

  /** Listed allocations whose header is not written yet: the region of each pointer. */
  type Bare = map<int, int>

  /** Words of a large allocation's region that are not on the system list. */
  predicate RegionWord(owned: map<int, nat>, s: int, w: int)
    requires s in owned
  {
    s + LIST_WORDS <= w < s + owned[s]
  }

  /** The user data is in place, and the header says where it is, how large and whose. */
  ghost predicate LargeFine(mem: Memory, owned: map<int, nat>, heap: nat, align: nat, bare: Bare, s: int, p: nat) {
    && s in owned && 0 <= s && s + OVERHEAD <= p < s + owned[s] && align > 0 && p % align == 0
    && (p in bare || HeaderFine(mem, s, s + owned[s] - p, heap, p))
  }

  ghost predicate HeaderFine(mem: Memory, s: int, size: int, heap: nat, p: nat) {
    && Read(mem, p - 32) == s && Read(mem, p - 24) == size && Read(mem, p - 16) == heap
    && Type(Read(mem, p - 8)) == TYPE_LARGE && Read(mem, p - 8) < 0x1_0000_0000
  }

  ghost predicate LargesOk(mem: Memory, owned: map<int, nat>, heap: nat, align: nat, foreign: set<int>,
                           larges: Larges, bare: Bare) {
    && larges.Keys == foreign
    && (forall p {:trigger p in bare} :: p in bare ==> bare[p] in larges && larges[bare[p]] == p)
    && forall s {:trigger LargeFine(mem, owned, heap, align, bare, s, larges[s])} :: s in larges ==>
      LargeFine(mem, owned, heap, align, bare, s, larges[s])
  }

  /** Words of every large allocation, save those in the region `but`, are unchanged. */
  ghost predicate LargesKept(m0: Memory, m1: Memory, owned: map<int, nat>, foreign: set<int>, but: int) {
    forall s, w {:trigger s in foreign, Read(m1, w)} ::
      s in foreign && s in owned && s != but && RegionWord(owned, s, w) ==> Read(m1, w) == Read(m0, w)
  }

  /** The words of large allocations belong to no other layer. */
  lemma LargeUntouched(mem: Memory, owned: map<int, nat>, heap: nat, ring: seq<nat>, cached: nat, cachedSize: nat,
                       foreign: set<int>, others: set<int>, l: Layout, s: int, w: int)
    requires SysOk(mem, owned, heap, ring, cached, cachedSize, foreign, others, l)
    requires s in foreign && s in owned && RegionWord(owned, s, w)
    ensures Untouched(l, ring, w) && (w < heap || w >= heap + HEAP_BYTES)
  {
    hide Ring.RingOk;
    forall c | c in l.chunks ensures OutsideChunk(l, c, w) {
      assert ChunkOwned(mem, owned, ring, foreign, l, c);
      assert RegionPair(owned, l.chunks[c].sys, s);
    }
    assert RegionPair(owned, heap, s);
    forall i | 0 <= i < |ring| ensures w < ring[i] || w >= ring[i] + LIST_WORDS {
      if i > 0 && ring[i] != s {
        assert ring[i] as int in Members(ring);
        assert ring[i] as int in owned.Keys;
        assert owned[ring[i] as int] >= SYSTEM_HEADER;
        assert RegionPair(owned, ring[i], s);
      }
    }
  }

  /** A step that leaves untouched words alone leaves large allocations alone. */
  lemma QuietKeepsLarges(m0: Memory, m1: Memory, owned0: map<int, nat>, owned1: map<int, nat>, heap: nat,
                         ring0: seq<nat>, ring1: seq<nat>, cached0: nat, cached1: nat, size0: nat, size1: nat,
                         foreign: set<int>, others0: set<int>, others1: set<int>, l0: Layout, l1: Layout)
    requires SysOk(m0, owned0, heap, ring0, cached0, size0, foreign, others0, l0)
    requires SysOk(m1, owned1, heap, ring1, cached1, size1, foreign, others1, l1)
    requires RegionsKept(owned0, owned1, foreign)
    requires forall w {:trigger Read(m1, w)} ::
      Untouched(l0, ring0, w) && Untouched(l1, ring1, w) && (w < heap || w >= heap + HEAP_BYTES) ==>
        Read(m1, w) == Read(m0, w)
    ensures LargesKept(m0, m1, owned0, foreign, NONE)
  {
    hide SysOk, Read, Untouched;
    forall s, w | s in foreign && s in owned0 && RegionWord(owned0, s, w) ensures Read(m1, w) == Read(m0, w) {
      LargeUntouched(m0, owned0, heap, ring0, cached0, size0, foreign, others0, l0, s, w);
      LargeUntouched(m1, owned1, heap, ring1, cached1, size1, foreign, others1, l1, s, w);
    }
  }

  lemma LargesStayOk(m0: Memory, m1: Memory, owned0: map<int, nat>, owned1: map<int, nat>, heap: nat, align: nat,
                     foreign: set<int>, larges: Larges, bare: Bare)
    requires LargesOk(m0, owned0, heap, align, foreign, larges, bare) && LargesKept(m0, m1, owned0, foreign, NONE)
    requires RegionsKept(owned0, owned1, foreign)
    ensures LargesOk(m1, owned1, heap, align, foreign, larges, bare)
  {
    hide Read, Type;
    forall s | s in larges ensures LargeFine(m1, owned1, heap, align, bare, s, larges[s]) {
      assert LargeFine(m0, owned0, heap, align, bare, s, larges[s]);
      LargeStaysFine(m0, m1, owned0, owned1, heap, align, foreign, larges, bare, s, NONE);
    }
  }

  lemma LargeStaysFine(m0: Memory, m1: Memory, owned0: map<int, nat>, owned1: map<int, nat>, heap: nat, align: nat,
                       foreign: set<int>, larges: Larges, bare: Bare, s: int, but: int)
    requires s in larges && LargesOk(m0, owned0, heap, align, foreign, larges, bare)
    requires LargesKept(m0, m1, owned0, foreign, but)
    requires s in owned1 && s in owned0 && owned1[s] == owned0[s] && s != but
    ensures LargeFine(m1, owned1, heap, align, bare, s, larges[s])
  {
    hide Read, Type;
    var p := larges[s];
    assert LargeFine(m0, owned0, heap, align, bare, s, p);
    assert s in foreign;
    assert RegionWord(owned0, s, p - 32) && RegionWord(owned0, s, p - 24) && RegionWord(owned0, s, p - 16)
        && RegionWord(owned0, s, p - 8);
  }

  /** Linking and unlinking reach only list words. */
  lemma ListedStep(m0: Memory, m1: Memory, owned: map<int, nat>, heap: nat, ring: seq<nat>, cached: nat,
                   cachedSize: nat, foreign: set<int>, others: set<int>, l: Layout, s: nat)
    requires SysOk(m0, owned, heap, ring, cached, cachedSize, foreign, others, l) && s in others && s in owned
    requires m1 == ListMem(m0, ring, s, MAGIC_LARGE)
    ensures SysOk(m1, owned, heap, Ring.Inserted(ring, s), cached, cachedSize, foreign + {s as int},
                  others - {s as int}, l)
    ensures SameInside(m0, m1, l)
    ensures forall w {:trigger Read(m1, w)} :: Untouched(l, ring, w) && !(s <= w < s + LIST_WORDS) ==>
      Read(m1, w) == Read(m0, w)
  {
    hide SysOk, ListMem, Read, Ring.Inserted, Ring.RingOk, OutsideChunks;
    SysList(m0, owned, heap, ring, cached, cachedSize, foreign, others, l, l, s, MAGIC_LARGE, foreign + {s as int});
    SysRing(m0, owned, heap, ring, cached, cachedSize, foreign, others, l);
    forall w | !OutsideChunks(l, w) ensures Read(m1, w) == Read(m0, w) {
      ListInside(m0, owned, heap, ring, cached, cachedSize, foreign, others, l, s, MAGIC_LARGE, w);
    }
    forall w | Untouched(l, ring, w) && !(s <= w < s + LIST_WORDS) ensures Read(m1, w) == Read(m0, w) {
      ListMemFrame(m0, ring, s, MAGIC_LARGE, w);
    }
  }

  lemma SysRing(mem: Memory, owned: map<int, nat>, heap: nat, ring: seq<nat>, cached: nat, cachedSize: nat,
                foreign: set<int>, pending: set<int>, l: Layout)
    requires SysOk(mem, owned, heap, ring, cached, cachedSize, foreign, pending, l)
    ensures |ring| > 0 && ring[0] == heap + SENTINEL && Ring.RingOk(mem, SYS_LINKS, ring)
  {
    hide Ring.RingOk;
  }

  lemma UnlistedStep(m0: Memory, m1: Memory, owned: map<int, nat>, heap: nat, ring: seq<nat>, cached: nat,
                     cachedSize: nat, foreign: set<int>, others: set<int>, l: Layout, s: nat, at: nat)
    requires SysOk(m0, owned, heap, ring, cached, cachedSize, foreign, others, l)
    requires 0 < at < |ring| && ring[at] == s && s in foreign && s in owned
    requires m1 == Ring.UnlinkMem(m0, SYS_LINKS, s)
    ensures SysOk(m1, owned, heap, Ring.Removed(ring, at), cached, cachedSize, foreign - {s as int},
                  others + {s as int}, l)
    ensures s as int !in others
    ensures SameInside(m0, m1, l)
    ensures forall w {:trigger Read(m1, w)} :: Untouched(l, ring, w) ==> Read(m1, w) == Read(m0, w)
  {
    hide SysOk, Read, Ring.Removed, Ring.RingOk, OutsideChunks, Ring.UnlinkMem;
    SysRing(m0, owned, heap, ring, cached, cachedSize, foreign, others, l);
    NotAChunk(m0, owned, heap, ring, cached, cachedSize, foreign, others, l, s);
    SysUnlist(m0, owned, heap, ring, cached, cachedSize, foreign, others, l, l, at);
    if s as int in others {
      HandNotForeign(m0, owned, heap, ring, cached, cachedSize, foreign, others, l, s);
    }
    forall w | !OutsideChunks(l, w) ensures Read(m1, w) == Read(m0, w) {
      UnlistInside(m0, owned, heap, ring, cached, cachedSize, foreign, others, l, at, w);
    }
    forall w | Untouched(l, ring, w) ensures Read(m1, w) == Read(m0, w) {
      UnlistFrame(m0, ring, at, w);
    }
  }

  lemma NotAChunk(mem: Memory, owned: map<int, nat>, heap: nat, ring: seq<nat>, cached: nat, cachedSize: nat,
                  foreign: set<int>, others: set<int>, l: Layout, s: int)
    requires SysOk(mem, owned, heap, ring, cached, cachedSize, foreign, others, l) && s in foreign
    ensures forall c :: c in l.chunks ==> l.chunks[c].sys != s
  {
    hide Ring.RingOk;
    forall c | c in l.chunks ensures l.chunks[c].sys != s {
      assert ChunkOwned(mem, owned, ring, foreign, l, c);
    }
  }

  /** Where a foreign allocation sits on the list. */
  lemma ForeignPlace(mem: Memory, owned: map<int, nat>, heap: nat, ring: seq<nat>, cached: nat, cachedSize: nat,
                     foreign: set<int>, others: set<int>, l: Layout, s: nat) returns (at: nat)
    requires SysOk(mem, owned, heap, ring, cached, cachedSize, foreign, others, l) && s in foreign
    ensures 0 < at < |ring| && ring[at] == s && s in owned && Read(mem, s) == MAGIC_LARGE
    ensures forall i :: 0 <= i < |ring| ==> s != ring[i] + 8 && s != ring[i] + 16
    ensures Ring.NodeOk(mem, SYS_LINKS, ring, at)
  {
    hide Read;
    assert s as int in Members(ring);
    at :| 1 <= at < |ring| && ring[at] == s;
    assert s as int in owned.Keys;
    forall i | 0 <= i < |ring| ensures s != ring[i] + 8 && s != ring[i] + 16 {
      assert i < at ==> Ring.Apart(ring[i], ring[at]);
      assert at < i ==> Ring.Apart(ring[at], ring[i]);
    }
  }

  /** Words of a region that is on the list, but not list words, may be written freely. */
  lemma RegionWrite(m0: Memory, m1: Memory, ix: Index, bk: Book, align: nat, owned: map<int, nat>, heap: nat,
                    ring: seq<nat>, cached: nat, cachedSize: nat, foreign: set<int>, others: set<int>, s: int)
    requires Core(m0, ix, bk, align, heap, NONE)
    requires SysOk(m0, owned, heap, ring, cached, cachedSize, foreign, others, bk.l)
    requires s in foreign && s in owned
    requires forall w {:trigger Read(m1, w)} :: !RegionWord(owned, s, w) ==> Read(m1, w) == Read(m0, w)
    ensures Core(m1, ix, bk, align, heap, NONE)
    ensures SysOk(m1, owned, heap, ring, cached, cachedSize, foreign, others, bk.l)
    ensures SameInside(m0, m1, bk.l) && LargesKept(m0, m1, owned, foreign, s)
  {
    hide SysOk, Read, Core, OutsideChunks, ListWordsKept;
    forall w | !OutsideChunks(bk.l, w) ensures Read(m1, w) == Read(m0, w) {
      if RegionWord(owned, s, w) {
        LargeUntouched(m0, owned, heap, ring, cached, cachedSize, foreign, others, bk.l, s, w);
      }
    }
    OutsideOk(m0, m1, ix, bk, align, heap, NONE);
    RegionListWords(m0, m1, owned, heap, ring, cached, cachedSize, foreign, others, bk.l, s);
    SysFrame(m0, m1, owned, heap, ring, cached, cachedSize, foreign, others, bk.l, bk.l);
    forall r, w | r in foreign && r in owned && r != s && RegionWord(owned, r, w) ensures Read(m1, w) == Read(m0, w) {
      ForeignApart(m0, owned, heap, ring, cached, cachedSize, foreign, others, bk.l, r, s);
    }
  }

  lemma RegionListWords(m0: Memory, m1: Memory, owned: map<int, nat>, heap: nat, ring: seq<nat>,
                        cached: nat, cachedSize: nat, foreign: set<int>, others: set<int>, l: Layout, s: int)
    requires SysOk(m0, owned, heap, ring, cached, cachedSize, foreign, others, l)
    requires s in foreign && s in owned
    requires forall w {:trigger Read(m1, w)} :: !RegionWord(owned, s, w) ==> Read(m1, w) == Read(m0, w)
    ensures ListWordsKept(m0, m1, ring)
  {
    hide SysOk, Read;
    forall i, w | 0 <= i < |ring| && ring[i] <= w < ring[i] + LIST_WORDS ensures Read(m1, w) == Read(m0, w) {
      if RegionWord(owned, s, w) {
        LargeUntouched(m0, owned, heap, ring, cached, cachedSize, foreign, others, l, s, w);
      }
    }
  }

  lemma ForeignApart(mem: Memory, owned: map<int, nat>, heap: nat, ring: seq<nat>, cached: nat, cachedSize: nat,
                     foreign: set<int>, others: set<int>, l: Layout, r: int, s: int)
    requires SysOk(mem, owned, heap, ring, cached, cachedSize, foreign, others, l)
    requires r in foreign && s in foreign && r in owned && s in owned && r != s
    ensures r + owned[r] <= s || s + owned[s] <= r
  {
    hide Ring.RingOk;
    assert RegionPair(owned, r, s);
  }

  lemma MediumParts(m: MediumHeap)
    requires m.Valid()
    ensures AlignmentOk(m.align, m.alignLog)
    ensures Core(m.mem, Index(m.heads, m.bitmap, m.top), m.bk, m.align, m.heap, NONE)
    ensures SysOk(m.mem, m.system.owned, m.heap, m.ring, m.cached, m.cachedSize, m.foreign, m.others, m.bk.l)
  {
    hide Core, SysOk, Settled, AlignmentOk;
  }

  lemma OwnersForeign(mem: Memory, owned: map<int, nat>, heap: nat, align: nat, foreign: set<int>, larges: Larges,
                      bare: Bare)
    requires LargesOk(mem, owned, heap, align, foreign, larges, bare)
    ensures larges.Keys == foreign
  {
  }

  lemma ForeignOwned(mem: Memory, owned: map<int, nat>, heap: nat, ring: seq<nat>, cached: nat, cachedSize: nat,
                     foreign: set<int>, others: set<int>, l: Layout)
    requires SysOk(mem, owned, heap, ring, cached, cachedSize, foreign, others, l)
    ensures forall r :: r in foreign ==> r in owned && r > 0
  {
    hide Ring.RingOk;
    forall r | r in foreign ensures r in owned && r > 0 {
      assert r in owned.Keys;
      assert owned[r] >= 0;
    }
  }

  class LargeHeap {
    const medium: MediumHeap
    ghost var larges: Larges
    ghost var bare: Bare

    ghost predicate Valid()
      reads this, medium, medium.system
    {
      && medium.Valid()
      && LargesOk(medium.mem, medium.system.owned, medium.heap, medium.align, medium.foreign, larges, bare)
    }

    constructor (medium: MediumHeap)
      requires medium.Valid() && medium.foreign == {}
      ensures Valid() && this.medium == medium && larges == map[] && bare == map[]
    {
      this.medium := medium;
      larges, bare := map[], map[];
    }

    /** The size of the region that stbm__large_alloc asks the system for. */
    function Actual(size: nat): nat
      requires medium.align > 0
    {
      OVERHEAD + (medium.align - 1) + size
    }

    /** The critical section of stbm__large_alloc, for region s obtained before it: where the user data is to be, and
        how large. */
    method Enlist(s: nat, size: nat, ghost me: nat) returns (p: nat, userSize: nat)
      requires medium.lock.HeldBy(me) && Valid() && 0 < size < WORD64 - 0x10_0000 && medium.align > 0
      requires s as int in medium.others && s in medium.system.owned && medium.system.owned[s] == Actual(size)
      modifies medium.lock, this`larges, this`bare, medium`mem, medium`ring, medium`foreign, medium`others,
          medium`count, medium`bytes
      ensures medium.lock.Free() && Valid() && medium.others == old(medium.others) - {s as int}
      ensures LargeAdded(old(larges), larges, medium.system.owned, s, p, size)
      ensures p !in old(bare) && bare == old(bare)[p as int := s]
      ensures p != 0 && p % medium.align == 0 && medium.count == old(medium.count) + 1
      ensures userSize == s + medium.system.owned[s] - p && medium.bytes == old(medium.bytes) + userSize
      ensures LargeQuiet(old(medium.mem), medium.mem, medium.bk.l, old(medium.ring), s, medium.system.owned[s])
      ensures LargesKept(old(medium.mem), medium.mem, medium.system.owned, old(medium.foreign), NONE)
    {
      hide Core, SysOk, Settled, AlignmentOk, AlignAddress, LargesOk, LargesKept, LargeQuiet;
      AlignmentFacts(medium.align, medium.alignLog);
      var actual := Actual(size);
      p := AlignAddress(s + OVERHEAD, medium.align, 0);
      LargePointer(s, medium.align, medium.alignLog, size);
      userSize := s + actual - p;
      Link(s, p, userSize);
      medium.lock.Unlock(me);
    }

    /** Put the region on the system list, and count it. */
    method Link(s: nat, p: nat, userSize: nat)
      requires Valid() && s as int in medium.others && s in medium.system.owned
      requires s + OVERHEAD <= p < s + medium.system.owned[s] && medium.align > 0 && p % medium.align == 0
      modifies this`larges, this`bare, medium`mem, medium`ring, medium`foreign, medium`others, medium`count,
          medium`bytes
      ensures Valid() && medium.others == old(medium.others) - {s as int}
      ensures s !in old(larges) && larges == old(larges)[s as int := p]
      ensures p !in old(bare) && bare == old(bare)[p as int := s]
      ensures medium.count == old(medium.count) + 1 && medium.bytes == old(medium.bytes) + userSize
      ensures LargeQuiet(old(medium.mem), medium.mem, medium.bk.l, old(medium.ring), s, medium.system.owned[s])
      ensures LargesKept(old(medium.mem), medium.mem, medium.system.owned, old(medium.foreign), NONE)
    {
      hide Core, SysOk, Read, Settled, AlignmentOk, ListMem, Ring.Inserted, SameInside, AlignAddress, LargesOk;
      hide LargesKept, Type, LargeFine, LargeQuiet, Write;
      ghost var m0, ring0, foreign0, others0 := medium.mem, medium.ring, medium.foreign, medium.others;
      SysRing(m0, medium.system.owned, medium.heap, ring0, medium.cached, medium.cachedSize, foreign0, others0,
              medium.bk.l);
      medium.LinkSystem(s, MAGIC_LARGE);
      medium.foreign := medium.foreign + {s as int};
      medium.others := medium.others - {s as int};
      medium.count, medium.bytes := medium.count + 1, medium.bytes + userSize;
      Enlisted(m0, medium.mem, Index(medium.heads, medium.bitmap, medium.top), medium.bk, medium.align,
               medium.system.owned, medium.heap, ring0, medium.cached, medium.cachedSize, foreign0, others0, larges,
               bare, s, p);
      larges, bare := larges[s as int := p], bare[p as int := s];
    }

    /** After it, without the lock: the words that record where the allocation is, how large and whose. */
    method WriteHeader(s: nat, p: nat, userSize: nat)
      requires Valid() && p in bare && bare[p] == s
      requires s in medium.system.owned && p + userSize == s + medium.system.owned[s]
      modifies medium`mem, this`bare
      ensures Valid() && bare == old(bare) - {p as int}
      ensures s in medium.foreign && s + OVERHEAD <= p
      ensures SameInside(old(medium.mem), medium.mem, medium.bk.l)
      ensures LargesKept(old(medium.mem), medium.mem, medium.system.owned, medium.foreign, s)
      ensures forall w {:trigger Read(medium.mem, w)} ::
        !(s + LIST_WORDS <= w < p) ==> Read(medium.mem, w) == Read(old(medium.mem), w)
    {
      hide Core, SysOk, Read, Settled, AlignmentOk, SameInside, Type, LargesKept, Write;
      ghost var m0 := medium.mem;
      ghost var owned := medium.system.owned;
      BareFacts(m0, owned, medium.heap, medium.align, medium.foreign, larges, bare, p);
      medium.mem := Write(medium.mem, s + 24, p);
      medium.mem := Write(medium.mem, p - 32, s);
      medium.mem := Write(medium.mem, p - 16, medium.heap);
      medium.mem := Write(medium.mem, p - 8, TYPE_LARGE);
      medium.mem := Write(medium.mem, p - 24, userSize);
      LargeWritten(m0, medium.mem, owned, medium.heap, medium.align, s, p);
      RegionWrite(m0, medium.mem, Index(medium.heads, medium.bitmap, medium.top), medium.bk, medium.align, owned,
                  medium.heap, medium.ring, medium.cached, medium.cachedSize, medium.foreign, medium.others, s);
      HeaderDone(m0, medium.mem, owned, medium.heap, medium.ring, medium.cached, medium.cachedSize, medium.foreign,
                 medium.others, medium.bk.l, medium.align, larges, bare, s, p);
      bare := bare - {p as int};
    }

    /** The critical section of stbm__large_free; s is the region, to be returned once the lock is released. */
    method Delist(p: nat, ghost owner: int, ghost me: nat) returns (s: nat)
      requires medium.lock.HeldBy(me) && Valid() && owner in larges && larges[owner] == p && p !in bare
      modifies medium.lock, this`larges, medium`mem, medium`ring, medium`foreign, medium`others, medium`count,
          medium`bytes
      ensures medium.lock.Free() && Valid() && owner in medium.system.owned && s == owner && s != 0
      ensures larges == old(larges) - {owner}
      ensures s as int !in old(medium.others) && medium.others == old(medium.others) + {s as int}
      ensures medium.count == old(medium.count) - 1
      ensures medium.bytes == old(medium.bytes) - (owner + medium.system.owned[owner] - p)
      ensures LargeQuiet(old(medium.mem), medium.mem, medium.bk.l, old(medium.ring), 0, 0)
      ensures LargesKept(old(medium.mem), medium.mem, medium.system.owned, old(medium.foreign), NONE)
    {
      hide Core, SysOk, Read, Settled, AlignmentOk, Ring.UnlinkMem, Ring.Removed, SameInside, LargesOk, LargesKept;
      hide LargeQuiet;
      hide Ring.NodeOk;
      ghost var m0, owned, ring0, foreign0, others0 := medium.mem, medium.system.owned, medium.ring, medium.foreign,
          medium.others;
      ghost var ix := Index(medium.heads, medium.bitmap, medium.top);
      ForeignOwned(m0, owned, medium.heap, ring0, medium.cached, medium.cachedSize, foreign0, others0, medium.bk.l);
      OwnersForeign(m0, owned, medium.heap, medium.align, foreign0, larges, bare);
      HeaderReads(m0, owned, medium.heap, medium.align, foreign0, larges, bare, owner);
      s := Read(medium.mem, p - 32);
      ghost var at := ForeignPlace(m0, owned, medium.heap, ring0, medium.cached, medium.cachedSize, foreign0,
                                   others0, medium.bk.l, s);
      assert Read(medium.mem, s) == MAGIC_LARGE;   // otherwise the block is corrupt
      medium.UnlinkSystem(s, MAGIC_LARGE, at);
      UnlistedStep(m0, medium.mem, owned, medium.heap, ring0, medium.cached, medium.cachedSize, foreign0, others0,
                   medium.bk.l, s, at);
      LargeUntouched(m0, owned, medium.heap, ring0, medium.cached, medium.cachedSize, foreign0, others0, medium.bk.l,
                     s, p - 24);
      medium.count, medium.bytes := medium.count - 1, medium.bytes - Read(medium.mem, p - 24);
      OutsideOk(m0, medium.mem, ix, medium.bk, medium.align, medium.heap, NONE);
      medium.foreign := medium.foreign - {s as int};
      medium.others := medium.others + {s as int};
      FreedStep(m0, medium.mem, medium.bk.l, ring0);
      NewKeepsLarges(m0, medium.mem, owned, medium.heap, ring0, medium.cached, medium.cachedSize, foreign0, others0,
                     medium.bk.l, 0, 0);
      LargesShrink(m0, medium.mem, owned, medium.heap, medium.align, foreign0, larges, bare, owner);
      larges := larges - {owner};
      medium.lock.Unlock(me);
    }
  }

  /** Only list words and words of this region changed. */
  ghost predicate LargeQuiet(m0: Memory, m1: Memory, l: Layout, ring: seq<nat>, s: int, n: nat) {
    && SameInside(m0, m1, l)
    && forall w {:trigger Read(m1, w)} :: Untouched(l, ring, w) && !(s <= w < s + n) ==> Read(m1, w) == Read(m0, w)
  }

  /** Region s holds the user data of the new allocation. */
  ghost predicate LargeAdded(larges0: Larges, larges1: Larges, owned: map<int, nat>, s: nat, p: nat, size: nat) {
    && s !in larges0 && larges1 == larges0[s as int := p]
    && s in owned && s + OVERHEAD <= p && p + size <= s + owned[s]
  }

  lemma LargePointer(s: nat, align: nat, k: nat, size: nat)
    requires AlignmentOk(align, k)
    ensures align >= 1 && var p := AlignAddress(s + OVERHEAD, align, 0);
      s + OVERHEAD <= p && p + size <= s + OVERHEAD + (align - 1) + size && p % align == 0
  {
    hide Pow2, AlignAddress;
    AlignmentFacts(align, k);
    AlignAddressIs(s + OVERHEAD, k, 0);
  }

  lemma LargeWritten(m1: Memory, m2: Memory, owned: map<int, nat>, heap: nat, align: nat, s: nat, p: nat)
    requires s in owned && s + OVERHEAD <= p < s + owned[s] && align > 0 && p % align == 0
    requires m2 == Write(Write(Write(Write(Write(m1, s + 24, p), p - 32, s), p - 16, heap), p - 8, TYPE_LARGE),
                         p - 24, s + owned[s] - p)
    ensures LargeFine(m2, owned, heap, align, map[], s, p)
    ensures forall w {:trigger Read(m2, w)} :: !(s + LIST_WORDS <= w < p) ==> Read(m2, w) == Read(m1, w)
    ensures forall w {:trigger Read(m2, w)} :: !RegionWord(owned, s, w) ==> Read(m2, w) == Read(m1, w)
  {
    hide Read;
  }

  lemma BareFacts(mem: Memory, owned: map<int, nat>, heap: nat, align: nat, foreign: set<int>, larges: Larges,
                  bare: Bare, p: nat)
    requires LargesOk(mem, owned, heap, align, foreign, larges, bare) && p in bare
    ensures bare[p] in larges && larges[bare[p]] == p && bare[p] in foreign && bare[p] in owned && bare[p] >= 0
    ensures bare[p] + OVERHEAD <= p < bare[p] + owned[bare[p]] && align > 0 && p % align == 0
  {
    hide HeaderFine;
    assert LargeFine(mem, owned, heap, align, bare, bare[p], larges[bare[p]]);
  }

  /** A region in hand holds no listed allocation. */
  lemma NotBare(mem: Memory, owned: map<int, nat>, heap: nat, ring: seq<nat>, cached: nat, cachedSize: nat,
                foreign: set<int>, others: set<int>, l: Layout, align: nat, larges: Larges, bare: Bare, s: nat, p: nat)
    requires SysOk(mem, owned, heap, ring, cached, cachedSize, foreign, others, l)
    requires LargesOk(mem, owned, heap, align, foreign, larges, bare)
    requires s !in foreign && s in owned && s <= p < s + owned[s]
    ensures p !in bare
  {
    hide SysOk, LargesOk;
    if p in bare {
      BareFacts(mem, owned, heap, align, foreign, larges, bare, p);
      OwnedApart(mem, owned, heap, ring, cached, cachedSize, foreign, others, l, bare[p], s);
    }
  }

  lemma HeaderDone(m0: Memory, m1: Memory, owned: map<int, nat>, heap: nat, ring: seq<nat>, cached: nat,
                   cachedSize: nat, foreign: set<int>, others: set<int>, l: Layout, align: nat, larges: Larges,
                   bare: Bare, s: int, p: nat)
    requires SysOk(m0, owned, heap, ring, cached, cachedSize, foreign, others, l)
    requires LargesOk(m0, owned, heap, align, foreign, larges, bare) && LargesKept(m0, m1, owned, foreign, s)
    requires p in bare && bare[p] == s && LargeFine(m1, owned, heap, align, map[], s, p)
    ensures LargesOk(m1, owned, heap, align, foreign, larges, bare - {p as int})
  {
    hide Read, Type, SysOk;
    forall r | r in larges ensures LargeFine(m1, owned, heap, align, bare - {p as int}, r, larges[r]) {
      assert LargeFine(m0, owned, heap, align, bare, r, larges[r]);
      if r != s {
        LargeStaysFine(m0, m1, owned, owned, heap, align, foreign, larges, bare, r, s);
        OwnedApart(m0, owned, heap, ring, cached, cachedSize, foreign, others, l, r, s);
      }
    }
  }

  /** A region in hand that goes on the list as a large allocation, without its header yet. */
  lemma Enlisted(m0: Memory, m1: Memory, ix: Index, bk: Book, align: nat, owned: map<int, nat>, heap: nat,
                 ring: seq<nat>, cached: nat, cachedSize: nat, foreign: set<int>, others: set<int>, larges: Larges,
                 bare: Bare, s: nat, p: nat)
    requires Core(m0, ix, bk, align, heap, NONE) && |ring| > 0 && m1 == ListMem(m0, ring, s, MAGIC_LARGE)
    requires SysOk(m0, owned, heap, ring, cached, cachedSize, foreign, others, bk.l)
    requires LargesOk(m0, owned, heap, align, foreign, larges, bare)
    requires s in others && s in owned && s + OVERHEAD <= p < s + owned[s] && align > 0 && p % align == 0
    ensures Core(m1, ix, bk, align, heap, NONE)
    ensures SysOk(m1, owned, heap, Ring.Inserted(ring, s), cached, cachedSize, foreign + {s as int},
                  others - {s as int}, bk.l)
    ensures s !in larges && p !in bare
    ensures LargesOk(m1, owned, heap, align, foreign + {s as int}, larges[s as int := p], bare[p as int := s])
    ensures LargeQuiet(m0, m1, bk.l, ring, s, owned[s]) && LargesKept(m0, m1, owned, foreign, NONE)
  {
    hide Core, SysOk, Read, ListMem, Ring.Inserted, SameInside, LargesOk, LargesKept, LargeQuiet;
    HandNotForeign(m0, owned, heap, ring, cached, cachedSize, foreign, others, bk.l, s);
    OwnersForeign(m0, owned, heap, align, foreign, larges, bare);
    NotBare(m0, owned, heap, ring, cached, cachedSize, foreign, others, bk.l, align, larges, bare, s, p);
    ListedStep(m0, m1, owned, heap, ring, cached, cachedSize, foreign, others, bk.l, s);
    OutsideOk(m0, m1, ix, bk, align, heap, NONE);
    LinkedStep(m0, m1, bk.l, ring, s, owned[s]);
    NewKeepsLarges(m0, m1, owned, heap, ring, cached, cachedSize, foreign, others, bk.l, s, owned[s]);
    LargesGrow(m0, m1, owned, heap, align, foreign, larges, bare, s, p);
  }

  /** Linking reaches only words of this region and list words. */
  lemma LinkedStep(m0: Memory, m1: Memory, l: Layout, ring: seq<nat>, s: int, n: nat)
    requires SameInside(m0, m1, l) && n >= LIST_WORDS
    requires forall w {:trigger Read(m1, w)} :: Untouched(l, ring, w) && !(s <= w < s + LIST_WORDS) ==>
      Read(m1, w) == Read(m0, w)
    ensures LargeQuiet(m0, m1, l, ring, s, n)
  {
    hide Untouched, OutsideChunks, SameInside;
  }

  lemma FreedStep(m0: Memory, m1: Memory, l: Layout, ring: seq<nat>)
    requires SameInside(m0, m1, l)
    requires forall w {:trigger Read(m1, w)} :: Untouched(l, ring, w) ==> Read(m1, w) == Read(m0, w)
    ensures LargeQuiet(m0, m1, l, ring, 0, 0)
  {
    hide Untouched, OutsideChunks, SameInside;
  }

  lemma NewKeepsLarges(m0: Memory, m1: Memory, owned: map<int, nat>, heap: nat, ring: seq<nat>, cached: nat,
                       cachedSize: nat, foreign: set<int>, others: set<int>, l: Layout, s: nat, n: nat)
    requires SysOk(m0, owned, heap, ring, cached, cachedSize, foreign, others, l)
    requires LargeQuiet(m0, m1, l, ring, s, n) && (n == 0 || (s in owned && owned[s] == n && s !in foreign))
    ensures LargesKept(m0, m1, owned, foreign, NONE)
  {
    hide SysOk, Read, Untouched, SameInside;
    forall r, w | r in foreign && r in owned && RegionWord(owned, r, w) ensures Read(m1, w) == Read(m0, w) {
      LargeUntouched(m0, owned, heap, ring, cached, cachedSize, foreign, others, l, r, w);
      if n != 0 {
        OwnedApart(m0, owned, heap, ring, cached, cachedSize, foreign, others, l, r, s);
      }
    }
  }

  lemma OwnedApart(mem: Memory, owned: map<int, nat>, heap: nat, ring: seq<nat>, cached: nat, cachedSize: nat,
                   foreign: set<int>, others: set<int>, l: Layout, r: int, s: int)
    requires SysOk(mem, owned, heap, ring, cached, cachedSize, foreign, others, l)
    requires r in owned && s in owned && r != s
    ensures r + owned[r] <= s || s + owned[s] <= r
  {
    hide Ring.RingOk;
    assert RegionPair(owned, r, s);
  }

  lemma LargesGrow(m0: Memory, m1: Memory, owned: map<int, nat>, heap: nat, align: nat, foreign: set<int>,
                   larges: Larges, bare: Bare, s: nat, p: nat)
    requires LargesOk(m0, owned, heap, align, foreign, larges, bare) && LargesKept(m0, m1, owned, foreign, NONE)
    requires s !in foreign && s in owned && s + OVERHEAD <= p < s + owned[s] && align > 0 && p % align == 0
    ensures s !in larges
    ensures LargesOk(m1, owned, heap, align, foreign + {s as int}, larges[s as int := p], bare[p as int := s])
  {
    hide Read, Type;
    OwnersForeign(m0, owned, heap, align, foreign, larges, bare);
    var larges', bare' := larges[s as int := p], bare[p as int := s];
    forall r | r in larges' ensures LargeFine(m1, owned, heap, align, bare', r, larges'[r]) {
      if r != s {
        assert LargeFine(m0, owned, heap, align, bare, r, larges[r]);
        LargeStaysFine(m0, m1, owned, owned, heap, align, foreign, larges, bare, r, NONE);
      }
    }
  }

  lemma LargesShrink(m0: Memory, m1: Memory, owned: map<int, nat>, heap: nat, align: nat, foreign: set<int>,
                     larges: Larges, bare: Bare, s: int)
    requires LargesOk(m0, owned, heap, align, foreign, larges, bare) && LargesKept(m0, m1, owned, foreign, NONE)
    requires s in larges ==> larges[s] !in bare
    ensures LargesOk(m1, owned, heap, align, foreign - {s}, larges - {s}, bare)
  {
    hide Read, Type;
    forall r | r in larges - {s} ensures LargeFine(m1, owned, heap, align, bare, r, (larges - {s})[r]) {
      assert LargeFine(m0, owned, heap, align, bare, r, larges[r]);
      LargeStaysFine(m0, m1, owned, owned, heap, align, foreign, larges, bare, r, NONE);
    }
  }

  lemma HeaderReads(mem: Memory, owned: map<int, nat>, heap: nat, align: nat, foreign: set<int>, larges: Larges,
                    bare: Bare, s: int)
    requires LargesOk(mem, owned, heap, align, foreign, larges, bare) && s in larges && s > 0
    requires larges[s] !in bare
    ensures s in foreign && s in owned && s + OVERHEAD <= larges[s] <= s + owned[s]
    ensures Read(mem, larges[s] - 32) == s && Read(mem, larges[s] - 24) == s + owned[s] - larges[s]
  {
    hide Read, Type;
    assert LargeFine(mem, owned, heap, align, bare, s, larges[s]);
  }
}
