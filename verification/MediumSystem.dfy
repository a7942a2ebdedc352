/** How the medium allocator accounts for system allocations: all are on a sentinel-headed ring through their
    first words, except the one cached chunk. */
module MediumSystem {
  import opened Bits
  import opened Memory
  import opened Words
  import opened Blocks
  import opened Tags
  import opened MediumSteps
  import opened MediumMoves
  import opened MediumFrames
  import opened SystemMemory
  import Ring

  const SYS_LINKS: Ring.Links := Ring.Links(16, 8)
  const MAGIC_MEDIUM: nat := 0xface_fac1
  const MAGIC_LARGE: nat := 0xface_0ff5
  const SENTINEL: nat := 312           // offset of the system list's sentinel in the heap structure
  const HEAP_BYTES: nat := 3952        // size of the heap structure
  const MAX_CHUNK: nat := 0x20_0000

  function Members(ring: seq<nat>): set<int> {
    set i | 1 <= i < |ring| :: ring[i] as int
  }

  ghost predicate RegionPair(owned: map<int, nat>, r: int, s: int)
    requires r in owned && s in owned
  {
    r + owned[r] <= s || s + owned[s] <= r
  }

  ghost predicate RegionsDisjoint(owned: map<int, nat>) {
    forall r, s {:trigger RegionPair(owned, r, s)} :: r in owned && s in owned && r != s ==> RegionPair(owned, r, s)
  }

  ghost predicate ChunkSys(l: Layout, r: int) {
    exists c :: c in l.chunks && l.chunks[c].sys == r
  }

  /** A chunk's system allocation is on the list, is not a caller's, and carries the medium mark. */
  ghost predicate ChunkOwned(mem: Memory, owned: map<int, nat>, ring: seq<nat>, foreign: set<int>, l: Layout, c: int)
    requires c in l.chunks
  {
    var k := l.chunks[c];
    k.sys in Members(ring) && k.sys !in foreign && k.sys in owned && owned[k.sys] == k.bytes && k.bytes <= MAX_CHUNK
    && Read(mem, k.sys) == MAGIC_MEDIUM
  }

  function Cached(cached: nat): set<int> {
    if cached != 0 then {cached} else {}
  }

  /** Everything obtained and not returned is the heap structure, on the list, the cached chunk, or `pending`;
      what is on the list is a chunk or was put there by another layer (`foreign`). */
  ghost predicate SysOk(mem: Memory, owned: map<int, nat>, heap: nat, ring: seq<nat>, cached: nat, cachedSize: nat,
                        foreign: set<int>, pending: set<int>, l: Layout) {
    && |ring| > 0 && Ring.RingOk(mem, SYS_LINKS, ring) && ring[0] == heap + SENTINEL
    && heap in owned && owned[heap] >= HEAP_BYTES && heap > 0
    && RegionsDisjoint(owned)
    && (forall r {:trigger owned[r]} :: r in owned ==> r > 0 && owned[r] >= SYSTEM_HEADER)
    && owned.Keys == {heap as int} + Members(ring) + Cached(cached) + pending
    && heap !in Members(ring) && heap !in pending && heap != cached
    && Members(ring) !! Cached(cached) && Members(ring) !! pending && Cached(cached) !! pending
    && (if cached == 0 then cachedSize == 0 else cachedSize == owned[cached] <= MAX_CHUNK)
    && foreign <= Members(ring)
    && (forall r :: r in foreign ==> Read(mem, r) == MAGIC_LARGE)
    && (forall r :: r in Members(ring) && r !in foreign ==> ChunkSys(l, r))
    && (forall c {:trigger ChunkOwned(mem, owned, ring, foreign, l, c)} :: c in l.chunks ==>
        ChunkOwned(mem, owned, ring, foreign, l, c))
  }

  /** Words neither in a chunk nor among a listed allocation's mark and links. */
  ghost predicate Untouched(l: Layout, ring: seq<nat>, w: int) {
    OutsideChunks(l, w) && forall i {:trigger ring[i]} :: 0 <= i < |ring| ==> w < ring[i] || w >= ring[i] + LIST_WORDS
  }

  /** List words of a member or the sentinel lie outside all chunks. */
  lemma RingWordOutside(mem: Memory, owned: map<int, nat>, heap: nat, ring: seq<nat>, cached: nat, cachedSize: nat,
                        foreign: set<int>, pending: set<int>, l: Layout, i: nat, w: int)
    requires SysOk(mem, owned, heap, ring, cached, cachedSize, foreign, pending, l)
    requires i < |ring| && ring[i] <= w < ring[i] + LIST_WORDS
    ensures OutsideChunks(l, w)
  {
    hide Ring.RingOk;
    assert i > 0 ==> ring[i] as int in Members(ring);
    forall c | c in l.chunks ensures OutsideChunk(l, c, w) {
      assert ChunkOwned(mem, owned, ring, foreign, l, c);
      var s := l.chunks[c].sys;
      if i == 0 {
        assert RegionPair(owned, heap, s);
      } else if ring[i] != s {
        assert RegionPair(owned, ring[i], s);
      }
    }
  }

  /** A pending allocation is clear of the list and of every chunk. */
  lemma PendingFresh(mem: Memory, owned: map<int, nat>, heap: nat, ring: seq<nat>, cached: nat, cachedSize: nat,
                     foreign: set<int>, pending: set<int>, l: Layout, s: nat, tail: int)
    requires SysOk(mem, owned, heap, ring, cached, cachedSize, foreign, pending, l) && s in pending
    ensures s in owned && Ring.AwayFrom(ring, s)
    ensures FreshRegion(l, Chunk(s, owned[s], tail))
    ensures OutsideRange(l, s, s + owned[s])
  {
    hide Ring.RingOk;
    assert s in owned.Keys;
    forall i | 0 <= i < |ring| ensures Ring.Apart(ring[i], s) {
      assert i > 0 ==> ring[i] as int in Members(ring);
      if i == 0 {
        assert RegionPair(owned, heap, s);
      } else {
        assert ring[i] as int in owned.Keys;
        assert RegionPair(owned, ring[i], s);
      }
    }
    forall c | c in l.chunks ensures s + owned[s] <= l.chunks[c].sys || l.chunks[c].sys + l.chunks[c].bytes <= s {
      assert ChunkOwned(mem, owned, ring, foreign, l, c);
      assert RegionPair(owned, l.chunks[c].sys, s);
    }
    forall c | c in l.chunks ensures RegionOf(l, c, Chunk(s, owned[s], tail)) {
    }
  }

  ghost predicate OutsideRange(l: Layout, lo: int, hi: int) {
    forall w {:trigger OutsideChunks(l, w)} :: lo <= w < hi ==> OutsideChunks(l, w)
  }

  // ---- how the accounting moves ----

  /** List words of all members unchanged. */
  ghost predicate ListWordsKept(mem: Memory, mem': Memory, ring: seq<nat>) {
    forall i, w {:trigger Read(mem', w), ring[i]} ::
      0 <= i < |ring| && ring[i] <= w < ring[i] + LIST_WORDS ==> Read(mem', w) == Read(mem, w)
  }

  lemma KeptRing(mem: Memory, mem': Memory, ring: seq<nat>)
    requires Ring.RingOk(mem, SYS_LINKS, ring) && ListWordsKept(mem, mem', ring)
    ensures Ring.RingOk(mem', SYS_LINKS, ring)
  {
    hide Ring.Spaced;
    forall i: nat | i < |ring| ensures Ring.NodeOk(mem', SYS_LINKS, ring, i) {
      assert Ring.NodeOk(mem, SYS_LINKS, ring, i);
    }
  }

  /** Changes away from the list words, with the same chunks, keep the accounting. */
  lemma SysFrame(mem: Memory, mem': Memory, owned: map<int, nat>, heap: nat, ring: seq<nat>, cached: nat,
                 cachedSize: nat, foreign: set<int>, pending: set<int>, l: Layout, l': Layout)
    requires SysOk(mem, owned, heap, ring, cached, cachedSize, foreign, pending, l)
    requires ListWordsKept(mem, mem', ring) && l'.chunks == l.chunks
    ensures SysOk(mem', owned, heap, ring, cached, cachedSize, foreign, pending, l')
  {
    hide Ring.RingOk;
    KeptRing(mem, mem', ring);
    forall c | c in l'.chunks ensures ChunkOwned(mem', owned, ring, foreign, l', c) {
      assert ChunkOwned(mem, owned, ring, foreign, l, c);
    }
    forall r | r in Members(ring) && r !in foreign ensures ChunkSys(l', r) {
      assert ChunkSys(l, r);
    }
  }

  /** In particular every change confined to chunks does. */
  lemma SysFrameChunks(mem: Memory, mem': Memory, owned: map<int, nat>, heap: nat, ring: seq<nat>, cached: nat,
                       cachedSize: nat, foreign: set<int>, pending: set<int>, l: Layout)
    requires SysOk(mem, owned, heap, ring, cached, cachedSize, foreign, pending, l)
    requires forall w {:trigger Read(mem', w)} :: OutsideChunks(l, w) ==> Read(mem', w) == Read(mem, w)
    ensures ListWordsKept(mem, mem', ring)
  {
    hide SysOk, OutsideChunks, Read;
    forall i: int, w | 0 <= i < |ring| && ring[i] <= w < ring[i] + LIST_WORDS ensures Read(mem', w) == Read(mem, w) {
      RingWordOutside(mem, owned, heap, ring, cached, cachedSize, foreign, pending, l, i, w);
    }
  }

  /** Link a node: the writes of stbm__system_alloc_link. */
  function ListMem(mem: Memory, ring: seq<nat>, s: nat, magic: nat): Memory
    requires |ring| > 0
  {
    Write(Ring.LinkMem(mem, SYS_LINKS, ring[0], s), s, magic)
  }

  lemma MembersInserted(ring: seq<nat>, s: nat)
    requires |ring| > 0
    ensures Members(Ring.Inserted(ring, s)) == Members(ring) + {s as int}
  {
    var ring' := Ring.Inserted(ring, s);
    forall r | r in Members(ring) + {s as int} ensures r in Members(ring') {
      if r == s {
        assert ring'[1] == s;
      } else {
        var i :| 1 <= i < |ring| && ring[i] as int == r;
        assert ring'[i + 1] == ring[i];
      }
    }
  }

  lemma MembersRemoved(ring: seq<nat>, at: nat)
    requires 0 < at < |ring| && Ring.Spaced(ring)
    ensures Members(Ring.Removed(ring, at)) == Members(ring) - {ring[at] as int}
  {
    var ring' := Ring.Removed(ring, at);
    forall r | r in Members(ring) && r != ring[at] ensures r in Members(ring') {
      var i :| 1 <= i < |ring| && ring[i] as int == r;
      assert ring'[if i < at then i else i - 1] == ring[i];
    }
    forall r | r in Members(ring') ensures r in Members(ring) && r != ring[at] {
      var i :| 1 <= i < |ring'| && ring'[i] as int == r;
      var j := if i < at then i else i + 1;
      assert ring[j] == ring'[i];
      assert j < at ==> Ring.Apart(ring[j], ring[at]);
      assert at < j ==> Ring.Apart(ring[at], ring[j]);
    }
  }

  /** Linking keeps the ring, sets the mark, and touches only list words. */
  lemma ListMemOk(mem: Memory, ring: seq<nat>, s: nat, magic: nat)
    requires Ring.RingOk(mem, SYS_LINKS, ring) && Ring.AwayFrom(ring, s)
    ensures var mem' := ListMem(mem, ring, s, magic);
      && Ring.RingOk(mem', SYS_LINKS, Ring.Inserted(ring, s))
      && Read(mem', s) == magic
      && (forall i :: 0 <= i < |ring| ==> Read(mem', ring[i]) == Read(mem, ring[i]))
  {
    hide Read, Ring.LinkMem;
    Ring.InsertOk(mem, SYS_LINKS, ring, s);
    var m1 := Ring.LinkMem(mem, SYS_LINKS, ring[0], s);
    var ring' := Ring.Inserted(ring, s);
    forall i: nat | i < |ring'| ensures Ring.NodeOk(Write(m1, s, magic), SYS_LINKS, ring', i) {
      assert Ring.NodeOk(m1, SYS_LINKS, ring', i);
      if i != 1 {
        var j := if i == 0 then 0 else i - 1;
        assert ring'[i] == ring[j] && Ring.Apart(ring[j], s);
      }
    }
    forall i: nat | i < |ring| ensures Read(Write(m1, s, magic), ring[i]) == Read(mem, ring[i]) {
      assert Ring.Apart(ring[i], s);
      forall j: nat | j < |ring| ensures ring[i] != ring[j] + 16 && ring[i] != ring[j] + 8 {
        if i != j {
          Ring.MembersApart(SYS_LINKS, ring, i, j);
          assert i < j ==> Ring.Apart(ring[i], ring[j]);
          assert j < i ==> Ring.Apart(ring[j], ring[i]);
        }
      }
      Ring.LinkFrame(mem, SYS_LINKS, ring, s, ring[i]);
    }
  }

  lemma ListMemFrame(mem: Memory, ring: seq<nat>, s: nat, magic: nat, w: int)
    requires Ring.RingOk(mem, SYS_LINKS, ring)
    requires w < s || w >= s + LIST_WORDS
    requires forall i {:trigger ring[i]} :: 0 <= i < |ring| ==> w < ring[i] || w >= ring[i] + LIST_WORDS
    ensures Read(ListMem(mem, ring, s, magic), w) == Read(mem, w)
  {
    hide Read, Ring.LinkMem;
    forall i: nat | i < |ring| ensures w != ring[i] + 16 && w != ring[i] + 8 {
      assert w < ring[i] || w >= ring[i] + LIST_WORDS;
    }
    Ring.LinkFrame(mem, SYS_LINKS, ring, s, w);
  }

  lemma UnlistMemOk(mem: Memory, ring: seq<nat>, at: nat)
    requires Ring.RingOk(mem, SYS_LINKS, ring) && 0 < at < |ring|
    ensures var mem' := Ring.UnlinkMem(mem, SYS_LINKS, ring[at]);
      && Ring.RingOk(mem', SYS_LINKS, Ring.Removed(ring, at))
      && (forall i :: 0 <= i < |ring| ==> Read(mem', ring[i]) == Read(mem, ring[i]))
  {
    hide Read, Ring.UnlinkMem;
    Ring.RemoveOk(mem, SYS_LINKS, ring, at);
    forall i: nat | i < |ring| ensures Read(Ring.UnlinkMem(mem, SYS_LINKS, ring[at]), ring[i]) == Read(mem, ring[i]) {
      forall j: nat | j < |ring| ensures ring[i] != ring[j] + 16 && ring[i] != ring[j] + 8 {
        if i != j {
          assert i < j ==> Ring.Apart(ring[i], ring[j]);
          assert j < i ==> Ring.Apart(ring[j], ring[i]);
        }
      }
      Ring.UnlinkFrame(mem, SYS_LINKS, ring, at, ring[i]);
    }
  }

  lemma UnlistFrame(mem: Memory, ring: seq<nat>, at: nat, w: int)
    requires Ring.RingOk(mem, SYS_LINKS, ring) && at < |ring|
    requires forall i {:trigger ring[i]} :: 0 <= i < |ring| ==> w < ring[i] || w >= ring[i] + LIST_WORDS
    ensures Read(Ring.UnlinkMem(mem, SYS_LINKS, ring[at]), w) == Read(mem, w)
  {
    hide Read, Ring.UnlinkMem;
    forall i: nat | i < |ring| ensures w != ring[i] + 16 && w != ring[i] + 8 {
      assert w < ring[i] || w >= ring[i] + LIST_WORDS;
    }
    Ring.UnlinkFrame(mem, SYS_LINKS, ring, at, w);
  }

  /** A pending allocation goes on the list, as a new chunk or for another layer. */
  lemma SysList(mem: Memory, owned: map<int, nat>, heap: nat, ring: seq<nat>, cached: nat, cachedSize: nat,
                foreign: set<int>, pending: set<int>, l: Layout, l': Layout, s: nat, magic: nat, foreign': set<int>)
    requires SysOk(mem, owned, heap, ring, cached, cachedSize, foreign, pending, l) && s in pending
    requires (l'.chunks == l.chunks && foreign' == foreign + {s as int} && magic == MAGIC_LARGE)
          || (foreign' == foreign && magic == MAGIC_MEDIUM && ChunkSys(l', s)
              && (forall c :: c in l.chunks ==> c in l'.chunks && l'.chunks[c] == l.chunks[c])
              && (forall c :: c in l'.chunks && c !in l.chunks ==>
                    l'.chunks[c].sys == s && s in owned && l'.chunks[c].bytes == owned[s] <= MAX_CHUNK))
    ensures SysOk(ListMem(mem, ring, s, magic), owned, heap, Ring.Inserted(ring, s), cached, cachedSize, foreign',
                  pending - {s as int}, l')
  {
    hide Ring.RingOk, ListMem, Ring.Inserted;
    PendingFresh(mem, owned, heap, ring, cached, cachedSize, foreign, pending, l, s, 0);
    ListMemOk(mem, ring, s, magic);
    MembersInserted(ring, s);
    var mem' := ListMem(mem, ring, s, magic);
    var ring' := Ring.Inserted(ring, s);
    assert ring'[0] == ring[0] by { InsertedHead(ring, s); }
    forall c | c in l'.chunks ensures ChunkOwned(mem', owned, ring', foreign', l', c) {
      if c in l.chunks {
        assert ChunkOwned(mem, owned, ring, foreign, l, c);
        var i :| 1 <= i < |ring| && ring[i] as int == l.chunks[c].sys;
        assert Read(mem', ring[i]) == Read(mem, ring[i]);
      }
    }
    forall r | r in Members(ring') && r !in foreign' ensures ChunkSys(l', r) {
      if r in Members(ring) {
        assert ChunkSys(l, r);
        var c :| c in l.chunks && l.chunks[c].sys == r;
        assert c in l'.chunks && l'.chunks[c].sys == r;
      }
    }
  }

  lemma InsertedHead(ring: seq<nat>, s: nat)
    requires |ring| > 0
    ensures |Ring.Inserted(ring, s)| > 0 && Ring.Inserted(ring, s)[0] == ring[0]
  {
  }

  /** A listed allocation comes off: a dropped chunk, or another layer's. */
  lemma SysUnlist(mem: Memory, owned: map<int, nat>, heap: nat, ring: seq<nat>, cached: nat, cachedSize: nat,
                  foreign: set<int>, pending: set<int>, l: Layout, l': Layout, at: nat)
    requires SysOk(mem, owned, heap, ring, cached, cachedSize, foreign, pending, l) && 0 < at < |ring|
    requires forall c :: c in l'.chunks <==> c in l.chunks && l.chunks[c].sys != ring[at]
    requires forall c :: c in l'.chunks ==> l'.chunks[c] == l.chunks[c]
    ensures SysOk(Ring.UnlinkMem(mem, SYS_LINKS, ring[at]), owned, heap, Ring.Removed(ring, at), cached, cachedSize,
                  foreign - {ring[at] as int}, pending + {ring[at] as int}, l')
  {
    hide Ring.RingOk, Ring.UnlinkMem, Ring.Removed;
    var s := ring[at];
    assert Ring.Spaced(ring) by { RingSpaced(mem, ring); }
    UnlistMemOk(mem, ring, at);
    MembersRemoved(ring, at);
    assert s as int in Members(ring);
    var mem' := Ring.UnlinkMem(mem, SYS_LINKS, s);
    var ring' := Ring.Removed(ring, at);
    RemovedHead(ring, at);
    forall c | c in l'.chunks ensures ChunkOwned(mem', owned, ring', foreign - {s as int}, l', c) {
      assert ChunkOwned(mem, owned, ring, foreign, l, c);
      var i :| 1 <= i < |ring| && ring[i] as int == l.chunks[c].sys;
      assert Read(mem', ring[i]) == Read(mem, ring[i]);
    }
    forall r | r in Members(ring') && r !in foreign - {s as int} ensures ChunkSys(l', r) {
      assert ChunkSys(l, r);
      var c :| c in l.chunks && l.chunks[c].sys == r;
      assert c in l'.chunks;
    }
  }

  lemma RingSpaced(mem: Memory, ring: seq<nat>)
    requires Ring.RingOk(mem, SYS_LINKS, ring)
    ensures Ring.Spaced(ring)
  {
  }

  lemma RemovedHead(ring: seq<nat>, at: nat)
    requires 0 < at < |ring|
    ensures |Ring.Removed(ring, at)| > 0 && Ring.Removed(ring, at)[0] == ring[0]
  {
  }

  /** A newly granted region becomes pending. */
  lemma SysGrant(mem: Memory, owned: map<int, nat>, heap: nat, ring: seq<nat>, cached: nat, cachedSize: nat,
                 foreign: set<int>, pending: set<int>, l: Layout, s: nat, n: nat)
    requires SysOk(mem, owned, heap, ring, cached, cachedSize, foreign, pending, l)
    requires s > 0 && n >= SYSTEM_HEADER && Clear(owned, s, n)
    ensures s !in owned && s !in pending
    ensures SysOk(mem, owned[s as int := n], heap, ring, cached, cachedSize, foreign, pending + {s as int}, l)
  {
    hide Ring.RingOk;
    var owned' := owned[s as int := n];
    forall r, t | r in owned' && t in owned' && r != t ensures RegionPair(owned', r, t) {
      if r in owned && t in owned {
        assert RegionPair(owned, r, t);
      }
    }
    forall c | c in l.chunks ensures ChunkOwned(mem, owned', ring, foreign, l, c) {
      assert ChunkOwned(mem, owned, ring, foreign, l, c);
    }
  }

  /** A pending region goes back to the system. */
  lemma SysReturn(mem: Memory, owned: map<int, nat>, heap: nat, ring: seq<nat>, cached: nat, cachedSize: nat,
                  foreign: set<int>, pending: set<int>, l: Layout, s: nat)
    requires SysOk(mem, owned, heap, ring, cached, cachedSize, foreign, pending, l) && s in pending
    ensures SysOk(mem, owned - {s as int}, heap, ring, cached, cachedSize, foreign, pending - {s as int}, l)
  {
    hide Ring.RingOk;
    var owned' := owned - {s as int};
    forall r, t | r in owned' && t in owned' && r != t ensures RegionPair(owned', r, t) {
      assert RegionPair(owned, r, t);
    }
    forall c | c in l.chunks ensures ChunkOwned(mem, owned', ring, foreign, l, c) {
      assert ChunkOwned(mem, owned, ring, foreign, l, c);
    }
  }

  /** The cached chunk is taken up again, or a pending chunk becomes the cached one. */
  lemma SysUncache(mem: Memory, owned: map<int, nat>, heap: nat, ring: seq<nat>, cached: nat, cachedSize: nat,
                   foreign: set<int>, pending: set<int>, l: Layout)
    requires SysOk(mem, owned, heap, ring, cached, cachedSize, foreign, pending, l) && cached != 0
    ensures cached !in pending && SysOk(mem, owned, heap, ring, 0, 0, foreign, pending + {cached as int}, l)
  {
    hide Ring.RingOk;
  }

  lemma SysCache(mem: Memory, owned: map<int, nat>, heap: nat, ring: seq<nat>, foreign: set<int>, pending: set<int>,
                 l: Layout, s: nat)
    requires SysOk(mem, owned, heap, ring, 0, 0, foreign, pending, l) && s in pending && s in owned
    requires owned[s] <= MAX_CHUNK
    ensures SysOk(mem, owned, heap, ring, s, owned[s], foreign, pending - {s as int}, l)
  {
    hide Ring.RingOk;
  }

  // ---- what an operation of the medium allocator leaves alone ----

  /** Sizes and user words of these live blocks, and every word that is neither in a chunk nor a list word,
      before or after, are unchanged. */
  ghost predicate Quiet(m0: Memory, m1: Memory, l0: Layout, ring0: seq<nat>, l1: Layout, ring1: seq<nat>,
                        live: set<int>) {
    && LiveKept(m0, m1, l0, l1, live)
    && (forall w {:trigger Read(m1, w)} :: Untouched(l0, ring0, w) && Untouched(l1, ring1, w) ==>
        Read(m1, w) == Read(m0, w))
  }

  ghost predicate LiveKept(m0: Memory, m1: Memory, l0: Layout, l1: Layout, live: set<int>) {
    && (forall a {:trigger UserKept(m0, m1, l1, a)} :: a in live ==> UserKept(m0, m1, l1, a))
    && (forall a {:trigger SameSize(l0, l1, a)} :: a in live ==> SameSize(l0, l1, a))
  }

  lemma QuietLive(m0: Memory, m1: Memory, l0: Layout, ring0: seq<nat>, l1: Layout, ring1: seq<nat>, live: set<int>)
    requires Quiet(m0, m1, l0, ring0, l1, ring1, live)
    ensures LiveKept(m0, m1, l0, l1, live)
  {
    hide LiveKept;
  }

  ghost predicate SameSize(l0: Layout, l1: Layout, a: int) {
    a in l0.size && a in l1.size && l0.size[a] == l1.size[a]
  }

  lemma QuietTrans(m0: Memory, m1: Memory, m2: Memory, l0: Layout, ring0: seq<nat>, l1: Layout, ring1: seq<nat>,
                   l2: Layout, ring2: seq<nat>, live: set<int>)
    requires Quiet(m0, m1, l0, ring0, l1, ring1, live) && Quiet(m1, m2, l1, ring1, l2, ring2, live)
    requires (l0.chunks == l1.chunks && ring0 == ring1) || (l1.chunks == l2.chunks && ring1 == ring2)
    ensures Quiet(m0, m2, l0, ring0, l2, ring2, live)
  {
    hide Read;
    forall a | a in live ensures UserKept(m0, m2, l2, a) && SameSize(l0, l2, a) {
      assert UserKept(m0, m1, l1, a) && UserKept(m1, m2, l2, a);
      assert SameSize(l0, l1, a) && SameSize(l1, l2, a);
      forall w | a + HEADER <= w < a + l2.size[a] ensures Read(m2, w) == Read(m0, w) {
        assert Read(m1, w) == Read(m0, w);
      }
    }
    forall w | Untouched(l0, ring0, w) && Untouched(l2, ring2, w) ensures Read(m2, w) == Read(m0, w) {
      assert Untouched(l1, ring1, w) by { SameView(l0, ring0, l1, ring1, l2, ring2, w); }
      assert Read(m1, w) == Read(m0, w);
    }
  }

  lemma SameView(l0: Layout, ring0: seq<nat>, l1: Layout, ring1: seq<nat>, l2: Layout, ring2: seq<nat>, w: int)
    requires (l0.chunks == l1.chunks && ring0 == ring1) || (l1.chunks == l2.chunks && ring1 == ring2)
    requires Untouched(l0, ring0, w) && Untouched(l2, ring2, w)
    ensures Untouched(l1, ring1, w)
  {
    forall c | c in l1.chunks ensures OutsideChunk(l1, c, w) {
      assert c in l0.chunks ==> OutsideChunk(l0, c, w);
      assert c in l2.chunks ==> OutsideChunk(l2, c, w);
    }
  }

  /** Block-level steps that keep every live block's size are quiet. */
  lemma FrameIsQuiet(m0: Memory, m1: Memory, l0: Layout, l1: Layout, ring: seq<nat>, live: set<int>)
    requires Frame(m0, m1, l1, live) && l0.chunks == l1.chunks
    requires forall a :: a in live ==> SameSize(l0, l1, a)
    ensures Quiet(m0, m1, l0, ring, l1, ring, live)
  {
    hide OutsideChunks, Read, UserKept;
  }

  /** Words inside chunks are untouched by listing and unlisting. */
  lemma ListInside(mem: Memory, owned: map<int, nat>, heap: nat, ring: seq<nat>, cached: nat, cachedSize: nat,
                   foreign: set<int>, pending: set<int>, l: Layout, s: nat, magic: nat, w: int)
    requires SysOk(mem, owned, heap, ring, cached, cachedSize, foreign, pending, l) && s in pending
    requires !OutsideChunks(l, w)
    ensures Read(ListMem(mem, ring, s, magic), w) == Read(mem, w)
  {
    hide ListMem, Read;
    PendingFresh(mem, owned, heap, ring, cached, cachedSize, foreign, pending, l, s, 0);
    forall i: nat | i < |ring| ensures w < ring[i] || w >= ring[i] + LIST_WORDS {
      if ring[i] <= w < ring[i] + LIST_WORDS {
        RingWordOutside(mem, owned, heap, ring, cached, cachedSize, foreign, pending, l, i, w);
      }
    }
    ListMemFrame(mem, ring, s, magic, w);
  }

  lemma UnlistInside(mem: Memory, owned: map<int, nat>, heap: nat, ring: seq<nat>, cached: nat, cachedSize: nat,
                     foreign: set<int>, pending: set<int>, l: Layout, at: nat, w: int)
    requires SysOk(mem, owned, heap, ring, cached, cachedSize, foreign, pending, l) && at < |ring|
    requires !OutsideChunks(l, w)
    ensures Read(Ring.UnlinkMem(mem, SYS_LINKS, ring[at]), w) == Read(mem, w)
  {
    hide Read, Ring.UnlinkMem;
    forall i: nat | i < |ring| ensures w < ring[i] || w >= ring[i] + LIST_WORDS {
      if ring[i] <= w < ring[i] + LIST_WORDS {
        RingWordOutside(mem, owned, heap, ring, cached, cachedSize, foreign, pending, l, i, w);
      }
    }
    UnlistFrame(mem, ring, at, w);
  }
}
