/** Any number of threads in one heap, interleaved at every acquire, release and unlocked call: the lock word, the
    sections of the three allocators and the system calls between them are the concrete ones. */
module Threads {
  import opened Memory
  import opened Bits
  import opened Words
  import opened Blocks
  import opened Tags
  import opened MediumSteps
  import opened MediumSystem
  import opened SmallSteps
  import opened Slab
  import opened Spinning
  import opened SystemMemory
  import opened Tally
  import opened Tlsf
  import opened Small
  import opened Large
  import opened HeapView
  import opened HeapSteps
  import opened Counters
  import opened Heap
  import opened AbstractHeap
  import opened Runs

  /** Why the medium allocator was called: for a caller's request, or for a slab to serve one of so many bytes. */
  datatype Purpose = ForCaller | ForSlab(bytes: nat)

  /** The stretches of code between an acquire and a release, with what the thread has in hand there: a region of the
      system's, a medium block that is to become a slab (Adopt) or was one (Drop), or a caller's pointer to free. */
  datatype Section =
    | SmallFirst(bytes: nat)
    | MediumFirst(size: nat, why: Purpose)
    | MediumAgain(s: nat, region: nat, size: nat, why: Purpose)
    | Adopt(c: nat, bytes: nat)
    | LargeLink(s: nat, size: nat)
    | FreeOf(p: nat)
    | Drop(c: nat)

  /** Where a thread is: outside the heap; at spin_lock's compare-and-swap, or in its read loop; in a section; or,
      without the lock, about to call the system or to write the header of a large allocation just listed. */
  datatype Point =
    | Outside
    | Acquiring(sec: Section) | Spinning(sec: Section) | Inside(sec: Section)
    | AskChunk(bytes: nat, size: nat, why: Purpose) | AskLarge(size: nat) | GiveBack(s: nat)
    | Heading(s: nat, p: nat, userSize: nat, size: nat)

  /** The region in hand. */
  function RegionIn(p: Point): set<int> {
    match p
    case Acquiring(sec) => SectionRegion(sec)
    case Spinning(sec) => SectionRegion(sec)
    case Inside(sec) => SectionRegion(sec)
    case GiveBack(s) => {s as int}
    case _ => {}
  }

  function SectionRegion(sec: Section): set<int> {
    match sec
    case MediumAgain(s, _, _, _) => {s as int}
    case LargeLink(s, _) => {s as int}
    case _ => {}
  }

  /** The allocation in hand. */
  function BlockIn(p: Point): set<int> {
    match p
    case Acquiring(sec) => SectionBlock(sec)
    case Spinning(sec) => SectionBlock(sec)
    case Inside(sec) => SectionBlock(sec)
    case Heading(_, p, _, _) => {p as int}
    case _ => {}
  }

  /** The allocation in hand whose header is still to be written. */
  function BareIn(at: Point): (bare: set<int>)
    ensures bare <= BlockIn(at)
  {
    if at.Heading? then {at.p as int} else {}
  }

  function SectionBlock(sec: Section): set<int> {
    match sec
    case Adopt(c, _) => {c as int}
    case FreeOf(p) => {p as int}
    case Drop(c) => {c as int}
    case _ => {}
  }

  /** Steps that a thread still has to take at most before it is outside again, not counting waits. */
  function Rank(p: Point): nat {
    match p
    case Outside => 0
    case GiveBack(_) => 1
    case Heading(_, _, _, _) => 1
    case Inside(sec) => SectionRank(sec)
    case Acquiring(sec) => SectionRank(sec) + 1
    case Spinning(sec) => SectionRank(sec) + 2
    case AskChunk(_, _, _) => 8
    case AskLarge(_) => 4
  }

  function SectionRank(sec: Section): nat {
    match sec
    case SmallFirst(_) => 11
    case MediumFirst(_, _) => 9
    case MediumAgain(_, _, _, _) => 6
    case Adopt(_, _) => 2
    case LargeLink(_, _) => 2
    case FreeOf(_) => 4
    case Drop(_) => 2
  }

  const NOTHING: int := -1

  /** The request that a thread is serving, unless it is freeing. */
  function Wants(p: Point): int {
    match p
    case Acquiring(sec) => SectionWants(sec)
    case Spinning(sec) => SectionWants(sec)
    case Inside(sec) => SectionWants(sec)
    case AskChunk(_, size, why) => WantedFor(size, why)
    case AskLarge(size) => size
    case Heading(_, _, _, size) => size
    case Outside => NOTHING
    case GiveBack(_) => NOTHING
  }

  function SectionWants(sec: Section): int {
    match sec
    case SmallFirst(bytes) => bytes
    case MediumFirst(size, why) => WantedFor(size, why)
    case MediumAgain(_, _, size, why) => WantedFor(size, why)
    case Adopt(_, bytes) => bytes
    case LargeLink(_, size) => size
    case FreeOf(_) => NOTHING
    case Drop(_) => NOTHING
  }

  function WantedFor(size: nat, why: Purpose): nat {
    match why
    case ForCaller => size
    case ForSlab(bytes) => bytes
  }

  /** t1 is t0 and one event more, which answers op. */
  predicate OneAnswer(op: Op, t0: seq<Event>, t1: seq<Event>) {
    |t1| == |t0| + 1 && t1 == t0 + [t1[|t0|]] && Answers(Replay(t0), op, t1[|t0|])
  }

  /** A thread inside the heap goes on with its request until it leaves with the answer; nothing else is recorded. The
      answer is a refusal exactly if the system refused memory in that step. */
  predicate Continued(at: Point, after: Point, t0: seq<Event>, t1: seq<Event>, refusals: int) {
    if Wants(at) >= 0 && after == Outside then
      && |t1| == |t0| + 1 && t1 == t0 + [t1[|t0|]]
      && (t1[|t0|].Granted? || t1[|t0|].Refused?) && t1[|t0|].size == Wants(at)
      && refusals == if t1[|t0|].Refused? then 1 else 0
    else
      t1 == t0 && Wants(after) == Wants(at) && refusals == 0
  }

  lemma GoesOn(at: Point, after: Point, trace: seq<Event>)
    requires Wants(after) == Wants(at) && (after == Outside ==> Wants(at) < 0)
    ensures Continued(at, after, trace, trace, 0)
  {
  }

  lemma Leaves(at: Point, trace: seq<Event>, e: Event)
    requires (e.Granted? || e.Refused?) && e.size == Wants(at)
    ensures Continued(at, Outside, trace, trace + [e], if e.Refused? then 1 else 0)
  {
    assert (trace + [e])[|trace|] == e;
  }

  lemma AnsweredAtOnce(op: Op, trace: seq<Event>, e: Event)
    requires Answers(Replay(trace), op, e)
    ensures OneAnswer(op, trace, trace + [e])
  {
    assert (trace + [e])[|trace|] == e;
  }

  /** What a step adds to the history: a release or a store is answered at once, a request when the thread leaves. */
  predicate Recorded(at: Point, after: Point, op: Op, t0: seq<Event>, t1: seq<Event>, refusals: int) {
    if at != Outside then Continued(at, after, t0, t1, refusals)
    else if op.Request? && op.size < REQUEST_LIMIT then t1 == t0 && Wants(after) == op.size && refusals == 0
    else Wants(after) == NOTHING && OneAnswer(op, t0, t1) && refusals == 0
  }

  predicate MediumFor(size: nat, why: Purpose) {
    && 0 < size < LARGE_THRESHOLD && (why.ForCaller? ==> size > SMALLEST_ALLOCATION)
    && (why.ForSlab? ==> size == CHUNK_SIZE && why.bytes <= SMALLEST_ALLOCATION)
  }

  /** What is in hand is what the thread takes it for. */
  ghost predicate SectionOk(sec: Section, s: Snapshot, live: map<int, int>, align: nat) {
    match sec
    case SmallFirst(bytes) => bytes <= SMALLEST_ALLOCATION
    case MediumFirst(size, why) => MediumFor(size, why)
    case MediumAgain(r, region, size, why) => MediumFor(size, why) && r in s.owned && s.owned[r] == region
        && RoomFor(size, align, region)
    case Adopt(c, bytes) => c in live && UserBlock(s, c) && live[c] >= CHUNK_SIZE && c % 16 == 0
        && bytes <= SMALLEST_ALLOCATION
    case LargeLink(r, size) => align > 0 && LARGE_THRESHOLD <= size < REQUEST_LIMIT && r in s.owned
        && s.owned[r] == OVERHEAD + (align - 1) + size
    case FreeOf(p) => p in live
    case Drop(c) => c in live && UserBlock(s, c)
  }

  ghost predicate PointOk(p: Point, s: Snapshot, live: map<int, int>, align: nat) {
    match p
    case Acquiring(sec) => SectionOk(sec, s, live, align)
    case Spinning(sec) => SectionOk(sec, s, live, align)
    case Inside(sec) => SectionOk(sec, s, live, align)
    case AskChunk(bytes, size, why) => MediumFor(size, why) && RoomFor(size, align, bytes)
    case AskLarge(size) => LARGE_THRESHOLD <= size < REQUEST_LIMIT
    case Heading(r, p, userSize, size) => p in s.bare && s.bare[p] == r && p in live && live[p] == userSize >= size
        && size >= LARGE_THRESHOLD && userSize < size + align && align > 0 && p % align == 0 && p % 16 == 0
    case _ => true
  }

  ghost function Regions(points: seq<Point>): set<int> {
    set t, r | 0 <= t < |points| && r in RegionIn(points[t]) :: r
  }

  ghost function BlocksOf(points: seq<Point>): set<int> {
    set t, b | 0 <= t < |points| && b in BlockIn(points[t]) :: b
  }

  ghost function Bares(points: seq<Point>): set<int> {
    set t, b | 0 <= t < |points| && b in BareIn(points[t]) :: b
  }

  ghost predicate HandsApart(points: seq<Point>, t: nat, u: nat)
    requires t < |points| && u < |points|
  {
    RegionIn(points[t]) !! RegionIn(points[u]) && BlockIn(points[t]) !! BlockIn(points[u])
  }

  /** Each thread's hand is its own, and holds what it should; the regions that are neither listed nor cached are
      exactly those in hand; the live allocations are the callers' and those in hand; and only one in hand can still
      lack its header. */
  ghost predicate Hands(points: seq<Point>, s: Snapshot, live: map<int, int>, callers: map<int, int>, align: nat) {
    && (forall t {:trigger points[t]} :: 0 <= t < |points| ==> PointOk(points[t], s, live, align))
    && (forall t, u {:trigger HandsApart(points, t, u)} :: 0 <= t < |points| && 0 <= u < |points| && t != u ==>
        HandsApart(points, t, u))
    && s.others == Regions(points) && s.bare.Keys <= Bares(points)
    && live.Keys == callers.Keys + BlocksOf(points) && callers.Keys !! BlocksOf(points)
    && (forall p {:trigger p in callers} :: p in callers ==> live[p] == callers[p])
  }

  /** Exactly the thread that has the lock is inside a section. */
  ghost predicate LockOk(points: seq<Point>, holder: int) {
    && holder < |points|
    && forall t {:trigger points[t]} :: 0 <= t < |points| ==> (points[t].Inside? <==> t == holder)
  }

  // ---- one thread's hand changes ----

  lemma InHands(points: seq<Point>, t: nat)
    requires t < |points|
    ensures RegionIn(points[t]) <= Regions(points) && BlockIn(points[t]) <= BlocksOf(points)
  {
    hide RegionIn, BlockIn;
    forall r | r in RegionIn(points[t]) ensures r in Regions(points) {
      assert r in RegionIn(points[t]);
    }
    forall b | b in BlockIn(points[t]) ensures b in BlocksOf(points) {
      assert b in BlockIn(points[t]);
    }
  }

  lemma HandSets(points: seq<Point>, t: nat, q: Point)
    requires t < |points|
    requires forall a, b {:trigger HandsApart(points, a, b)} :: 0 <= a < |points| && 0 <= b < |points| && a != b ==>
      HandsApart(points, a, b)
    ensures Regions(points[t := q]) == Regions(points) - RegionIn(points[t]) + RegionIn(q)
    ensures BlocksOf(points[t := q]) == BlocksOf(points) - BlockIn(points[t]) + BlockIn(q)
    ensures RegionIn(points[t]) <= Regions(points) && BlockIn(points[t]) <= BlocksOf(points)
    ensures Bares(points) - BareIn(points[t]) + BareIn(q) <= Bares(points[t := q])
  {
    hide RegionIn, BlockIn, BareIn;
    InHands(points, t);
    var after := points[t := q];
    forall b | b in Bares(points) - BareIn(points[t]) + BareIn(q) ensures b in Bares(after) {
      if b in BareIn(q) {
        assert b in BareIn(after[t]);
      } else {
        var u :| 0 <= u < |points| && b in BareIn(points[u]);
        assert b in BareIn(after[u]);
      }
    }
    forall r ensures r in Regions(after) <==> r in Regions(points) - RegionIn(points[t]) + RegionIn(q) {
      if r in Regions(after) {
        var u :| 0 <= u < |after| && r in RegionIn(after[u]);
        if u != t {
          assert HandsApart(points, u, t) && r in RegionIn(points[u]);
        }
      }
      if r in Regions(points) && r !in RegionIn(points[t]) {
        var u :| 0 <= u < |points| && r in RegionIn(points[u]);
        assert r in RegionIn(after[u]);
      }
      if r in RegionIn(q) {
        assert r in RegionIn(after[t]);
      }
    }
    forall b ensures b in BlocksOf(after) <==> b in BlocksOf(points) - BlockIn(points[t]) + BlockIn(q) {
      if b in BlocksOf(after) {
        var u :| 0 <= u < |after| && b in BlockIn(after[u]);
        if u != t {
          assert HandsApart(points, u, t) && b in BlockIn(points[u]);
        }
      }
      if b in BlocksOf(points) && b !in BlockIn(points[t]) {
        var u :| 0 <= u < |points| && b in BlockIn(points[u]);
        assert b in BlockIn(after[u]);
      }
      if b in BlockIn(q) {
        assert b in BlockIn(after[t]);
      }
    }
  }

  /** Headers are written only by the thread that has the allocation, and only it can add one without. */
  ghost predicate BareMoved(bare0: map<int, int>, bare1: map<int, int>, mine: set<int>, next: set<int>) {
    && bare1.Keys <= bare0.Keys - mine + next
    && forall b {:trigger b in bare0} :: b in bare0 && b !in mine ==> b in bare1 && bare1[b] == bare0[b]
  }

  /** An allocation that is not in hand, or in hand for another purpose, has its header. */
  lemma Headed(points: seq<Point>, s: Snapshot, live: map<int, int>, callers: map<int, int>, align: nat, t: nat, p: int)
    requires Hands(points, s, live, callers, align) && t < |points| && BareIn(points[t]) == {}
    requires p in callers || p in BlockIn(points[t])
    ensures p !in s.bare
  {
    hide PointOk, RegionIn, BlockIn, BareIn;
    forall u | 0 <= u < |points| ensures p !in BareIn(points[u]) {
      InHands(points, u);
      assert u == t || HandsApart(points, t, u);
    }
    assert p !in Bares(points);
  }

  /** What another thread has in hand is still what it takes it for. */
  lemma HandStays(p: Point, s0: Snapshot, s1: Snapshot, live0: map<int, int>, live1: map<int, int>, align: nat)
    requires PointOk(p, s0, live0, align) && KindsStay(live0, s0, live1, s1)
    requires forall r :: r in RegionIn(p) ==> r in s0.owned && r in s1.owned && s1.owned[r] == s0.owned[r]
    requires forall b :: b in BlockIn(p) ==> b in live0 && b in live1 && live1[b] == live0[b]
    requires forall b :: b in BareIn(p) && b in s0.bare ==> b in s1.bare && s1.bare[b] == s0.bare[b]
    ensures PointOk(p, s1, live1, align)
  {
    hide UserBlock, RoomFor;
    if p.Acquiring? || p.Spinning? || p.Inside? {
      SectionStays(p.sec, s0, s1, live0, live1, align);
    }
  }

  lemma SectionStays(sec: Section, s0: Snapshot, s1: Snapshot, live0: map<int, int>, live1: map<int, int>, align: nat)
    requires SectionOk(sec, s0, live0, align) && KindsStay(live0, s0, live1, s1)
    requires forall r :: r in SectionRegion(sec) ==> r in s0.owned && r in s1.owned && s1.owned[r] == s0.owned[r]
    requires forall b :: b in SectionBlock(sec) ==> b in live0 && b in live1 && live1[b] == live0[b]
    ensures SectionOk(sec, s1, live1, align)
  {
    hide UserBlock, RoomFor;
  }

  /** Thread t's step from points[t] to q: it gave up and took what the heap says, and no one else's hand moved. */
  lemma Stepped(points: seq<Point>, t: nat, q: Point, s0: Snapshot, s1: Snapshot, live0: map<int, int>,
                live1: map<int, int>, callers0: map<int, int>, callers1: map<int, int>, align: nat)
    requires Hands(points, s0, live0, callers0, align) && t < |points| && PointOk(q, s1, live1, align)
    requires KindsStay(live0, s0, live1, s1)
    requires s1.others == s0.others - RegionIn(points[t]) + RegionIn(q)
    requires (RegionIn(q) <= RegionIn(points[t]) || RegionIn(q) !! s0.others)
    requires RegionsKept(s0.owned, s1.owned, s0.others - RegionIn(points[t]))
    requires BareMoved(s0.bare, s1.bare, BareIn(points[t]), BareIn(q))
    requires live1.Keys == callers1.Keys + (BlocksOf(points) - BlockIn(points[t])) + BlockIn(q)
    requires BlockIn(q) <= BlockIn(points[t]) || BlockIn(q) !! BlocksOf(points)
    requires callers1.Keys !! BlocksOf(points) - BlockIn(points[t]) + BlockIn(q)
    requires forall p :: p in callers1 ==> live1[p] == callers1[p]
    requires forall b :: b in BlocksOf(points) && b !in BlockIn(points[t]) ==> live1[b] == live0[b]
    ensures Hands(points[t := q], s1, live1, callers1, align)
  {
    hide PointOk, RegionIn, BlockIn, BareIn, KindsStay, Regions, BlocksOf, Bares;
    HandSets(points, t, q);
    var after := points[t := q];
    forall u | 0 <= u < |after| ensures PointOk(after[u], s1, live1, align) {
      if u != t {
        assert PointOk(points[u], s0, live0, align);
        assert HandsApart(points, u, t);
        InHands(points, u);
        forall r | r in RegionIn(points[u]) ensures r in s0.owned && r in s1.owned && s1.owned[r] == s0.owned[r] {
          assert r in s0.others - RegionIn(points[t]);
        }
        HandStays(points[u], s0, s1, live0, live1, align);
      }
    }
    forall u, v | 0 <= u < |after| && 0 <= v < |after| && u != v ensures HandsApart(after, u, v) {
      assert HandsApart(points, u, v);
      InHands(points, u);
      InHands(points, v);
      assert HandsApart(points, t, u) || t == u;
      assert HandsApart(points, t, v) || t == v;
    }
  }

  /** Regions in hand are the system's. */
  lemma HandsOwned(h: StbmHeap)
    requires h.Valid()
    ensures forall r :: r in h.medium.others ==> r in h.medium.system.owned
  {
    hide Core, SysOk, SlabsOk, Settled, AlignmentOk, LargesOk, Refines, Counted;
    var m := h.medium;
    MediumParts(m);
    CachedFacts(m.mem, m.system.owned, m.heap, m.ring, m.cached, m.cachedSize, m.foreign, m.others, m.bk.l);
  }

  lemma Kept(owned: map<int, nat>, hands: set<int>)
    requires forall r :: r in hands ==> r in owned
    ensures RegionsKept(owned, owned, hands)
  {
  }

  /** A pointer that a caller gets is apart from all that callers have. */
  lemma CallerApart(h: StbmHeap, callers: map<int, int>, p: nat, size: nat)
    requires h.Valid() && p in h.live && h.live[p] >= size && p !in callers && h.medium.align > 0
    requires p % 16 == 0 && (size > SMALLEST_ALLOCATION ==> p % h.medium.align == 0)
    requires Measured(h.live[p], size, h.medium.align)
    requires forall q :: q in callers ==> q in h.live && h.live[q] == callers[q]
    ensures forall a: Abstract :: a.live == callers ==> Allowed(a, Granted(size, p, h.live[p]), h.medium.align)
  {
    hide StbmHeap.Valid, Measured;
    var r := LiveContained(h, p);
    forall q | q in callers ensures Apart(p, h.live[p], q, callers[q]) {
      Heap.LiveApart(h, p, q);
    }
  }

  /** All allocations but the one in hand are still live, and as large. */
  ghost predicate OthersLive(p: Point, live0: map<int, int>, live1: map<int, int>) {
    forall b {:trigger b in live0} :: b in live0 && b !in BlockIn(p) ==> b in live1 && live1[b] == live0[b]
  }

  lemma Unlocked(points: seq<Point>, t: nat, q: Point, holder: int)
    requires t < |points| && points[t].Inside? && LockOk(points, holder) && !q.Inside?
    ensures holder == t && LockOk(points[t := q], NOBODY)
  {
  }

  /** A step outside the sections does not touch the lock. */
  lemma StillUnheld(points: seq<Point>, t: nat, q: Point, holder: int)
    requires t < |points| && !points[t].Inside? && LockOk(points, holder) && !q.Inside?
    ensures LockOk(points[t := q], holder)
  {
  }

  lemma StillUnlocked(points: seq<Point>, t: nat, q: Point)
    requires t < |points| && LockOk(points[t := Outside], NOBODY) && !q.Inside?
    ensures LockOk(points[t := q], NOBODY)
  {
    var after := points[t := q];
    forall u | 0 <= u < |after| ensures !after[u].Inside? {
      assert u != t ==> points[t := Outside][u] == after[u];
    }
  }

  lemma ServedLive(p: Point, live0: map<int, int>, live1: map<int, int>, q: nat, size: nat, align: nat)
    requires Served(live0, live1, q, size, align)
    ensures OthersLive(p, live0, live1)
    ensures q == 0 ==> live1.Keys == live0.Keys
    ensures q != 0 ==> live1.Keys == live0.Keys + {q as int} && q !in live0 && q in live1
  {
  }

  /** What becomes of the block that stbm__medium_alloc returns. */
  predicate Delivered(why: Purpose, after: Point) {
    match why
    case ForCaller => after == Outside
    case ForSlab(bytes) => after.Acquiring? && after.sec.Adopt? && after.sec.bytes == bytes
  }

  predicate Freeing(after: Point) {
    after == Outside || after.GiveBack?
  }

  /** Where the code goes from the end of a section. */
  predicate Leaving(sec: Section, after: Point) {
    match sec
    case SmallFirst(bytes) => after == Outside || after == Acquiring(MediumFirst(CHUNK_SIZE, ForSlab(bytes)))
    case MediumFirst(size, why) =>
      Delivered(why, after) || (after.AskChunk? && after.size == size && after.why == why)
    case MediumAgain(_, _, _, why) => Delivered(why, after)
    case Adopt(_, _) => after == Outside
    case LargeLink(s, size) => after.Heading? && after.s == s && after.size == size
    case FreeOf(_) => Freeing(after) || (after.Acquiring? && after.sec.Drop?)
    case Drop(_) => Freeing(after)
  }

  /** A step takes a thread on to where the code goes from there, unless it waits for a lock that another thread has:
      then it goes round in spin_lock. */
  predicate Advanced(before: Point, after: Point, free: bool) {
    match before
    case Outside => !after.Inside?
    case Acquiring(sec) => after == if free then Inside(sec) else Spinning(sec)
    case Spinning(sec) => after == if free then Acquiring(sec) else before
    case Inside(sec) => Leaving(sec, after)
    case AskChunk(bytes, size, why) =>
      after == Outside
      || (after.Acquiring? && after.sec.MediumAgain? && after == Acquiring(MediumAgain(after.sec.s, bytes, size, why)))
    case AskLarge(size) =>
      after == Outside
      || (after.Acquiring? && after.sec.LargeLink? && after == Acquiring(LargeLink(after.sec.s, size)))
    case GiveBack(_) => after == Outside
    case Heading(_, _, _, _) => after == Outside
  }

  /** So every step but a wait, and but the way in, brings the thread nearer to the outside. */
  lemma Nearer(before: Point, after: Point, free: bool)
    requires Advanced(before, after, free) && before != Outside
    ensures Rank(after) < Rank(before) || (!free && (before.Acquiring? || before.Spinning?))
  {
  }

  /** Word w is in the region that the thread is about to set up as a chunk. */
  predicate Preparing(at: Point, w: nat) {
    at.Acquiring? && at.sec.MediumAgain? && at.sec.s <= w < at.sec.s + at.sec.region
  }

  /** Where a thread outside goes with this. */
  predicate Entered(op: Op, holding: nat, q: Point) {
    match op
    case Request(size) =>
      if size >= REQUEST_LIMIT then q == Outside
      else if size <= SMALLEST_ALLOCATION then q == Acquiring(SmallFirst(size))
      else if size < LARGE_THRESHOLD then q == Acquiring(MediumFirst(size, ForCaller))
      else q == AskLarge(size)
    case Release(which) => if which < holding then q.Acquiring? && q.sec.FreeOf? else q == Outside
    case Put(_, _, _) => q == Outside
  }

  class Machine {
    const h: StbmHeap
    var points: seq<Point>
    var held: seq<nat>          // pointers that callers have; any thread may free any of them
    ghost var trace: seq<Event>

    /** All but the heap's own order. */
    ghost predicate Tracked(s: Snapshot, live: map<int, int>)
      reads this
    {
      && Hands(points, s, live, Replay(trace).live, h.medium.align)
      && Legal(trace, h.medium.align) && Remembers(s.mem, Replay(trace)) && held == Replay(trace).held
    }

    ghost predicate Valid()
      reads this, h, h.medium, h.medium.system, h.medium.lock, h.small, h.large
    {
      h.Valid() && h.medium.lock.Valid() && LockOk(points, h.medium.lock.holder) && Tracked(h.Snap(), h.live)
    }

    /** How often the system has refused memory. */
    ghost function Refusals(): nat
      reads h.medium.system
    {
      h.medium.system.refusals
    }

    /** n threads outside a fresh heap. */
    constructor (h: StbmHeap, n: nat)
      requires h.Idle() && h.live == map[] && h.medium.others == {}
      ensures Valid() && this.h == h && |points| == n && trace == []
      ensures forall t :: 0 <= t < n ==> points[t] == Outside
    {
      hide StbmHeap.Valid;
      this.h := h;
      points := seq(n, _ => Outside);
      held := [];
      trace := [];
    }

    // ---- the three ways a step ends ----

    /** ... inside the heap still, or outside without an answer. */
    method Proceed(t: nat, q: Point, ghost s0: Snapshot, ghost live0: map<int, int>)
      requires t < |points|
      requires LockOk(points[t := q], h.medium.lock.holder)
      requires DataKept(live0, h.live, s0.mem, h.medium.mem) && KindsStay(live0, s0, h.live, h.Snap())
      requires PointOk(q, h.Snap(), h.live, h.medium.align)
      requires h.medium.others == s0.others - RegionIn(points[t]) + RegionIn(q)
      requires (RegionIn(q) <= RegionIn(points[t]) || RegionIn(q) !! s0.others)
      requires RegionsKept(s0.owned, h.medium.system.owned, s0.others - RegionIn(points[t]))
      requires BareMoved(s0.bare, h.large.bare, BareIn(points[t]), BareIn(q))
      requires BlockIn(points[t]) <= live0.Keys && (BlockIn(q) <= BlockIn(points[t]) || BlockIn(q) !! live0.Keys)
      requires h.live.Keys == live0.Keys - BlockIn(points[t]) + BlockIn(q)
      requires OthersLive(points[t], live0, h.live)
      requires Tracked(s0, live0) && h.Valid() && h.medium.lock.Valid()
      requires Wants(q) == Wants(points[t]) && (q == Outside ==> Wants(q) < 0)
      modifies this`points
      ensures Valid() && points == old(points)[t := q] && Continued(old(points[t]), q, trace, trace, 0)
    {
      hide Continued, Wants, LockOk, SpinLock.Valid;
      hide StbmHeap.Valid, PointOk, RegionIn, BlockIn, KindsStay, Regions, BlocksOf, Legal, Replay, Remembers, DataKept;
      hide BareMoved, Bares, BareIn;
      ghost var a := Replay(trace);
      OwnBlock(points, t, live0, a.live);
      Stepped(points, t, q, s0, h.Snap(), live0, h.live, a.live, a.live, h.medium.align);
      StillRemembers(s0.mem, h.medium.mem, live0, h.live, a, a) by { RemembersLive(s0.mem, a); }
      GoesOn(points[t], q, trace);
      points := points[t := q];
    }

    /** ... with a pointer for the caller. */
    method Answer(t: nat, p: nat, size: nat, ghost s0: Snapshot, ghost live0: map<int, int>)
      requires t < |points|
      requires LockOk(points[t := Outside], h.medium.lock.holder)
      requires DataKept(live0, h.live, s0.mem, h.medium.mem) && KindsStay(live0, s0, h.live, h.Snap())
      requires h.medium.others == s0.others - RegionIn(points[t])
      requires RegionsKept(s0.owned, h.medium.system.owned, s0.others - RegionIn(points[t]))
      requires BareMoved(s0.bare, h.large.bare, BareIn(points[t]), {})
      requires BlockIn(points[t]) <= live0.Keys && p !in live0.Keys - BlockIn(points[t])
      requires p in h.live && h.live.Keys == live0.Keys - BlockIn(points[t]) + {p as int} && h.live[p] >= size
      requires h.medium.align > 0 && p % 16 == 0 && (size > SMALLEST_ALLOCATION ==> p % h.medium.align == 0)
      requires OthersLive(points[t], live0, h.live) && Measured(h.live[p], size, h.medium.align)
      requires Tracked(s0, live0) && h.Valid() && h.medium.lock.Valid() && size == Wants(points[t])
      modifies this`points, this`held, this`trace
      ensures points == old(points)[t := Outside] && Continued(old(points[t]), Outside, old(trace), trace, 0)
      ensures trace == old(trace) + [Granted(size, p, h.live[p])]
      ensures Valid()
    {
      hide StbmHeap.Valid, PointOk, BlockIn, KindsStay, Regions, BlocksOf, Legal, Replay, Remembers, DataKept;
      hide Allowed, RegionIn, BareMoved, Bares, Measured;
      ghost var a, e := Replay(trace), Granted(size, p, h.live[p]);
      Leaves(points[t], trace, e);
      hide Continued, Wants;
      OwnBlock(points, t, live0, a.live);
      NothingInHand(h.Snap(), h.live, h.medium.align);
      Stepped(points, t, Outside, s0, h.Snap(), live0, h.live, a.live, a.live[p as int := h.live[p]], h.medium.align);
      CallerApart(h, a.live, p, size);
      StillRemembers(s0.mem, h.medium.mem, live0, h.live, a, Next(a, e)) by { RemembersLive(s0.mem, a); }
      Extended(trace, e, h.medium.align);
      points := points[t := Outside];
      held := held + [p];
      trace := trace + [e];
    }

    /** ... with an answer that gives and takes nothing. */
    method Decline(t: nat, e: Event)
      requires t < |points| && Valid() && !points[t].Inside? && RegionIn(points[t]) == {} && BlockIn(points[t]) == {}
      requires (e.Refused? || e.Skipped?)
      modifies this`points, this`trace
      ensures Valid() && points == old(points)[t := Outside] && trace == old(trace) + [e]
    {
      hide StbmHeap.Valid, KindsStay, Regions, BlocksOf, Legal, Replay, Remembers, UserBlock;
      ghost var a := Replay(trace);
      NothingInHand(h.Snap(), h.live, h.medium.align);
      HandsOwned(h);
      Kept(h.medium.system.owned, h.medium.others);
      Unmoved(h.live, h.Snap());
      Stepped(points, t, Outside, h.Snap(), h.Snap(), h.live, h.live, a.live, a.live, h.medium.align);
      Extended(trace, e, h.medium.align);
      points := points[t := Outside];
      trace := trace + [e];
    }

    // ---- the lock ----

    /** One round at spin_lock's compare-and-swap. */
    method TryLock(t: nat)
      requires Valid() && t < |points| && points[t].Acquiring?
      modifies this`points, h.medium.lock
      ensures Valid()
      ensures old(h.medium.lock.Free()) ==> points == old(points)[t := Inside(old(points[t].sec))]
      ensures !old(h.medium.lock.Free()) ==> points == old(points)[t := Spinning(old(points[t].sec))]
      ensures old(h.medium.lock.Free()) ==> h.medium.lock.HeldBy(t)
    {
      hide StbmHeap.Valid, KindsStay, Regions, BlocksOf, Legal, Replay, Remembers, UserBlock, SectionOk;
      var sec := points[t].sec;
      var got := h.medium.lock.Try(t);
      SameHand(t, if got then Inside(sec) else Spinning(sec));
    }

    /** One read of the lock word in spin_lock's inner loop. */
    method Look(t: nat)
      requires Valid() && t < |points| && points[t].Spinning?
      modifies this`points
      ensures Valid()
      ensures points == old(points)[t :=
                                    if old(h.medium.lock.Free()) then Acquiring(old(points[t].sec)) else old(points[t])]
    {
      hide StbmHeap.Valid, KindsStay, Regions, BlocksOf, Legal, Replay, Remembers, UserBlock, SectionOk;
      if h.medium.lock.word == 0 {
        SameHand(t, Acquiring(points[t].sec));
      }
    }

    /** Only where the thread is changes. */
    method SameHand(t: nat, q: Point)
      requires t < |points| && h.Valid() && h.medium.lock.Valid() && Tracked(h.Snap(), h.live)
      requires LockOk(points[t := q], h.medium.lock.holder)
      requires RegionIn(q) == RegionIn(points[t]) && BlockIn(q) == BlockIn(points[t]) && BareIn(q) == BareIn(points[t])
      requires BareIn(q) == {}
      requires PointOk(points[t], h.Snap(), h.live, h.medium.align) ==> PointOk(q, h.Snap(), h.live, h.medium.align)
      modifies this`points
      ensures Valid() && points == old(points)[t := q]
    {
      hide StbmHeap.Valid, KindsStay, Regions, BlocksOf, Legal, Replay, Remembers, UserBlock, PointOk, RegionIn;
      hide BlockIn;
      ghost var a := Replay(trace);
      HandsOwned(h);
      Kept(h.medium.system.owned, h.medium.others);
      Unmoved(h.live, h.Snap());
      OwnBlock(points, t, h.live, a.live);
      InHands(points, t);
      Stepped(points, t, q, h.Snap(), h.Snap(), h.live, h.live, a.live, a.live, h.medium.align);
      points := points[t := q];
    }

    // ---- entering the heap ----

    method Enter(t: nat, op: Op)
      requires Valid() && t < |points| && points[t] == Outside
      modifies this, h.medium
      ensures Valid() && |points| == old(|points|) && points == old(points)[t := points[t]]
      ensures Entered(op, old(|held|), points[t])
      ensures Recorded(Outside, points[t], op, old(trace), trace, Refusals() - old(Refusals()))
      ensures h.medium.bk == old(h.medium.bk)
    {
      hide Machine.Valid, RegionIn, BlockIn, StbmHeap.Valid, Hands, Legal, Replay, Remembers, Tracked, LockOk;
      hide OneAnswer, Continued;
      HeldIs();
      match op
      case Request(size) =>
        if size >= REQUEST_LIMIT {
          Pass(t, op);
        } else if size <= SMALLEST_ALLOCATION {
          Head(t, Acquiring(SmallFirst(size)));
        } else if size < LARGE_THRESHOLD {
          Head(t, Acquiring(MediumFirst(size, ForCaller)));
        } else {
          Head(t, AskLarge(size));
        }
      case Release(which) =>
        if which < |held| {
          GiveUp(t, which);
        } else {
          Pass(t, op);
        }
      case Put(which, word, value) =>
        if which < |held| {
          StoreStep(t, which, word, value);
        } else {
          Pass(t, op);
        }
    }

    lemma HeldIs()
      requires Valid()
      ensures held == Replay(trace).held
    {
      hide StbmHeap.Valid, Hands, Legal, Replay, Remembers;
    }

    method Pass(t: nat, op: Op)
      requires Valid() && t < |points| && points[t] == Outside && Answers(Replay(trace), op, Skipped)
      modifies this`points, this`trace
      ensures Valid() && points == old(points) && OneAnswer(op, old(trace), trace)
    {
      hide *;
      AnsweredAtOnce(op, trace, Skipped);
      NoHand();
      Decline(t, Skipped);
    }

    method Head(t: nat, q: Point)
      requires Valid() && t < |points| && points[t] == Outside
      requires
        || (q.Acquiring? && q.sec.SmallFirst? && q.sec.bytes <= SMALLEST_ALLOCATION)
        || (q.Acquiring? && q.sec.MediumFirst? && MediumFor(q.sec.size, q.sec.why))
        || (q.AskLarge? && LARGE_THRESHOLD <= q.size < REQUEST_LIMIT)
      modifies this`points
      ensures Valid() && points == old(points)[t := q]
    {
      hide StbmHeap.Valid, Hands, Legal, Replay, Remembers;
      SameHand(t, q);
    }

    /** A caller hands a pointer back; from here on it is in the thread's hand only. */
    method GiveUp(t: nat, which: nat)
      requires Valid() && t < |points| && points[t] == Outside && which < |held|
      modifies this`points, this`held, this`trace
      ensures Valid() && points == old(points)[t := Acquiring(FreeOf(old(held)[which]))]
      ensures trace == old(trace) + [Returned(old(held)[which])]
      ensures OneAnswer(Op.Release(which), old(trace), trace)
    {
      hide OneAnswer, UserdataKept;
      hide StbmHeap.Valid, KindsStay, Regions, BlocksOf, Legal, Replay, Remembers, UserBlock, DataKept;
      ghost var a := Replay(trace);
      var p := held[which];
      ReplayHeld(trace, h.medium.align);
      HandsOwned(h);
      Kept(h.medium.system.owned, h.medium.others);
      Unmoved(h.live, h.Snap());
      NoDataLost(h.live, h.medium.mem);
      Stepped(points, t, Acquiring(FreeOf(p)), h.Snap(), h.Snap(), h.live, h.live, a.live, a.live - {p as int},
              h.medium.align);
      StillRemembers(h.medium.mem, h.medium.mem, h.live, h.live, a,
                     Next(a, Returned(p))) by { RemembersLive(h.medium.mem, a); }
      Extended(trace, Returned(p), h.medium.align);
      AnsweredAtOnce(Op.Release(which), trace, Returned(p));
      points := points[t := Acquiring(FreeOf(p))];
      held := Without(held, p);
      trace := trace + [Returned(p)];
    }

    /** A caller stores in its allocation, whatever goes on in the heap meanwhile. */
    method StoreStep(t: nat, which: nat, word: nat, value: nat)
      requires Valid() && t < |points| && points[t] == Outside && which < |held|
      modifies this`points, this`trace, h.medium`mem
      ensures Valid() && points == old(points) && h.live == old(h.live)
      ensures OneAnswer(Op.Put(which, word, value), old(trace), trace)
    {
      hide OneAnswer;
      hide StbmHeap.Valid, KindsStay, Regions, BlocksOf, Legal, Replay, Remembers, UserBlock;
      ghost var a, s0 := Replay(trace), h.Snap();
      var p := held[which];
      ReplayHeld(trace, h.medium.align);
      Headed(points, s0, h.live, a.live, h.medium.align, t, p);
      var size := h.GetAllocationSize(p);
      var w := p + 8 * word;
      if 8 * word + 8 <= size {
        ghost var e := Stored(p, w, value);
        h.Store(p, w, value);
        forall q | q in a.live && q != p ensures Apart(p, a.live[p], q, a.live[q]) {
          Heap.LiveApart(h, p, q);
        }
        StoredRemembers(s0.mem, a, p, w, value);
        KindsAt(h.live, s0, h.Snap(), {});
        StoreHands(h, points, t, s0, a.live);
        Extended(trace, e, h.medium.align);
        AnsweredAtOnce(Op.Put(which, word, value), trace, e);
        points := points[t := Outside];
        trace := trace + [e];
      } else {
        AnsweredAtOnce(Op.Put(which, word, value), trace, Skipped);
        Decline(t, Skipped);
      }
    }

    /** Before the second section of stbm__medium_alloc, the thread writes words of the region in its hand: the chunk's
        own and the phantom blocks', in stbm__medium_init_chunk, but any others would do no harm. */
    method Fill(t: nat, w: nat, v: nat)
      requires Valid() && t < |points| && Preparing(points[t], w)
      modifies this`points, h.medium`mem
      ensures Valid() && points == old(points) && h.medium.mem == Write(old(h.medium.mem), w, v)
    {
      hide StbmHeap.Valid, KindsStay, DataKept, Hands, Legal, Replay, Remembers, UserBlock, RegionsKept, OthersLive;
      ghost var s0, live0 := h.Snap(), h.live;
      StartOk(t);
      h.Fill(points[t].sec.s, w, v);
      OthersLiveSame(points[t], live0);
      Proceed(t, points[t], s0, live0);
    }

    // ---- the critical sections ----

    /** The first section of stbm__small_alloc. */
    method SmallFirstStep(t: nat, bytes: nat)
      requires Valid() && t < |points| && points[t] == Inside(SmallFirst(bytes))
      modifies this, h, h.medium, h.medium.lock, h.small
      ensures Valid() && h.medium.lock.Free() && |points| == old(|points|) && points == old(points)[t := points[t]]
      ensures Continued(old(points[t]), points[t], old(trace), trace, Refusals() - old(Refusals()))
      ensures old(h.medium.bk.l.pinned) <= h.medium.bk.l.pinned
      ensures Leaving(SmallFirst(bytes), points[t])
    {
      hide Continued;
      hide StbmHeap.Valid, KindsStay, DataKept, Hands, Legal, Replay, Remembers, UserBlock, Served, LockOk;
      hide RegionsKept, OthersLive;
      ghost var s0, live0 := h.Snap(), h.live;
      StartOk(t);
      Unlocked(points, t, Outside, h.medium.lock.holder);
      Unlocked(points, t, Acquiring(MediumFirst(CHUNK_SIZE, ForSlab(bytes))), h.medium.lock.holder);
      var p := h.SmallTry(t);
      KeepsPins(live0, s0, h.live, h.Snap());
      ServedLive(points[t], live0, h.live, p, SMALLEST_ALLOCATION, h.medium.align);
      if p != 0 {
        ServedIs(live0, h.live, p, SMALLEST_ALLOCATION, h.medium.align);
        Answer(t, p, bytes, s0, live0);
      } else {
        Proceed(t, Acquiring(MediumFirst(CHUNK_SIZE, ForSlab(bytes))), s0, live0);
      }
    }

    /** What holds at the start of a section. */
    lemma StartOk(t: nat)
      requires Valid() && t < |points|
      ensures LockOk(points, h.medium.lock.holder) && Tracked(h.Snap(), h.live)
      ensures points[t].Inside? ==> h.medium.lock.HeldBy(t)
      ensures PointOk(points[t], h.Snap(), h.live, h.medium.align)
      ensures RegionIn(points[t]) <= h.medium.others && BlockIn(points[t]) <= h.live.Keys
      ensures RegionsKept(h.medium.system.owned, h.medium.system.owned, h.medium.others)
      ensures RegionsKept(h.medium.system.owned, h.medium.system.owned, h.medium.others - RegionIn(points[t]))
    {
      hide StbmHeap.Valid, PointOk, RegionIn, BlockIn, Regions, BlocksOf, Legal, Replay, Remembers;
      InHands(points, t);
      HandsOwned(h);
      Kept(h.medium.system.owned, h.medium.others);
    }

    /** After stbm__medium_alloc succeeds: the caller is answered, or the block is to become a slab. */
    method AfterMedium(t: nat, p: nat, size: nat, why: Purpose, ghost s0: Snapshot, ghost live0: map<int, int>)
      requires t < |points| && Tracked(s0, live0) && h.Valid() && h.medium.lock.Valid() && MediumFor(size, why)
      requires LockOk(points[t := Outside], h.medium.lock.holder) && h.medium.lock.holder == NOBODY
      requires DataKept(live0, h.live, s0.mem, h.medium.mem) && KindsStay(live0, s0, h.live, h.Snap())
      requires BlockIn(points[t]) == {} && h.medium.others == s0.others - RegionIn(points[t])
      requires BareMoved(s0.bare, h.large.bare, {}, {})
      requires RegionsKept(s0.owned, h.medium.system.owned, s0.others - RegionIn(points[t]))
      requires p != 0 && Served(live0, h.live, p, size, h.medium.align) && UserBlock(h.Snap(), p)
      requires Wants(points[t]) == WantedFor(size, why)
      requires why.ForCaller? ==> Measured(h.live[p], size, h.medium.align)
      modifies this
      ensures |points| == old(|points|) && points == old(points)[t := points[t]]
      ensures points[t] == if why.ForCaller? then Outside else Acquiring(Adopt(p, why.bytes))
      ensures Continued(old(points[t]), points[t], old(trace), trace, Refusals() - old(Refusals()))
      ensures Valid()
    {
      hide Continued;
      hide StbmHeap.Valid, KindsStay, DataKept, Hands, Legal, Replay, Remembers, UserBlock, Served, RegionsKept;
      hide OthersLive, Measured;
      ServedLive(points[t], live0, h.live, p, size, h.medium.align);
      ServedIs(live0, h.live, p, size, h.medium.align);
      match why
      case ForCaller => Answer(t, p, size, s0, live0);
      case ForSlab(bytes) =>
        StillUnlocked(points, t, Acquiring(Adopt(p, bytes)));
        Proceed(t, Acquiring(Adopt(p, bytes)), s0, live0);
    }

    /** The first section of stbm__medium_alloc. */
    method MediumFirstStep(t: nat, size: nat, why: Purpose)
      requires Valid() && t < |points| && points[t] == Inside(MediumFirst(size, why))
      modifies this, h, h.medium, h.medium.system, h.medium.lock
      ensures |points| == old(|points|) && points == old(points)[t := points[t]] && h.medium.lock.Free()
      ensures Continued(old(points[t]), points[t], old(trace), trace, Refusals() - old(Refusals()))
      ensures old(h.medium.bk.l.pinned) <= h.medium.bk.l.pinned
      ensures Leaving(MediumFirst(size, why), points[t])
      ensures Valid()
    {
      hide Continued;
      hide StbmHeap.Valid, KindsStay, DataKept, Hands, Legal, Replay, Remembers, UserBlock, Served, LockOk;
      hide RegionsKept, OthersLive, RoomFor, Began, Measured;
      ghost var s0, live0 := h.Snap(), h.live;
      StartOk(t);
      Unlocked(points, t, Outside, h.medium.lock.holder);
      var p, ask := h.MediumBegin(size, t);
      KeepsPins(live0, s0, h.live, h.Snap());
      KeptFewer(s0.owned, h.medium.system.owned, s0.others, RegionIn(points[t]));
      if p != 0 {
        AfterMedium(t, p, size, why, s0, live0);
      } else {
        ServedLive(points[t], live0, h.live, p, size, h.medium.align);
        Unlocked(points, t, AskChunk(ask, size, why), t);
        Proceed(t, AskChunk(ask, size, why), s0, live0);
      }
    }

    /** The second section of stbm__medium_alloc. */
    method MediumAgainStep(t: nat, s: nat, region: nat, size: nat, why: Purpose)
      requires Valid() && t < |points| && points[t] == Inside(MediumAgain(s, region, size, why))
      modifies this, h, h.medium, h.medium.lock
      ensures |points| == old(|points|) && points == old(points)[t := points[t]] && h.medium.lock.Free()
      ensures Continued(old(points[t]), points[t], old(trace), trace, Refusals() - old(Refusals()))
      ensures old(h.medium.bk.l.pinned) <= h.medium.bk.l.pinned
      ensures Leaving(MediumAgain(s, region, size, why), points[t])
      ensures Valid()
    {
      hide Continued;
      hide StbmHeap.Valid, KindsStay, DataKept, Hands, Legal, Replay, Remembers, UserBlock, Served, LockOk;
      hide RegionsKept, OthersLive, RoomFor, Completed, Measured;
      ghost var s0, live0 := h.Snap(), h.live;
      StartOk(t);
      Unlocked(points, t, Outside, h.medium.lock.holder);
      assert s as int in RegionIn(points[t]);
      var p := h.MediumComplete(s, region, size, t);
      KeepsPins(live0, s0, h.live, h.Snap());
      AfterMedium(t, p, size, why, s0, live0);
    }

    /** The second section of stbm__small_alloc. */
    method AdoptStep(t: nat, c: nat, bytes: nat)
      requires Valid() && t < |points| && points[t] == Inside(Adopt(c, bytes))
      modifies this, h, h.medium, h.medium.lock, h.small
      ensures points == old(points)[t := Outside] && h.medium.lock.Free()
      ensures Continued(old(points[t]), points[t], old(trace), trace, Refusals() - old(Refusals()))
      ensures old(h.medium.bk.l.pinned) <= h.medium.bk.l.pinned
      ensures Valid()
    {
      hide Continued;
      hide StbmHeap.Valid, KindsStay, DataKept, Hands, Legal, Replay, Remembers, UserBlock, LockOk, RegionsKept;
      hide OthersLive;
      ghost var s0, live0 := h.Snap(), h.live;
      StartOk(t);
      AlignedSmall(h);
      Unlocked(points, t, Outside, h.medium.lock.holder);
      var p := h.SmallAdopt(c, t);
      KeepsPins(live0, s0, h.live, h.Snap());
      AdoptedLive(points[t], live0, h.live, c, p);
      Answer(t, p, bytes, s0, live0);
    }

    /** The section of stbm__large_alloc. */
    method LargeLinkStep(t: nat, s: nat, size: nat)
      requires Valid() && t < |points| && points[t] == Inside(LargeLink(s, size))
      modifies this, h, h.medium, h.medium.lock, h.large
      ensures |points| == old(|points|) && points == old(points)[t := points[t]] && h.medium.lock.Free()
      ensures Continued(old(points[t]), points[t], old(trace), trace, Refusals() - old(Refusals()))
      ensures old(h.medium.bk.l.pinned) <= h.medium.bk.l.pinned
      ensures Leaving(LargeLink(s, size), points[t])
      ensures Valid()
    {
      hide Continued;
      hide StbmHeap.Valid, KindsStay, DataKept, Hands, Legal, Replay, Remembers, UserBlock, Served, LockOk;
      hide RegionsKept, OthersLive;
      ghost var s0, live0 := h.Snap(), h.live;
      StartOk(t);
      assert s as int in RegionIn(points[t]);
      var p, userSize := h.LargeEnlist(s, size, t);
      KeepsPins(live0, s0, h.live, h.Snap());
      Unlocked(points, t, Heading(s, p, userSize, size), t);
      ServedLive(points[t], live0, h.live, p, size, h.medium.align);
      ServedIs(live0, h.live, p, size, h.medium.align);
      Proceed(t, Heading(s, p, userSize, size), s0, live0);
    }

    /** The rest of stbm__large_alloc, without the lock. */
    method HeadingStep(t: nat, s: nat, p: nat, userSize: nat, size: nat)
      requires Valid() && t < |points| && points[t] == Heading(s, p, userSize, size)
      modifies this, h.medium`mem, h.large`bare
      ensures points == old(points)[t := Outside]
      ensures Continued(old(points[t]), points[t], old(trace), trace, Refusals() - old(Refusals()))
      ensures Valid()
    {
      hide Continued;
      hide StbmHeap.Valid, KindsStay, DataKept, Hands, Legal, Replay, Remembers, UserBlock, RegionsKept, OthersLive;
      ghost var s0, live0 := h.Snap(), h.live;
      StartOk(t);
      h.LargeHeader(s, p, userSize);
      OthersLiveSame(points[t], live0);
      StillUnheld(points, t, Outside, h.medium.lock.holder);
      Answer(t, p, size, s0, live0);
    }

    /** The section of stbm__medium_free, small_free or large_free, as the pointer's prefix says. */
    method FreeStep(t: nat, p: nat)
      requires Valid() && t < |points| && points[t] == Inside(FreeOf(p))
      modifies this, h, h.medium, h.medium.lock, h.small, h.large
      ensures |points| == old(|points|) && points == old(points)[t := points[t]] && h.medium.lock.Free()
      ensures Continued(old(points[t]), points[t], old(trace), trace, Refusals() - old(Refusals()))
      ensures old(h.medium.bk.l.pinned) <= h.medium.bk.l.pinned
      ensures Leaving(FreeOf(p), points[t])
      ensures Valid()
    {
      hide Continued;
      hide StbmHeap.Valid, KindsStay, DataKept, Hands, Legal, Replay, Remembers, UserBlock, LockOk, RegionsKept;
      hide OthersLive;
      hide SmallLive, Read, Type, InHand;
      StartOk(t);
      Headed(points, h.Snap(), h.live, Replay(trace).live, h.medium.align, t, p);
      Tagged(h, p);
      var prefix := Read(h.medium.mem, p - 8);
      if Type(prefix) == TYPE_MEDIUM {
        FreeBlockStep(t, p);
      } else if Type(prefix) == TYPE_SMALL {
        FreeCellStep(t, p);
      } else {
        ghost var r :| LargeAt(h.Snap(), r, p, h.live[p]);
        FreeRegionStep(t, p, r);
      }
    }

    method FreeBlockStep(t: nat, p: nat)
      requires Valid() && t < |points| && (points[t] == Inside(FreeOf(p)) || points[t] == Inside(Drop(p)))
      requires UserBlock(h.Snap(), p)
      modifies this, h, h.medium, h.medium.lock
      ensures |points| == old(|points|) && points == old(points)[t := points[t]] && h.medium.lock.Free()
      ensures Continued(old(points[t]), points[t], old(trace), trace, Refusals() - old(Refusals()))
      ensures old(h.medium.bk.l.pinned) <= h.medium.bk.l.pinned
      ensures Freeing(points[t])
      ensures Valid()
    {
      hide Continued;
      hide StbmHeap.Valid, KindsStay, DataKept, Hands, Legal, Replay, Remembers, UserBlock, LockOk, RegionsKept;
      hide OthersLive, Released;
      ghost var s0, live0 := h.Snap(), h.live;
      StartOk(t);
      Unlocked(points, t, Outside, h.medium.lock.holder);
      var s := h.MediumRelease(p, t);
      KeepsPins(live0, s0, h.live, h.Snap());
      FreedOthers(points[t], live0, h.live, p);
      if s == 0 {
        NothingInHand(h.Snap(), h.live, h.medium.align);
        Proceed(t, Outside, s0, live0);
      } else {
        Unlocked(points, t, GiveBack(s), t);
        Proceed(t, GiveBack(s), s0, live0);
      }
    }

    method FreeCellStep(t: nat, p: nat)
      requires Valid() && t < |points| && points[t] == Inside(FreeOf(p)) && SmallLive(h.small.slabs, p)
      modifies this, h, h.medium, h.medium.lock, h.small
      ensures |points| == old(|points|) && points == old(points)[t := points[t]] && h.medium.lock.Free()
      ensures Continued(old(points[t]), points[t], old(trace), trace, Refusals() - old(Refusals()))
      ensures old(h.medium.bk.l.pinned) <= h.medium.bk.l.pinned
      ensures Leaving(FreeOf(p), points[t])
      ensures Valid()
    {
      hide Continued;
      hide StbmHeap.Valid, KindsStay, DataKept, Hands, Legal, Replay, Remembers, UserBlock, LockOk, RegionsKept;
      hide OthersLive, SmallLive;
      ghost var s0, live0 := h.Snap(), h.live;
      StartOk(t);
      Unlocked(points, t, Outside, h.medium.lock.holder);
      var c := h.SmallRelease(p, t);
      KeepsPins(live0, s0, h.live, h.Snap());
      if c == 0 {
        FreedOthers(points[t], live0, h.live, p);
        NothingInHand(h.Snap(), h.live, h.medium.align);
        Proceed(t, Outside, s0, live0);
      } else {
        EmptiedOthers(points[t], live0, h.live, p, c);
        Unlocked(points, t, Acquiring(Drop(c)), t);
        Proceed(t, Acquiring(Drop(c)), s0, live0);
      }
    }

    method FreeRegionStep(t: nat, p: nat, ghost r: int)
      requires Valid() && t < |points| && points[t] == Inside(FreeOf(p)) && r in h.large.larges
      requires h.large.larges[r] == p && p !in h.large.bare
      modifies this, h, h.medium, h.medium.lock, h.large
      ensures |points| == old(|points|) && points == old(points)[t := points[t]] && h.medium.lock.Free()
      ensures Continued(old(points[t]), points[t], old(trace), trace, Refusals() - old(Refusals()))
      ensures old(h.medium.bk.l.pinned) <= h.medium.bk.l.pinned
      ensures Leaving(FreeOf(p), points[t])
      ensures Valid()
    {
      hide Continued;
      hide StbmHeap.Valid, KindsStay, DataKept, Hands, Legal, Replay, Remembers, UserBlock, LockOk, RegionsKept;
      hide OthersLive;
      ghost var s0, live0 := h.Snap(), h.live;
      StartOk(t);
      var s := h.LargeDelist(p, r, t);
      KeepsPins(live0, s0, h.live, h.Snap());
      FreedOthers(points[t], live0, h.live, p);
      Unlocked(points, t, GiveBack(s), t);
      Proceed(t, GiveBack(s), s0, live0);
    }

    // ---- system calls, without the lock ----

    method AskChunkStep(t: nat, bytes: nat, size: nat, why: Purpose)
      requires Valid() && t < |points| && points[t] == AskChunk(bytes, size, why)
      modifies this, h.medium`others, h.medium.system
      ensures |points| == old(|points|) && points == old(points)[t := points[t]]
      ensures Continued(old(points[t]), points[t], old(trace), trace, Refusals() - old(Refusals()))
      ensures Advanced(AskChunk(bytes, size, why), points[t], true)
      ensures Valid()
    {
      hide Continued, Advanced, PointOk;
      hide StbmHeap.Valid, KindsStay, DataKept, Hands, Legal, Replay, Remembers, UserBlock, RegionsKept, OthersLive;
      hide LockOk;
      ghost var s0, live0 := h.Snap(), h.live;
      StartOk(t);
      AskedFor(bytes, size, why, s0, live0, h.medium.align);
      var s := h.Obtain(bytes);
      NoDataLost(live0, s0.mem);
      OthersLiveSame(points[t], live0);
      if s == 0 {
        Refuse(t, WantedFor(size, why), s0);
      } else {
        KeptGrant(s0.owned, s0.owned, s0.others - RegionIn(points[t]), s, bytes);
        ChunkInHand(bytes, size, why, s0, h.Snap(), live0, h.medium.align, s);
        StillUnheld(points, t, Acquiring(MediumAgain(s, bytes, size, why)), h.medium.lock.holder);
        Proceed(t, Acquiring(MediumAgain(s, bytes, size, why)), s0, live0);
      }
    }

    method AskLargeStep(t: nat, size: nat)
      requires Valid() && t < |points| && points[t] == AskLarge(size)
      modifies this, h.medium`others, h.medium.system
      ensures |points| == old(|points|) && points == old(points)[t := points[t]]
      ensures Continued(old(points[t]), points[t], old(trace), trace, Refusals() - old(Refusals()))
      ensures Advanced(AskLarge(size), points[t], true)
      ensures Valid()
    {
      hide Continued;
      hide StbmHeap.Valid, KindsStay, DataKept, Hands, Legal, Replay, Remembers, UserBlock, RegionsKept, OthersLive;
      ghost var s0, live0 := h.Snap(), h.live;
      StartOk(t);
      AlignedSmall(h);
      var bytes := OVERHEAD + (h.medium.align - 1) + size;
      var s := h.Obtain(bytes);
      NoDataLost(live0, s0.mem);
      OthersLiveSame(points[t], live0);
      if s == 0 {
        Refuse(t, size, s0);
      } else {
        KeptGrant(s0.owned, s0.owned, s0.others - RegionIn(points[t]), s, bytes);
        Proceed(t, Acquiring(LargeLink(s, size)), s0, live0);
      }
    }

    /** The system has no memory: the caller is told so. */
    method Refuse(t: nat, size: nat, ghost s0: Snapshot)
      requires t < |points| && !points[t].Inside? && RegionIn(points[t]) == {} && BlockIn(points[t]) == {}
      requires Tracked(s0, h.live) && h.Snap() == s0 && h.Valid() && h.medium.lock.Valid()
      requires LockOk(points, h.medium.lock.holder) && size == Wants(points[t])
      modifies this`points, this`trace
      ensures Valid() && points == old(points)[t := Outside] && trace == old(trace) + [Refused(size)]
      ensures Continued(old(points[t]), Outside, old(trace), trace, 1)
    {
      Leaves(points[t], trace, Refused(size));
      hide Continued, Wants;
      hide StbmHeap.Valid, Hands, Legal, Replay, Remembers;
      Decline(t, Refused(size));
    }

    method GiveBackStep(t: nat, s: nat)
      requires Valid() && t < |points| && points[t] == GiveBack(s)
      modifies this, h.medium`others, h.medium.system
      ensures points == old(points)[t := Outside]
      ensures Continued(old(points[t]), points[t], old(trace), trace, Refusals() - old(Refusals()))
      ensures Valid()
    {
      hide Continued;
      hide StbmHeap.Valid, KindsStay, DataKept, Hands, Legal, Replay, Remembers, UserBlock, RegionsKept, OthersLive;
      ghost var s0, live0 := h.Snap(), h.live;
      StartOk(t);
      assert s as int in RegionIn(points[t]);
      h.Discard(s);
      NoDataLost(live0, s0.mem);
      OthersLiveSame(points[t], live0);
      KeptReturn(s0.owned, s0.others - RegionIn(points[t]), s);
      NothingInHand(h.Snap(), h.live, h.medium.align);
      Proceed(t, Outside, s0, live0);
    }

    // ---- any thread's next step ----

    /** One step of thread t; op is what its caller wants next, if it is outside. */
    method Step(t: nat, op: Op)
      requires Valid() && t < |points|
      modifies this, h, h.medium, h.medium.system, h.medium.lock, h.small, h.large
      ensures |points| == old(|points|) && points == old(points)[t := points[t]]
      ensures Advanced(old(points[t]), points[t], old(h.medium.lock.Free()))
      ensures old(points[t]).Outside? ==> Entered(op, old(|held|), points[t])
      ensures old(points[t]).Inside? ==> h.medium.lock.Free()
      ensures Recorded(old(points[t]), points[t], op, old(trace), trace, Refusals() - old(Refusals()))
      ensures old(h.medium.bk.l.pinned) <= h.medium.bk.l.pinned
      ensures Valid()
    {
      hide Continued, OneAnswer;
      hide Machine.Valid, StbmHeap.Valid, Hands, Legal, Replay, Remembers, Tracked, LockOk, SpinLock.Valid;
      hide SpinLock.Free, SpinLock.HeldBy;
      var at := points[t];
      match at
      case Outside => Enter(t, op);
      case Acquiring(_) =>
        TryLock(t);
        GoesOn(at, points[t], trace);
      case Spinning(_) =>
        Look(t);
        GoesOn(at, points[t], trace);
      case AskChunk(bytes, size, why) => AskChunkStep(t, bytes, size, why);
      case AskLarge(size) => AskLargeStep(t, size);
      case GiveBack(s) => GiveBackStep(t, s);
      case Heading(s, p, userSize, size) => HeadingStep(t, s, p, userSize, size);
      case Inside(sec) => Body(t, sec);
    }

    /** A critical section, from just after its acquire to its release. */
    method Body(t: nat, sec: Section)
      requires Valid() && t < |points| && points[t] == Inside(sec)
      modifies this, h, h.medium, h.medium.system, h.medium.lock, h.small, h.large
      ensures |points| == old(|points|) && points == old(points)[t := points[t]] && h.medium.lock.Free()
      ensures Continued(old(points[t]), points[t], old(trace), trace, Refusals() - old(Refusals()))
      ensures old(h.medium.bk.l.pinned) <= h.medium.bk.l.pinned
      ensures Leaving(sec, points[t])
      ensures Valid()
    {
      hide Continued;
      hide Machine.Valid, StbmHeap.Valid, Hands, Legal, Replay, Remembers, Tracked, LockOk, SpinLock.Valid;
      hide SpinLock.Free, SpinLock.HeldBy;
      match sec
      case SmallFirst(bytes) => SmallFirstStep(t, bytes);
      case MediumFirst(size, why) => MediumFirstStep(t, size, why);
      case MediumAgain(s, region, size, why) => MediumAgainStep(t, s, region, size, why);
      case Adopt(c, bytes) => AdoptStep(t, c, bytes);
      case LargeLink(s, size) => LargeLinkStep(t, s, size);
      case FreeOf(p) => FreeStep(t, p);
      case Drop(c) => DropStep(t, c);
    }

    /** stbm__medium_free of a block that housed a slab. */
    method DropStep(t: nat, c: nat)
      requires Valid() && t < |points| && points[t] == Inside(Drop(c))
      modifies this, h, h.medium, h.medium.lock
      ensures |points| == old(|points|) && points == old(points)[t := points[t]] && h.medium.lock.Free()
      ensures Continued(old(points[t]), points[t], old(trace), trace, Refusals() - old(Refusals()))
      ensures old(h.medium.bk.l.pinned) <= h.medium.bk.l.pinned
      ensures Freeing(points[t])
      ensures Valid()
    {
      hide Continued;
      hide StbmHeap.Valid, Hands, Legal, Replay, Remembers, UserBlock, LockOk;
      StartOk(t);
      FreeBlockStep(t, c);
    }
  }

  lemma KeepsPins(live0: map<int, int>, s0: Snapshot, live1: map<int, int>, s1: Snapshot)
    requires KindsStay(live0, s0, live1, s1)
    ensures s0.bk.l.pinned <= s1.bk.l.pinned
  {
  }

  lemma NoHand()
    ensures !Outside.Inside? && RegionIn(Outside) == {} && BlockIn(Outside) == {}
  {
  }

  lemma AskedFor(bytes: nat, size: nat, why: Purpose, s: Snapshot, live: map<int, int>, align: nat)
    requires PointOk(AskChunk(bytes, size, why), s, live, align)
    ensures bytes >= SYSTEM_HEADER
    ensures Advanced(AskChunk(bytes, size, why), Outside, true)
  {
    RoomForIs(size, align, bytes);
  }

  /** The region that the system granted is what the thread asked it for. */
  lemma ChunkInHand(bytes: nat, size: nat, why: Purpose, s0: Snapshot, s1: Snapshot, live: map<int, int>, align: nat,
                    s: nat)
    requires PointOk(AskChunk(bytes, size, why), s0, live, align) && s1.owned == s0.owned[s as int := bytes]
    ensures PointOk(Acquiring(MediumAgain(s, bytes, size, why)), s1, live, align)
    ensures Advanced(AskChunk(bytes, size, why), Acquiring(MediumAgain(s, bytes, size, why)), true)
  {
    hide RoomFor;
  }

  lemma OwnBlock(points: seq<Point>, t: nat, live: map<int, int>, callers: map<int, int>)
    requires t < |points| && live.Keys == callers.Keys + BlocksOf(points) && callers.Keys !! BlocksOf(points)
    ensures BlockIn(points[t]) <= BlocksOf(points) && BlockIn(points[t]) !! callers.Keys
  {
    hide BlockIn, BlocksOf;
    InHands(points, t);
  }

  lemma NothingInHand(s: Snapshot, live: map<int, int>, align: nat)
    ensures PointOk(Outside, s, live, align)
    ensures RegionIn(Outside) == {} && BlockIn(Outside) == {}
  {
  }

  /** A store moves no thread's hands. */
  lemma StoreHands(h: StbmHeap, points: seq<Point>, t: nat, s0: Snapshot, callers: map<int, int>)
    requires h.Valid() && Hands(points, s0, h.live, callers, h.medium.align) && t < |points| && points[t] == Outside
    requires h.Snap() == s0.(mem := h.medium.mem) && KindsStay(h.live, s0, h.live, h.Snap())
    ensures Hands(points[t := Outside], h.Snap(), h.live, callers, h.medium.align)
  {
    hide StbmHeap.Valid, KindsStay, Regions, BlocksOf;
    HandsOwned(h);
    Kept(h.medium.system.owned, h.medium.others);
    NothingInHand(h.Snap(), h.live, h.medium.align);
    Stepped(points, t, Outside, s0, h.Snap(), h.live, h.live, callers, callers, h.medium.align);
  }

  lemma Unmoved(live: map<int, int>, s: Snapshot)
    ensures KindsStay(live, s, live, s)
  {
  }

  lemma ServedIs(live0: map<int, int>, live1: map<int, int>, p: nat, size: nat, align: nat)
    requires Served(live0, live1, p, size, align) && p != 0
    ensures p in live1 && live1[p] >= size && p % 16 == 0 && align > 0
    ensures (size > SMALLEST_ALLOCATION ==> p % align == 0)
  {
  }

  lemma KeptFewer(owned0: map<int, nat>, owned1: map<int, nat>, hands: set<int>, mine: set<int>)
    requires RegionsKept(owned0, owned1, hands)
    ensures RegionsKept(owned0, owned1, hands - mine)
  {
    forall r | r in hands - mine ensures r in owned0 && r in owned1 && owned1[r] == owned0[r] {
      assert r in hands;
    }
  }

  lemma AlignedSmall(h: StbmHeap)
    requires h.Valid()
    ensures h.medium.align > 0
  {
    hide Core, SysOk, SlabsOk, Settled, AlignmentOk, LargesOk, Refines, Counted;
    MediumParts(h.medium);
    AlignmentFacts(h.medium.align, h.medium.alignLog);
  }

  lemma AdoptedLive(pt: Point, live0: map<int, int>, live1: map<int, int>, c: nat, p: nat)
    requires BlockIn(pt) == {c as int} && c in live0 && p !in live0 - {c as int}
    requires live1 == (live0 - {c as int})[p as int := SMALLEST_ALLOCATION]
    ensures OthersLive(pt, live0, live1) && live1.Keys == live0.Keys - {c as int} + {p as int}
    ensures p !in live0.Keys - {c as int}
  {
  }

  lemma FreedOthers(pt: Point, live0: map<int, int>, live1: map<int, int>, p: nat)
    requires BlockIn(pt) == {p as int} && live1 == live0 - {p as int}
    ensures OthersLive(pt, live0, live1) && live1.Keys == live0.Keys - {p as int}
  {
  }

  lemma EmptiedOthers(pt: Point, live0: map<int, int>, live1: map<int, int>, p: nat, c: nat)
    requires BlockIn(pt) == {p as int} && c !in live0 && c in live1
    requires live1 == (live0 - {p as int})[c as int := live1[c]]
    ensures OthersLive(pt, live0, live1) && live1.Keys == live0.Keys - {p as int} + {c as int}
  {
  }

  lemma OthersLiveSame(pt: Point, live: map<int, int>)
    ensures OthersLive(pt, live, live)
  {
  }

  /** What a valid machine means for its threads: at most one is inside a section, and the lock word tells whether one
      is; what two threads have in hand is disjoint. */
  lemma MutualExclusion(m: Machine, t: nat, u: nat)
    requires m.Valid() && t < |m.points| && u < |m.points|
    ensures m.points[t].Inside? && m.points[u].Inside? ==> t == u
    ensures m.points[t].Inside? <==> m.h.medium.lock.HeldBy(t)
    ensures m.h.medium.lock.word == 0 <==> forall v {:trigger m.points[v]} :: 0 <= v < |m.points| ==>
      !m.points[v].Inside?
    ensures t != u ==> RegionIn(m.points[t]) !! RegionIn(m.points[u]) && BlockIn(m.points[t]) !! BlockIn(m.points[u])
    ensures RegionIn(m.points[t]) <= m.h.medium.others && BlockIn(m.points[t]) <= m.h.live.Keys
  {
    hide StbmHeap.Valid, RegionIn, BlockIn, PointOk, Legal, Replay, Remembers;
    InHands(m.points, t);
    if t != u {
      assert HandsApart(m.points, t, u);
    }
    if m.h.medium.lock.word != 0 {
      assert m.points[m.h.medium.lock.holder].Inside?;
    }
  }

  /** A waiting thread is never stuck: it can take a free lock, or the one inside leaves with its next step. */
  lemma SomeoneInside(m: Machine, t: nat)
    requires m.Valid() && t < |m.points| && (m.points[t].Acquiring? || m.points[t].Spinning?)
    ensures m.h.medium.lock.Free() || exists u {:trigger m.points[u]} ::
      0 <= u < |m.points| && u != t && m.points[u].Inside?
  {
    hide StbmHeap.Valid, Hands, Legal, Replay, Remembers;
    if !m.h.medium.lock.Free() {
      assert m.points[m.h.medium.lock.holder].Inside?;
    }
  }

  /** Callers' allocations overlap neither each other nor anything a thread has in hand, and hold what was stored. */
  lemma CallersSafe(m: Machine, p: int, q: int)
    requires m.Valid() && p in Replay(m.trace).live && q in m.h.live && p != q
    ensures p in m.h.live && m.h.live[p] == Replay(m.trace).live[p] && Apart(p, m.h.live[p], q, m.h.live[q])
    ensures Remembers(m.h.medium.mem, Replay(m.trace))
  {
    hide StbmHeap.Valid, Legal, Replay, Remembers, PointOk;
    Heap.LiveApart(m.h, p, q);
  }

  /** Every region is in one place: the heap structure, the list, the cache, or one thread's hand. */
  lemma Conservation(m: Machine)
    requires m.Valid()
    ensures var d := m.h.medium;
      && d.system.owned.Keys == {d.heap as int} + Members(d.ring) + Cached(d.cached) + Regions(m.points)
      && Members(d.ring) !! Cached(d.cached) && Members(d.ring) !! Regions(m.points)
        && Cached(d.cached) !! Regions(m.points)
      && d.heap !in Members(d.ring) && d.heap !in Regions(m.points) && d.heap != d.cached
  {
    hide Core, SlabsOk, Settled, AlignmentOk, LargesOk, Refines, Counted, Legal, Replay, Remembers, PointOk;
    hide RegionIn, Regions;
  }

  /** When every thread is outside, nothing is in any hand: the heap is idle, and its live allocations are exactly
      what callers have. */
  lemma Quiescence(m: Machine)
    requires m.Valid() && forall t {:trigger m.points[t]} :: 0 <= t < |m.points| ==> m.points[t] == Outside
    ensures m.h.Idle() && m.h.medium.others == {} && m.h.live == Replay(m.trace).live
    ensures var d := m.h.medium; d.system.owned.Keys == {d.heap as int} + Members(d.ring) + Cached(d.cached)
  {
    hide StbmHeap.Valid, Legal, Replay, Remembers, PointOk, Members;
    Conservation(m);
    assert Regions(m.points) == {} && BlocksOf(m.points) == {} && Bares(m.points) == {};
    var callers := Replay(m.trace).live;
    assert m.h.live.Keys == callers.Keys;
    assert forall p :: p in callers ==> m.h.live[p] == callers[p];
    assert m.h.live == callers;
    if m.h.medium.lock.holder >= 0 {
      HolderInside(m.points, m.h.medium.lock.holder);
    }
  }

  lemma HolderInside(points: seq<Point>, holder: nat)
    requires LockOk(points, holder)
    ensures holder < |points| && points[holder].Inside?
  {
  }
}
