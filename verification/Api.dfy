/** The API: userdata, explicitly aligned blocks, and sizes, over the dispatch layer. Sequential, as the API writes
    prefixes outside the allocator's lock. */
module Api {
  import opened Bits
  import opened Memory
  import opened Words
  import opened SizeClasses
  import opened Blocks
  import opened Tags
  import opened Tlsf
  import opened HeapView
  import opened HeapSteps
  import opened Heap
  import opened Tally
  import opened Aligned
  import opened Spinning
  import opened SystemMemory
  import Counters
  import Large
  import MediumSteps
  import MediumSystem
  import Ring
  import Slab
  import Small
  import SmallSteps

  const MAX_REQUEST: nat := WORD64 - 0x4_0000_0000

  /** Aligned pointer p stands for underlying allocation b, and the words around say so. */
  ghost predicate WrapOk(mem: Memory, live: map<int, int>, p: int, b: int) {
    && b in live && b + WRAPPER_BYTES <= p <= b + live[b] && live[b] > SMALLEST_ALLOCATION
    && Read(mem, p - 16) == b && Type(Read(mem, p - 8)) == TYPE_ALIGNED && Read(mem, b) == p
  }

  /** Aligned pointers and the allocations under them correspond one to one. */
  ghost predicate WrapsOk(mem: Memory, live: map<int, int>, wrapped: map<int, int>) {
    && (forall p {:trigger WrapOk(mem, live, p, wrapped[p])} :: p in wrapped ==> WrapOk(mem, live, p, wrapped[p]))
    && (forall p, q :: p in wrapped && q in wrapped && wrapped[p] == wrapped[q] ==> p == q)
  }

  /** What callers hold: aligned pointers, and allocations that are not under one. */
  ghost predicate Held(live: map<int, int>, wrapped: map<int, int>, p: int) {
    p in wrapped || (p in live && !IsBase(wrapped, p))
  }

  /** b underlies an aligned pointer. */
  ghost predicate IsBase(wrapped: map<int, int>, b: int) {
    exists t {:trigger wrapped[t]} :: t in wrapped && wrapped[t] == b
  }

  /** The usable size of what the caller holds; an aligned block extends to the end of the one underneath. */
  function SizeOf(live: map<int, int>, wrapped: map<int, int>, p: int): int {
    if p in wrapped then (if wrapped[p] in live then wrapped[p] + live[wrapped[p]] - p else 0)
    else if p in live then live[p] else 0
  }

  ghost predicate Same(live0: map<int, int>, wrapped0: map<int, int>, live1: map<int, int>, wrapped1: map<int, int>,
                       x: int) {
    forall q {:trigger Held(live1, wrapped1, q)} :: q != x ==>
      && (Held(live1, wrapped1, q) <==> Held(live0, wrapped0, q))
      && (Held(live0, wrapped0, q) ==> SizeOf(live1, wrapped1, q) == SizeOf(live0, wrapped0, q))
  }

  /** Data and userdata of what the caller holds before and after are unchanged. */
  ghost predicate UserKept(m0: Memory, live0: map<int, int>, wrapped0: map<int, int>,
                           m1: Memory, live1: map<int, int>, wrapped1: map<int, int>) {
    && (forall q, w {:trigger Held(live1, wrapped1, q), Read(m1, w)} ::
          Held(live0, wrapped0, q) && Held(live1, wrapped1, q) && q <= w && w + 8 <= q + SizeOf(live1, wrapped1, q) ==>
            Read(m1, w) == Read(m0, w))
    && (forall q {:trigger UserdataOf(m1, q)} :: Held(live0, wrapped0, q) && Held(live1, wrapped1, q) ==>
          UserdataOf(m1, q) == UserdataOf(m0, q))
  }

  /** How a request that needs no explicit alignment reaches the layer below: as it is, except that a small one that may
      not be a cell asks for nine bytes. */
  ghost predicate Routed(s0: Snapshot, s1: Snapshot, p: nat, size: nat, cell: bool, minimum: nat) {
    if size <= SMALLEST_ALLOCATION && cell then SmallServed(s0, s1, p, minimum)
    else if size <= SMALLEST_ALLOCATION then MediumServed(s0, s1, p, 9, minimum)
    else ServedBy(s0, s1, p, size, minimum)
  }

  /** The size it then has. */
  function Enlarged(size: nat, cell: bool): nat {
    if size <= SMALLEST_ALLOCATION && !cell then 9 else size
  }

  /** How one that needs it does: with so many bytes more. */
  ghost predicate RoutedAligned(s0: Snapshot, s1: Snapshot, base: int, size: nat, off: nat, align: nat, minimum: nat) {
    1 <= align <= WORD64 && base >= 0 && ServedBy(s0, s1, base, ExtraBytes(off, align, minimum) + size, minimum)
  }

  class StbmApi {
    const h: StbmHeap
    const alignAll: bool          // align_all_blocks_to_minimum
    ghost var wrapped: map<int, int>

    ghost predicate Valid()
      reads this, h, h.medium, h.medium.system, h.medium.lock, h.small, h.large
    {
      h.Idle() && WrapsOk(h.medium.mem, h.live, wrapped)
    }

    constructor (h: StbmHeap, alignAll: bool)
      requires h.Idle() && h.live == map[]
      ensures Valid() && this.h == h && this.alignAll == alignAll && wrapped == map[]
    {
      hide StbmHeap.Valid;
      this.h, this.alignAll := h, alignAll;
      wrapped := map[];
    }

    /** stbm__alloc_normal: small requests that carry userdata are enlarged, as only larger blocks have room for it. */
    method AllocNormal(size: nat, userdata: nat) returns (p: nat)
      requires Valid() && size < MAX_REQUEST && userdata < 0x1_0000
      modifies h, h.medium, h.medium.system, h.medium.lock, h.small, h.large
      ensures Valid() && wrapped == old(wrapped)
      ensures h.medium.system.refusals == old(h.medium.system.refusals) + if p == 0 then 1 else 0
      ensures p != 0 ==>
        !Held(old(h.live), wrapped, p) && Held(h.live, wrapped, p) && SizeOf(h.live, wrapped, p) >= size
      ensures p != 0 ==>
        p % 16 == 0 && h.medium.align > 0 && (size > SMALLEST_ALLOCATION || userdata != 0 ==> p % h.medium.align == 0)
      ensures p != 0 ==> UserdataOf(h.medium.mem, p) == userdata
      ensures size <= SMALLEST_ALLOCATION && userdata == 0 && p != 0 ==>
        Small.CellGiven(old(h.small.slabs), h.small.slabs, p)
      ensures Routed(old(h.Snap()), h.Snap(), p, size, userdata == 0, h.medium.align)
      ensures p != 0 ==> Measured(SizeOf(h.live, wrapped, p), Enlarged(size, userdata == 0), h.medium.align)
      ensures Same(old(h.live), wrapped, h.live, wrapped, p)
      ensures UserKept(old(h.medium.mem), old(h.live), wrapped, h.medium.mem, h.live, wrapped)
    {
      hide StbmHeap.Valid, Type, SetUserdata, Userdata, WrapsOk, Same, UserKept, DataKept, UserdataKept;
      hide SameBlockFields;
      hide PreviousAlloc, ServedBy, Routed;
      hide UserdataOf, Read;
      ghost var m0, live0, s0 := h.medium.mem, h.live, h.Snap();
      var plain := size <= SMALLEST_ALLOCATION && userdata == 0;
      p := h.HeapAlloc(if plain || size > SMALLEST_ALLOCATION then size else SMALLEST_ALLOCATION + 1);
      ghost var s1 := h.Snap();
      if p != 0 {
        ExactSize(h, s0, p, Enlarged(size, userdata == 0));
      }
      if p != 0 && !plain {
        ghost var m1 := h.medium.mem;
        PrefixFacts(h, p, userdata);
        h.Stamp(p, SetUserdata(Read(h.medium.mem, p - 8), userdata));
        KeptTwice(live0, h.live, m0, m1, h.medium.mem, p);
        Stamped(m1, p, userdata);
      } else if p != 0 {
        GivenIsLive(old(h.small.slabs), h.small.slabs, p);
        CellUserdata(h, p);
      }
      ServedStays(s0, s1, h.Snap(), p, if plain || size > SMALLEST_ALLOCATION then size else SMALLEST_ALLOCATION + 1,
                  h.medium.align);
      RoutedHere(s0, h.Snap(), p, size, userdata == 0, h.medium.align);
      WrapsStay(m0, live0, wrapped, h.medium.mem, h.live);
      LiveNotWrapped(h, wrapped);
      Grown(m0, live0, wrapped, h.medium.mem, h.live, p);
    }

    /** stbm__alloc_align: an aligned block inside a larger one. */
    method AllocAligned(size: nat, userdata: nat, align: nat, off: nat, ghost k: nat) returns (p: nat)
      requires Valid() && size < MAX_REQUEST && userdata < 0x1_0000
      requires k <= MAX_ALIGN_LOG && align == Pow2(k) && off < align
      modifies this`wrapped, h, h.medium, h.medium.system, h.medium.lock, h.small, h.large
      ensures Valid()
      ensures p == 0 ==> wrapped == old(wrapped)
      ensures h.medium.system.refusals == old(h.medium.system.refusals) + if p == 0 then 1 else 0
      ensures p != 0 ==>
        !Held(old(h.live), old(wrapped), p) && Held(h.live, wrapped, p) && SizeOf(h.live, wrapped, p) >= size
      ensures p != 0 ==> p % align == off && UserdataOf(h.medium.mem, p) == userdata
      ensures p != 0 ==> p in wrapped && p !in old(wrapped)
      ensures RoutedAligned(old(h.Snap()), h.Snap(), if p == 0 then 0 else wrapped[p], size, off, align, h.medium.align)
      ensures Same(old(h.live), old(wrapped), h.live, wrapped, p)
      ensures UserKept(old(h.medium.mem), old(h.live), old(wrapped), h.medium.mem, h.live, wrapped)
    {
      hide StbmHeap.Valid, Type, SetUserdata, Userdata, WrapsOk, Same, UserKept, DataKept, UserdataKept;
      hide SameBlockFields;
      hide PreviousAlloc;
      hide UserdataOf, Read, Pow2, ExtraBytes, AlignAddress, SetWrapped, ServedBy;
      ghost var m0, live0, wrapped0, s0 := h.medium.mem, h.live, wrapped, h.Snap();
      MinimumAlignment(h);
      ExtraBounds(off, k, h.medium.align);
      var total := ExtraBytes(off, align, h.medium.align) + size;
      var base := h.HeapAlloc(total);
      if base == 0 {
        WrapsStay(m0, live0, wrapped, h.medium.mem, h.live);
        LiveNotWrapped(h, wrapped);
        Grown(m0, live0, wrapped, h.medium.mem, h.live, 0);
        return 0;
      }
      ghost var m1, s1 := h.medium.mem, h.Snap();
      PrefixFacts(h, base, 0);
      h.Stamp(base, SetWrapped(Read(h.medium.mem, base - 8)));
      KeptTwice(live0, h.live, m0, m1, h.medium.mem, base);
      AlignedFits(base, off, k, h.medium.alignLog);
      p := AlignAddress(base + WRAPPER_BYTES, align, off);
      FillWrapper(base, p, SetUserdata(TYPE_ALIGNED, userdata), m0, live0);
      AlignedPrefix(h.medium.mem, p, userdata);
      NewWrap(h, m0, live0, wrapped0, base, p);
      wrapped := wrapped[p as int := base];
      LiveNotWrapped(h, wrapped);
      WrappedUp(m0, live0, wrapped0, h.medium.mem, h.live, p, base);
      ServedStays(s0, s1, h.Snap(), base, total, h.medium.align);
    }

    /** The two headers of an aligned block: its prefix, the way back to the base, and the base's pointer to it. */
    method FillWrapper(base: nat, p: nat, prefix: nat, ghost m0: Memory, ghost live0: map<int, int>)
      requires h.Idle() && base in h.live && base !in live0 && base + WRAPPER_BYTES <= p <= base + h.live[base]
      requires h.live == live0[base as int := h.live[base]]
      requires DataKept(live0, h.live, m0, h.medium.mem) && UserdataKept(live0, h.live, {}, m0, h.medium.mem)
      modifies h.medium`mem
      ensures h.Idle() && DataKept(live0, h.live, m0, h.medium.mem) && UserdataKept(live0, h.live, {}, m0, h.medium.mem)
      ensures Read(h.medium.mem, p - 16) == base && Read(h.medium.mem, p - 8) == prefix && Read(h.medium.mem, base) == p
    {
      hide StbmHeap.Valid, DataKept, UserdataKept, Read;
      ghost var m1 := h.medium.mem;
      StoreElsewhere(h, live0, m0, base, p - 16, base);
      h.Store(base, p - 16, base);
      UserdataTrans(live0, h.live, h.live, {}, m0, m1, h.medium.mem);
      ghost var m2 := h.medium.mem;
      StoreElsewhere(h, live0, m0, base, p - 8, prefix);
      h.Store(base, p - 8, prefix);
      UserdataTrans(live0, h.live, h.live, {}, m0, m2, h.medium.mem);
      ghost var m3 := h.medium.mem;
      StoreElsewhere(h, live0, m0, base, base, p);
      h.Store(base, base, p);
      UserdataTrans(live0, h.live, h.live, {}, m0, m3, h.medium.mem);
    }

    /** stbm_alloc, with neither debugging nor a thread cache. */
    method Alloc(size: nat, userdata: nat) returns (p: nat)
      requires Valid() && size < MAX_REQUEST && userdata < 0x1_0000
      modifies h, h.medium, h.medium.system, h.medium.lock, h.small, h.large
      ensures Valid() && wrapped == old(wrapped)
      ensures h.medium.system.refusals == old(h.medium.system.refusals) + if p == 0 then 1 else 0
      ensures p != 0 ==>
        !Held(old(h.live), wrapped, p) && Held(h.live, wrapped, p) && SizeOf(h.live, wrapped, p) >= size
      ensures p != 0 ==> p % 16 == 0 && h.medium.align > 0
      ensures p != 0 && (alignAll || size > SMALLEST_ALLOCATION || userdata != 0) ==> p % h.medium.align == 0
      ensures p != 0 ==> UserdataOf(h.medium.mem, p) == userdata
      ensures size <= SMALLEST_ALLOCATION && userdata == 0 && !(alignAll && h.medium.align > 16) && p != 0 ==>
        Small.CellGiven(old(h.small.slabs), h.small.slabs, p) && SizeOf(h.live, wrapped, p) == SMALLEST_ALLOCATION
      ensures Routed(old(h.Snap()), h.Snap(), p, size, userdata == 0 && !(alignAll && h.medium.align > 16),
                     h.medium.align)
      ensures p != 0 ==>
        Measured(SizeOf(h.live, wrapped, p), Enlarged(size, userdata == 0 && !(alignAll && h.medium.align > 16)),
                 h.medium.align)
      ensures Same(old(h.live), wrapped, h.live, wrapped, p)
      ensures UserKept(old(h.medium.mem), old(h.live), wrapped, h.medium.mem, h.live, wrapped)
    {
      hide StbmHeap.Valid, WrapsOk, Same, UserKept, UserdataOf, SizeOf, SmallServed, MediumServed, LargeServed;
      hide ClassFor;
      MinimumAlignment(h);
      var bytes := size;
      if size <= SMALLEST_ALLOCATION && alignAll && h.medium.align > 16 {
        bytes := SMALLEST_ALLOCATION + 1;
      }
      p := AllocNormal(bytes, userdata);
    }

    /** stbm_alloc_align. The one case in which alignment above 16 is not promised: a small request without
        userdata, on a heap that does not force small blocks to its minimum alignment. */
    method AllocAlign(size: nat, userdata: nat, alignment: nat, offset: nat, ghost k: nat) returns (p: nat)
      requires Valid() && size < MAX_REQUEST && userdata < 0x1_0000
      requires alignment == 0 || (k <= MAX_ALIGN_LOG && alignment == Pow2(k) && offset < alignment)
      modifies this`wrapped, h, h.medium, h.medium.system, h.medium.lock, h.small, h.large
      ensures Valid()
      ensures p == 0 ==> wrapped == old(wrapped)
      ensures h.medium.system.refusals == old(h.medium.system.refusals) + if p == 0 then 1 else 0
      ensures p != 0 ==>
        !Held(old(h.live), old(wrapped), p) && Held(h.live, wrapped, p) && SizeOf(h.live, wrapped, p) >= size
      ensures var align, off := Effective(alignment, h.medium.align), if alignment == 0 then 0 else offset;
        p != 0 && align > 0 && Promised(size, userdata, alignment, offset, h.medium.align, alignAll) ==>
          p % align == off
      ensures p != 0 ==> UserdataOf(h.medium.mem, p) == userdata
      ensures p != 0 && offset == 0 && alignment <= h.medium.align && size <= SMALLEST_ALLOCATION && !alignAll ==>
        userdata == 0 ==>
          Small.CellGiven(old(h.small.slabs), h.small.slabs, p) && SizeOf(h.live, wrapped, p) == SMALLEST_ALLOCATION
      ensures offset == 0 && alignment <= h.medium.align && (size > SMALLEST_ALLOCATION || !alignAll) ==>
        && wrapped == old(wrapped) && Routed(old(h.Snap()), h.Snap(), p, size, userdata == 0, h.medium.align)
        && (p != 0 ==> Measured(SizeOf(h.live, wrapped, p), Enlarged(size, userdata == 0), h.medium.align))
      ensures offset != 0 || alignment > h.medium.align || (size <= SMALLEST_ALLOCATION && alignAll) ==>
        && (p != 0 ==> p in wrapped && p !in old(wrapped))
        && RoutedAligned(old(h.Snap()), h.Snap(), if p == 0 then 0 else wrapped[p], size,
                         if alignment == 0 then 0 else offset, Effective(alignment, h.medium.align), h.medium.align)
      ensures Same(old(h.live), old(wrapped), h.live, wrapped, p)
      ensures UserKept(old(h.medium.mem), old(h.live), old(wrapped), h.medium.mem, h.live, wrapped)
    {
      hide StbmHeap.Valid, WrapsOk, Same, UserKept, UserdataOf, Pow2, SizeOf, Routed, RoutedAligned, ClassFor;
      MinimumAlignment(h);
      if offset == 0 && alignment <= h.medium.align && (size > SMALLEST_ALLOCATION || !alignAll) {
        p := AllocNormal(size, userdata);
        if p != 0 && alignment != 0 {
          Divides(p, k, h.medium.alignLog, 4);
        }
      } else if alignment == 0 {
        p := AllocAligned(size, userdata, h.medium.align, 0, h.medium.alignLog);
      } else {
        p := AllocAligned(size, userdata, alignment, offset, k);
      }
    }

    /** stbm_free. */
    method Free(p: nat)
      requires Valid() && (p == 0 || Held(h.live, wrapped, p))
      modifies this`wrapped, h, h.medium, h.medium.system, h.medium.lock, h.small, h.large
      ensures Valid() && (p != 0 ==> !Held(h.live, wrapped, p))
      ensures h.medium.system.refusals == old(h.medium.system.refusals)
      ensures p != 0 ==> FreedBy(old(h.Snap()), h.Snap(), BaseOf(old(wrapped), p), h.medium.policy)
      ensures Same(old(h.live), old(wrapped), h.live, wrapped, p)
      ensures UserKept(old(h.medium.mem), old(h.live), old(wrapped), h.medium.mem, h.live, wrapped)
    {
      hide StbmHeap.Valid, Type, WrapsOk, Same, UserKept, DataKept, UserdataKept, Read, FreedBy;
      ghost var m0, live0, wrapped0 := h.medium.mem, h.live, wrapped;
      LiveNotWrapped(h, wrapped);
      if p != 0 {
        Kind(h, wrapped, p);
        var prefix := Read(h.medium.mem, p - 8);
        if !AlignDebug(prefix) {
          h.HeapFree(p);
          StillMapped(m0, live0, wrapped, p);
          WrapsStay(m0, live0, wrapped, h.medium.mem, h.live);
        } else {
          assert Type(prefix) == TYPE_ALIGNED;   // otherwise the header is invalid
          var base := Read(h.medium.mem, p - 16);
          h.HeapFree(base);
          wrapped := wrapped - {p as int};
          Unwrapped(m0, live0, wrapped0, p);
          WrapsStay(m0, live0, wrapped, h.medium.mem, h.live);
        }
        LiveNotWrapped(h, wrapped);
        Shrunk(m0, live0, wrapped0, h.medium.mem, h.live, wrapped, p);
      } else {
        NothingFreed(h, wrapped);
      }
    }

    /** A caller stores a word in what it holds. */
    method Store(p: nat, w: nat, v: nat)
      requires Valid() && Held(h.live, wrapped, p) && p <= w && w + 8 <= p + SizeOf(h.live, wrapped, p)
      modifies h.medium`mem
      ensures Valid() && h.medium.mem == Write(old(h.medium.mem), w, v)
      ensures forall q {:trigger UserdataOf(h.medium.mem, q)} :: Held(h.live, wrapped, q) ==>
        UserdataOf(h.medium.mem, q) == UserdataOf(old(h.medium.mem), q)
    {
      hide StbmHeap.Valid, Type, WrapsOk, UserdataKept, Read, Write, UserdataOf, Held, SizeOf;
      ghost var m0 := h.medium.mem;
      var b := p;
      Kind(h, wrapped, p);
      if Type(Read(h.medium.mem, p - 8)) == TYPE_ALIGNED {
        b := Read(h.medium.mem, p - 16);
      }
      HeldIn(m0, h.live, wrapped, p);
      StoreNotWrapper(h, wrapped, p, w, v);
      h.Store(b, w, v);
      UserdataStays(m0, h.medium.mem, h.live, wrapped);
    }

    /** stbm_get_allocation_size. */
    method GetAllocationSize(p: nat) returns (size: int)
      requires Valid() && Held(h.live, wrapped, p)
      ensures size == SizeOf(h.live, wrapped, p) && size >= 0
    {
      hide StbmHeap.Valid, Type, WrapsOk, Read;
      Kind(h, wrapped, p);
      var prefix := Read(h.medium.mem, p - 8);
      if Type(prefix) == TYPE_ALIGNED {
        var base := Read(h.medium.mem, p - 16);
        var whole := h.GetAllocationSize(base);
        size := base + whole - p;
      } else {
        size := h.GetAllocationSize(p);
      }
    }
  }

  /** Writing memory does not change how a request was served. */
  lemma ServedStays(s0: Snapshot, s1: Snapshot, s2: Snapshot, p: nat, size: nat, align: nat)
    requires ServedBy(s0, s1, p, size, align) && s2 == s1.(mem := s2.mem)
    ensures ServedBy(s0, s2, p, size, align)
  {
    hide Allocated, ClassFor, NoneFrom, Small.SmallTaken, Small.NoCellLeft, Small.NewSlabGives;
    if size <= SMALLEST_ALLOCATION {
      if p != 0 && !Small.SmallTaken(s0.slabs, s1.slabs, p - 8) {
        var c: nat :| Small.NewSlabGives(s0.slabs, s1.slabs, c, p) && c != 0
          && BlockServed(s0, s1, c, Slab.CHUNK_SIZE, align);
        assert BlockServed(s0, s2, c, Slab.CHUNK_SIZE, align);
      }
    }
  }

  lemma RoutedHere(s0: Snapshot, s1: Snapshot, p: nat, size: nat, cell: bool, minimum: nat)
    requires var plain := size <= SMALLEST_ALLOCATION && cell;
      ServedBy(s0, s1, p, if plain || size > SMALLEST_ALLOCATION then size else SMALLEST_ALLOCATION + 1, minimum)
    ensures Routed(s0, s1, p, size, cell, minimum)
  {
    hide SmallServed, MediumServed, LargeServed;
  }

  predicate AlignDebug(prefix: nat) {
    And(prefix, 1) != 0
  }

  /** The requests that stbm_alloc_align serves as stbm_alloc would. */
  predicate NoWrapper(size: nat, alignment: nat, offset: nat, minimum: nat, alignAll: bool) {
    offset == 0 && alignment <= minimum && (size > SMALLEST_ALLOCATION || !alignAll)
  }

  /** The requests that stbm_alloc_align hands to the small allocator. */
  predicate CellServed(size: nat, userdata: nat, alignment: nat, offset: nat, minimum: nat, alignAll: bool) {
    offset == 0 && alignment <= minimum && size <= SMALLEST_ALLOCATION && userdata == 0 && !alignAll
  }

  /** The alignment that a request asks for; 0 stands for the heap's minimum. */
  function Effective(alignment: nat, minimum: nat): nat {
    if alignment == 0 then minimum else alignment
  }

  /** Whether stbm_alloc_align always returns what was asked for. */
  predicate Promised(size: nat, userdata: nat, alignment: nat, offset: nat, minimum: nat, alignAll: bool) {
    Effective(alignment, minimum) <= 16 || !CellServed(size, userdata, alignment, offset, minimum, alignAll)
  }

  /** The first two cells that a fresh heap gives out are neighbours. */
  lemma FirstCells(slabs1: SmallSteps.Slabs, slabs2: SmallSteps.Slabs, p: int, q: int)
    requires Small.CellGiven(map[], slabs1, p) && Small.CellGiven(slabs1, slabs2, q)
    ensures q == p - Slab.CELL
  {
    hide Slab.IsCell;
    var c :| Small.NewSlabGives(map[], slabs1, c, p);
    var k0 := Slab.Cells({}, []);
    FirstOf(slabs1, c, p - 8);
    var k1 := slabs1[c];
    LowerCell(c, p - 8);
    SecondOf(slabs1, slabs2, c, p - 8, q);
  }

  lemma FirstOf(slabs1: SmallSteps.Slabs, c: int, x: int)
    requires Small.SmallTaken(map[c := Slab.Cells({}, [])], slabs1, x)
    ensures slabs1 == map[c := Slab.Cells({x}, [])] && Slab.IsCell(c, x) && x == c + Slab.LAST_CELL
  {
    var slabs0 := map[c := Slab.Cells({}, [])];
    var d :| SmallSteps.LiveIn(slabs1, d, x) && d in slabs0 && Small.Taken(slabs0[d], d, x)
        && slabs1 == slabs0[d := Small.After(slabs0[d], x)];
    assert d == c && {} + {x} == {x};
    assert Slab.IsCell(c, c + Slab.LAST_CELL);
  }

  lemma LowerCell(c: int, x: int)
    requires x == c + Slab.LAST_CELL
    ensures Slab.IsCell(c, x - Slab.CELL)
    ensures forall y {:trigger Slab.IsCell(c, y)} :: Slab.IsCell(c, y) && y > x - Slab.CELL ==> y == x
  {
  }

  lemma SecondOf(slabs1: SmallSteps.Slabs, slabs2: SmallSteps.Slabs, c: int, x: int, q: int)
    requires slabs1 == map[c := Slab.Cells({x}, [])] && x == c + Slab.LAST_CELL && Small.CellGiven(slabs1, slabs2, q)
    ensures q - 8 == x - Slab.CELL
  {
    LowerCell(c, x);
    assert Slab.IsCell(c, x - Slab.CELL) && x - Slab.CELL !in slabs1[c].live;
    assert Small.SmallTaken(slabs1, slabs2, q - 8);
    var d :| SmallSteps.LiveIn(slabs2, d, q - 8) && d in slabs1 && Small.Taken(slabs1[d], d, q - 8)
        && slabs2 == slabs1[d := Small.After(slabs1[d], q - 8)];
    assert d == c;
  }

  /** Every request that is not promised its alignment can miss it: of the first two such requests to a fresh heap, one
      does. lilith's own heaps have minimum alignment 16, so no request of theirs is of this kind. */
  method Misaligned(system: System, lock: SpinLock, heap: nat, align: nat, ghost alignLog: nat, mem: Memory,
                    policy: CachePolicy, size: nat, alignment: nat, ghost k: nat)
    returns (api: StbmApi, p: nat, q: nat)
    requires AlignmentOk(align, alignLog) && lock.Free()
    requires heap > 0 && heap in system.owned && system.owned == map[heap as int := system.owned[heap]]
    requires system.owned[heap] >= MediumSystem.HEAP_BYTES
    requires alignment == 0 || (k <= MAX_ALIGN_LOG && alignment == Pow2(k))
    requires !Promised(size, 0, alignment, 0, align, false)
    modifies system, lock
    ensures fresh(api) && api.Valid() && api.h.medium.system == system
    ensures api.h.medium.align == align && !api.alignAll
    ensures system.refusals == old(system.refusals) + (if p == 0 then 1 else 0) + if q == 0 then 1 else 0
    ensures p != 0 ==> Held(api.h.live, api.wrapped, p) && SizeOf(api.h.live, api.wrapped, p) == SMALLEST_ALLOCATION
    ensures q != 0 ==> Held(api.h.live, api.wrapped, q) && SizeOf(api.h.live, api.wrapped, q) == SMALLEST_ALLOCATION
    ensures p != 0 && q != 0 ==> p % Effective(alignment, align) != 0 || q % Effective(alignment, align) != 0
  {
    hide StbmHeap.Idle, StbmApi.Valid, Pow2, UserKept, UserdataOf, Held, SizeOf, Small.CellGiven;
    hide Routed, RoutedAligned, Measured;
    var h := new StbmHeap(system, lock, heap, align, alignLog, mem, policy);
    api := new StbmApi(h, false);
    p := api.AllocAlign(size, 0, alignment, 0, k);
    ghost var slabs1 := h.small.slabs;
    q := api.AllocAlign(size, 0, alignment, 0, k);
    if p != 0 && q != 0 {
      FirstCells(slabs1, h.small.slabs, p, q);
      NotBoth(q, p, Effective(alignment, align));
    }
  }

  lemma NotBoth(q: nat, p: nat, align: nat)
    requires p == q + 16 && align > 16
    ensures !(p % align == 0 && q % align == 0)
  {
    if p % align == 0 && q % align == 0 {
      MultipleGap(q, p, align);
    }
  }

  lemma MinimumAlignment(h: StbmHeap)
    requires h.Valid()
    ensures 4 <= h.medium.alignLog <= 19 && h.medium.align == Pow2(h.medium.alignLog)
    ensures 16 <= h.medium.align <= 0x8_0000
  {
    hide MediumHeap.Accounted, MediumSteps.Core, MediumSystem.SysOk, SmallSteps.SlabsOk, Large.LargesOk, Refines;
    hide Counters.Counted, Pow2;
    AlignmentFacts(h.medium.align, h.medium.alignLog);
  }

  /** A multiple of the heap's alignment, or of 16, is one of any smaller power of two. */
  lemma Divides(p: nat, k: nat, minLog: nat, four: nat)
    requires four == 4 && k <= MAX_ALIGN_LOG && p % 16 == 0
    ensures Pow2(k) >= 1
    ensures Pow2(k) <= 16 ==> p % Pow2(k) == 0
    ensures Pow2(k) <= Pow2(minLog) && p % Pow2(minLog) == 0 ==> p % Pow2(k) == 0
  {
    hide Pow2;
    Pow2Mono(0, k);
    SmallPowers();
    if Pow2(k) <= 16 {
      Pow2Order(k, 4);
      Pow2Divides(k, 4);
      MultipleTrans(p, 16, Pow2(k));
    }
    if Pow2(k) <= Pow2(minLog) && p % Pow2(minLog) == 0 {
      Pow2Order(k, minLog);
      Pow2Divides(k, minLog);
      Pow2Mono(0, minLog);
      MultipleTrans(p, Pow2(minLog), Pow2(k));
    }
  }

  // ---- prefixes ----

  /** A live allocation of more than a cell has a prefix that userdata and the wrapped flag can be set in. */
  lemma PrefixFacts(h: StbmHeap, p: nat, u: nat)
    requires h.Idle() && p in h.live && h.live[p] > SMALLEST_ALLOCATION && u < 0x1_0000
    ensures var w := Read(h.medium.mem, p - 8);
      && w < 0x1_0000_0000 && Type(w) != TYPE_SMALL
      && SetUserdata(w, u) < 0x1_0000_0000 && SameBlockFields(w, SetUserdata(w, u))
      && (PreviousAlloc(SetUserdata(w, u)) <==> PreviousAlloc(w)) && Userdata(SetUserdata(w, u)) == u
      && SetWrapped(w) < 0x1_0000_0000 && SameBlockFields(w, SetWrapped(w))
      && (PreviousAlloc(SetWrapped(w)) <==> PreviousAlloc(w))
  {
    hide Read, Type, SameBlockFields, SetUserdata, SetWrapped, Userdata, PreviousAlloc, Wrapped;
    var w := Read(h.medium.mem, p - 8);
    PrefixBound(h, p);
    UserdataWrite(w, u);
    WrappedWrite(w);
  }

  lemma PrefixBound(h: StbmHeap, p: nat)
    requires h.Idle() && p in h.live && h.live[p] > SMALLEST_ALLOCATION
    ensures Read(h.medium.mem, p - 8) < 0x1_0000_0000 && Type(Read(h.medium.mem, p - 8)) != TYPE_SMALL
  {
    hide Read, Type, MediumSteps.Core, MediumSystem.SysOk, SmallSteps.SlabsOk, Counters.Counted, Small.SmallLive;
    hide Refines, Slab.SlabOk;
    Tagged(h, p);
    var s := h.Snap();
    if UserBlock(s, p) && h.live[p] == s.bk.l.size[p - HEADER] - HEADER {
      var m := h.medium;
      LiveWord(m.mem, MediumSteps.Index(m.heads, m.bitmap, m.top), m.bk, m.align, m.heap, p - HEADER);
    } else {
      var r :| LargeAt(s, r, p, h.live[p]);
      assert Large.LargeFine(s.mem, s.owned, h.medium.heap, h.medium.align, s.bare, r, s.larges[r]);
    }
  }

  lemma Stamped(m1: Memory, p: int, u: nat)
    requires Type(Read(m1, p - 8)) != TYPE_SMALL && SameBlockFields(Read(m1, p - 8), SetUserdata(Read(m1, p - 8), u))
    requires Userdata(SetUserdata(Read(m1, p - 8), u)) == u
    ensures UserdataOf(Write(m1, p - 8, SetUserdata(Read(m1, p - 8), u)), p) == u
  {
    hide Read, Type, SetUserdata, Userdata, SizeData, BlockAlloc;
  }

  /** Cells have no room for userdata, and none is read from them. */
  lemma CellUserdata(h: StbmHeap, p: nat)
    requires h.Idle() && Small.SmallLive(h.small.slabs, p)
    ensures UserdataOf(h.medium.mem, p) == 0
  {
    hide MediumSteps.Core, MediumSystem.SysOk, SmallSteps.SlabsOk, Large.LargesOk, Refines, Counters.Counted;
    hide Small.SmallLive, Type, Read;
    CellTag(h, p);
  }

  lemma GivenIsLive(slabs0: SmallSteps.Slabs, slabs1: SmallSteps.Slabs, p: int)
    requires Small.CellGiven(slabs0, slabs1, p)
    ensures Small.SmallLive(slabs1, p)
  {
    hide SmallSteps.LiveIn, Small.Taken, Small.NoCellLeft;
  }

  lemma AlignedPrefix(mem: Memory, p: int, u: nat)
    requires Read(mem, p - 8) == SetUserdata(TYPE_ALIGNED, u) && u < 0x1_0000
    ensures Type(Read(mem, p - 8)) == TYPE_ALIGNED && UserdataOf(mem, p) == u
  {
    hide Read, SetUserdata, Userdata, SizeData, BlockAlloc, PreviousAlloc, Type;
    UserdataWrite(TYPE_ALIGNED, u);
    TagBits(TYPE_ALIGNED);
  }

  /** The prefix tells aligned pointers from the others. */
  lemma Kind(h: StbmHeap, wrapped: map<int, int>, p: nat)
    requires h.Idle() && WrapsOk(h.medium.mem, h.live, wrapped) && Held(h.live, wrapped, p)
    ensures var w := Read(h.medium.mem, p - 8);
      && (p in wrapped <==> Type(w) == TYPE_ALIGNED) && (p in wrapped <==> AlignDebug(w))
        && (p in wrapped <==> p !in h.live)
    ensures p in wrapped ==>
      Read(h.medium.mem, p - 16) == wrapped[p] && wrapped[p] in h.live && p <= wrapped[p] + h.live[wrapped[p]]
    ensures p !in wrapped ==> h.live[p] > 0
  {
    hide StbmHeap.Valid, Read, Type;
    var w := Read(h.medium.mem, p - 8);
    TagBits(w);
    LowBit(w);
    if p in wrapped {
      assert WrapOk(h.medium.mem, h.live, p, wrapped[p]);
      LiveNotWrapped(h, wrapped);
    } else {
      Tagged(h, p);
      var r := LiveContained(h, p);
    }
  }

  lemma LowBit(w: nat)
    ensures And(w, 1) == w % 2
  {
  }

  /** No aligned pointer is itself a live allocation of the layer below. */
  lemma LiveNotWrapped(h: StbmHeap, wrapped: map<int, int>)
    requires h.Idle() && WrapsOk(h.medium.mem, h.live, wrapped)
    ensures wrapped.Keys !! h.live.Keys
  {
    hide StbmHeap.Valid, Read, Type;
    forall p | p in wrapped ensures p !in h.live {
      assert WrapOk(h.medium.mem, h.live, p, wrapped[p]);
      if p in h.live {
        var r := LiveContained(h, p);
        OwnedPositive(h, r);
        Tagged(h, p);
      }
    }
  }

  lemma OwnedPositive(h: StbmHeap, r: int)
    requires h.Valid() && r in h.medium.system.owned
    ensures r > 0
  {
    hide MediumSteps.Core, SmallSteps.SlabsOk, Large.LargesOk, Refines, Counters.Counted, Ring.RingOk;
    assert h.medium.system.owned[r] >= 0;
  }

  /** The live allocation that p is, or is an aligned pointer into. */
  ghost function BaseOf(wrapped: map<int, int>, p: int): int {
    if p in wrapped then wrapped[p] else p
  }

  /** What is held lies in its base, behind the wrapper if there is one. */
  lemma HeldIn(mem: Memory, live: map<int, int>, wrapped: map<int, int>, p: int)
    requires WrapsOk(mem, live, wrapped) && Held(live, wrapped, p)
    ensures var b := BaseOf(wrapped, p);
      && b in live && b <= p && p + SizeOf(live, wrapped, p) == b + live[b]
      && (p in wrapped ==> b + WRAPPER_BYTES <= p <= b + live[b] && Read(mem, p - 16) == b)
  {
    hide Read, Type;
    if p in wrapped {
      assert WrapOk(mem, live, p, wrapped[p]);
    }
  }

  /** Different pointers held have different bases. */
  lemma BasesDiffer(mem: Memory, live: map<int, int>, wrapped: map<int, int>, p: int, q: int)
    requires WrapsOk(mem, live, wrapped) && Held(live, wrapped, p) && Held(live, wrapped, q) && p != q
    ensures BaseOf(wrapped, p) != BaseOf(wrapped, q)
  {
    hide Read, Type, WrapOk;
  }

  /** What callers hold never overlaps, be it aligned or not. */
  lemma HeldApart(h: StbmHeap, wrapped: map<int, int>, p: int, q: int)
    requires h.Idle() && WrapsOk(h.medium.mem, h.live, wrapped)
    requires Held(h.live, wrapped, p) && Held(h.live, wrapped, q) && p != q
    ensures Apart(p, SizeOf(h.live, wrapped, p), q, SizeOf(h.live, wrapped, q))
  {
    hide StbmHeap.Valid, WrapsOk, Read, Held, SizeOf;
    HeldIn(h.medium.mem, h.live, wrapped, p);
    HeldIn(h.medium.mem, h.live, wrapped, q);
    BasesDiffer(h.medium.mem, h.live, wrapped, p, q);
    LiveApart(h, BaseOf(wrapped, p), BaseOf(wrapped, q));
  }

  /** Storing in what p stands for leaves every wrapper, p's own included. */
  lemma StoreNotWrapper(h: StbmHeap, wrapped: map<int, int>, p: int, w: int, v: nat)
    requires h.Idle() && WrapsOk(h.medium.mem, h.live, wrapped) && Held(h.live, wrapped, p)
    requires p <= w && w + 8 <= p + SizeOf(h.live, wrapped, p)
    ensures WrapsOk(Write(h.medium.mem, w, v), h.live, wrapped)
    ensures forall q {:trigger wrapped[q]} :: q in wrapped ==>
      Read(Write(h.medium.mem, w, v), q - 8) == Read(h.medium.mem, q - 8)
  {
    hide StbmHeap.Valid, Read, Write, Type, Held, SizeOf;
    var m0, m1 := h.medium.mem, Write(h.medium.mem, w, v);
    HeldIn(m0, h.live, wrapped, p);
    forall q | q in wrapped ensures WrapOk(m1, h.live, q, wrapped[q]) && Read(m1, q - 8) == Read(m0, q - 8) {
      assert WrapOk(m0, h.live, q, wrapped[q]);
      if q != p {
        WrappedHeld(h.live, wrapped, q);
        BasesDiffer(m0, h.live, wrapped, p, q);
        LiveApart(h, BaseOf(wrapped, p), wrapped[q]);
      }
    }
  }

  lemma WrappedHeld(live: map<int, int>, wrapped: map<int, int>, q: int)
    requires q in wrapped
    ensures Held(live, wrapped, q)
  {
  }

  lemma UserdataStays(m0: Memory, m1: Memory, live: map<int, int>, wrapped: map<int, int>)
    requires UserdataKept(live, live, {}, m0, m1)
    requires forall q {:trigger wrapped[q]} :: q in wrapped ==> Read(m1, q - 8) == Read(m0, q - 8)
    ensures forall q {:trigger UserdataOf(m1, q)} :: Held(live, wrapped, q) ==> UserdataOf(m1, q) == UserdataOf(m0, q)
  {
    hide Read, Type, Userdata;
    forall q | Held(live, wrapped, q) ensures UserdataOf(m1, q) == UserdataOf(m0, q) {
      if q in wrapped {
        var b := wrapped[q];
      }
    }
  }

  // ---- how the correspondence moves ----

  lemma WrapsStay(m0: Memory, live0: map<int, int>, wrapped: map<int, int>, m1: Memory, live1: map<int, int>)
    requires WrapsOk(m0, live0, wrapped) && DataKept(live0, live1, m0, m1)
    requires forall p {:trigger wrapped[p]} :: p in wrapped && wrapped[p] in live0 ==>
      wrapped[p] in live1 && live1[wrapped[p]] == live0[wrapped[p]]
    ensures WrapsOk(m1, live1, wrapped)
  {
    hide Read, Type;
    forall p | p in wrapped ensures WrapOk(m1, live1, p, wrapped[p]) {
      var b := wrapped[p];
      assert WrapOk(m0, live0, p, b);
      assert DataWord(live1, b, p - 16) && DataWord(live1, b, p - 8) && DataWord(live1, b, b);
    }
  }

  lemma KeptTwice(live0: map<int, int>, live1: map<int, int>, m0: Memory, m1: Memory, m2: Memory, p: int)
    requires DataKept(live0, live1, m0, m1) && DataKept(live1, live1, m1, m2)
    requires UserdataKept(live0, live1, {}, m0, m1) && UserdataKept(live1, live1, {p}, m1, m2) && p !in live0
    ensures DataKept(live0, live1, m0, m2) && UserdataKept(live0, live1, {}, m0, m2)
  {
    hide Read, UserdataOf, UserdataKept;
    UserdataTrans(live0, live1, live1, {p}, m0, m1, m2);
  }

  /** What is held in both states, by an aligned pointer or directly, is kept. */
  lemma HeldKept(m0: Memory, live0: map<int, int>, wrapped0: map<int, int>, m1: Memory, live1: map<int, int>,
                 wrapped1: map<int, int>)
    requires WrapsOk(m0, live0, wrapped0) && WrapsOk(m1, live1, wrapped1)
    requires DataKept(live0, live1, m0, m1) && UserdataKept(live0, live1, {}, m0, m1)
    requires wrapped0.Keys !! live0.Keys && wrapped1.Keys !! live1.Keys
    requires forall q :: q in wrapped0 && q in wrapped1 ==> wrapped0[q] == wrapped1[q]
    requires forall q :: q in live0 && q in live1 ==> live0[q] == live1[q]
    requires forall q :: q in wrapped0 ==> q !in live1
    requires forall q :: q in wrapped1 ==> q !in live0
    ensures UserKept(m0, live0, wrapped0, m1, live1, wrapped1)
  {
    hide Read, Type;
    forall q, w | Held(live0, wrapped0, q) && Held(live1, wrapped1, q) && q <= w
        && w + 8 <= q + SizeOf(live1, wrapped1, q)
      ensures Read(m1, w) == Read(m0, w)
    {
      if q in wrapped1 {
        assert WrapOk(m0, live0, q, wrapped0[q]) && WrapOk(m1, live1, q, wrapped1[q]);
        assert DataWord(live1, wrapped1[q], w);
      } else {
        assert DataWord(live1, q, w);
      }
    }
    forall q | Held(live0, wrapped0, q) && Held(live1, wrapped1, q) ensures UserdataOf(m1, q) == UserdataOf(m0, q) {
      if q in wrapped1 {
        assert WrapOk(m0, live0, q, wrapped0[q]) && WrapOk(m1, live1, q, wrapped1[q]);
        assert DataWord(live1, wrapped1[q], q - 8);
      }
    }
  }

  lemma Grown(m0: Memory, live0: map<int, int>, wrapped: map<int, int>, m1: Memory, live1: map<int, int>, p: nat)
    requires WrapsOk(m0, live0, wrapped) && WrapsOk(m1, live1, wrapped)
    requires DataKept(live0, live1, m0, m1) && UserdataKept(live0, live1, {}, m0, m1)
    requires wrapped.Keys !! live1.Keys
    requires if p == 0 then live1 == live0 else p !in live0 && p in live1 && live1 == live0[p as int := live1[p]]
    ensures Same(live0, wrapped, live1, wrapped, p) && UserKept(m0, live0, wrapped, m1, live1, wrapped)
    ensures p != 0 ==> !Held(live0, wrapped, p) && Held(live1, wrapped, p) && SizeOf(live1, wrapped, p) == live1[p]
  {
    hide Read, Type, DataKept, UserKept, UserdataKept;
    BasesLive(m0, live0, wrapped);
    assert forall q :: q in live0 ==> q in live1;
    HeldKept(m0, live0, wrapped, m1, live1, wrapped);
    forall q | q != p
      ensures Held(live1, wrapped, q) <==> Held(live0, wrapped, q)
      ensures Held(live0, wrapped, q) ==> SizeOf(live1, wrapped, q) == SizeOf(live0, wrapped, q)
    {
      assert q in wrapped ==> wrapped[q] in live0 && wrapped[q] in live1;
    }
  }

  lemma BasesLive(mem: Memory, live: map<int, int>, wrapped: map<int, int>)
    requires WrapsOk(mem, live, wrapped)
    ensures forall q {:trigger wrapped[q]} :: q in wrapped ==> wrapped[q] in live
  {
    hide Read, Type;
    forall q | q in wrapped ensures wrapped[q] in live {
      assert WrapOk(mem, live, q, wrapped[q]);
    }
  }

  lemma StoreElsewhere(h: StbmHeap, live0: map<int, int>, m0: Memory, base: int, w: int, v: nat)
    requires h.Valid() && base in h.live && base !in live0 && h.live == live0[base := h.live[base]]
    requires DataKept(live0, h.live, m0, h.medium.mem) && DataWord(h.live, base, w)
    ensures DataKept(live0, h.live, m0, Write(h.medium.mem, w, v))
  {
    hide StbmHeap.Valid, Read, Write;
    var m1 := h.medium.mem;
    forall q, x | DataWord(live0, q, x) && DataWord(h.live, q, x) ensures Read(Write(m1, w, v), x) == Read(m0, x) {
      LiveApart(h, base, q);
      assert Read(m1, x) == Read(m0, x);
    }
  }

  lemma NewWrap(h: StbmHeap, m0: Memory, live0: map<int, int>, wrapped: map<int, int>, base: nat, p: nat)
    requires h.Valid() && WrapsOk(m0, live0, wrapped) && DataKept(live0, h.live, m0, h.medium.mem)
    requires base in h.live && base !in live0 && h.live == live0[base as int := h.live[base]]
    requires base + WRAPPER_BYTES <= p <= base + h.live[base] && h.live[base] > SMALLEST_ALLOCATION
    requires Read(h.medium.mem, p - 16) == base && Type(Read(h.medium.mem, p - 8)) == TYPE_ALIGNED
    requires Read(h.medium.mem, base) == p
    ensures p !in wrapped && WrapsOk(h.medium.mem, h.live, wrapped[p as int := base])
  {
    hide StbmHeap.Valid, Read, Type, DataKept;
    BasesLive(m0, live0, wrapped);
    WrapsStay(m0, live0, wrapped, h.medium.mem, h.live);
    assert WrapOk(h.medium.mem, h.live, p, base);
    NotAPointerYet(h, live0, wrapped, base, p);
    var wrapped' := wrapped[p as int := base];
    forall q | q in wrapped' ensures WrapOk(h.medium.mem, h.live, q, wrapped'[q]) {
      if q != p {
        assert WrapOk(h.medium.mem, h.live, q, wrapped[q]);
      }
    }
  }

  lemma NotAPointerYet(h: StbmHeap, live0: map<int, int>, wrapped: map<int, int>, base: nat, p: nat)
    requires h.Valid() && WrapsOk(h.medium.mem, h.live, wrapped) && base in h.live && base !in live0
    requires base + WRAPPER_BYTES <= p <= base + h.live[base]
    requires forall q {:trigger wrapped[q]} :: q in wrapped ==> wrapped[q] in live0
    ensures p !in wrapped
  {
    hide StbmHeap.Valid, Read, Type;
    forall q | q in wrapped ensures q != p {
      assert WrapOk(h.medium.mem, h.live, q, wrapped[q]);
      LiveApart(h, base, wrapped[q]);
    }
  }

  lemma WrappedUp(m0: Memory, live0: map<int, int>, wrapped: map<int, int>, m1: Memory, live1: map<int, int>, p: nat,
                  base: nat)
    requires WrapsOk(m0, live0, wrapped) && p !in wrapped
    requires DataKept(live0, live1, m0, m1) && UserdataKept(live0, live1, {}, m0, m1)
    requires base in live1 && base !in live0 && live1 == live0[base as int := live1[base]]
    requires WrapsOk(m1, live1, wrapped[p as int := base]) && wrapped[p as int := base].Keys !! live1.Keys
    ensures var wrapped' := wrapped[p as int := base];
      && Same(live0, wrapped, live1, wrapped', p) && UserKept(m0, live0, wrapped, m1, live1, wrapped')
      && !Held(live0, wrapped, p) && Held(live1, wrapped', p) && SizeOf(live1, wrapped', p) == base + live1[base] - p
  {
    hide Read, Type, DataKept, UserKept, UserdataKept;
    BasesLive(m0, live0, wrapped);
    assert forall q :: q in wrapped ==> q in wrapped[p as int := base];
    HeldKept(m0, live0, wrapped, m1, live1, wrapped[p as int := base]);
    SameAfterWrap(live0, wrapped, live1, p, base);
  }

  lemma SameAfterWrap(live0: map<int, int>, wrapped: map<int, int>, live1: map<int, int>, p: nat, base: nat)
    requires forall q {:trigger wrapped[q]} :: q in wrapped ==> wrapped[q] in live0
    requires base in live1 && base !in live0 && live1 == live0[base as int := live1[base]] && p !in wrapped
    requires wrapped[p as int := base].Keys !! live1.Keys
    ensures Same(live0, wrapped, live1, wrapped[p as int := base], p)
  {
    var wrapped' := wrapped[p as int := base];
    assert p as int in wrapped' && wrapped'[p] == base;
    forall q | q != p
      ensures Held(live1, wrapped', q) <==> Held(live0, wrapped, q)
      ensures Held(live0, wrapped, q) ==> SizeOf(live1, wrapped', q) == SizeOf(live0, wrapped, q)
    {
      if IsBase(wrapped, q) {
        var t :| t in wrapped && wrapped[t] == q;
        assert t in wrapped' && wrapped'[t] == q;
      }
      if IsBase(wrapped', q) && q != base {
        var t :| t in wrapped' && wrapped'[t] == q;
        assert t in wrapped && wrapped[t] == q;
      }
    }
  }

  /** Freeing what is not under an aligned pointer leaves every base live. */
  lemma StillMapped(m0: Memory, live0: map<int, int>, wrapped: map<int, int>, p: int)
    requires WrapsOk(m0, live0, wrapped) && !IsBase(wrapped, p)
    ensures var live1 := live0 - {p};
      forall q {:trigger wrapped[q]} :: q in wrapped && wrapped[q] in live0 ==>
        wrapped[q] in live1 && live1[wrapped[q]] == live0[wrapped[q]]
  {
    hide WrapsOk;
  }

  lemma Unwrapped(m0: Memory, live0: map<int, int>, wrapped0: map<int, int>, p: int)
    requires WrapsOk(m0, live0, wrapped0) && p in wrapped0
    ensures var live1, wrapped1 := live0 - {wrapped0[p]}, wrapped0 - {p};
      && WrapsOk(m0, live0, wrapped1)
      && forall q {:trigger wrapped1[q]} :: q in wrapped1 && wrapped1[q] in live0 ==>
           wrapped1[q] in live1 && live1[wrapped1[q]] == live0[wrapped1[q]]
  {
    hide Read, Type;
    var wrapped1 := wrapped0 - {p};
    forall q | q in wrapped1 ensures WrapOk(m0, live0, q, wrapped1[q]) {
      assert WrapOk(m0, live0, q, wrapped0[q]);
    }
  }

  lemma Shrunk(m0: Memory, live0: map<int, int>, wrapped0: map<int, int>, m1: Memory, live1: map<int, int>,
               wrapped1: map<int, int>, p: nat)
    requires WrapsOk(m0, live0, wrapped0) && WrapsOk(m1, live1, wrapped1)
    requires DataKept(live0, live1, m0, m1) && UserdataKept(live0, live1, {}, m0, m1)
    requires wrapped0.Keys !! live0.Keys && wrapped1.Keys !! live1.Keys && Held(live0, wrapped0, p)
    requires if p in wrapped0 then live1 == live0 - {wrapped0[p]} && wrapped1 == wrapped0 - {p as int}
             else live1 == live0 - {p as int} && wrapped1 == wrapped0
    ensures Same(live0, wrapped0, live1, wrapped1, p) && UserKept(m0, live0, wrapped0, m1, live1, wrapped1)
    ensures !Held(live1, wrapped1, p)
  {
    hide Read, Type, DataKept, UserKept, UserdataKept;
    HeldKept(m0, live0, wrapped0, m1, live1, wrapped1);
    SameAfterFree(m0, live0, wrapped0, live1, wrapped1, p);
  }

  lemma SameAfterFree(m0: Memory, live0: map<int, int>, wrapped0: map<int, int>, live1: map<int, int>,
                      wrapped1: map<int, int>, p: nat)
    requires WrapsOk(m0, live0, wrapped0) && wrapped0.Keys !! live0.Keys && Held(live0, wrapped0, p)
    requires if p in wrapped0 then live1 == live0 - {wrapped0[p]} && wrapped1 == wrapped0 - {p as int}
             else live1 == live0 - {p as int} && wrapped1 == wrapped0
    ensures Same(live0, wrapped0, live1, wrapped1, p)
  {
    hide Read, Type, WrapOk;
    BasesLive(m0, live0, wrapped0);
    forall q | q != p
      ensures Held(live1, wrapped1, q) <==> Held(live0, wrapped0, q)
      ensures Held(live0, wrapped0, q) ==> SizeOf(live1, wrapped1, q) == SizeOf(live0, wrapped0, q)
    {
      if IsBase(wrapped1, q) {
        var t :| t in wrapped1 && wrapped1[t] == q;
        assert t in wrapped0 && wrapped0[t] == q;
      }
      if IsBase(wrapped0, q) {
        var t :| t in wrapped0 && wrapped0[t] == q;
        assert t != p ==> t in wrapped1 && wrapped1[t] == q;
      }
    }
  }

  lemma NothingFreed(h: StbmHeap, wrapped: map<int, int>)
    requires h.Valid() && WrapsOk(h.medium.mem, h.live, wrapped)
    ensures Same(h.live, wrapped, h.live, wrapped, 0)
    ensures UserKept(h.medium.mem, h.live, wrapped, h.medium.mem, h.live, wrapped)
  {
    hide StbmHeap.Valid, Read;
  }
}
