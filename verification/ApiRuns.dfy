/** Whole runs of one caller of the API: any sequence of requests, plain or aligned, with userdata, of releases and of
    stores against a fresh heap. */
module ApiRuns {
  import opened Memory
  import opened Bits
  import opened Tags
  import opened Tally
  import opened HeapView
  import opened HeapSteps
  import opened Heap
  import opened Aligned
  import opened Api
  import Alone = AbstractHeap

  /** The alignment argument of stbm_alloc_align: 0, or a power of two with an offset below it. */
  datatype Alignment = Minimum | Power(log: nat, offset: nat) {
    function Bytes(): nat {
      if Minimum? then 0 else Pow2(log)
    }

    function Offset(): nat {
      if Minimum? then 0 else offset
    }
  }

  /** What a caller may ask for: `which` picks among the pointers held; a store goes to the word-th whole word. */
  datatype Call =
    | Alloc(size: nat, userdata: nat)
    | AllocAlign(size: nat, userdata: nat, alignment: Alignment)
    | Free(which: nat)
    | Put(which: nat, word: nat, value: nat)
  {
    predicate Request() {
      Alloc? || AllocAlign?
    }

    /** Within the limits that the API has. */
    predicate Fits()
      requires Request()
    {
      && size < MAX_REQUEST && userdata < 0x1_0000
      && (AllocAlign? && alignment.Power? ==> alignment.log <= MAX_ALIGN_LOG && alignment.offset < Pow2(alignment.log))
    }

    /** The alignment that the API promises for this request. */
    predicate Placed(p: nat, minimum: nat, alignAll: bool)
      requires Request()
    {
      if Alloc? then
        && p % 16 == 0 && minimum > 0
        && (alignAll || size > SMALLEST_ALLOCATION || userdata != 0 ==> p % minimum == 0)
      else
        var align := Effective(alignment.Bytes(), minimum);
        align > 0 && Promised(size, userdata, alignment.Bytes(), alignment.Offset(), minimum, alignAll) ==>
          p % align == alignment.Offset()
    }

    /** The usable size that it gets, which tells who serves it. */
    predicate Fitted(n: int, minimum: nat, alignAll: bool)
      requires Request()
    {
      if Alloc? then
        Measured(n, Enlarged(size, userdata == 0 && !(alignAll && minimum > 16)), minimum)
      else
        NoWrapper(size, alignment.Bytes(), alignment.Offset(), minimum, alignAll) ==>
          Measured(n, Enlarged(size, userdata == 0), minimum)
    }
  }

  datatype Event =
    | Given(call: Call, p: nat, n: int) | Refused(call: Call)
    | Returned(p: nat)
    | Stored(p: nat, w: int, v: nat)
    | Skipped

  /** What is held, with usable sizes and contents, and the userdata that was asked for. */
  datatype State = State(heap: Alone.Abstract, userdata: map<int, nat>)

  function Next(a: State, e: Event): State {
    match e
    case Given(call, p, n) =>
      State(Alone.Next(a.heap, Alone.Granted(0, p, n)),
            a.userdata[p as int := if call.Request() then call.userdata else 0])
    case Returned(p) => State(Alone.Next(a.heap, Alone.Returned(p)), a.userdata - {p as int})
    case Stored(p, w, v) => State(Alone.Next(a.heap, Alone.Stored(p, w, v)), a.userdata)
    case Refused(_) => a
    case Skipped => a
  }

  /** A new allocation is large enough, of the size that its way of being served gives, placed as promised, and apart
      from everything held. */
  predicate Allowed(a: State, e: Event, minimum: nat, alignAll: bool) {
    match e
    case Given(call, p, n) =>
      && call.Request() && call.Fits() && p !in a.heap.live && n >= call.size && call.Placed(p, minimum, alignAll)
      && call.Fitted(n, minimum, alignAll)
      && forall q :: q in a.heap.live ==> Apart(p, n, q, a.heap.live[q])
    case Returned(p) => p in a.heap.live
    case Stored(p, w, _) => DataWord(a.heap.live, p, w) && (w - p) % 8 == 0
    case Refused(_) => true
    case Skipped => true
  }

  function Replay(trace: seq<Event>): State {
    if trace == [] then State(Alone.Abstract(map[], [], map[]), map[])
    else Next(Replay(trace[..|trace| - 1]), trace[|trace| - 1])
  }

  predicate Legal(trace: seq<Event>, minimum: nat, alignAll: bool) {
    trace != [] ==>
      && Legal(trace[..|trace| - 1], minimum, alignAll)
      && Allowed(Replay(trace[..|trace| - 1]), trace[|trace| - 1], minimum, alignAll)
  }

  /** Exactly what a call must lead to when it is answered in state a; only a request leaves a choice. */
  predicate Answers(a: State, call: Call, e: Event) {
    match call
    case Free(which) => e == if which < |a.heap.held| then Returned(a.heap.held[which]) else Skipped
    case Put(which, word, value) =>
      e == if which < |a.heap.held| && a.heap.held[which] in a.heap.live
               && 8 * word + 8 <= a.heap.live[a.heap.held[which]]
           then Stored(a.heap.held[which], a.heap.held[which] + 8 * word, value) else Skipped
    case _ => if call.Fits() then e == Refused(call) || (e.Given? && e.call == call) else e == Skipped
  }

  /** The same call of a plain heap. */
  function Plainly(call: Call): Alone.Op {
    match call
    case Free(which) => Alone.Release(which)
    case Put(which, word, value) => Alone.Put(which, word, value)
    case _ => Alone.Request(call.size)
  }

  /** What an answer does to what the callers have: to ranges and data what it does in a plain heap; what is given out
      has the userdata of its request, and nothing else gets any. */
  lemma AnswerDoes(a: State, call: Call, e: Event, minimum: nat, alignAll: bool)
    requires Alone.AllHeld(a.heap) && a.userdata.Keys == a.heap.live.Keys
    requires Allowed(a, e, minimum, alignAll) && Answers(a, call, e)
    ensures Alone.Effected(a.heap, Plainly(call), Next(a, e).heap)
    ensures Next(a, e).userdata.Keys == Next(a, e).heap.live.Keys
    ensures forall p {:trigger Next(a, e).userdata[p]} :: p in Next(a, e).userdata ==>
      if p in a.userdata then Next(a, e).userdata[p] == a.userdata[p]
      else call.Request() && Next(a, e).userdata[p] == call.userdata
    ensures call.Request() && Next(a, e) == a ==> e == Refused(call) || !call.Fits()
  {
    hide Alone.Without;
    match e
    case Given(_, p, n) =>
      var b := Next(a, e).heap;
      assert b.live - {p as int} == a.heap.live;
    case Returned(p) =>
      Alone.WithoutAt(a.heap.held, call.which);
    case _ =>
  }

  function RefusedIn(trace: seq<Event>): nat {
    if trace == [] then 0 else RefusedIn(trace[..|trace| - 1]) + if trace[|trace| - 1].Refused? then 1 else 0
  }

  lemma Extended(trace: seq<Event>, e: Event, minimum: nat, alignAll: bool)
    requires Legal(trace, minimum, alignAll) && Allowed(Replay(trace), e, minimum, alignAll)
    ensures Legal(trace + [e], minimum, alignAll) && Replay(trace + [e]) == Next(Replay(trace), e)
    ensures RefusedIn(trace + [e]) == RefusedIn(trace) + if e.Refused? then 1 else 0
  {
    assert (trace + [e])[..|trace|] == trace;
  }

  /** In a legal history the pointers held are distinct, and are what is live. */
  lemma {:induction false} HeldOnce(trace: seq<Event>, minimum: nat, alignAll: bool)
    requires Legal(trace, minimum, alignAll)
    ensures Alone.AllHeld(Replay(trace).heap) && Replay(trace).userdata.Keys == Replay(trace).heap.live.Keys
  {
    hide Alone.Without;
    if trace != [] {
      var before, e := trace[..|trace| - 1], trace[|trace| - 1];
      HeldOnce(before, minimum, alignAll);
      var a := Replay(before).heap;
      match e
      case Given(_, p, _) =>
        assert p !in a.held;
      case Returned(p) =>
        Alone.WithoutIs(a.held, p);
      case _ =>
    }
  }

  /** The same pointers are held, with the same sizes. */
  ghost predicate Sized(live: map<int, int>, wrapped: map<int, int>, sizes: map<int, int>) {
    && (forall p {:trigger p in sizes} {:trigger Held(live, wrapped, p)} :: p in sizes <==> Held(live, wrapped, p))
    && (forall p {:trigger SizeOf(live, wrapped, p)} :: p in sizes ==> SizeOf(live, wrapped, p) == sizes[p])
  }

  /** The userdata read back is what was given. */
  ghost predicate Marked(mem: Memory, userdata: map<int, nat>) {
    forall p {:trigger UserdataOf(mem, p)} :: p in userdata ==> UserdataOf(mem, p) == userdata[p]
  }

  /** The heap holds what the history says: the pointers, the data stored through them, the userdata given with them. */
  ghost predicate Agrees(mem: Memory, live: map<int, int>, wrapped: map<int, int>, a: State) {
    && Sized(live, wrapped, a.heap.live) && Marked(mem, a.userdata) && Alone.Remembers(mem, a.heap)
    && a.userdata.Keys == a.heap.live.Keys
  }

  lemma ZeroNotHeld(h: StbmHeap, wrapped: map<int, int>)
    requires h.Idle() && WrapsOk(h.medium.mem, h.live, wrapped)
    ensures !Held(h.live, wrapped, 0)
  {
    hide StbmHeap.Valid, WrapsOk;
    if Held(h.live, wrapped, 0) {
      HeldIn(h.medium.mem, h.live, wrapped, 0);
      var r := LiveContained(h, BaseOf(wrapped, 0));
      OwnedPositive(h, r);
    }
  }

  lemma HeldHere(mem: Memory, live: map<int, int>, wrapped: map<int, int>, a: State, p: nat)
    requires Agrees(mem, live, wrapped, a) && Alone.AllHeld(a.heap) && p in a.heap.held
    ensures p in a.heap.live && Held(live, wrapped, p) && SizeOf(live, wrapped, p) == a.heap.live[p]
  {
    hide Held, SizeOf;
    assert (p as int) in a.heap.live;
  }

  /** Data of what is held before and after, in the abstract allocator's terms. */
  lemma HeldData(m0: Memory, live0: map<int, int>, wrapped0: map<int, int>, sizes0: map<int, int>,
                 m1: Memory, live1: map<int, int>, wrapped1: map<int, int>, sizes1: map<int, int>)
    requires Sized(live0, wrapped0, sizes0) && Sized(live1, wrapped1, sizes1)
    requires UserKept(m0, live0, wrapped0, m1, live1, wrapped1)
    ensures DataKept(sizes0, sizes1, m0, m1)
  {
    hide Held, SizeOf, Read, UserdataOf;
    forall p, w | DataWord(sizes0, p, w) && DataWord(sizes1, p, w) ensures Read(m1, w) == Read(m0, w) {
      assert Held(live0, wrapped0, p) && Held(live1, wrapped1, p);
      assert SizeOf(live1, wrapped1, p) == sizes1[p];
    }
  }

  /** What an operation of the API leaves, when pointers and sizes are what the history says and no more is remembered
      than before. */
  lemma MovedOn(m0: Memory, live0: map<int, int>, wrapped0: map<int, int>, m1: Memory, live1: map<int, int>,
                wrapped1: map<int, int>, a0: State, a1: State)
    requires Agrees(m0, live0, wrapped0, a0) && UserKept(m0, live0, wrapped0, m1, live1, wrapped1)
    requires Sized(live1, wrapped1, a1.heap.live)
    requires forall p :: p in a0.heap.live && p in a1.heap.live ==> a0.heap.live[p] == a1.heap.live[p]
    requires forall p, w {:trigger (p, w) in a1.heap.contents} :: (p, w) in a1.heap.contents ==>
      (p, w) in a0.heap.contents && a1.heap.contents[(p, w)] == a0.heap.contents[(p, w)] && p in a1.heap.live
    requires a1.userdata.Keys == a1.heap.live.Keys
    requires forall p {:trigger UserdataOf(m1, p)} :: p in a1.userdata ==>
      (p in a0.userdata && a0.userdata[p] == a1.userdata[p]) || UserdataOf(m1, p) == a1.userdata[p]
    ensures Agrees(m1, live1, wrapped1, a1)
  {
    hide Held, SizeOf, Read, UserdataOf;
    HeldData(m0, live0, wrapped0, a0.heap.live, m1, live1, wrapped1, a1.heap.live);
    Alone.RemembersLive(m0, a0.heap);
    Alone.StillRemembers(m0, m1, a0.heap.live, a1.heap.live, a0.heap, a1.heap);
    forall p | p in a1.userdata ensures UserdataOf(m1, p) == a1.userdata[p] {
      if p in a0.userdata && a0.userdata[p] == a1.userdata[p] {
        assert p in a0.heap.live && p in a1.heap.live;
        assert Held(live0, wrapped0, p) && Held(live1, wrapped1, p);
        assert UserdataOf(m0, p) == a0.userdata[p];
      }
    }
  }

  lemma SizedStays(live0: map<int, int>, wrapped0: map<int, int>, sizes0: map<int, int>, live1: map<int, int>,
                   wrapped1: map<int, int>, sizes1: map<int, int>, x: int)
    requires Sized(live0, wrapped0, sizes0) && Same(live0, wrapped0, live1, wrapped1, x)
    requires forall p {:trigger p in sizes1} :: p != x ==>
      (p in sizes1 <==> p in sizes0) && (p in sizes1 ==> sizes1[p] == sizes0[p])
    requires x in sizes1 <==> Held(live1, wrapped1, x)
    requires x in sizes1 ==> SizeOf(live1, wrapped1, x) == sizes1[x]
    ensures Sized(live1, wrapped1, sizes1)
  {
    hide Held, SizeOf;
    forall p ensures p in sizes1 <==> Held(live1, wrapped1, p)
      ensures p in sizes1 ==> SizeOf(live1, wrapped1, p) == sizes1[p]
    {
      assert p in sizes0 <==> Held(live0, wrapped0, p);
    }
  }

  lemma StillAgrees(m0: Memory, live0: map<int, int>, wrapped0: map<int, int>, m1: Memory, live1: map<int, int>,
                    wrapped1: map<int, int>, a: State)
    requires Agrees(m0, live0, wrapped0, a) && UserKept(m0, live0, wrapped0, m1, live1, wrapped1)
    requires Same(live0, wrapped0, live1, wrapped1, 0) && !Held(live0, wrapped0, 0) && !Held(live1, wrapped1, 0)
    ensures Agrees(m1, live1, wrapped1, a)
  {
    hide Held, SizeOf, Read, UserdataOf, UserKept;
    Alone.RemembersLive(m0, a.heap);
    SizedStays(live0, wrapped0, a.heap.live, live1, wrapped1, a.heap.live, 0);
    MovedOn(m0, live0, wrapped0, m1, live1, wrapped1, a, a);
  }

  lemma GivenAgrees(m0: Memory, live0: map<int, int>, wrapped0: map<int, int>, m1: Memory, live1: map<int, int>,
                    wrapped1: map<int, int>, a: State, call: Call, p: nat)
    requires Agrees(m0, live0, wrapped0, a) && UserKept(m0, live0, wrapped0, m1, live1, wrapped1)
    requires Same(live0, wrapped0, live1, wrapped1, p) && !Held(live0, wrapped0, p) && Held(live1, wrapped1, p)
    requires call.Request() && UserdataOf(m1, p) == call.userdata
    ensures Agrees(m1, live1, wrapped1, Next(a, Given(call, p, SizeOf(live1, wrapped1, p))))
  {
    hide Held, SizeOf, Read, UserdataOf, UserKept;
    Alone.RemembersLive(m0, a.heap);
    var a1 := Next(a, Given(call, p, SizeOf(live1, wrapped1, p)));
    SizedStays(live0, wrapped0, a.heap.live, live1, wrapped1, a1.heap.live, p);
    MovedOn(m0, live0, wrapped0, m1, live1, wrapped1, a, a1);
  }

  lemma ReturnedAgrees(m0: Memory, live0: map<int, int>, wrapped0: map<int, int>, m1: Memory, live1: map<int, int>,
                       wrapped1: map<int, int>, a: State, p: nat)
    requires Agrees(m0, live0, wrapped0, a) && UserKept(m0, live0, wrapped0, m1, live1, wrapped1)
    requires Same(live0, wrapped0, live1, wrapped1, p) && !Held(live1, wrapped1, p)
    ensures Agrees(m1, live1, wrapped1, Next(a, Returned(p)))
  {
    hide Held, SizeOf, Read, UserdataOf, UserKept;
    Alone.RemembersLive(m0, a.heap);
    var a1 := Next(a, Returned(p));
    SizedStays(live0, wrapped0, a.heap.live, live1, wrapped1, a1.heap.live, p);
    MovedOn(m0, live0, wrapped0, m1, live1, wrapped1, a, a1);
  }

  lemma GivenAllowed(api: StbmApi, a: State, m0: Memory, live0: map<int, int>, wrapped0: map<int, int>, call: Call,
                     p: nat)
    requires api.Valid() && Agrees(m0, live0, wrapped0, a) && call.Request() && call.Fits()
    requires Same(live0, wrapped0, api.h.live, api.wrapped, p)
    requires !Held(live0, wrapped0, p) && Held(api.h.live, api.wrapped, p)
    requires SizeOf(api.h.live, api.wrapped, p) >= call.size && call.Placed(p, api.h.medium.align, api.alignAll)
    requires call.Fitted(SizeOf(api.h.live, api.wrapped, p), api.h.medium.align, api.alignAll)
    ensures Allowed(a, Given(call, p, SizeOf(api.h.live, api.wrapped, p)), api.h.medium.align, api.alignAll)
  {
    hide StbmHeap.Idle, WrapsOk, Held, SizeOf, Promised, Measured;
    forall q | q in a.heap.live ensures Apart(p, SizeOf(api.h.live, api.wrapped, p), q, a.heap.live[q]) {
      assert Held(live0, wrapped0, q) && Held(api.h.live, api.wrapped, q);
      assert SizeOf(live0, wrapped0, q) == a.heap.live[q];
      HeldApart(api.h, api.wrapped, p, q);
    }
  }

  /** Storing in one allocation leaves what is stored in the others. */
  lemma StoredAgrees(api: StbmApi, a: State, p: nat, w: nat, v: nat)
    requires api.Valid() && Agrees(api.h.medium.mem, api.h.live, api.wrapped, a) && DataWord(a.heap.live, p, w)
    ensures Alone.Remembers(Write(api.h.medium.mem, w, v), Next(a, Stored(p, w, v)).heap)
  {
    hide StbmHeap.Idle, WrapsOk, Held, SizeOf, Write, Read, UserdataOf;
    forall q | q in a.heap.live && q != p ensures Apart(p, a.heap.live[p], q, a.heap.live[q]) {
      assert Held(api.h.live, api.wrapped, p) && Held(api.h.live, api.wrapped, q);
      assert SizeOf(api.h.live, api.wrapped, p) == a.heap.live[p];
      assert SizeOf(api.h.live, api.wrapped, q) == a.heap.live[q];
      HeldApart(api.h, api.wrapped, p, q);
    }
    Alone.StoredRemembers(api.h.medium.mem, a.heap, p, w, v);
  }

  lemma PutAgrees(m0: Memory, m1: Memory, live: map<int, int>, wrapped: map<int, int>, a: State, p: nat, w: nat, v: nat)
    requires Agrees(m0, live, wrapped, a) && Alone.Remembers(m1, Next(a, Stored(p, w, v)).heap)
    requires forall q {:trigger UserdataOf(m1, q)} :: Held(live, wrapped, q) ==> UserdataOf(m1, q) == UserdataOf(m0, q)
    ensures Agrees(m1, live, wrapped, Next(a, Stored(p, w, v)))
  {
    hide Held, SizeOf, UserdataOf, Alone.Remembers;
    forall x | x in a.userdata ensures UserdataOf(m1, x) == a.userdata[x] {
      assert x in a.heap.live && Held(live, wrapped, x);
      assert UserdataOf(m0, x) == a.userdata[x];
    }
  }

  lemma NoChange(a: State, e: Event, minimum: nat, alignAll: bool)
    requires e.Skipped? || e.Refused?
    ensures Allowed(a, e, minimum, alignAll) && Next(a, e) == a
  {
  }

  class Client {
    const api: StbmApi
    var held: seq<nat>           // the pointers in hand
    ghost var trace: seq<Event>

    ghost predicate Valid()
      reads this, api, api.h, api.h.medium, api.h.medium.system, api.h.medium.lock, api.h.small, api.h.large
    {
      && api.Valid() && Agrees(api.h.medium.mem, api.h.live, api.wrapped, Replay(trace))
      && Legal(trace, api.h.medium.align, api.alignAll) && held == Replay(trace).heap.held
    }

    constructor (api: StbmApi)
      requires api.Valid() && api.h.live == map[] && api.wrapped == map[]
      ensures Valid() && this.api == api && trace == []
    {
      hide StbmApi.Valid;
      this.api := api;
      held := [];
      trace := [];
    }

    /** A history one event longer, which answers the call; and the refusals are the system's. */
    twostate predicate Answered(call: Call)
      reads this, api.h.medium.system
    {
      && |trace| == |old(trace)| + 1 && trace[..|old(trace)|] == old(trace)
      && Answers(Replay(old(trace)), call, trace[|old(trace)|])
      && api.h.medium.system.refusals - old(api.h.medium.system.refusals)
           == RefusedIn(trace) - RefusedIn(old(trace))
    }

    /** The history goes on with e, which answers the call. */
    ghost method Record(call: Call, e: Event)
      requires Legal(trace, api.h.medium.align, api.alignAll)
      requires Allowed(Replay(trace), e, api.h.medium.align, api.alignAll) && Answers(Replay(trace), call, e)
      modifies this`trace
      ensures trace == old(trace) + [e] && Legal(trace, api.h.medium.align, api.alignAll)
      ensures Replay(trace) == Next(Replay(old(trace)), e)
      ensures RefusedIn(trace) == RefusedIn(old(trace)) + if e.Refused? then 1 else 0
    {
      hide Replay, Legal, Allowed, Answers, RefusedIn;
      Extended(trace, e, api.h.medium.align, api.alignAll);
      trace := trace + [e];
    }

    method Request(call: Call)
      requires Valid() && call.Request()
      modifies this, api`wrapped, api.h, api.h.medium, api.h.medium.system, api.h.medium.lock, api.h.small, api.h.large
      ensures Valid() && Answered(call)
    {
      hide StbmHeap.Valid, StbmHeap.Idle, WrapsOk, Legal, Replay, Agrees, Same, UserKept, Held, SizeOf, RefusedIn;
      hide UserdataOf, Pow2, Promised, Allowed, Measured, Routed, RoutedAligned;
      ghost var a, m0, live0, wrapped0 := Replay(trace), api.h.medium.mem, api.h.live, api.wrapped;
      if !call.Fits() {
        NoChange(a, Skipped, api.h.medium.align, api.alignAll);
        Record(call, Skipped);
        return;
      }
      ZeroNotHeld(api.h, api.wrapped);
      var p;
      match call {
        case Alloc(size, userdata) =>
          p := api.Alloc(size, userdata);
        case AllocAlign(size, userdata, alignment) =>
          p := api.AllocAlign(size, userdata, alignment.Bytes(), alignment.Offset(),
                              if alignment.Power? then alignment.log else 0);
      }
      ZeroNotHeld(api.h, api.wrapped);
      if p == 0 {
        StillAgrees(m0, live0, wrapped0, api.h.medium.mem, api.h.live, api.wrapped, a);
        NoChange(a, Refused(call), api.h.medium.align, api.alignAll);
        Record(call, Refused(call));
      } else {
        ghost var n := SizeOf(api.h.live, api.wrapped, p);
        GivenAllowed(api, a, m0, live0, wrapped0, call, p);
        GivenAgrees(m0, live0, wrapped0, api.h.medium.mem, api.h.live, api.wrapped, a, call, p);
        Record(call, Given(call, p, n));
        held := held + [p];
      }
    }

    method Release(which: nat)
      requires Valid()
      modifies this, api`wrapped, api.h, api.h.medium, api.h.medium.system, api.h.medium.lock, api.h.small, api.h.large
      ensures Valid() && Answered(Free(which))
    {
      hide StbmHeap.Valid, StbmHeap.Idle, WrapsOk, Legal, Replay, Agrees, Same, UserKept, Held, SizeOf, RefusedIn;
      ghost var a, m0, live0, wrapped0 := Replay(trace), api.h.medium.mem, api.h.live, api.wrapped;
      if which >= |held| {
        Record(Free(which), Skipped);
        return;
      }
      var p := held[which];
      HeldOnce(trace, api.h.medium.align, api.alignAll);
      HeldHere(m0, live0, wrapped0, a, p);
      ZeroNotHeld(api.h, api.wrapped);
      api.Free(p);
      ReturnedAgrees(m0, live0, wrapped0, api.h.medium.mem, api.h.live, api.wrapped, a, p);
      Record(Free(which), Returned(p));
      held := Alone.Without(held, p);
    }

    /** Store in the word-th whole word of what is held; past its end, nothing. */
    method Store(which: nat, word: nat, value: nat)
      requires Valid()
      modifies this, api.h.medium
      ensures Valid() && Answered(Put(which, word, value))
    {
      hide StbmHeap.Valid, StbmHeap.Idle, WrapsOk, Legal, Replay, Agrees, Held, SizeOf, RefusedIn, UserdataOf;
      ghost var a, m0 := Replay(trace), api.h.medium.mem;
      if which < |held| {
        var p := held[which];
        HeldOnce(trace, api.h.medium.align, api.alignAll);
        HeldHere(m0, api.h.live, api.wrapped, a, p);
        var size := api.GetAllocationSize(p);
        var w := p + 8 * word;
        if 8 * word + 8 <= size {
          StoredAgrees(api, a, p, w, value);
          api.Store(p, w, value);
          PutAgrees(m0, api.h.medium.mem, api.h.live, api.wrapped, a, p, w, value);
          Record(Put(which, word, value), Stored(p, w, value));
          return;
        }
      }
      Record(Put(which, word, value), Skipped);
    }
  }

  /** Any sequence of calls: each is answered as it must be where it comes, the history is legal (what is given out is
      large enough, aligned as promised and overlaps nothing held), and at the end everything still held has the data
      stored in it and the userdata given with it. Requests fail exactly as often as the system refuses memory. */
  method Run(c: Client, calls: seq<Call>)
    requires c.Valid() && c.trace == []
    modifies c, c.api`wrapped, c.api.h, c.api.h.medium, c.api.h.medium.system, c.api.h.medium.lock, c.api.h.small,
        c.api.h.large
    ensures c.Valid() && |c.trace| == |calls|
    ensures forall i {:trigger c.trace[i]} :: 0 <= i < |calls| ==> Answers(Replay(c.trace[..i]), calls[i], c.trace[i])
    ensures c.api.h.medium.system.refusals == old(c.api.h.medium.system.refusals) + RefusedIn(c.trace)
  {
    hide Client.Valid, Answers, Replay, RefusedIn;
    assert RefusedIn([]) == 0 by { NoneRefused(); }
    var i := 0;
    while i < |calls|
      invariant c.Valid() && i == |c.trace| <= |calls|
      invariant forall j {:trigger c.trace[j]} :: 0 <= j < i ==> Answers(Replay(c.trace[..j]), calls[j], c.trace[j])
      invariant c.api.h.medium.system.refusals == old(c.api.h.medium.system.refusals) + RefusedIn(c.trace)
    {
      label before:
      ghost var t0 := c.trace;
      match calls[i] {
        case Free(which) => c.Release(which);
        case Put(which, word, value) => c.Store(which, word, value);
        case _ => c.Request(calls[i]);
      }
      assert c.Answered@before(calls[i]);
      forall j | 0 <= j <= i ensures Answers(Replay(c.trace[..j]), calls[j], c.trace[j]) {
        assert c.trace[..i] == t0;
        if j < i {
          assert c.trace[..j] == t0[..j] && c.trace[j] == t0[j];
        }
      }
      i := i + 1;
    }
  }

  lemma NoneRefused()
    ensures RefusedIn([]) == 0
  {
  }
}
