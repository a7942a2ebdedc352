/** Whole runs of one caller: any sequence of requests, releases and stores against a fresh heap. */
module Runs {
  import opened Memory
  import opened Bits
  import opened Tlsf
  import opened SystemMemory
  import opened Tally
  import opened HeapView
  import opened HeapSteps
  import opened Heap
  import opened AbstractHeap

  /** The heap holds what the abstract allocator says. */
  ghost predicate Agrees(h: StbmHeap, a: Abstract)
    reads h, h.medium, h.medium.system, h.small, h.large
  {
    h.Valid() && h.live == a.live && Remembers(h.medium.mem, a)
  }

  /** How many requests were refused. */
  function RefusedIn(trace: seq<Event>): nat {
    if trace == [] then 0 else RefusedIn(trace[..|trace| - 1]) + if trace[|trace| - 1].Refused? then 1 else 0
  }

  /** What an event means for the concrete heap: which allocator serves or frees, and what that takes. */
  ghost predicate Effect(e: Event, s0: Snapshot, s1: Snapshot, align: nat, policy: CachePolicy) {
    match e
    case Granted(size, p, _) => p != 0 && ServedBy(s0, s1, p, size, align)
    case Refused(size) => ServedBy(s0, s1, 0, size, align)
    case Returned(p) => FreedBy(s0, s1, p, policy)
    case Stored(_, w, v) => w >= 0 && s1 == s0.(mem := Write(s0.mem, w, v))
    case Skipped => s1 == s0
  }

  class Client {
    const h: StbmHeap
    var held: seq<nat>           // the pointers in hand
    ghost var trace: seq<Event>

    ghost predicate Valid()
      reads this, h, h.medium, h.medium.system, h.medium.lock, h.small, h.large
    {
      && h.Idle() && Agrees(h, Replay(trace)) && Legal(trace, h.medium.align) && held == Replay(trace).held
    }

    constructor (h: StbmHeap)
      requires h.Idle() && h.live == map[]
      ensures Valid() && this.h == h && trace == []
    {
      hide StbmHeap.Valid;
      this.h := h;
      held := [];
      trace := [];
    }

    /** A history one event longer, which answers op. */
    twostate predicate Answered(op: Op)
      reads this
    {
      && |trace| == |old(trace)| + 1 && trace[..|old(trace)|] == old(trace)
      && Answers(Replay(old(trace)), op, trace[|old(trace)|])
    }

    /** The event is what happened to the heap. */
    twostate predicate Happened()
      reads this, h, h.medium, h.medium.system, h.small, h.large
    {
      && |trace| == |old(trace)| + 1
      && Effect(trace[|old(trace)|], old(h.Snap()), h.Snap(), h.medium.align, h.medium.policy)
    }

    /** The history goes on with e. */
    ghost method Record(op: Op, e: Event)
      requires Legal(trace, h.medium.align) && Allowed(Replay(trace), e, h.medium.align)
      requires Answers(Replay(trace), op, e)
      modifies this`trace
      ensures trace == old(trace) + [e] && Legal(trace, h.medium.align) && Replay(trace) == Next(Replay(old(trace)), e)
      ensures Answered(op) && RefusedIn(trace) == RefusedIn(old(trace)) + if e.Refused? then 1 else 0
    {
      hide Replay, Legal, Allowed;
      Extended(trace, e, h.medium.align);
      assert (trace + [e])[..|trace|] == trace;
      trace := trace + [e];
    }

    method Request(size: nat)
      requires Valid()
      modifies this, h, h.medium, h.medium.system, h.medium.lock, h.small, h.large
      ensures Valid() && Answered(Op.Request(size)) && Happened()
      ensures h.medium.system.refusals - old(h.medium.system.refusals) == RefusedIn(trace) - RefusedIn(old(trace))
    {
      hide ServedBy, Measured, StbmHeap.Valid, Legal, Replay, DataKept, Remembers, RefusedIn;
      ghost var a, s0 := Replay(trace), h.Snap();
      ghost var m0 := h.medium.mem;
      if size >= REQUEST_LIMIT {
        Record(Op.Request(size), Skipped);
        return;
      }
      var p := h.HeapAlloc(size);
      if p == 0 {
        StillRemembers(m0, h.medium.mem, a.live, h.live, a, a) by { RemembersLive(m0, a); }
        Record(Op.Request(size), Refused(size));
      } else {
        ghost var e := Granted(size, p, h.live[p]);
        ExactSize(h, s0, p, size);
        GrantAllowed(h, a, p, size);
        StillRemembers(m0, h.medium.mem, a.live, h.live, a, Next(a, e)) by { RemembersLive(m0, a); }
        Record(Op.Request(size), e);
        held := held + [p];
      }
    }

    method Release(which: nat)
      requires Valid()
      modifies this, h, h.medium, h.medium.system, h.medium.lock, h.small, h.large
      ensures Valid() && Answered(Op.Release(which)) && Happened()
      ensures h.medium.system.refusals - old(h.medium.system.refusals) == RefusedIn(trace) - RefusedIn(old(trace))
    {
      hide FreedBy, StbmHeap.Valid, Legal, Replay, DataKept, Remembers, RefusedIn;
      ghost var a := Replay(trace);
      ghost var m0 := h.medium.mem;
      if which >= |held| {
        Record(Op.Release(which), Skipped);
        return;
      }
      var p := held[which];
      ReplayHeld(trace, h.medium.align);
      h.HeapFree(p);
      ghost var e := Returned(p);
      StillRemembers(m0, h.medium.mem, a.live, h.live, a, Next(a, e)) by { RemembersLive(m0, a); }
      Record(Op.Release(which), e);
      held := Without(held, p);
    }

    /** Store in the word-th whole word of a held allocation; past its end, nothing. */
    method Put(which: nat, word: nat, value: nat)
      requires Valid()
      modifies this, h.medium
      ensures Valid() && Answered(Op.Put(which, word, value)) && Happened()
      ensures h.medium.system.refusals == old(h.medium.system.refusals) && RefusedIn(trace) == RefusedIn(old(trace))
    {
      hide StbmHeap.Valid, Legal, Replay, Remembers, RefusedIn;
      ghost var a := Replay(trace);
      ghost var m0 := h.medium.mem;
      if which < |held| {
        var p := held[which];
        ReplayHeld(trace, h.medium.align);
        var size := h.GetAllocationSize(p);
        var w := p + 8 * word;
        if 8 * word + 8 <= size {
          h.Store(p, w, value);
          forall q | q in a.live && q != p ensures Apart(p, a.live[p], q, a.live[q]) {
            LiveApart(h, p, q);
          }
          StoredRemembers(m0, a, p, w, value);
          Record(Op.Put(which, word, value), Stored(p, w, value));
          return;
        }
      }
      Record(Op.Put(which, word, value), Skipped);
    }
  }

  lemma GrantAllowed(h: StbmHeap, a: Abstract, p: nat, size: nat)
    requires h.Valid() && p != 0 && Served(a.live, h.live, p, size, h.medium.align)
    requires Measured(h.live[p], size, h.medium.align)
    ensures Allowed(a, Granted(size, p, h.live[p]), h.medium.align)
  {
    hide StbmHeap.Valid, Measured;
    var r := LiveContained(h, p);
    forall q | q in a.live ensures Apart(p, h.live[p], q, a.live[q]) {
      LiveApart(h, p, q);
    }
  }

  /** Any sequence of operations: each is answered as it must be where it comes, the history is legal, and at the end
      memory holds what the client stored in every allocation it still has. Requests fail exactly as often as the
      system refuses memory. */
  method Run(c: Client, ops: seq<Op>) returns (ghost log: seq<Snapshot>)
    requires c.Valid() && c.trace == []
    modifies c, c.h, c.h.medium, c.h.medium.system, c.h.medium.lock, c.h.small, c.h.large
    ensures c.Valid() && |c.trace| == |ops|
    ensures forall i {:trigger c.trace[i]} :: 0 <= i < |ops| ==> Answers(Replay(c.trace[..i]), ops[i], c.trace[i])
    ensures c.h.medium.system.refusals == old(c.h.medium.system.refusals) + RefusedIn(c.trace)
    ensures |log| == |ops| + 1 && log[0] == old(c.h.Snap()) && log[|ops|] == c.h.Snap()
    ensures forall i {:trigger c.trace[i]} :: 0 <= i < |ops| ==>
      Effect(c.trace[i], log[i], log[i + 1], c.h.medium.align, c.h.medium.policy)
  {
    hide Client.Valid, Answers, Replay, RefusedIn, Effect;
    log := [c.h.Snap()];
    var i := 0;
    assert RefusedIn([]) == 0 by { NoneRefused(); }
    while i < |ops|
      invariant c.Valid() && i == |c.trace| <= |ops|
      invariant forall j {:trigger c.trace[j]} :: 0 <= j < i ==> Answers(Replay(c.trace[..j]), ops[j], c.trace[j])
      invariant c.h.medium.system.refusals == old(c.h.medium.system.refusals) + RefusedIn(c.trace)
      invariant |log| == i + 1 && log[0] == old(c.h.Snap()) && log[i] == c.h.Snap()
      invariant forall j {:trigger c.trace[j]} :: 0 <= j < i ==>
        Effect(c.trace[j], log[j], log[j + 1], c.h.medium.align, c.h.medium.policy)
    {
      label before:
      ghost var t0 := c.trace;
      match ops[i] {
        case Request(size) => c.Request(size);
        case Release(which) => c.Release(which);
        case Put(which, word, value) => c.Put(which, word, value);
      }
      assert c.Answered@before(ops[i]) && c.Happened@before();
      log := log + [c.h.Snap()];
      forall j | 0 <= j <= i ensures Answers(Replay(c.trace[..j]), ops[j], c.trace[j]) {
        assert c.trace[..i] == t0;
        if j < i {
          assert c.trace[..j] == t0[..j] && c.trace[j] == t0[j];
        }
      }
      forall j | 0 <= j <= i ensures Effect(c.trace[j], log[j], log[j + 1], c.h.medium.align, c.h.medium.policy) {
        assert c.trace[..i] == t0;
        if j < i {
          assert c.trace[j] == t0[j];
        }
      }
      i := i + 1;
    }
  }

  lemma NoneRefused()
    ensures RefusedIn([]) == 0
  {
  }
}
