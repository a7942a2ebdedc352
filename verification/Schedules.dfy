/** Schedules of a machine's threads: what each turn does, in full, and what that means for every run. */
module Schedules {
  import opened Bits
  import opened Memory
  import opened Words
  import opened Blocks
  import opened Tags
  import opened MediumSteps
  import opened MediumSystem
  import opened Large
  import opened Small
  import opened Spinning
  import opened Tlsf
  import opened HeapView
  import opened HeapSteps
  import opened Counters
  import opened Heap
  import opened AbstractHeap
  import opened Runs
  import opened Threads

  /** What a thread does next: its next step (op is what its caller wants, if it is outside), or one more word of the
      region in its hand. */
  datatype Turn = Go(t: nat, op: Op) | Word(t: nat, w: nat, v: nat)

  /** A machine between two turns. */
  datatype Moment = Moment(points: seq<Point>, trace: seq<Event>, heap: Snapshot, live: map<int, int>, holder: int,
                           refusals: nat)

  ghost function Now(m: Machine): Moment
    reads m, m.h, m.h.medium, m.h.medium.system, m.h.medium.lock, m.h.small, m.h.large
  {
    Moment(m.points, m.trace, m.h.Snap(), m.h.live, m.h.medium.lock.holder, m.Refusals())
  }

  /** All structures are in place, the live map is what they hold, exactly the holder of the lock is inside a section,
      each thread's hand is its own, and callers' history is legal and remembered. */
  ghost predicate Sound(s: Moment, align: nat, heap: nat) {
    && Whole(s.heap, align, heap) && Refines(s.live, s.heap)
    && LockOk(s.points, s.holder) && Hands(s.points, s.heap, s.live, Replay(s.trace).live, align)
    && Legal(s.trace, align) && Remembers(s.heap.mem, Replay(s.trace))
  }

  /** What one turn does: only its thread moves, to where the code goes from there; the history grows by its answer, if
      it has one; the system's refusals are answered as such. */
  ghost predicate Took(turn: Turn, a: Moment, b: Moment) {
    match turn
    case Go(t, op) =>
      if t < |a.points| then Moved(t, op, a, b) else b == a
    case Word(t, w, v) =>
      b == if t < |a.points| && Preparing(a.points[t], w) then a.(heap := a.heap.(mem := Write(a.heap.mem, w, v)))
           else a
  }

  ghost predicate Moved(t: nat, op: Op, a: Moment, b: Moment)
    requires t < |a.points|
  {
    && |b.points| == |a.points| && b.points == a.points[t := b.points[t]]
    && Advanced(a.points[t], b.points[t], a.holder == NOBODY)
    && (a.points[t] == Outside ==> Entered(op, |Replay(a.trace).held|, b.points[t]))
    && b.holder == (if b.points[t].Inside? then t else if a.points[t].Inside? then NOBODY else a.holder)
    && Recorded(a.points[t], b.points[t], op, a.trace, b.trace, b.refusals - a.refusals)
    && a.heap.bk.l.pinned <= b.heap.bk.l.pinned
  }

  ghost predicate Followed(schedule: seq<Turn>, log: seq<Moment>) {
    && |log| == |schedule| + 1
    && forall i {:trigger schedule[i]} :: 0 <= i < |schedule| ==> Took(schedule[i], log[i], log[i + 1])
  }

  lemma NowSound(m: Machine)
    requires m.Valid()
    ensures Sound(Now(m), m.h.medium.align, m.h.medium.heap)
  {
    hide StbmHeap.Sane, Hands, Legal, Replay, Remembers, LockOk, Whole, Refines, Counted;
    WholeHere(m.h);
  }

  method TakeTurn(m: Machine, turn: Turn)
    requires m.Valid()
    modifies m, m.h, m.h.medium, m.h.medium.system, m.h.medium.lock, m.h.small, m.h.large
    ensures m.Valid() && Took(turn, old(Now(m)), Now(m))
  {
    hide Machine.Valid, Replay, Recorded, Advanced, Entered;
    ghost var a := Now(m);
    m.HeldIs();
    match turn
    case Go(t, op) =>
      if t < |m.points| {
        LockIs(m, t);
        m.Step(t, op);
        LockIs(m, t);
        HolderStays(a.points, m.points, t, a.holder, m.h.medium.lock.holder);
      }
    case Word(t, w, v) =>
      if t < |m.points| && Preparing(m.points[t], w) {
        m.Fill(t, w, v);
      }
  }

  lemma LockIs(m: Machine, t: nat)
    requires m.Valid() && t < |m.points|
    ensures LockOk(m.points, m.h.medium.lock.holder) && NOBODY <= m.h.medium.lock.holder
    ensures m.h.medium.lock.Free() <==> m.h.medium.lock.holder == NOBODY
  {
    hide StbmHeap.Valid, Hands, Legal, Replay, Remembers, LockOk;
  }

  /** Only the thread that moved can have taken the lock or given it up. */
  lemma HolderStays(before: seq<Point>, after: seq<Point>, t: nat, holder0: int, holder1: int)
    requires LockOk(before, holder0) && LockOk(after, holder1) && NOBODY <= holder0 && NOBODY <= holder1
    requires t < |before| == |after| && after == before[t := after[t]]
    ensures holder1 == if after[t].Inside? then t else if before[t].Inside? then NOBODY else holder0
  {
    if holder1 >= 0 {
      assert after[holder1].Inside?;
      assert holder1 != t ==> before[holder1].Inside?;
    }
    if holder0 >= 0 {
      assert before[holder0].Inside?;
      assert holder0 != t ==> after[holder0].Inside?;
    }
  }

  /** Every schedule: whichever thread takes the next turn, and whatever callers ask for, each turn does what it must
      and the machine is sound between any two. */
  method Run(m: Machine, schedule: seq<Turn>) returns (ghost log: seq<Moment>)
    requires m.Valid()
    modifies m, m.h, m.h.medium, m.h.medium.system, m.h.medium.lock, m.h.small, m.h.large
    ensures m.Valid() && Followed(schedule, log) && log[0] == old(Now(m)) && log[|schedule|] == Now(m)
    ensures forall i {:trigger log[i]} :: 0 <= i < |log| ==> Sound(log[i], m.h.medium.align, m.h.medium.heap)
  {
    hide Machine.Valid, Took, Sound, Now;
    log := [Now(m)];
    NowSound(m);
    for i := 0 to |schedule|
      invariant m.Valid() && |log| == i + 1 && log[0] == old(Now(m)) && log[i] == Now(m)
      invariant forall j {:trigger schedule[j]} :: 0 <= j < i ==> Took(schedule[j], log[j], log[j + 1])
      invariant forall j {:trigger log[j]} :: 0 <= j <= i ==> Sound(log[j], m.h.medium.align, m.h.medium.heap)
    {
      TakeTurn(m, schedule[i]);
      NowSound(m);
      log := log + [Now(m)];
    }
  }

  // ---- what a log says of whole runs ----

  /** The event that a turn adds to the history, with the thread it is for. */
  ghost function Spoken(turn: Turn, a: Moment, b: Moment): (said: seq<(nat, Event)>)
    ensures |said| <= 1
  {
    if turn.Go? && |b.trace| > |a.trace| then [(turn.t, b.trace[|a.trace|])] else []
  }

  /** All that is answered, in the order in which it is. */
  ghost function Said(schedule: seq<Turn>, log: seq<Moment>): seq<(nat, Event)>
    requires |log| == |schedule| + 1
  {
    if schedule == [] then [] else
      var n := |schedule| - 1;
      Said(schedule[..n], log[..n + 1]) + Spoken(schedule[n], log[n], log[n + 1])
  }

  /** What thread t's caller has asked for when it was outside, in order. */
  ghost function Asked(schedule: seq<Turn>, log: seq<Moment>, t: nat): seq<Op>
    requires |log| == |schedule| + 1
  {
    if schedule == [] then [] else
      var n := |schedule| - 1;
      Asked(schedule[..n], log[..n + 1], t)
      + match schedule[n]
        case Go(u, op) => if u == t && t < |log[n].points| && log[n].points[t] == Outside then [op] else []
        case Word(_, _, _) => []
  }

  function EventsOf(said: seq<(nat, Event)>): seq<Event> {
    seq(|said|, i requires 0 <= i < |said| => said[i].1)
  }

  /** What thread t's caller has been told, in order. */
  function Told(said: seq<(nat, Event)>, t: nat): seq<Event> {
    if said == [] then [] else
      var n := |said| - 1;
      Told(said[..n], t) + if said[n].0 == t then [said[n].1] else []
  }

  /** An answer of the right kind, to a request of that size. */
  predicate Suits(op: Op, e: Event) {
    match op
    case Request(size) =>
      if size >= REQUEST_LIMIT then e == Skipped else (e.Granted? || e.Refused?) && e.size == size
    case Release(_) => e.Returned? || e.Skipped?
    case Put(_, _, _) => e.Stored? || e.Skipped?
  }

  /** All but the request that the thread is still serving have been answered, in order. */
  predicate InStep(ops: seq<Op>, events: seq<Event>, at: Point) {
    && |ops| == |events| + (if Wants(at) >= 0 then 1 else 0)
    && (forall i :: 0 <= i < |events| ==> Suits(ops[i], events[i]))
    && (Wants(at) >= 0 ==> ops[|events|] == Op.Request(Wants(at)) && Wants(at) < REQUEST_LIMIT)
  }

  lemma Shorter(schedule: seq<Turn>, log: seq<Moment>)
    requires Followed(schedule, log) && schedule != []
    ensures var n := |schedule| - 1; Followed(schedule[..n], log[..n + 1]) && Took(schedule[n], log[n], log[n + 1])
  {
    hide Took;
    var n := |schedule| - 1;
    forall i | 0 <= i < n ensures Took(schedule[..n][i], log[..n + 1][i], log[..n + 1][i + 1]) {
      assert Took(schedule[i], log[i], log[i + 1]);
    }
  }

  /** A turn adds to the history what it says, and refuses as often as the system does. */
  lemma Added(turn: Turn, a: Moment, b: Moment)
    requires Took(turn, a, b)
    ensures b.trace == a.trace + EventsOf(Spoken(turn, a, b)) && |b.points| == |a.points|
    ensures b.refusals - a.refusals == RefusedIn(b.trace) - RefusedIn(a.trace)
  {
    hide Replay, RefusedIn, Advanced, Entered, Wants, Preparing;
    if |b.trace| > |a.trace| {
      assert b.trace[..|a.trace|] == a.trace;
      RefusedMore(a.trace, b.trace[|a.trace|]);
    }
  }

  lemma RefusedMore(trace: seq<Event>, e: Event)
    ensures RefusedIn(trace + [e]) == RefusedIn(trace) + if e.Refused? then 1 else 0
  {
    assert (trace + [e])[..|trace|] == trace;
  }

  /** The history after a run is the one before it and all that was said, each answer to one thread; and requests were
      refused exactly as often as the system refused memory. */
  lemma {:induction false} History(schedule: seq<Turn>, log: seq<Moment>)
    requires Followed(schedule, log)
    ensures log[|schedule|].trace == log[0].trace + EventsOf(Said(schedule, log))
    ensures |log[|schedule|].points| == |log[0].points|
    ensures log[|schedule|].refusals - log[0].refusals
      == RefusedIn(log[|schedule|].trace) - RefusedIn(log[0].trace)
  {
    hide Took, RefusedIn, Spoken;
    if schedule != [] {
      var n := |schedule| - 1;
      Shorter(schedule, log);
      History(schedule[..n], log[..n + 1]);
      Added(schedule[n], log[n], log[n + 1]);
      var before := Said(schedule[..n], log[..n + 1]);
      EventsJoin(before, Spoken(schedule[n], log[n], log[n + 1]));
    }
  }

  lemma EventsJoin(a: seq<(nat, Event)>, b: seq<(nat, Event)>)
    ensures EventsOf(a + b) == EventsOf(a) + EventsOf(b)
  {
  }

  /** Each thread's caller is answered in the order in which it asks, every question once, each answer of the right
      kind and for the size asked for. */
  lemma {:induction false} AnsweredInOrder(schedule: seq<Turn>, log: seq<Moment>, t: nat)
    requires Followed(schedule, log) && t < |log[0].points| && Wants(log[0].points[t]) < 0
    ensures |log[|schedule|].points| == |log[0].points|
    ensures InStep(Asked(schedule, log, t), Told(Said(schedule, log), t), log[|schedule|].points[t])
  {
    hide Took, InStep, Spoken;
    if schedule == [] {
      NothingAsked(log[0].points[t]);
    } else {
      var n := |schedule| - 1;
      Shorter(schedule, log);
      AnsweredInOrder(schedule[..n], log[..n + 1], t);
      Added(schedule[n], log[n], log[n + 1]);
      var said := Said(schedule[..n], log[..n + 1]);
      ToldMore(said, Spoken(schedule[n], log[n], log[n + 1]), t);
      OneMore(schedule[n], log[n], log[n + 1], t, Asked(schedule[..n], log[..n + 1], t), Told(said, t));
    }
  }

  lemma NothingAsked(at: Point)
    requires Wants(at) < 0
    ensures InStep([], [], at)
  {
  }

  lemma ToldMore(said: seq<(nat, Event)>, more: seq<(nat, Event)>, t: nat)
    requires |more| <= 1
    ensures Told(said + more, t) == Told(said, t) + Told(more, t)
  {
    if more == [] {
      assert said + more == said;
    } else {
      assert (said + more)[..|said|] == said;
      assert more[..0] == [];
    }
  }

  /** The thread's turn, or another's. */
  lemma OneMore(turn: Turn, a: Moment, b: Moment, t: nat, ops: seq<Op>, events: seq<Event>)
    requires Took(turn, a, b) && t < |a.points| == |b.points| && InStep(ops, events, a.points[t])
    ensures var more := match turn
      case Go(u, op) => if u == t && a.points[t] == Outside then [op] else []
      case Word(_, _, _) => [];
      InStep(ops + more, events + Told(Spoken(turn, a, b), t), b.points[t])
  {
    hide Replay, Advanced, Entered;
    var spoken := Spoken(turn, a, b);
    if turn.Go? && turn.t == t {
      if a.points[t] == Outside {
        assert Wants(a.points[t]) == NOTHING;
      }
      if |b.trace| > |a.trace| {
        assert spoken == [(t, b.trace[|a.trace|])];
        assert spoken[..0] == [];
        assert Told(spoken, t) == [b.trace[|a.trace|]];
      } else {
        assert Told(spoken, t) == [];
      }
    } else {
      assert b.points[t] == a.points[t];
      if spoken != [] {
        assert spoken[..0] == [];
      }
      assert Told(spoken, t) == [];
    }
  }

  /** Once the first block of a chunk has been merged into, the chunk is never released: whatever is allocated and freed
      afterwards, and however threads interleave, it is on the list, even while none of its blocks is in use. */
  lemma PinnedForGood(schedule: seq<Turn>, log: seq<Moment>, c: int, align: nat, heap: nat)
    requires Followed(schedule, log) && c in log[0].heap.bk.l.pinned && Sound(log[|schedule|], align, heap)
    ensures var s := log[|schedule|].heap;
      c in s.bk.l.chunks && s.bk.l.chunks[c].sys in s.owned && s.bk.l.chunks[c].sys in Members(s.ring)
  {
    StaysPinned(schedule, log, c);
    PinnedListed(log[|schedule|].heap, align, heap, c);
  }

  lemma {:induction false} StaysPinned(schedule: seq<Turn>, log: seq<Moment>, c: int)
    requires Followed(schedule, log) && c in log[0].heap.bk.l.pinned
    ensures c in log[|schedule|].heap.bk.l.pinned
  {
    hide Took;
    if schedule != [] {
      var n := |schedule| - 1;
      Shorter(schedule, log);
      StaysPinned(schedule[..n], log[..n + 1], c);
      TurnKeepsPins(schedule[n], log[n], log[n + 1]);
    }
  }

  lemma TurnKeepsPins(turn: Turn, a: Moment, b: Moment)
    requires Took(turn, a, b)
    ensures a.heap.bk.l.pinned <= b.heap.bk.l.pinned
  {
    hide Recorded, Advanced, Entered, Replay;
  }

  lemma PinnedListed(s: Snapshot, align: nat, heap: nat, c: int)
    requires Whole(s, align, heap) && c in s.bk.l.pinned
    ensures c in s.bk.l.chunks && s.bk.l.chunks[c].sys in s.owned && s.bk.l.chunks[c].sys in Members(s.ring)
  {
    hide Tiled, KindsOk, RegionsApart, Filed, LargesOk;
    assert ChunkOwned(s.mem, s.owned, s.ring, s.foreign, s.bk.l, c);
  }
}
