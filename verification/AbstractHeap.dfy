/** An abstract allocator and its histories: what a heap promises the callers that share it. */
module AbstractHeap {
  import opened Memory
  import opened Bits
  import opened Tally
  import opened HeapView
  import opened HeapSteps

  const REQUEST_LIMIT: nat := WORD64 - 0x10_0000

  /** What a caller may ask for: `which` picks among the pointers held; a store goes to the word-th whole word. */
  datatype Op = Request(size: nat) | Release(which: nat) | Put(which: nat, word: nat, value: nat)

  datatype Event =
    | Granted(size: nat, p: nat, n: int) | Refused(size: nat)
    | Returned(p: nat)
    | Stored(p: nat, w: int, v: nat)
    | Skipped

  /** Live allocations, the pointers to them in the order they were granted, and the words stored in them. */
  datatype Abstract = Abstract(live: map<int, int>, held: seq<nat>, contents: map<(int, int), nat>)

  function Without(held: seq<nat>, p: nat): seq<nat> {
    if held == [] then [] else if held[0] == p then held[1..] else [held[0]] + Without(held[1..], p)
  }

  function Next(a: Abstract, e: Event): Abstract {
    match e
    case Granted(_, p, n) => Abstract(a.live[p as int := n], a.held + [p], a.contents)
    case Returned(p) =>
      Abstract(a.live - {p as int}, Without(a.held, p), map k | k in a.contents && k.0 != p :: a.contents[k])
    case Stored(p, w, v) => a.(contents := a.contents[(p as int, w) := v])
    case Refused(_) => a
    case Skipped => a
  }

  /** A new allocation is large enough, of the usable size that its kind has, aligned, and apart from every other; only
      live ones are returned or stored to, and stores stay inside. */
  predicate Allowed(a: Abstract, e: Event, align: nat) {
    match e
    case Granted(size, p, n) =>
      && p !in a.live && n >= size && n > 0 && p % 16 == 0 && align > 0
      && (size > SMALLEST_ALLOCATION ==> p % align == 0) && Measured(n, size, align)
      && forall q :: q in a.live ==> Apart(p, n, q, a.live[q])
    case Returned(p) => p in a.live
    case Stored(p, w, _) => DataWord(a.live, p, w) && (w - p) % 8 == 0
    case Refused(_) => true
    case Skipped => true
  }

  function Replay(trace: seq<Event>): Abstract {
    if trace == [] then Abstract(map[], [], map[])
    else Next(Replay(trace[..|trace| - 1]), trace[|trace| - 1])
  }

  predicate Legal(trace: seq<Event>, align: nat) {
    trace != [] ==>
      Legal(trace[..|trace| - 1], align) && Allowed(Replay(trace[..|trace| - 1]), trace[|trace| - 1], align)
  }

  lemma Extended(trace: seq<Event>, e: Event, align: nat)
    requires Legal(trace, align) && Allowed(Replay(trace), e, align)
    ensures Legal(trace + [e], align) && Replay(trace + [e]) == Next(Replay(trace), e)
  {
    assert (trace + [e])[..|trace|] == trace;
  }

  /** Exactly what op must lead to when it is answered in state a; only a request leaves a choice. */
  predicate Answers(a: Abstract, op: Op, e: Event) {
    match op
    case Request(size) =>
      if size >= REQUEST_LIMIT then e == Skipped else e == Refused(size) || (e.Granted? && e.size == size)
    case Release(which) =>
      e == if which < |a.held| then Returned(a.held[which]) else Skipped
    case Put(which, word, value) =>
      e == if which < |a.held| && a.held[which] in a.live && 8 * word + 8 <= a.live[a.held[which]]
           then Stored(a.held[which], a.held[which] + 8 * word, value) else Skipped
  }

  /** Every live allocation is held, once. */
  ghost predicate AllHeld(a: Abstract) {
    (forall i, j :: 0 <= i < j < |a.held| ==> a.held[i] != a.held[j])
    && forall p: int {:trigger p in a.live} :: p in a.live <==> p >= 0 && p in a.held
  }

  /** What an answer does to what the callers have: a grant adds one range that holds nothing yet, a release takes
      the one named and what it held, and a store sets one word of the one named. */
  ghost predicate Effected(a: Abstract, op: Op, b: Abstract)
    requires AllHeld(a)
  {
    match op
    case Request(size) =>
      b == a
      || (|b.held| == |a.held| + 1 && b.contents == a.contents
          && var p := b.held[|a.held|];
             && b.held == a.held + [p] && p !in a.live && b.live - {p as int} == a.live
             && p in b.live && b.live[p] >= size)
    case Release(which) =>
      if which < |a.held| then
        && b.held == a.held[..which] + a.held[which + 1..] && b.live == a.live - {a.held[which] as int}
        && b.contents.Keys == (set k | k in a.contents && k.0 != a.held[which])
        && forall k {:trigger b.contents[k]} :: k in b.contents ==> b.contents[k] == a.contents[k]
      else b == a
    case Put(which, word, value) =>
      if which < |a.held| && 8 * word + 8 <= a.live[a.held[which]] then
        && b.held == a.held && b.live == a.live
        && b.contents == a.contents[(a.held[which] as int, a.held[which] + 8 * word) := value]
      else b == a
  }

  lemma AnswerDoes(a: Abstract, op: Op, e: Event, align: nat)
    requires AllHeld(a) && Allowed(a, e, align) && Answers(a, op, e)
    ensures Effected(a, op, Next(a, e))
    ensures op.Request? && Next(a, e) == a ==> e == Refused(op.size) || op.size >= REQUEST_LIMIT
  {
    var b := Next(a, e);
    match e
    case Granted(_, p, n) =>
      assert b.live - {p as int} == a.live;
    case Returned(p) =>
      WithoutAt(a.held, op.which);
    case _ =>
  }

  lemma {:induction false} WithoutAt(held: seq<nat>, i: nat)
    requires i < |held| && forall j, k :: 0 <= j < k < |held| ==> held[j] != held[k]
    ensures Without(held, held[i]) == held[..i] + held[i + 1..]
  {
    if i > 0 {
      var rest := held[1..];
      assert rest[i - 1] == held[i];
      WithoutAt(rest, i - 1);
      assert held[..i] == [held[0]] + rest[..i - 1] && held[i + 1..] == rest[i..];
    }
  }

  /** Memory holds, in live allocations, what the callers stored. */
  ghost predicate Remembers(mem: Memory, a: Abstract) {
    forall p, w {:trigger (p, w) in a.contents} :: (p, w) in a.contents ==>
      DataWord(a.live, p, w) && Read(mem, w) == a.contents[(p, w)]
  }

  lemma {:induction false} WithoutIs(held: seq<nat>, p: nat)
    requires forall i, j :: 0 <= i < j < |held| ==> held[i] != held[j]
    ensures forall q: nat :: q in Without(held, p) <==> q in held && q != p
    ensures forall i, j :: 0 <= i < j < |Without(held, p)| ==> Without(held, p)[i] != Without(held, p)[j]
  {
    if held != [] {
      var rest := held[1..];
      WithoutIs(rest, p);
      assert held == [held[0]] + rest;
      assert forall q: nat :: q in held <==> q == held[0] || q in rest;
      assert held[0] !in rest;
      if held[0] != p {
        assert held[0] !in Without(rest, p);
      }
    }
  }

  lemma StaysHeld(a: Abstract, e: Event, align: nat)
    requires AllHeld(a) && Allowed(a, e, align)
    ensures AllHeld(Next(a, e))
  {
    match e
    case Granted(_, p, _) =>
      assert p !in a.held;
    case Returned(p) =>
      WithoutIs(a.held, p);
    case _ =>
  }

  lemma {:induction false} ReplayHeld(trace: seq<Event>, align: nat)
    requires Legal(trace, align)
    ensures AllHeld(Replay(trace))
  {
    if trace != [] {
      var before := trace[..|trace| - 1];
      ReplayHeld(before, align);
      StaysHeld(Replay(before), trace[|trace| - 1], align);
    }
  }

  lemma RemembersLive(mem: Memory, a: Abstract)
    requires Remembers(mem, a)
    ensures forall p, w {:trigger (p, w) in a.contents} :: (p, w) in a.contents ==> p in a.live
  {
    forall p, w | (p, w) in a.contents ensures p in a.live {
      assert DataWord(a.live, p, w);
    }
  }

  /** What survives a change of memory that keeps survivors' data. */
  lemma StillRemembers(m0: Memory, m1: Memory, live0: map<int, int>, live1: map<int, int>, a0: Abstract, a1: Abstract)
    requires Remembers(m0, a0) && DataKept(live0, live1, m0, m1)
    requires forall p, w {:trigger (p, w) in a1.contents} :: (p, w) in a1.contents ==>
      (p, w) in a0.contents && a1.contents[(p, w)] == a0.contents[(p, w)]
      && p in a0.live && p in a1.live && p in live0 && p in live1 && a1.live[p] == a0.live[p] == live0[p] == live1[p]
    ensures Remembers(m1, a1)
  {
    hide Read;
    forall p, w | (p, w) in a1.contents ensures DataWord(a1.live, p, w) && Read(m1, w) == a1.contents[(p, w)] {
      assert DataWord(live0, p, w) && DataWord(live1, p, w);
    }
  }

  /** Storing a word of one allocation leaves what is stored in the others. */
  lemma StoredRemembers(m0: Memory, a: Abstract, p: nat, w: int, v: nat)
    requires Remembers(m0, a) && DataWord(a.live, p, w) && w >= 0
    requires forall q :: q in a.live && q != p ==> Apart(p, a.live[p], q, a.live[q])
    ensures Remembers(Write(m0, w, v), Next(a, Stored(p, w, v)))
  {
    hide Read, Write;
    var a1 := Next(a, Stored(p, w, v));
    forall q, x | (q, x) in a1.contents
      ensures DataWord(a1.live, q, x) && Read(Write(m0, w, v), x) == a1.contents[(q, x)]
    {
      if (q, x) != (p as int, w) {
        assert DataWord(a.live, q, x);
      }
    }
  }
}
