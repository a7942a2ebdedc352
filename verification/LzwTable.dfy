/** The expander's dictionary as a value: which entries are linked, what they stand for, and which entry is filled,
    handed out and recycled next. */
module LzwTable {
  import opened Bits

  const TABLE: nat := 4096
  const MAX_BITS: nat := 12
  const NONE: int := -1

  /** `min` is the first entry that is not a literal; `cur` will be filled next and `nxt` after it. `depth` is how
      many prefix steps an entry is from a literal. */
  datatype Table = Table(min: nat, prefix: seq<nat>, last: seq<nat>, linked: set<int>, depth: seq<nat>,
                         cur: int, nxt: int, free: nat, bits: nat)

  predicate Known(t: Table, c: int) {
    0 <= c < t.min || c in t.linked
  }

  function Depth(t: Table, c: int): nat
    requires |t.depth| == TABLE
  {
    if 0 <= c < t.min || c < 0 || c >= TABLE then 0 else t.depth[c]
  }

  /** A linked entry extends a literal or a linked entry by one byte. */
  ghost predicate EntryOk(t: Table, e: int)
    requires |t.prefix| == |t.last| == |t.depth| == TABLE
  {
    && t.min <= e < TABLE && t.last[e] < 256
    && Known(t, t.prefix[e]) && t.depth[e] == Depth(t, t.prefix[e]) + 1
  }

  /** Before the table is full entries are handed out in order; afterwards the search resumes where it stopped. */
  ghost predicate Phase(t: Table) {
    && t.min <= t.nxt < TABLE && t.nxt !in t.linked && t.nxt != t.cur && (t.cur == NONE || t.min <= t.cur < TABLE)
    && if t.bits < MAX_BITS then
         && 8 <= t.bits && Pow2(t.bits - 1) <= t.free < Pow2(t.bits) && t.nxt == t.free - 1
         && (t.cur == t.free - 2 || (t.cur == NONE && t.linked == {}))
         && forall e :: e in t.linked ==> e < t.nxt
       else
         && t.bits == MAX_BITS && t.min <= t.free < TABLE
         && (t.free == t.nxt
             || (t.free == 2048 && t.nxt == 2047 && t.cur < 2047 && forall e :: e in t.linked ==> e < 2047))
  }

  /** The table at all times; `cur` may just have been linked. */
  ghost predicate Shaped(t: Table) {
    && (t.min == 128 || t.min == 256)
    && |t.prefix| == |t.last| == |t.depth| == TABLE
    && (forall e {:trigger EntryOk(t, e)} :: e in t.linked ==> EntryOk(t, e))
    && Phase(t)
  }

  ghost predicate WellFormed(t: Table) {
    Shaped(t) && t.cur !in t.linked
  }

  /** What a literal or a linked entry stands for. */
  ghost function Str(t: Table, c: int): (s: seq<nat>)
    requires Shaped(t) && Known(t, c)
    ensures |s| == Depth(t, c) + 1
    decreases Depth(t, c)
  {
    assert c in t.linked ==> EntryOk(t, c);
    if c < t.min then [c as nat]
    else Str(t, t.prefix[c]) + [t.last[c]]
  }

  ghost predicate HasChild(t: Table, c: int)
    requires |t.prefix| == TABLE
  {
    exists e {:trigger t.prefix[e]} :: 0 <= e < TABLE && e in t.linked && t.prefix[e] == c
  }

  // ---- no string is longer than the table ----

  /** The entries on the way from e to its literal, e included. */
  ghost function Chain(t: Table, e: int): (s: set<int>)
    requires Shaped(t) && Known(t, e)
    ensures s <= t.linked && |s| == Depth(t, e)
    ensures forall x :: x in s ==> Depth(t, x) <= Depth(t, e)
    decreases Depth(t, e)
  {
    if e < t.min then {}
    else
      assert EntryOk(t, e);
      var rest := Chain(t, t.prefix[e]);
      assert e !in rest;
      rest + {e}
  }

  lemma {:induction false} RangeCard(s: set<int>, lo: int, hi: int)
    requires lo <= hi && forall x :: x in s ==> lo <= x < hi
    ensures |s| <= hi - lo
    decreases hi - lo
  {
    if lo == hi {
      assert (forall x :: x !in s) ==> s == {};
    } else {
      RangeCard(s - {hi - 1}, lo, hi - 1);
      assert s <= (s - {hi - 1}) + {hi - 1};
      SubsetCard(s, (s - {hi - 1}) + {hi - 1});
    }
  }

  lemma {:induction false} SubsetCard(a: set<int>, b: set<int>)
    requires a <= b
    ensures |a| <= |b|
  {
    assert b == a + (b - a);
  }

  /** A string and the extra byte of the pending-entry case fit in the 4096-byte stack. */
  lemma StringsFit(t: Table, c: int)
    requires Shaped(t) && Known(t, c)
    ensures |Str(t, c)| + 1 < TABLE
  {
    var chain := Chain(t, c);
    SubsetCard(chain, t.linked);
    forall x | x in t.linked ensures t.min <= x < TABLE {
      assert EntryOk(t, x);
    }
    RangeCard(t.linked, t.min, TABLE);
  }

  // ---- the search for an entry to recycle ----

  /** The next index in cyclic order. */
  function Cycle(min: nat, i: nat): nat {
    if i + 1 == TABLE then min else i + 1
  }

  /** How many steps of Cycle lead from i to j, counting a full round from an index to itself. */
  function Steps(min: nat, i: int, j: int): int {
    if j > i then j - i else j - i + (TABLE - min)
  }

  /** The first entry after i, in cyclic order, that nothing extends (looking at most n + 1 entries ahead). */
  ghost function Search(t: Table, i: nat, n: nat): nat
    requires |t.prefix| == TABLE
    decreases n
  {
    var j := Cycle(t.min, i);
    if n == 0 || !HasChild(t, j) then j else Search(t, j, n - 1)
  }

  /** x comes after i and before j in cyclic order. */
  predicate Passed(min: nat, i: int, x: int, j: int) {
    min <= x < TABLE && Steps(min, i, x) < Steps(min, i, j)
  }

  /** Every entry that the search passes by is extended by some entry. */
  lemma {:induction false} SearchPasses(t: Table, i: nat, n: nat, x: nat)
    requires |t.prefix| == TABLE && t.min <= i < TABLE && Passed(t.min, i, x, Search(t, i, n))
    ensures HasChild(t, x)
    decreases n
  {
    var j := Cycle(t.min, i);
    if x != j {
      SearchPasses(t, j, n - 1, x);
    }
  }

  /** The search finds an entry that nothing extends, no further away than any given one. */
  lemma {:induction false} SearchFinds(t: Table, i: nat, n: nat, leaf: nat)
    requires |t.prefix| == TABLE && t.min <= i < TABLE && t.min <= leaf < TABLE && !HasChild(t, leaf)
    requires Steps(t.min, i, leaf) <= n + 1
    ensures var j := Search(t, i, n);
      t.min <= j < TABLE && !HasChild(t, j) && Steps(t.min, i, j) <= Steps(t.min, i, leaf)
    decreases n
  {
    var j := Cycle(t.min, i);
    if n > 0 && HasChild(t, j) {
      assert j != leaf;
      SearchFinds(t, j, n - 1, leaf);
    }
  }

  lemma {:induction false} Deepest(t: Table, s: set<int>) returns (e: int)
    requires |t.depth| == TABLE && s != {}
    ensures e in s && forall x :: x in s ==> Depth(t, x) <= Depth(t, e)
    decreases |s|
  {
    assert (forall x :: x !in s) ==> s == {};
    var x :| x in s;
    if s == {x} {
      e := x;
    } else {
      assert s - {x} != {};
      var y := Deepest(t, s - {x});
      e := if Depth(t, x) > Depth(t, y) then x else y;
    }
  }

  /** Some entry other than nxt is extended by nothing. */
  lemma LeafExists(t: Table) returns (leaf: nat)
    requires Shaped(t)
    ensures t.min <= leaf < TABLE && leaf != t.nxt && !HasChild(t, leaf)
  {
    if t.linked == {} {
      leaf := if t.nxt == t.min then t.min + 1 else t.min;
    } else {
      var e := Deepest(t, t.linked);
      assert EntryOk(t, e);
      leaf := e;
      forall x | 0 <= x < TABLE && x in t.linked ensures t.prefix[x] != e {
        assert EntryOk(t, x);
        assert Depth(t, x) <= Depth(t, e);
      }
    }
  }

  /** Once the table is full, the search ends, and not at the entry about to be filled. */
  lemma PickIsFresh(t: Table)
    requires Shaped(t) && t.bits == MAX_BITS
    ensures var j := Search(t, t.free, TABLE); t.min <= j < TABLE && !HasChild(t, j) && j != t.nxt
  {
    if t.free == t.nxt {
      var leaf := LeafExists(t);
      SearchFinds(t, t.free, TABLE, leaf);
    } else {
      forall e | 0 <= e < TABLE && e in t.linked ensures t.prefix[e] != 2049 {
        assert EntryOk(t, e);
        assert t.prefix[e] < t.min || t.prefix[e] in t.linked;
      }
      assert !HasChild(t, 2049);
      SearchFinds(t, t.free, TABLE, 2049);
    }
  }

  // ---- filling an entry and moving on ----

  /** The current entry comes to extend `prefix` by `ch`. */
  ghost function Fill(t: Table, prefix: nat, ch: nat): Table
    requires Shaped(t) && t.cur != NONE
  {
    t.(prefix := t.prefix[t.cur := prefix], last := t.last[t.cur := ch],
       depth := t.depth[t.cur := Depth(t, prefix) + 1], linked := t.linked + {t.cur})
  }

  /** nxt becomes cur; the new nxt is the next unused entry or, when there is none, a recycled leaf. */
  ghost function Advance(t: Table): Table
    requires |t.prefix| == TABLE
  {
    if t.bits < MAX_BITS then
      t.(cur := t.nxt, nxt := t.free, free := t.free + 1, bits :=
         if t.free + 1 == Pow2(t.bits) then t.bits + 1 else t.bits)
    else
      var j := Search(t, t.free, TABLE);
      t.(cur := t.nxt, nxt := j, free := j, linked := t.linked - {j as int})
  }

  lemma FillShaped(t: Table, prefix: nat, ch: nat)
    requires WellFormed(t) && t.cur != NONE && Known(t, prefix) && ch < 256
    ensures Shaped(Fill(t, prefix, ch)) && Known(Fill(t, prefix, ch), prefix)
  {
    var t' := Fill(t, prefix, ch);
    forall e | e in t'.linked ensures EntryOk(t', e) {
      if e != t.cur {
        assert EntryOk(t, e);
      }
    }
  }

  lemma PowersHere()
    ensures Pow2(7) == 128 && Pow2(8) == 256 && Pow2(9) == 512 && Pow2(10) == 1024 && Pow2(11) == 2048
    ensures Pow2(12) == 4096
  {
    assert Pow2(8) == 256;
  }

  lemma AdvanceOk(t: Table)
    requires Shaped(t)
    ensures WellFormed(Advance(t))
  {
    hide Pow2;
    PowersHere();
    var t' := Advance(t);
    if t.bits == MAX_BITS {
      PickIsFresh(t);
    }
    forall e | e in t'.linked ensures EntryOk(t', e) {
      assert EntryOk(t, e);
    }
    assert t.nxt !in t.linked;
    if t.bits < MAX_BITS {
      assert t.bits == 8 || t.bits == 9 || t.bits == 10 || t.bits == 11;
    }
  }

  /** The width of codes while `free` is the next unused entry. */
  function Width(free: nat): nat {
    if free < 256 then 8 else if free < 512 then 9 else if free < 1024 then 10 else if free < 2048 then 11 else MAX_BITS
  }

  /** While there are unused entries they are taken in order, and the width is that of the next one; afterwards the
      entry taken is the first, from the last one taken on, that nothing extends, and it is unlinked. */
  ghost predicate MovedOn(t: Table, t': Table)
    requires |t.prefix| == TABLE
  {
    && t'.cur == t.nxt && t'.min == t.min && t'.prefix == t.prefix && t'.last == t.last
    && if t.bits < MAX_BITS then
         t'.nxt == t.free && t'.free == t.free + 1 && t'.bits == Width(t'.free) && t'.linked == t.linked
       else
         && t'.bits == t.bits && t'.nxt == t'.free && t.min <= t'.nxt < TABLE && t'.linked == t.linked - {t'.nxt}
         && !HasChild(t, t'.nxt)
         && forall x {:trigger Passed(t.min, t.free, x, t'.nxt)} :: Passed(t.min, t.free, x, t'.nxt) ==> HasChild(t, x)
  }

  lemma AdvanceMoves(t: Table)
    requires Shaped(t)
    ensures MovedOn(t, Advance(t))
  {
    hide Pow2, Search, HasChild, Passed;
    PowersHere();
    if t.bits == MAX_BITS {
      PickIsFresh(t);
      var j := Search(t, t.free, TABLE);
      forall x | Passed(t.min, t.free, x, j) ensures HasChild(t, x) {
        PassedIn(t.min, t.free, x, j);
        SearchPasses(t, t.free, TABLE, x);
      }
    } else {
      assert t.bits == 8 || t.bits == 9 || t.bits == 10 || t.bits == 11;
    }
  }

  lemma PassedIn(min: nat, i: int, x: int, j: int)
    requires Passed(min, i, x, j)
    ensures min <= x < TABLE
  {
  }

  /** Recycling takes only entries that nothing extends, so no entry that stays linked changes its meaning. */
  lemma {:induction false} StrKept(t: Table, t': Table, c: int)
    requires Shaped(t) && Shaped(t') && t'.min == t.min && Known(t, c) && Known(t', c)
    requires forall e {:trigger t'.prefix[e]} :: 0 <= e < TABLE && e in t.linked && e in t'.linked ==>
      t'.prefix[e] == t.prefix[e] && t'.last[e] == t.last[e]
    ensures Str(t', c) == Str(t, c)
    decreases Depth(t, c)
  {
    hide Phase;
    if c >= t.min {
      assert EntryOk(t, c) && EntryOk(t', c);
      assert t'.prefix[c] == t.prefix[c];
      StrKept(t, t', t.prefix[c]);
    }
  }
}
