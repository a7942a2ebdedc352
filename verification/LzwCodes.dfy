/** The expander against the definition of LZW: a body is a row of codes of growing width, and each code that is not a
    literal stands for what its entry was last filled with, the string of one code and the first byte of the next. */
module LzwCodes {
  import opened Bits
  import opened LzwTable
  import opened Lzw

  // ---- the definition ----

  /** The literals come first in the table. */
  function Literals(sevenBit: bool): nat {
    if sevenBit then 128 else 256
  }

  /** Where the code after the first n begins; with each code read, one more entry is taken. */
  function Begins(min: nat, n: nat): nat {
    if n == 0 then 0 else Begins(min, n - 1) + Width(min + n)
  }

  /** The n-th entry to be filled, before any is recycled; the first search for a leaf steps over entry 2048. */
  function Slot(min: nat, n: nat): nat {
    if min + n < 2048 then min + n else min + n + 1
  }

  function Flat(words: seq<seq<nat>>): seq<nat> {
    if words == [] then [] else words[0] + Flat(words[1..])
  }

  /** Entry e was last filled, up to code i, when code k was read. */
  predicate LastFilled(slots: seq<int>, e: int, k: int, i: int) {
    1 <= k <= i < |slots| && slots[k] == e && forall m {:trigger slots[m]} :: k < m <= i ==> slots[m] != e
  }

  /** w is string k - 1 and the first byte of string k. */
  predicate Joined(words: seq<seq<nat>>, k: int, w: seq<nat>) {
    1 <= k < |words| && words[k] != [] && w == words[k - 1] + [words[k][0]]
  }

  /** What code i stands for: itself, or the string of the code before the one at which its entry was last filled, and
      the first byte of that one's. */
  ghost predicate Stands(min: nat, codes: seq<nat>, words: seq<seq<nat>>, slots: seq<int>, i: nat)
    requires i < |codes| == |words| == |slots|
  {
    if codes[i] < min then words[i] == [codes[i]]
    else
      exists k {:trigger LastFilled(slots, codes[i], k, i)} ::
        LastFilled(slots, codes[i], k, i) && Joined(words, k, words[i])
  }

  // ---- the expander's states ----

  /** Between codes: the table, the last code, and where the next one begins. */
  datatype Spot = Spot(t: Table, last: int, pos: nat)

  ghost predicate Ready(s: Spot, src: seq<nat>, size: nat) {
    && size <= 8 * |src| && WellFormed(s.t) && s.t.cur != LzwTable.NONE && Known(s.t, s.last)
    && ValidFrom(s.t, s.last, src, size, s.pos)
  }

  /** One code further. */
  ghost function Onward(s: Spot, src: seq<nat>, size: nat): (r: Spot)
    requires Ready(s, src, size) && s.pos + s.t.bits <= size
  {
    var code := Field(src, s.pos, s.t.bits);
    CodeFits(s, src, size);
    Spot(After(s.t, s.last, code), code, s.pos + s.t.bits)
  }

  ghost function OutFrom(s: Spot, src: seq<nat>, size: nat): seq<nat>
    requires Ready(s, src, size)
  {
    Out(s.t, s.last, src, size, s.pos)
  }

  lemma CodeFits(s: Spot, src: seq<nat>, size: nat)
    requires Ready(s, src, size) && s.pos + s.t.bits <= size
    ensures var code := Field(src, s.pos, s.t.bits); code == s.t.cur || Known(s.t, code)
  {
    hide WellFormed, Known, After, Field;
  }

  lemma OnwardReady(s: Spot, src: seq<nat>, size: nat)
    requires Ready(s, src, size) && s.pos + s.t.bits <= size
    ensures Ready(Onward(s, src, size), src, size) && Onward(s, src, size).t.min == s.t.min
  {
    hide WellFormed, Field, Known, ValidFrom, After, Shaped, Entry, Str, Fill, Advance, Out;
    KnownRange(s.t, s.last) by { ShapedHere(s.t); }
    CodeStep(s.t, s.last, Field(src, s.pos, s.t.bits), src, size, s.pos);
  }

  lemma ShapedHere(t: Table)
    requires WellFormed(t)
    ensures Shaped(t)
  {
  }

  /** After the first code. */
  ghost function First(src: seq<nat>, size: nat, sevenBit: bool): (s: Spot)
    requires size <= 8 * |src| && ValidStream(src, size, sevenBit)
    ensures Ready(s, src, size)
  {
    var t := StartTable(sevenBit);
    StartOk(sevenBit);
    Spot(Advance(t), Field(src, 0, t.bits), t.bits)
  }

  /** How far the table is after n codes. */
  ghost predicate Grown(t: Table, min: nat, n: nat) {
    && t.min == min && t.bits == Width(min + 1 + n)
    && t.free == (if min + 1 + n <= 2048 then min + 1 + n else t.nxt)
    && (Slot(min, n) < TABLE ==> t.nxt == Slot(min, n) && forall e :: e in t.linked ==> e < t.nxt)
    && (n > 0 && Slot(min, n - 1) < TABLE ==> t.cur == Slot(min, n - 1))
  }

  lemma StartGrown(sevenBit: bool)
    ensures Grown(StartTable(sevenBit), Literals(sevenBit), 0)
  {
  }

  /** With each code one more entry is taken, in order while there are unused ones; the width is what the number of
      codes says. */
  lemma GrowsOn(t: Table, min: nat, n: nat)
    requires Shaped(t) && Grown(t, min, n) && (t.min == 128 || t.min == 256)
    ensures Grown(Advance(t), min, n + 1)
  {
    hide Pow2, Advance, HasChild, Passed;
    AdvanceMoves(t);
    var t' := Advance(t);
    if t.bits == MAX_BITS && Slot(min, n + 1) < TABLE {
      var j := t.free + 1;
      NoChildYet(t, j);
      if t'.nxt != j {
        NextIsPassed(t.min, t.free, t'.nxt);
      }
    }
  }

  /** An entry that was never filled is extended by nothing. */
  lemma NoChildYet(t: Table, j: nat)
    requires Shaped(t) && t.min <= j && j !in t.linked
    ensures !HasChild(t, j)
  {
    forall e | 0 <= e < TABLE && e in t.linked ensures t.prefix[e] != j {
      assert EntryOk(t, e);
    }
  }

  lemma NextIsPassed(min: nat, i: nat, j: nat)
    requires min <= i && i + 1 < TABLE && min <= j < TABLE && j != i + 1
    ensures Passed(min, i, i + 1, j)
  {
  }

  // ---- the two side by side ----

  /** Codes are read one after the other, each as wide as it must be. */
  ghost predicate ReadFrom(codes: seq<nat>, src: seq<nat>, size: nat, min: nat)
    requires size <= 8 * |src|
  {
    forall i {:trigger codes[i]} :: 0 <= i < |codes| ==>
      && Begins(min, i) + Width(min + 1 + i) <= size
      && codes[i] == Field(src, Begins(min, i), Width(min + 1 + i))
  }

  /** The first code is a literal, and each of the others stands for what it must. */
  ghost predicate Spelt(codes: seq<nat>, words: seq<seq<nat>>, slots: seq<int>, min: nat) {
    && 0 < |codes| == |words| == |slots| && words[0] == [codes[0]]
    && forall i {:trigger Stands(min, codes, words, slots, i)} :: 0 < i < |codes| ==>
         Stands(min, codes, words, slots, i)
  }

  /** Entries are filled in order until the table is full. */
  predicate InOrder(slots: seq<int>, min: nat) {
    forall k {:trigger slots[k]} :: 1 <= k < |slots| && Slot(min, k - 1) < TABLE ==> slots[k] == Slot(min, k - 1)
  }

  /** A linked entry stands for what it was last filled with. */
  ghost predicate Holds(t: Table, words: seq<seq<nat>>, slots: seq<int>)
    requires Shaped(t) && |words| == |slots|
  {
    forall e {:trigger Filled(t, words, slots, e)} :: e in t.linked ==> Filled(t, words, slots, e)
  }

  ghost predicate Filled(t: Table, words: seq<seq<nat>>, slots: seq<int>, e: int)
    requires Shaped(t) && |words| == |slots| && e in t.linked
  {
    FilledWith(words, slots, e, Str(t, e))
  }

  ghost predicate FilledWith(words: seq<seq<nat>>, slots: seq<int>, e: int, w: seq<nat>) {
    exists k {:trigger LastFilled(slots, e, k, |slots| - 1)} ::
      LastFilled(slots, e, k, |slots| - 1) && Joined(words, k, w)
  }

  /** The expander's state after these codes. */
  ghost predicate Told(s: Spot, codes: seq<nat>, words: seq<seq<nat>>, slots: seq<int>, src: seq<nat>, size: nat,
                       min: nat) {
    && Ready(s, src, size) && Grown(s.t, min, |codes|) && s.pos == Begins(min, |codes|)
    && ReadFrom(codes, src, size, min) && Spelt(codes, words, slots, min) && InOrder(slots, min)
    && words[|words| - 1] == Str(s.t, s.last) && Holds(s.t, words, slots)
  }

  lemma FillGrown(t: Table, last: nat, ch: nat, min: nat, n: nat)
    requires WellFormed(t) && t.cur != LzwTable.NONE && Grown(t, min, n) && n > 0
    ensures Grown(Fill(t, last, ch), min, n)
  {
  }

  /** What one code does to the table, on the way through the entry filled. */
  lemma EntryKept(t: Table, f: Table, t': Table, last: nat, ch: nat, e: int)
    requires WellFormed(t) && t.cur != LzwTable.NONE && Known(t, last) && f == Fill(t, last, ch) && Shaped(f)
    requires Shaped(t') && MovedOn(f, t') && e in t'.linked
    ensures e != t.cur ==> e in t.linked && Str(t', e) == Str(t, e)
    ensures e == t.cur ==> Str(t', e) == Str(t, last) + [ch]
  {
    hide Phase, HasChild, Passed, EntryOk, Width;
    assert e in f.linked;
    StrKept(f, t', e);
    if e == t.cur {
      StrKept(t, f, last);
      CurIsEntry(f, e);
    } else {
      StrKept(t, f, e);
    }
  }

  lemma CurIsEntry(f: Table, e: int)
    requires Shaped(f) && e in f.linked
    ensures e >= f.min && 0 <= e < TABLE && Known(f, f.prefix[e]) && Str(f, e) == Str(f, f.prefix[e]) + [f.last[e]]
  {
    hide Phase;
    assert EntryOk(f, e);
  }

  lemma LastFilledStays(slots: seq<int>, cur: int, e: int, k: int)
    requires LastFilled(slots, e, k, |slots| - 1) && e != cur
    ensures LastFilled(slots + [cur], e, k, |slots|)
  {
  }

  lemma LastFilledNow(slots: seq<int>, cur: int)
    requires |slots| > 0
    ensures LastFilled(slots + [cur], cur, |slots|, |slots|)
  {
  }

  lemma FilledNow(words: seq<seq<nat>>, slots: seq<int>, word: seq<nat>, e: int)
    requires 0 < |words| == |slots| && word != []
    ensures FilledWith(words + [word], slots + [e], e, words[|words| - 1] + [word[0]])
  {
    hide LastFilled;
    LastFilledNow(slots, e);
    assert LastFilled(slots + [e], e, |words|, |slots + [e]| - 1);
    assert Joined(words + [word], |words|, words[|words| - 1] + [word[0]]);
  }

  lemma FilledStays(words: seq<seq<nat>>, slots: seq<int>, word: seq<nat>, cur: int, e: int, w: seq<nat>)
    requires |words| == |slots| && FilledWith(words, slots, e, w) && e != cur
    ensures FilledWith(words + [word], slots + [cur], e, w)
  {
    hide LastFilled;
    var k :| LastFilled(slots, e, k, |slots| - 1) && Joined(words, k, w);
    LastFilledStays(slots, cur, e, k);
    assert LastFilled(slots + [cur], e, k, |slots + [cur]| - 1);
    assert Joined(words + [word], k, w);
  }

  lemma LastFilledThen(slots: seq<int>, cur: int, e: int, k: int, i: int)
    requires LastFilled(slots, e, k, i)
    ensures LastFilled(slots + [cur], e, k, i)
  {
  }

  lemma StoodStays(min: nat, codes: seq<nat>, words: seq<seq<nat>>, slots: seq<int>, i: nat, code: nat, word: seq<nat>,
                   cur: int)
    requires i < |codes| == |words| == |slots| && Stands(min, codes, words, slots, i)
    ensures Stands(min, codes + [code], words + [word], slots + [cur], i)
  {
    hide LastFilled;
    if codes[i] >= min {
      var k :| LastFilled(slots, codes[i], k, i) && Joined(words, k, words[i]);
      LastFilledThen(slots, cur, codes[i], k, i);
    }
  }

  /** The next code stands for what it must. */
  lemma NextStands(t: Table, last: nat, codes: seq<nat>, words: seq<seq<nat>>, slots: seq<int>, code: nat)
    requires WellFormed(t) && t.cur != LzwTable.NONE && Known(t, last) && (code == t.cur || Known(t, code))
    requires 0 < |codes| == |words| == |slots| && words[|words| - 1] == Str(t, last) && Holds(t, words, slots)
    ensures Stands(t.min, codes + [code], words + [Entry(t, last, code)], slots + [t.cur as int], |codes|)
  {
    hide LastFilled, EntryOk;
    var n, word := |codes|, Entry(t, last, code);
    if code == t.cur {
      LastFilledNow(slots, t.cur);
    } else if code in t.linked {
      assert Filled(t, words, slots, code);
      var k :| LastFilled(slots, code, k, n - 1) && Joined(words, k, Str(t, code));
      LastFilledStays(slots, t.cur, code, k);
      CurIsEntry(t, code);
    }
  }

  /** After one more code every linked entry still stands for what it was last filled with. */
  lemma HoldsOn(t: Table, f: Table, t': Table, last: nat, words: seq<seq<nat>>, slots: seq<int>, word: seq<nat>)
    requires WellFormed(t) && t.cur != LzwTable.NONE && Known(t, last) && word != [] && Shaped(t')
    requires f == Fill(t, last, word[0]) && Shaped(f) && MovedOn(f, t')
    requires 0 < |words| == |slots| && words[|words| - 1] == Str(t, last) && Holds(t, words, slots)
    ensures Holds(t', words + [word], slots + [t.cur as int])
  {
    hide FilledWith, Shaped, MovedOn, Str, Fill;
    var words', slots' := words + [word], slots + [t.cur as int];
    forall e | e in t'.linked ensures Filled(t', words', slots', e) {
      EntryKept(t, f, t', last, word[0], e);
      if e == t.cur {
        FilledNow(words, slots, word, e);
      } else {
        assert Filled(t, words, slots, e);
        FilledStays(words, slots, word, t.cur, e, Str(t, e));
      }
    }
  }

  lemma NextRead(codes: seq<nat>, src: seq<nat>, size: nat, min: nat, code: nat)
    requires size <= 8 * |src| && ReadFrom(codes, src, size, min)
    requires Begins(min, |codes|) + Width(min + 1 + |codes|) <= size
    requires code == Field(src, Begins(min, |codes|), Width(min + 1 + |codes|))
    ensures ReadFrom(codes + [code], src, size, min)
    ensures Begins(min, |codes| + 1) == Begins(min, |codes|) + Width(min + 1 + |codes|)
  {
    hide Field, Width;
    var codes' := codes + [code];
    forall i | 0 <= i < |codes'|
      ensures Begins(min, i) + Width(min + 1 + i) <= size && codes'[i] == Field(src, Begins(min, i), Width(min + 1 + i))
    {
      assert i < |codes| ==> codes[i] == codes'[i];
    }
  }

  /** What one code does. */
  lemma OneStep(s: Spot, src: seq<nat>, size: nat, word: seq<nat>)
    requires Ready(s, src, size) && s.pos + s.t.bits <= size && Shaped(s.t) && 0 <= s.last
    requires (Field(src, s.pos, s.t.bits) == s.t.cur || Known(s.t, Field(src, s.pos, s.t.bits)))
    requires word == Entry(s.t, s.last, Field(src, s.pos, s.t.bits))
    ensures var r := Onward(s, src, size);
      && Ready(r, src, size) && Shaped(r.t) && r.last == Field(src, s.pos, s.t.bits) && r.pos == s.pos + s.t.bits
      && word != [] && Shaped(Fill(s.t, s.last, word[0])) && r.t == Advance(Fill(s.t, s.last, word[0]))
      && Known(r.t, r.last) && Str(r.t, r.last) == word
      && OutFrom(s, src, size) == word + OutFrom(r, src, size)
  {
    hide Shaped, WellFormed, Known, ValidFrom, After, Entry, Str, Fill, Advance, Out, Field;
    CodeStep(s.t, s.last, Field(src, s.pos, s.t.bits), src, size, s.pos);
    OnwardReady(s, src, size);
    ShapedHere(Onward(s, src, size).t);
  }

  /** One more code. */
  lemma TellOne(s: Spot, codes: seq<nat>, words: seq<seq<nat>>, slots: seq<int>, src: seq<nat>, size: nat, min: nat)
      returns (code: nat, word: seq<nat>)
    requires Told(s, codes, words, slots, src, size, min) && s.pos + s.t.bits <= size && (min == 128 || min == 256)
    ensures Told(Onward(s, src, size), codes + [code], words + [word], slots + [s.t.cur], src, size, min)
    ensures OutFrom(s, src, size) == word + OutFrom(Onward(s, src, size), src, size)
  {
    hide *;
    ToldIs(s, codes, words, slots, src, size, min);
    ReadyIs(s, src, size);
    CodeFits(s, src, size);
    code := Field(src, s.pos, s.t.bits);
    word := Entry(s.t, s.last, code);
    OneStep(s, src, size, word);
    var f, r := Fill(s.t, s.last, word[0]), Onward(s, src, size);
    AdvanceMoves(f);
    FillGrown(s.t, s.last, word[0], min, |codes|);
    FillMin(s.t, s.last, word[0]);
    GrowsOn(f, min, |codes|);
    NextRead(codes, src, size, min, code);
    NextStands(s.t, s.last, codes, words, slots, code);
    HoldsOn(s.t, f, r.t, s.last, words, slots, word);
    NextSpelt(codes, words, slots, min, code, word, s.t.cur);
    NextInOrder(slots, min, s.t.cur);
    ToldAgain(r, codes + [code], words + [word], slots + [s.t.cur], src, size, min);
  }

  lemma ReadyIs(s: Spot, src: seq<nat>, size: nat)
    requires Ready(s, src, size)
    ensures size <= 8 * |src| && WellFormed(s.t) && Shaped(s.t) && s.t.cur != LzwTable.NONE && Known(s.t, s.last)
    ensures 0 <= s.last < TABLE && ValidFrom(s.t, s.last, src, size, s.pos)
  {
    hide Shaped, Known, ValidFrom;
    KnownRange(s.t, s.last);
  }

  lemma ToldIs(s: Spot, codes: seq<nat>, words: seq<seq<nat>>, slots: seq<int>, src: seq<nat>, size: nat, min: nat)
    requires Told(s, codes, words, slots, src, size, min)
    ensures Ready(s, src, size) && WellFormed(s.t) && Shaped(s.t) && Known(s.t, s.last)
    ensures Grown(s.t, min, |codes|) && s.pos == Begins(min, |codes|) && s.t.bits == Width(min + 1 + |codes|)
    ensures s.t.min == min && 0 < |codes| == |words| == |slots|
    ensures size <= 8 * |src| && ReadFrom(codes, src, size, min) && Spelt(codes, words, slots, min)
    ensures InOrder(slots, min) && words[|words| - 1] == Str(s.t, s.last) && Holds(s.t, words, slots)
    ensures Slot(min, |codes| - 1) < TABLE ==> s.t.cur == Slot(min, |codes| - 1)
  {
    hide Shaped, Known, ValidFrom, Str, Holds, ReadFrom, Begins, Width, Stands;
  }

  lemma ToldAgain(s: Spot, codes: seq<nat>, words: seq<seq<nat>>, slots: seq<int>, src: seq<nat>, size: nat, min: nat)
    requires Ready(s, src, size) && Grown(s.t, min, |codes|) && s.pos == Begins(min, |codes|) && Shaped(s.t)
    requires size <= 8 * |src| && ReadFrom(codes, src, size, min) && Spelt(codes, words, slots, min)
    requires InOrder(slots, min) && Known(s.t, s.last) && words != [] && words[|words| - 1] == Str(s.t, s.last)
    requires |words| == |slots| && Holds(s.t, words, slots)
    ensures Told(s, codes, words, slots, src, size, min)
  {
    hide Shaped, Known, ValidFrom, Str, Holds, ReadFrom, Begins, Grown, Spelt, InOrder, WellFormed;
  }

  lemma FillMin(t: Table, last: nat, ch: nat)
    requires Shaped(t) && t.cur != LzwTable.NONE
    ensures Fill(t, last, ch).min == t.min
  {
  }

  lemma NextSpelt(codes: seq<nat>, words: seq<seq<nat>>, slots: seq<int>, min: nat, code: nat, word: seq<nat>, cur: int)
    requires Spelt(codes, words, slots, min)
    requires Stands(min, codes + [code], words + [word], slots + [cur], |codes|)
    ensures Spelt(codes + [code], words + [word], slots + [cur], min)
  {
    hide Stands;
    forall i | 0 < i < |codes| + 1 ensures Stands(min, codes + [code], words + [word], slots + [cur], i) {
      if i < |codes| {
        assert Stands(min, codes, words, slots, i);
        StoodStays(min, codes, words, slots, i, code, word, cur);
      }
    }
  }

  lemma NextInOrder(slots: seq<int>, min: nat, cur: int)
    requires InOrder(slots, min) && 0 < |slots| && (Slot(min, |slots| - 1) < TABLE ==> cur == Slot(min, |slots| - 1))
    ensures InOrder(slots + [cur], min)
  {
    hide Slot;
    var slots' := slots + [cur];
    forall k | 1 <= k < |slots'| && Slot(min, k - 1) < TABLE ensures slots'[k] == Slot(min, k - 1) {
      assert k < |slots| ==> slots[k] == Slot(min, k - 1);
    }
  }

  lemma {:induction false} FlatMore(words: seq<seq<nat>>, word: seq<nat>)
    ensures Flat(words + [word]) == Flat(words) + word
  {
    if words == [] {
      assert [word][1..] == [];
    } else {
      FlatMore(words[1..], word);
      assert (words + [word])[1..] == words[1..] + [word];
    }
  }

  lemma Forth(s: Spot, src: seq<nat>, size: nat)
    requires Ready(s, src, size)
    ensures s.t.bits > 0
    ensures s.pos + s.t.bits > size ==> OutFrom(s, src, size) == []
    ensures s.pos + s.t.bits <= size ==> Onward(s, src, size).pos == s.pos + s.t.bits
  {
    hide Known, After, Field, Str, Entry, Pow2;
  }

  /** All the codes that are left. */
  lemma {:induction false} TellAll(s: Spot, codes: seq<nat>, words: seq<seq<nat>>, slots: seq<int>, src: seq<nat>,
                                   size: nat, min: nat)
      returns (codes': seq<nat>, words': seq<seq<nat>>, slots': seq<int>)
    requires Told(s, codes, words, slots, src, size, min) && (min == 128 || min == 256)
    ensures size <= 8 * |src| && ReadFrom(codes', src, size, min) && Spelt(codes', words', slots', min)
    ensures InOrder(slots', min) && Begins(min, |codes'|) + Width(min + 1 + |codes'|) > size
    ensures Ready(s, src, size) && Flat(words') == Flat(words) + OutFrom(s, src, size)
    decreases size - s.pos
  {
    hide *;
    ToldIs(s, codes, words, slots, src, size, min);
    Forth(s, src, size);
    if s.pos + s.t.bits > size {
      codes', words', slots' := codes, words, slots;
    } else {
      var code, word := TellOne(s, codes, words, slots, src, size, min);
      FlatMore(words, word);
      codes', words', slots' := TellAll(Onward(s, src, size), codes + [code], words + [word], slots + [s.t.cur], src,
                                        size, min);
    }
  }

  /** After the first code. */
  lemma TellFirst(src: seq<nat>, size: nat, sevenBit: bool)
    requires size <= 8 * |src| && ValidStream(src, size, sevenBit)
    ensures var s := First(src, size, sevenBit);
      && 0 <= s.last && Told(s, [s.last], [[s.last as nat]], [LzwTable.NONE], src, size, Literals(sevenBit))
      && Expansion(src, size, sevenBit) == [s.last as nat] + OutFrom(s, src, size)
  {
    hide Pow2, Field, Advance, Known, ValidFrom, Out;
    var t, s := StartTable(sevenBit), First(src, size, sevenBit);
    StartOk(sevenBit);
    StartGrown(sevenBit);
    GrowsOn(t, Literals(sevenBit), 0);
    AdvanceMoves(t);
  }

  /** The codes are read in order, each at the width that its number asks for, until the next one would not fit; the
      expansion is what they stand for, one after the other. */
  lemma Textbook(src: seq<nat>, size: nat, sevenBit: bool)
      returns (codes: seq<nat>, words: seq<seq<nat>>, slots: seq<int>)
    requires size <= 8 * |src| && ValidStream(src, size, sevenBit)
    ensures ReadFrom(codes, src, size, Literals(sevenBit))
    ensures Begins(Literals(sevenBit), |codes|) + Width(Literals(sevenBit) + 1 + |codes|) > size
    ensures Spelt(codes, words, slots, Literals(sevenBit)) && InOrder(slots, Literals(sevenBit))
    ensures Expansion(src, size, sevenBit) == Flat(words)
  {
    hide Told, OutFrom, ReadFrom, Spelt, InOrder, Begins, Width, Expansion, ValidStream;
    TellFirst(src, size, sevenBit);
    var s := First(src, size, sevenBit);
    codes, words, slots := TellAll(s, [s.last], [[s.last]], [LzwTable.NONE], src, size, Literals(sevenBit));
  }
}
