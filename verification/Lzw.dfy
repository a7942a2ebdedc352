/** The LZW expander: variable-width codes, a dictionary that recycles leaf entries once full, and an output buffer
    that may fill up at any byte. */
module Lzw {
  import opened Bits
  import opened Words
  import opened LzwTable

  // ---- reading codes ----

  /** Bit n of a byte string, least significant bit of each byte first. */
  predicate Bt(src: seq<nat>, n: nat)
    requires n / 8 < |src|
  {
    And(src[n / 8], Shl(1, n % 8)) != 0
  }

  lemma BtIsBit(src: seq<nat>, n: nat)
    requires n / 8 < |src|
    ensures Bt(src, n) <==> Bit(src[n / 8], n % 8)
  {
    ShlIsMul(1, n % 8);
    OneBit(src[n / 8], n % 8);
  }

  /** The number whose binary digits, low to high, are the `bits` bits from `pos`. */
  function Field(src: seq<nat>, pos: nat, bits: nat): (f: nat)
    requires pos + bits <= 8 * |src|
    ensures f < Pow2(bits)
  {
    if bits == 0 then 0
    else Field(src, pos, bits - 1) + (if Bt(src, pos + bits - 1) then Pow2(bits - 1) else 0)
  }

  /** Bit i of a field is bit pos + i of the bytes, each byte's low bit first. */
  lemma {:induction false} FieldBits(src: seq<nat>, pos: nat, bits: nat, i: nat)
    requires pos + bits <= 8 * |src| && i < bits
    ensures Bit(Field(src, pos, bits), i) <==> Bit(src[(pos + i) / 8], (pos + i) % 8)
  {
    hide Bt, Bit;
    BtIsBit(src, pos + i);
    var x := Field(src, pos, bits - 1);
    OrPower(x, bits - 1);
    if Bt(src, pos + bits - 1) {
      BitOfOr(x, Pow2(bits - 1), i);
      BitOfPow2(bits - 1, i);
    }
    if i < bits - 1 {
      FieldBits(src, pos, bits - 1, i);
    } else {
      HighBitClear(x, i);
    }
  }

  lemma OrPower(x: nat, k: nat)
    requires x < Pow2(k)
    ensures Or(x, Pow2(k)) == x + Pow2(k)
  {
    OrAbove(x, 1, k);
    ShlIsMul(1, k);
  }

  lemma {:induction false} HighBitClear(x: nat, k: nat)
    requires x < Pow2(k)
    ensures !Bit(x, k)
  {
    if k > 0 {
      HighBitClear(x / 2, k - 1);
    }
  }

  /** BFieldExtU32. */
  method ReadField(src: seq<nat>, pos: nat, bits: nat) returns (result: nat)
    requires pos + bits <= 8 * |src| && bits <= 32
    ensures result == Field(src, pos, bits)
  {
    hide Bt, Or;
    result := 0;
    for i := 0 to bits
      invariant result == Field(src, pos, i)
    {
      if Bt(src, pos + i) {
        OrPower(result, i);
        result := Or(result, Shl(1, i));
        ShlIsMul(1, i);
      }
    }
  }

  // ---- what a code stream stands for ----

  /** The string a code stands for; the entry being filled stands for the previous string and its own first byte. */
  ghost function Entry(t: Table, last: int, code: int): (s: seq<nat>)
    requires WellFormed(t) && Known(t, last) && (code == t.cur || Known(t, code))
    ensures |s| > 0
  {
    if code == t.cur then Str(t, last) + [Str(t, last)[0]] else Str(t, code)
  }

  lemma {:induction false} StrBytes(t: Table, c: int)
    requires Shaped(t) && Known(t, c)
    ensures forall i :: 0 <= i < |Str(t, c)| ==> Str(t, c)[i] < 256
    decreases Depth(t, c)
  {
    assert c in t.linked ==> EntryOk(t, c);
    if c >= t.min {
      StrBytes(t, t.prefix[c]);
    }
  }

  /** The table after a code has been expanded: one entry more, and the next one chosen. */
  ghost function After(t: Table, last: int, code: int): (t': Table)
    requires WellFormed(t) && t.cur != NONE && Known(t, last) && (code == t.cur || Known(t, code))
    ensures WellFormed(t') && t'.cur != NONE && t'.min == t.min
  {
    StrBytes(t, last);
    StrBytes(t, if code == t.cur then last else code);
    var ch := Entry(t, last, code)[0];
    KnownRange(t, last);
    FillShaped(t, last, ch);
    AdvanceOk(Fill(t, last, ch));
    Advance(Fill(t, last, ch))
  }

  lemma KnownRange(t: Table, c: int)
    requires Shaped(t) && Known(t, c)
    ensures 0 <= c < TABLE
  {
    assert c in t.linked ==> EntryOk(t, c);
  }

  /** Every code is a literal, the entry being filled, or a linked entry, and is not itself chosen for recycling. */
  ghost predicate ValidFrom(t: Table, last: int, src: seq<nat>, size: nat, pos: nat)
    requires WellFormed(t) && t.cur != NONE && Known(t, last) && size <= 8 * |src|
    decreases size - pos
  {
    pos + t.bits > size ||
    var code := Field(src, pos, t.bits);
    && (code == t.cur || Known(t, code))
    && Known(After(t, last, code), code)
    && ValidFrom(After(t, last, code), code, src, size, pos + t.bits)
  }

  /** The expansion: the strings of the codes, one after the other. */
  ghost function Out(t: Table, last: int, src: seq<nat>, size: nat, pos: nat): seq<nat>
    requires WellFormed(t) && t.cur != NONE && Known(t, last) && size <= 8 * |src| && ValidFrom(t, last, src, size, pos)
    decreases size - pos
  {
    if pos + t.bits > size then []
    else
      var code := Field(src, pos, t.bits);
      Entry(t, last, code) + Out(After(t, last, code), code, src, size, pos + t.bits)
  }

  /** Before any code: the first must be a literal, and the rest valid after it. */
  ghost predicate StartsAt(t: Table, src: seq<nat>, size: nat, pos: nat) {
    && size <= 8 * |src| && WellFormed(t) && t.cur == NONE && pos + t.bits <= size && Field(src, pos, t.bits) < t.min
    && WellFormed(Advance(t)) && Advance(t).cur != NONE && Advance(t).min == t.min
    && ValidFrom(Advance(t), Field(src, pos, t.bits), src, size, pos + t.bits)
  }

  /** Between codes, the last of them being `last`, whose string starts with ch. */
  ghost predicate GoesOn(t: Table, last: int, ch: nat, src: seq<nat>, size: nat, pos: nat) {
    && size <= 8 * |src| && WellFormed(t) && t.cur != NONE && Known(t, last) && ch == Str(t, last)[0]
    && ValidFrom(t, last, src, size, pos)
  }

  // ---- the lists of entries that extend a code ----

  function Head(s: seq<int>): int {
    if s == [] then NONE else s[0]
  }

  function NextIn(s: seq<int>, k: nat): int
    requires k < |s|
  {
    if k + 1 < |s| then s[k + 1] else NONE
  }

  ghost predicate KidOk(next: seq<int>, prefix: seq<nat>, kids: seq<seq<int>>, linked: set<int>, c: nat, k: nat)
    requires c < |kids| && k < |kids[c]| && |next| == |prefix| == TABLE
  {
    var e := kids[c][k];
    0 <= e < TABLE && e in linked && prefix[e] == c && next[e] == NextIn(kids[c], k)
  }

  ghost predicate KidsOk(next: seq<int>, hash: seq<int>, prefix: seq<nat>, kids: seq<seq<int>>, linked: set<int>,
                         c: nat)
    requires |next| == |hash| == |prefix| == |kids| == TABLE && c < TABLE
  {
    && hash[c] == Head(kids[c])
    && (forall i, j :: 0 <= i < j < |kids[c]| ==> kids[c][i] != kids[c][j])
    && (forall k: nat {:trigger KidOk(next, prefix, kids, linked, c, k)} :: k < |kids[c]| ==>
        KidOk(next, prefix, kids, linked, c, k))
  }

  /** hash[c] lists exactly the linked entries whose prefix is c, each once. */
  ghost predicate ListsOk(next: seq<int>, hash: seq<int>, prefix: seq<nat>, kids: seq<seq<int>>, linked: set<int>) {
    && |next| == |hash| == |prefix| == |kids| == TABLE
    && (forall c: nat {:trigger KidsOk(next, hash, prefix, kids, linked, c)} :: c < TABLE ==>
        KidsOk(next, hash, prefix, kids, linked, c))
    && (forall e {:trigger prefix[e]} :: 0 <= e < TABLE ==> prefix[e] < TABLE && (e in linked ==> e in kids[prefix[e]]))
  }

  lemma EmptyIffLeaf(next: seq<int>, hash: seq<int>, prefix: seq<nat>, kids: seq<seq<int>>, t: Table, c: nat)
    requires ListsOk(next, hash, prefix, kids, t.linked) && t.prefix == prefix && c < TABLE
    ensures hash[c] == NONE <==> !HasChild(t, c)
  {
    assert KidsOk(next, hash, prefix, kids, t.linked, c);
    if kids[c] != [] {
      assert KidOk(next, prefix, kids, t.linked, c, 0);
      assert t.prefix[kids[c][0]] == c;
    }
  }

  lemma KidsReal(next: seq<int>, hash: seq<int>, prefix: seq<nat>, kids: seq<seq<int>>, linked: set<int>, c: nat)
    requires ListsOk(next, hash, prefix, kids, linked) && c < TABLE
    ensures forall k :: 0 <= k < |kids[c]| ==> kids[c][k] != NONE
  {
    assert KidsOk(next, hash, prefix, kids, linked, c);
    forall k: nat | k < |kids[c]| ensures kids[c][k] != NONE {
      assert KidOk(next, prefix, kids, linked, c, k);
    }
  }

  /** Linking a fresh entry at the head of a list. */
  lemma LinkKid(next: seq<int>, hash: seq<int>, prefix: seq<nat>, kids: seq<seq<int>>, linked: set<int>, e: int, c: nat)
    requires ListsOk(next, hash, prefix, kids, linked) && 0 <= e < TABLE && e !in linked && c < TABLE
    ensures ListsOk(next[e := hash[c]], hash[c := e], prefix[e := c], kids[c := [e] + kids[c]], linked + {e})
  {
    var next', hash', prefix' := next[e := hash[c]], hash[c := e], prefix[e := c];
    var kids', linked' := kids[c := [e] + kids[c]], linked + {e};
    forall d: nat | d < TABLE ensures KidsOk(next', hash', prefix', kids', linked', d) {
      assert KidsOk(next, hash, prefix, kids, linked, d);
      forall k: nat | k < |kids[d]| ensures kids[d][k] != e && KidOk(next, prefix, kids, linked, d, k) {
        assert KidOk(next, prefix, kids, linked, d, k);
      }
      forall k: nat | k < |kids'[d]| ensures KidOk(next', prefix', kids', linked', d, k) {
        if d == c && k > 0 {
          assert KidOk(next, prefix, kids, linked, d, k - 1);
        } else if d != c {
          assert KidOk(next, prefix, kids, linked, d, k);
        }
      }
    }
    forall x | 0 <= x < TABLE ensures prefix'[x] < TABLE && (x in linked' ==> x in kids'[prefix'[x]]) {
      assert prefix[x] < TABLE && (x in linked ==> x in kids[prefix[x]]);
    }
  }

  /** Taking the k-th entry off a list. */
  lemma UnlinkKid(next: seq<int>, hash: seq<int>, prefix: seq<nat>, kids: seq<seq<int>>, linked: set<int>, c: nat,
                  k: nat)
    requires ListsOk(next, hash, prefix, kids, linked) && c < TABLE && k < |kids[c]|
    ensures var e := kids[c][k];
      && 0 <= e < TABLE && (k > 0 ==> 0 <= kids[c][k - 1] < TABLE)
      && ListsOk(if k > 0 then next[kids[c][k - 1] := next[e]] else next, if k > 0 then hash else hash[c := next[e]],
                 prefix,
                 kids[c := kids[c][..k] + kids[c][k + 1..]], linked - {e})
  {
    assert KidsOk(next, hash, prefix, kids, linked, c) && KidOk(next, prefix, kids, linked, c, k);
    assert k > 0 ==> KidOk(next, prefix, kids, linked, c, k - 1);
    var e := kids[c][k];
    var next', hash' := if k > 0 then next[kids[c][k - 1] := next[e]] else next,
        if k > 0 then hash else hash[c := next[e]];
    var kids', linked' := kids[c := kids[c][..k] + kids[c][k + 1..]], linked - {e};
    forall d: nat | d < TABLE ensures KidsOk(next', hash', prefix, kids', linked', d) {
      assert KidsOk(next, hash, prefix, kids, linked, d);
      forall i: nat | i < |kids'[d]| ensures KidOk(next', prefix, kids', linked', d, i) {
        var j := if d == c && i >= k then i + 1 else i;
        assert kids'[d][i] == kids[d][j];
        assert KidOk(next, prefix, kids, linked, d, j);
      }
    }
    forall x | 0 <= x < TABLE ensures prefix[x] < TABLE && (x in linked' ==> x in kids'[prefix[x]]) {
      assert prefix[x] < TABLE && (x in linked ==> x in kids[prefix[x]]);
      if x in linked' && prefix[x] == c {
        var i :| 0 <= i < |kids[c]| && kids[c][i] == x;
        assert kids'[c][if i < k then i else i - 1] == x;
      }
    }
  }

  // ---- the expander ----

  class ArcCtrl {
    var srcPos: nat
    const srcSize: nat            // in bits
    const src: seq<nat>
    var dst: array<nat>
    var dstPos: nat
    const minEntry: nat
    var cur: int                  // cur_entry and next_entry, as indices
    var nxt: int
    var curBits: nat
    var bits: nat                 // next_bits_in_use
    var stk: seq<nat>             // top first
    var free: nat
    var limit: nat
    var saved: int                // NONE before the first code
    var used: bool
    var lastCh: nat
    var next: seq<int>            // the table, field by field
    var prefix: seq<nat>
    var ch: seq<nat>
    var hash: seq<int>

    ghost var kids: seq<seq<int>>
    ghost var linked: set<int>
    ghost var depth: seq<nat>

    ghost function T(): Table
      reads this
    {
      Table(minEntry, prefix, ch, linked, depth, cur, nxt, free, bits)
    }

    ghost predicate Tables()
      reads this
    {
      && |next| == |hash| == |prefix| == |ch| == |depth| == |kids| == TABLE && ListsOk(next, hash, prefix, kids, linked)
      && limit == Pow2(bits) && srcSize <= 8 * |src|
    }

    ghost predicate AtStart()
      reads this
    {
      used && StartsAt(T(), src, srcSize, srcPos)
    }

    ghost predicate Between(last: int)
      reads this
    {
      !used && GoesOn(T(), last, lastCh, src, srcSize, srcPos)
    }

    ghost predicate Valid()
      reads this
    {
      Tables() && dstPos <= dst.Length && |stk| <= TABLE && if saved == NONE then stk == []
          && AtStart() else Between(saved)
    }

    /** Everything still to be put out. */
    ghost function Pending(): seq<nat>
      requires Valid()
      reads this
    {
      if saved == NONE then
        var first := Field(src, srcPos, bits);
        [first] + Out(Advance(T()), first, src, srcSize, srcPos + bits)
      else stk + Out(T(), saved, src, srcSize, srcPos)
    }

    /** Move from the stack to the buffer while there is something on the one and room in the other. */
    method DrainStack() returns (ghost bytes: seq<nat>)
      requires dstPos <= dst.Length
      modifies this`stk, this`dstPos, dst
      ensures dstPos <= dst.Length && old(dst[..dstPos]) + bytes == dst[..dstPos]
      ensures old(stk) == bytes + stk && (stk == [] || dstPos == dst.Length)
    {
      bytes := [];
      while dstPos < dst.Length && stk != []
        invariant dstPos <= dst.Length && old(dst[..dstPos]) + bytes == dst[..dstPos]
        invariant old(stk) == bytes + stk
        decreases |stk|
      {
        dst[dstPos] := stk[0];
        dstPos := dstPos + 1;
        bytes := bytes + [stk[0]];
        stk := stk[1..];
      }
    }

    /** Push what a code stands for, last byte first; the stack has room for it. */
    method PushString(start: nat) returns (code: nat)
      requires Shaped(T()) && Known(T(), start) && |stk| <= 1
      modifies this`stk
      ensures stk == Str(T(), start) + old(stk) && |stk| <= TABLE && code == Str(T(), start)[0] && code < 256
    {
      code := start;
      ghost var t, pushed := T(), [];
      StringsFit(t, start);
      StrBytes(t, start);
      while code >= minEntry
        invariant Known(t, code) && T() == t && stk == pushed + old(stk) && Str(t, start) == Str(t, code) + pushed
        invariant Str(t, start)[0] == Str(t, code)[0]
        decreases Depth(t, code)
      {
        assert EntryOk(t, code);
        assert |stk| < TABLE;   // the stack is not full
        stk := [ch[code]] + stk;
        pushed := [ch[code]] + pushed;
        code := prefix[code];
      }
      assert |stk| < TABLE;
      stk := [code] + stk;
    }

    /** The entry being filled comes to extend the last code. */
    method FillEntry(last: nat)
      requires Tables() && WellFormed(T()) && cur != NONE && Known(T(), last) && last < TABLE && lastCh < 256
      modifies this`used, this`prefix, this`ch, this`next, this`hash, this`kids, this`linked, this`depth
      ensures Tables() && used && T() == Fill(old(T()), last, lastCh)
    {
      hide ListsOk, EntryOk, Phase, Pow2;
      CurInTable(T());
      LinkKid(next, hash, prefix, kids, linked, cur, last);
      depth := depth[cur := Depth(T(), last) + 1];
      used := true;
      prefix := prefix[cur := last];
      ch := ch[cur := lastCh];
      next := next[cur := hash[last]];
      hash := hash[last := cur];
      kids := kids[last := [cur] + kids[last]];
      linked := linked + {cur};
    }

    /** ArcEntryGet. */
    method ArcEntryGet()
      requires Tables() && Shaped(T())
      modifies this`used, this`cur, this`curBits, this`nxt, this`bits, this`limit, this`free, this`next, this`hash,
          this`kids, this`linked
      ensures Tables() && !used && T() == if old(used) then Advance(old(T())) else old(T())
      ensures old(used) ==> MovedOn(old(T()), T()) && curBits == old(bits)
    {
      hide ListsOk, Pow2, MovedOn, EntryOk, HasChild, Search;
      if used {
        ghost var t := T();
        PowersHere();
        AdvanceMoves(t);
        var i := free;
        used := false;
        cur := nxt;
        curBits := bits;
        if bits < MAX_BITS {
          nxt := i;
          i := i + 1;
          if i == limit {
            bits := bits + 1;
            limit := Pow2(bits);
          }
        } else {
          i := FindLeaf(i, t);
          nxt := i;
          Unlink(i);
        }
        free := i;
      }
    }

    /** The next entry, in cyclic order, whose list is empty. */
    method FindLeaf(start: nat, ghost t: Table) returns (i: nat)
      requires Tables() && Shaped(t) && t.bits == MAX_BITS && t.free == start && limit == TABLE
      requires t.prefix == prefix && t.linked == linked && t.min == minEntry
      ensures i == Search(t, start, TABLE) && minEntry <= i < TABLE
    {
      hide ListsOk;
      PickIsFresh(t);
      ghost var pick, n: int := Search(t, start, TABLE), TABLE - 1;
      i := Cycle(minEntry, start);
      EmptyIffLeaf(next, hash, prefix, kids, t, i);
      while hash[i] != NONE
        invariant minEntry <= i < TABLE && (hash[i] != NONE <==> HasChild(t, i)) && n >= -1
        invariant if HasChild(t, i) then n >= 0 && pick == Search(t, i, n) else i == pick
        decreases n
      {
        i := Cycle(minEntry, i);
        n := n - 1;
        EmptyIffLeaf(next, hash, prefix, kids, t, i);
      }
    }

    /** Take entry e off the list of its prefix, if it is on it. */
    method Unlink(e: nat)
      requires ListsOk(next, hash, prefix, kids, linked) && e < TABLE
      modifies this`next, this`hash, this`kids, this`linked
      ensures ListsOk(next, hash, prefix, kids, linked) && linked == old(linked) - {e as int}
    {
      var p := prefix[e];
      assert KidsOk(next, hash, prefix, kids, linked, p);
      KidsReal(next, hash, prefix, kids, linked, p);
      var before, at := NONE, hash[p];
      ghost var k := 0;
      while at != NONE && at != e
        invariant 0 <= k <= |kids[p]| && at == (if k < |kids[p]| then kids[p][k] else NONE)
        invariant before == (if k == 0 then NONE else kids[p][k - 1])
        invariant forall j :: 0 <= j < k ==> kids[p][j] != e
        decreases |kids[p]| - k
      {
        assert KidOk(next, prefix, kids, linked, p, k);
        before := at;
        at := next[at];
        k := k + 1;
      }
      if at != NONE {
        assert KidOk(next, prefix, kids, linked, p, k);
        UnlinkKid(next, hash, prefix, kids, linked, p, k);
        assert k > 0 ==> KidOk(next, prefix, kids, linked, p, k - 1);
        if before == NONE {
          hash := hash[p := next[e]];
        } else {
          next := next[before := next[e]];
        }
        kids := kids[p := kids[p][..k] + kids[p][k + 1..]];
        linked := linked - {e as int};
      } else {
        assert k == |kids[p]| && e !in kids[p];
        assert linked == linked - {e as int};
      }
    }

    /** Read one code and expand it on the empty stack; the table gains an entry. */
    method ExpandCode(last: nat) returns (code: nat)
      requires Tables() && Between(last) && stk == [] && last < TABLE && srcPos + bits <= srcSize
      modifies this`srcPos, this`stk, this`lastCh, this`used, this`cur, this`curBits, this`nxt, this`bits,
          this`limit, this`free
      modifies this`next, this`hash, this`prefix, this`ch, this`kids, this`linked, this`depth
      ensures Tables() && Between(code) && code < TABLE && |stk| <= TABLE
      ensures old(Out(T(), last, src, srcSize, srcPos)) == stk + Out(T(), code, src, srcSize, srcPos)
      ensures srcPos > old(srcPos)
    {
      hide ListsOk, Pow2, Bt, Field, Shaped, WellFormed, Str, Entry, After, Fill, Advance, ValidFrom, Out, Known;
      ghost var t, pos := T(), srcPos;
      code := ReadField(src, srcPos, bits) by { BitsBounded(t); }
      CodeStep(t, last, code, src, srcSize, srcPos);
      srcPos := srcPos + bits;
      var start := code;
      if cur == code {
        stk := [lastCh] + stk;
        start := last;
      }
      lastCh := PushString(start);
      FillEntry(last);
      ArcEntryGet();
    }

    /** The first code is a literal, put out directly. */
    method FirstCode() returns (last: nat)
      requires Tables() && AtStart() && stk == [] && dstPos < dst.Length
      modifies this`srcPos, this`dstPos, this`lastCh, this`used, this`cur, this`curBits, this`nxt, this`bits,
          this`limit, this`free
      modifies this`next, this`hash, this`kids, this`linked, dst
      ensures Tables() && Between(last) && last < TABLE && dstPos == old(dstPos) + 1
      ensures last == old(Field(src, srcPos, bits)) && dst[..dstPos] == old(dst[..dstPos]) + [last]
      ensures T() == Advance(old(T())) && srcPos == old(srcPos) + old(bits)
    {
      hide ListsOk, Pow2, Bt, Field, Advance, ValidFrom;
      FieldInTable(T(), src, srcPos);
      last := ReadField(src, srcPos, bits) by { BitsBounded(T()); }
      srcPos := srcPos + bits;
      dst[dstPos] := last;
      dstPos := dstPos + 1;
      ArcEntryGet();
      lastCh := last;
    }

    ghost function Written(): seq<nat>
      requires dstPos <= dst.Length
      reads this, dst
    {
      dst[..dstPos]
    }

    /** What is left of the expansion, after the stack, when `last` was the last code. */
    ghost function Rest(last: int): seq<nat>
      requires Between(last)
      reads this
    {
      stk + Out(T(), last, src, srcSize, srcPos)
    }

    /** Expand codes until the buffer is full or they run out. */
    method ExpandCodes(first: nat) returns (last: nat, ghost bytes: seq<nat>)
      requires Tables() && Between(first) && first < TABLE && stk == [] && dstPos <= dst.Length
      modifies this`srcPos, this`dstPos, this`stk, this`lastCh, this`used, this`cur, this`curBits, this`nxt,
          this`bits, this`limit
      modifies this`free, this`next, this`hash, this`prefix, this`ch, this`kids, this`linked, this`depth, dst
      ensures Tables() && Between(last) && last < TABLE && |stk| <= TABLE && dstPos <= dst.Length
      ensures Puts(old(Written()), Written(), bytes, old(Rest(first)), Rest(last))
      ensures dstPos == dst.Length || Rest(last) == []
    {
      hide ListsOk, Pow2, Bt, Field, Shaped, WellFormed, Str, Entry, After, Fill, Advance, ValidFrom, Out, Known;
      last, bytes := first, [];
      while dstPos < dst.Length && srcPos + bits <= srcSize
        invariant Tables() && Between(last) && last < TABLE && |stk| <= TABLE
        invariant dstPos <= dst.Length && old(dst[..dstPos]) + bytes == dst[..dstPos]
        invariant stk == [] || dstPos == dst.Length
        invariant old(Out(T(), first, src, srcSize, srcPos)) == bytes + stk + Out(T(), last, src, srcSize, srcPos)
        decreases srcSize - srcPos
      {
        ghost var out0 := Out(T(), last, src, srcSize, srcPos);
        last := ExpandCode(last);
        ghost var stk1, out1 := stk, Out(T(), last, src, srcSize, srcPos);
        ghost var more := DrainStack();
        assert Out(T(), last, src, srcSize, srcPos) == out1;
        DrainedOn(bytes, out0, stk1, out1, more, stk);
        bytes := bytes + more;
      }
      NothingLeft(T(), last, src, srcSize, srcPos);
    }

    /** The code to go on from: the saved one, or the first, which goes out directly. */
    method Resume() returns (last: nat, ghost bytes: seq<nat>)
      requires Valid() && stk == [] && dstPos < dst.Length
      modifies this`srcPos, this`dstPos, this`lastCh, this`used, this`cur, this`curBits, this`nxt, this`bits,
          this`limit, this`free
      modifies this`next, this`hash, this`kids, this`linked, dst
      ensures Tables() && Between(last) && last < TABLE && dstPos <= dst.Length
      ensures Puts(old(Written()), Written(), bytes, old(Pending()), Rest(last))
    {
      hide ListsOk, Pow2, Bt, Field, Shaped, WellFormed, Str, Advance, ValidFrom, Out, Known;
      if saved == NONE {
        last := FirstCode();
        bytes := [last];
      } else {
        LastInTable(T(), saved);
        last, bytes := saved, [];
      }
    }

    /** Empty the stack first, as far as there is room. */
    method Drain() returns (ghost bytes: seq<nat>)
      requires Valid()
      modifies this`stk, this`dstPos, dst
      ensures Valid() && Puts(old(Written()), Written(), bytes, old(Pending()), Pending())
      ensures stk == [] || dstPos == dst.Length
    {
      hide ListsOk, Pow2, Bt, Field, Shaped, WellFormed, Str, Advance, ValidFrom, Out, Known, StartsAt, GoesOn;
      ghost var t, stk0 := T(), stk;
      bytes := DrainStack();
      assert T() == t && stk0 == bytes + stk;
      if saved != NONE {
        GoesOnIs(t, saved, lastCh, src, srcSize, srcPos);
        Rejoins(bytes, stk, stk0, Out(t, saved, src, srcSize, srcPos));
      }
    }

    /** ArcExpandBuf: continue into the current buffer until it is full or the codes run out. */
    method ExpandBuf() returns (ghost bytes: seq<nat>)
      requires Valid()
      modifies this, dst
      ensures Valid() && dst == old(dst) && dstPos <= dst.Length
      ensures Puts(old(Written()), Written(), bytes, old(Pending()), Pending())
      ensures dstPos == dst.Length || Pending() == []
    {
      hide ListsOk, Pow2, Bt, Field, Shaped, WellFormed, Str, Advance, ValidFrom, Out, Known, StartsAt, GoesOn, Puts;
      ghost var w0, p0 := Written(), Pending();
      bytes := Drain();
      if stk == [] && dstPos < dst.Length {
        ghost var w1, p1 := Written(), Pending();
        var last;
        ghost var first, more;
        last, first := Resume();
        ghost var w2, p2 := Written(), Rest(last);
        last, more := ExpandCodes(last);
        saved := last;
        PutsTwice(w0, w1, w2, bytes, first, p0, p1, p2);
        PutsTwice(w0, w2, Written(), bytes + first, more, p0, p2, Pending());
        bytes := bytes + first + more;
      }
    }

    /** ArcCtrlNew, given a whole compressed body whose codes are valid. */
    constructor (src: seq<nat>, srcSize: nat, sevenBit: bool, dst: array<nat>)
      requires srcSize <= 8 * |src| && ValidStream(src, srcSize, sevenBit)
      ensures Valid() && this.src == src && this.srcSize == srcSize && this.dst == dst && dstPos == 0
      ensures Pending() == Expansion(src, srcSize, sevenBit)
    {
      hide Pow2;
      PowersHere();
      this.src, this.srcSize, this.dst, this.dstPos := src, srcSize, dst, 0;
      srcPos := 0;
      stk := [];
      var minBits := if sevenBit then 7 else 8;
      minEntry := if sevenBit then 128 else 256;
      cur := NONE;
      nxt := if sevenBit then 128 else 256;
      curBits, bits := minBits + 1, minBits + 1;
      free := (if sevenBit then 128 else 256) + 1;
      limit := if sevenBit then 256 else 512;
      saved := NONE;
      used := true;
      lastCh := 0;
      next, hash := seq(TABLE, _ => NONE), seq(TABLE, _ => NONE);
      prefix, ch, depth := seq(TABLE, _ => 0), seq(TABLE, _ => 0), seq(TABLE, _ => 0);
      kids := seq(TABLE, _ => []);
      linked := {};
      new;
      StartOk(sevenBit);
      EmptyLists();
    }
  }

  /** The table before the first code: entry `min` is the first to be filled. */
  ghost function StartTable(sevenBit: bool): Table {
    var minEntry := if sevenBit then 128 else 256;
    Table(minEntry, seq(TABLE, _ => 0), seq(TABLE, _ => 0), {}, seq(TABLE, _ => 0), NONE, minEntry, minEntry + 1,
          if sevenBit then 8 else 9)
  }

  lemma StartOk(sevenBit: bool)
    ensures var t := StartTable(sevenBit);
      && WellFormed(t) && WellFormed(Advance(t)) && Advance(t).cur != NONE && Advance(t).min == t.min
  {
    hide Pow2;
    PowersHere();
    AdvanceOk(StartTable(sevenBit));
  }

  lemma EmptyLists()
    ensures ListsOk(seq(TABLE, _ => NONE), seq(TABLE, _ => NONE), seq(TABLE, _ => 0), seq(TABLE, _ => []), {})
  {
  }

  /** A valid body: one literal, then codes valid after it. */
  ghost predicate ValidStream(src: seq<nat>, size: nat, sevenBit: bool)
    requires size <= 8 * |src|
  {
    var t := StartTable(sevenBit);
    StartOk(sevenBit);
    && t.bits <= size && Field(src, 0, t.bits) < t.min
    && ValidFrom(Advance(t), Field(src, 0, t.bits), src, size, t.bits)
  }

  /** What it expands to. */
  ghost function Expansion(src: seq<nat>, size: nat, sevenBit: bool): seq<nat>
    requires size <= 8 * |src| && ValidStream(src, size, sevenBit)
  {
    var t := StartTable(sevenBit);
    StartOk(sevenBit);
    [Field(src, 0, t.bits)] + Out(Advance(t), Field(src, 0, t.bits), src, size, t.bits)
  }

  lemma FieldInTable(t: Table, src: seq<nat>, pos: nat)
    requires Shaped(t) && pos + t.bits <= 8 * |src|
    ensures Field(src, pos, t.bits) < TABLE
  {
    hide Pow2, Field;
    PowersHere();
    Pow2Mono(t.bits, 12);
  }

  /** These bytes went from what was pending to what has been written. */
  predicate Puts(written0: seq<nat>, written1: seq<nat>, bytes: seq<nat>, pending0: seq<nat>, pending1: seq<nat>) {
    written1 == written0 + bytes && pending0 == bytes + pending1
  }

  lemma GoesOnIs(t: Table, last: int, ch: nat, src: seq<nat>, size: nat, pos: nat)
    requires GoesOn(t, last, ch, src, size, pos)
    ensures size <= 8 * |src| && WellFormed(t) && t.cur != NONE && Known(t, last) && ValidFrom(t, last, src, size, pos)
  {
    hide WellFormed, Known, ValidFrom, Str;
  }

  lemma DrainedOn(bytes: seq<nat>, out0: seq<nat>, stk1: seq<nat>, out1: seq<nat>, more: seq<nat>, stk2: seq<nat>)
    requires out0 == stk1 + out1 && stk1 == more + stk2
    ensures bytes + [] + out0 == (bytes + more) + stk2 + out1
  {
  }

  lemma Rejoins(a: seq<nat>, b: seq<nat>, ab: seq<nat>, c: seq<nat>)
    requires ab == a + b
    ensures ab + c == a + (b + c)
  {
  }

  lemma PutsTwice(w0: seq<nat>, w1: seq<nat>, w2: seq<nat>, a: seq<nat>, b: seq<nat>, p0: seq<nat>, p1: seq<nat>,
                  p2: seq<nat>)
    requires Puts(w0, w1, a, p0, p1) && Puts(w1, w2, b, p1, p2)
    ensures Puts(w0, w2, a + b, p0, p2)
  {
  }

  lemma CurInTable(t: Table)
    requires WellFormed(t) && t.cur != NONE
    ensures 0 <= t.cur < TABLE && t.cur !in t.linked
  {
  }

  lemma LastInTable(t: Table, c: int)
    requires WellFormed(t) && Known(t, c)
    ensures 0 <= c < TABLE
  {
    KnownRange(t, c);
  }

  lemma BitsBounded(t: Table)
    requires WellFormed(t)
    ensures t.bits <= 32
  {
  }

  lemma NothingLeft(t: Table, last: int, src: seq<nat>, size: nat, pos: nat)
    requires WellFormed(t) && t.cur != NONE && Known(t, last) && size <= 8 * |src| && ValidFrom(t, last, src, size, pos)
    ensures pos + t.bits > size ==> Out(t, last, src, size, pos) == []
  {
  }

  /** Everything one step of the expander needs to know about its code. */
  lemma CodeStep(t: Table, last: nat, code: nat, src: seq<nat>, size: nat, pos: nat)
    requires WellFormed(t) && t.cur != NONE && Known(t, last) && size <= 8 * |src| && ValidFrom(t, last, src, size, pos)
    requires pos + t.bits <= size && code == Field(src, pos, t.bits)
    ensures (code == t.cur || Known(t, code)) && Shaped(t) && code < TABLE && t.bits > 0
    ensures Entry(t, last, code) == if code == t.cur then Str(t, last) + [Str(t, last)[0]] else Str(t, code)
    ensures var ch := Entry(t, last, code)[0];
      && ch < 256 && Shaped(Fill(t, last, ch)) && After(t, last, code) == Advance(Fill(t, last, ch))
    ensures var t' := After(t, last, code);
      && WellFormed(t') && t'.cur != NONE && Known(t', code) && ValidFrom(t', code, src, size, pos + t.bits)
      && Str(t', code) == Entry(t, last, code)
      && Out(t, last, src, size, pos) == Entry(t, last, code) + Out(t', code, src, size, pos + t.bits)
  {
    hide *;
    ValidStep(t, last, code, src, size, pos);
    ShapedIs(t);
    FieldInTable(t, src, pos);
    EntryIs(t, last, code);
    AfterIs(t, last, code);
    FirstByte(t, last, code);
  }

  lemma ValidStep(t: Table, last: nat, code: nat, src: seq<nat>, size: nat, pos: nat)
    requires WellFormed(t) && t.cur != NONE && Known(t, last) && size <= 8 * |src| && ValidFrom(t, last, src, size, pos)
    requires pos + t.bits <= size && code == Field(src, pos, t.bits)
    ensures code == t.cur || Known(t, code)
    ensures var t' := After(t, last, code);
      && Known(t', code) && ValidFrom(t', code, src, size, pos + t.bits)
      && Out(t, last, src, size, pos) == Entry(t, last, code) + Out(t', code, src, size, pos + t.bits)
  {
    hide Field, WellFormed, Known, After, Entry;
  }

  lemma ShapedIs(t: Table)
    requires WellFormed(t)
    ensures Shaped(t) && t.bits > 0
  {
    hide Pow2;
  }

  lemma EntryIs(t: Table, last: nat, code: nat)
    requires WellFormed(t) && t.cur != NONE && Known(t, last) && (code == t.cur || Known(t, code))
    ensures Shaped(t)
    ensures Entry(t, last, code) == if code == t.cur then Str(t, last) + [Str(t, last)[0]] else Str(t, code)
  {
    hide Str, Shaped, Known;
  }

  lemma AfterIs(t: Table, last: nat, code: nat)
    requires WellFormed(t) && t.cur != NONE && Known(t, last) && (code == t.cur || Known(t, code))
    ensures Shaped(t)
    ensures var ch := Entry(t, last, code)[0];
      && ch < 256 && Shaped(Fill(t, last, ch)) && After(t, last, code) == Advance(Fill(t, last, ch))
  {
    hide Pow2, Phase, EntryOk, Advance, Fill, Str;
    StrBytes(t, last);
    StrBytes(t, if code == t.cur then last else code);
    FillShaped(t, last, Entry(t, last, code)[0]);
  }

  /** The first byte of a code's string is the first byte of its entry, in the table after it. */
  lemma FirstByte(t: Table, last: int, code: int)
    requires WellFormed(t) && t.cur != NONE && Known(t, last) && (code == t.cur || Known(t, code))
    requires Known(After(t, last, code), code)
    ensures Str(After(t, last, code), code) == Entry(t, last, code)
  {
    var ch := Entry(t, last, code)[0];
    StrBytes(t, last);
    StrBytes(t, if code == t.cur then last else code);
    FillShaped(t, last, ch);
    var f, t' := Fill(t, last, ch), After(t, last, code);
    if code == t.cur {
      assert EntryOk(f, code) && EntryOk(t', code);
      StrKept(t, f, last);
      StrKept(f, t', last);
    } else {
      StrKept(t, f, code);
      StrKept(f, t', code);
    }
  }

  // ---- successive buffers ----

  function Take(s: seq<nat>, n: nat): seq<nat> {
    if n < |s| then s[..n] else s
  }

  function Total(sizes: seq<nat>): nat {
    if sizes == [] then 0 else sizes[0] + Total(sizes[1..])
  }

  lemma {:induction false} TotalSplit(sizes: seq<nat>, i: nat)
    requires i < |sizes|
    ensures Total(sizes[..i + 1]) == Total(sizes[..i]) + sizes[i]
    decreases |sizes|
  {
    if i == 0 {
      assert sizes[..1] == [sizes[0]] && sizes[..0] == [];
      assert Total([sizes[0]]) == sizes[0] + Total([]);
    } else {
      TotalSplit(sizes[1..], i - 1);
      assert sizes[..i + 1][1..] == sizes[1..][..i] && sizes[..i][1..] == sizes[1..][..i - 1];
    }
  }

  /** Expand into one buffer after another. However the destination is split, what comes out is the expansion up to
      the total size: the same bytes as with a single buffer of that size. */
  method ExpandInPieces(c: ArcCtrl, sizes: seq<nat>) returns (all: seq<nat>)
    requires c.Valid()
    modifies c, c.dst
    ensures c.Valid() && all == Take(old(c.Pending()), Total(sizes))
  {
    hide ArcCtrl.Valid, ArcCtrl.Pending, Puts;
    all := [];
    ghost var whole := c.Pending();
    for i := 0 to |sizes|
      invariant c.Valid() && whole == all + c.Pending() && (c.dst == old(c.dst) || fresh(c.dst))
      invariant |all| == Total(sizes[..i]) || (|all| < Total(sizes[..i]) && c.Pending() == [])
    {
      TotalSplit(sizes, i);
      var buffer := new nat[sizes[i]];
      Retarget(c, buffer);
      ghost var pending := c.Pending();
      ghost var bytes := c.ExpandBuf();
      PutsAll(c, bytes, pending);
      all := all + buffer[..c.dstPos];
    }
    assert sizes[..|sizes|] == sizes;
  }

  /** The caller supplies a new destination. */
  method Retarget(c: ArcCtrl, buffer: array<nat>)
    requires c.Valid()
    modifies c`dst, c`dstPos
    ensures c.Valid() && c.dst == buffer && c.dstPos == 0 && c.Pending() == old(c.Pending())
  {
    hide ListsOk, WellFormed, StartsAt, GoesOn, Out, ValidFrom, Shaped, Str, Pow2, Field, Advance, Known;
    c.dst, c.dstPos := buffer, 0;
  }

  lemma PutsAll(c: ArcCtrl, bytes: seq<nat>, pending: seq<nat>)
    requires c.Valid() && c.dstPos <= c.dst.Length && Puts([], c.Written(), bytes, pending, c.Pending())
    ensures c.dst[..c.dstPos] == bytes && pending == bytes + c.Pending() && |bytes| == c.dstPos
  {
    hide ArcCtrl.Valid, ArcCtrl.Pending;
  }
}
