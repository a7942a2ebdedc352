/** The directory-tree serializer: trees of directory entries to flat byte strings and back. */
module DirTree {
  import opened Bits
  import opened Words

  const CDIR_SIZE: nat := 64
  const RS_ATTR_DIR: nat := 0x10

  /** The serialized part of an entry starts with its 16-bit attributes. */
  predicate IsDir(record: seq<nat>)
    requires |record| == CDIR_SIZE
  {
    And(record[0] + 0x100 * record[1], RS_ATTR_DIR) != 0
  }

  /** Directories are marked by bit 4 of their first byte. */
  lemma DirBit(record: seq<nat>)
    requires |record| == CDIR_SIZE
    ensures IsDir(record) <==> Bit(record[0], 4)
  {
    hide And, Bit;
    BitFour(record[0] + 0x100 * record[1]);
    BitFour(record[0]);
    InFirstByte(record[0], record[1]);
  }

  lemma InFirstByte(a: nat, b: nat)
    ensures ((a + 0x100 * b) / 16) % 2 == (a / 16) % 2
  {
    var q := a / 16;
    assert (a + 0x100 * b) / 16 == q + 16 * b;
    assert q + 16 * b == 2 * (q / 2 + 8 * b) + q % 2;
  }

  lemma BitFour(w: nat)
    ensures Bit(w, 4) <==> (w / 16) % 2 == 1
    ensures And(w, RS_ATTR_DIR) != 0 <==> Bit(w, 4)
  {
    hide And, Bit;
    assert Pow2(4) == 16;
    OneBit(w, 4);
  }

  /** A list of entries, each with its children; userData stands for the fields that are not serialized. */
  datatype Tree = Nil | Entry(record: seq<nat>, userData: int, sub: Tree, next: Tree)

  predicate WellSized(t: Tree) {
    t.Entry? ==> |t.record| == CDIR_SIZE && WellSized(t.sub) && WellSized(t.next)
  }

  function Nodes(t: Tree): nat {
    if t.Nil? then 0 else 1 + Nodes(t.sub) + Nodes(t.next)
  }

  /** The serialized form. */
  function Bytes(t: Tree): (s: seq<nat>)
    requires WellSized(t)
    ensures |s| > 0
    decreases t, 2
  {
    if t.Nil? then [0] else EntryBytes(t) + Bytes(t.next)
  }

  /** One entry, with its children if it is a directory. */
  function EntryBytes(t: Tree): seq<nat>
    requires t.Entry? && WellSized(t)
    decreases t, 1
  {
    Marked(t.record) + Children(t)
  }

  function Marked(record: seq<nat>): seq<nat> {
    [1] + record
  }

  function Children(t: Tree): seq<nat>
    requires t.Entry? && WellSized(t)
    decreases t, 0
  {
    if IsDir(t.record) then Bytes(t.sub) else []
  }

  /** What survives: records, and the children of directories. */
  function Kept(t: Tree): (r: Tree)
    requires WellSized(t)
    ensures WellSized(r)
  {
    if t.Nil? then Nil
    else Entry(t.record, 0, if IsDir(t.record) then Kept(t.sub) else Nil, Kept(t.next))
  }

  /** r is t without userData and without the children of entries that are not marked as directories. */
  predicate ComesBack(t: Tree, r: Tree) {
    if t.Nil? then r.Nil?
    else
      && r.Entry? && r.record == t.record && r.userData == 0 && ComesBack(t.next, r.next)
      && if |t.record| > 0 && Bit(t.record[0], 4) then ComesBack(t.sub, r.sub) else r.sub.Nil?
  }

  lemma {:induction false} KeptComesBack(t: Tree)
    requires WellSized(t)
    ensures ComesBack(t, Kept(t))
  {
    hide IsDir, Bit;
    if t.Entry? {
      DirBit(t.record);
      KeptComesBack(t.next);
      KeptComesBack(t.sub);
    }
  }

  /** Only entries marked as directories have children. */
  predicate OnlyDirsHaveChildren(t: Tree) {
    t.Entry? ==>
      && (t.sub.Entry? ==> |t.record| > 0 && Bit(t.record[0], 4))
      && OnlyDirsHaveChildren(t.sub) && OnlyDirsHaveChildren(t.next)
  }

  /** The same records, children and siblings, and no userData. */
  predicate SameTree(t: Tree, r: Tree) {
    if t.Nil? then r.Nil?
    else r.Entry? && r.record == t.record && r.userData == 0 && SameTree(t.sub, r.sub) && SameTree(t.next, r.next)
  }

  lemma {:induction false} AllComesBack(t: Tree, r: Tree)
    requires ComesBack(t, r) && OnlyDirsHaveChildren(t)
    ensures SameTree(t, r)
  {
    hide Bit;
    if t.Entry? {
      AllComesBack(t.next, r.next);
      if |t.record| > 0 && Bit(t.record[0], 4) {
        AllComesBack(t.sub, r.sub);
      }
    }
  }

  datatype Parsed = Short | Parsed(tree: Tree, end: nat)

  /** Reading a tree from position `pos`; Short when the bytes run out. */
  function Parse(s: seq<nat>, pos: nat): (r: Parsed)
    ensures r.Parsed? ==> pos < r.end <= |s| && WellSized(r.tree)
    decreases |s| - pos
  {
    if pos >= |s| then Short
    else if s[pos] == 0 then Parsed(Nil, pos + 1)
    else if pos + 1 + CDIR_SIZE > |s| then Short
    else
      var record := s[pos + 1..pos + 1 + CDIR_SIZE];
      var sub := if IsDir(record) then Parse(s, pos + 1 + CDIR_SIZE) else Parsed(Nil, pos + 1 + CDIR_SIZE);
      if sub.Short? then Short
      else
        var next := Parse(s, sub.end);
        if next.Short? then Short else Parsed(Entry(record, 0, sub.tree, next.tree), next.end)
  }

  predicate Has(s: seq<nat>, pos: nat, part: seq<nat>) {
    pos + |part| <= |s| && s[pos..pos + |part|] == part
  }

  lemma HasSplit(s: seq<nat>, pos: nat, a: seq<nat>, b: seq<nat>)
    requires Has(s, pos, a + b)
    ensures Has(s, pos, a) && Has(s, pos + |a|, b)
  {
    assert s[pos..pos + |a|] == (a + b)[..|a|];
    assert s[pos + |a|..pos + |a| + |b|] == (a + b)[|a|..];
  }

  lemma HasMarked(s: seq<nat>, pos: nat, record: seq<nat>)
    requires Has(s, pos, Marked(record)) && |record| == CDIR_SIZE
    ensures pos + 1 + CDIR_SIZE <= |s| && s[pos] == 1 && s[pos + 1..pos + 1 + CDIR_SIZE] == record
  {
    HasSplit(s, pos, [1], record);
    assert s[pos..pos + 1][0] == s[pos];
  }

  /** For every tree, whatever bytes come before and after, parsing its serialized form reads exactly that form and
      gives back what survives. */
  lemma {:induction false} ParseBytes(t: Tree, s: seq<nat>, pos: nat)
    requires WellSized(t) && Has(s, pos, Bytes(t))
    ensures Parse(s, pos) == Parsed(Kept(t), pos + |Bytes(t)|)
    decreases t
  {
    hide IsDir, Has, Marked;
    if t.Nil? {
      HasZero(s, pos);
    } else {
      HasSplit(s, pos, EntryBytes(t), Bytes(t.next));
      HasSplit(s, pos, Marked(t.record), Children(t));
      HasMarked(s, pos, t.record);
      MarkedSize(t.record);
      if IsDir(t.record) {
        ParseBytes(t.sub, s, pos + 1 + CDIR_SIZE);
      }
      ParseBytes(t.next, s, pos + |EntryBytes(t)|);
    }
  }

  /** The format: a list ends with a 0; an entry is a 1 and its 64 bytes, followed, if it is marked as a directory, by
      the list of its children, and then by the rest of its own list. */
  lemma Layout(t: Tree, s: seq<nat>, pos: nat)
    requires WellSized(t) && Has(s, pos, Bytes(t))
    ensures pos < |s| && s[pos] == if t.Nil? then 0 else 1
    ensures t.Nil? ==> |Bytes(t)| == 1
    ensures t.Entry? ==> pos + 65 <= |s| && s[pos + 1..pos + 65] == t.record
    ensures t.Entry? && Bit(t.record[0], 4) ==>
      && Has(s, pos + 65, Bytes(t.sub)) && Has(s, pos + 65 + |Bytes(t.sub)|, Bytes(t.next))
      && |Bytes(t)| == 65 + |Bytes(t.sub)| + |Bytes(t.next)|
    ensures t.Entry? && !Bit(t.record[0], 4) ==>
      Has(s, pos + 65, Bytes(t.next)) && |Bytes(t)| == 65 + |Bytes(t.next)|
  {
    hide IsDir, Has, Marked, Bit;
    if t.Nil? {
      HasZero(s, pos);
    } else {
      DirBit(t.record);
      HasSplit(s, pos, EntryBytes(t), Bytes(t.next));
      HasSplit(s, pos, Marked(t.record), Children(t));
      HasMarked(s, pos, t.record);
      MarkedSize(t.record);
    }
  }

  lemma HasZero(s: seq<nat>, pos: nat)
    requires Has(s, pos, [0])
    ensures pos < |s| && s[pos] == 0
  {
    assert s[pos..pos + 1][0] == s[pos];
  }

  lemma MarkedSize(record: seq<nat>)
    ensures |Marked(record)| == |record| + 1
  {
  }

  /** So no serialized form is a prefix of another, and equal forms come from trees that agree on what survives. */
  lemma BytesDetermineTree(t: Tree, u: Tree, s: seq<nat>, pos: nat)
    requires WellSized(t) && WellSized(u) && Has(s, pos, Bytes(t)) && Has(s, pos, Bytes(u))
    ensures Kept(t) == Kept(u) && Bytes(t) == Bytes(u)
  {
    hide Bytes, Kept, Parse;
    ParseBytes(t, s, pos);
    ParseBytes(u, s, pos);
  }

  // ---- entries as linked objects ----

  class DirEntry {
    var next: DirEntry?
    var sub: DirEntry?
    var record: seq<nat>
    var userData: int
    ghost var tree: Tree
    ghost var repr: set<DirEntry>

    /** CAlloc. */
    constructor ()
      ensures record == seq(CDIR_SIZE, _ => 0) && userData == 0 && sub == null && next == null
    {
      next, sub := null, null;
      record := seq(CDIR_SIZE, _ => 0);
      userData := 0;
      tree, repr := Nil, {};
    }

    ghost predicate Valid()
      reads this, repr
      decreases repr
    {
      && this in repr && tree.Entry? && |record| == CDIR_SIZE && tree.record == record && tree.userData == userData
      && (if sub == null then tree.sub == Nil
          else sub in repr && sub.repr <= repr && this !in sub.repr && sub.Valid() && tree.sub == sub.tree)
      && (if next == null then tree.next == Nil
          else next in repr && next.repr <= repr && this !in next.repr && next.Valid() && tree.next == next.tree)
    }
  }

  ghost predicate ValidList(e: DirEntry?)
    reads e, if e == null then {} else e.repr
  {
    e == null || e.Valid()
  }

  ghost function TreeOf(e: DirEntry?): Tree
    reads e
  {
    if e == null then Nil else e.tree
  }

  lemma {:induction false} ValidIsSized(e: DirEntry)
    requires e.Valid()
    ensures WellSized(e.tree)
    decreases e.tree
  {
    if e.sub != null {
      ValidIsSized(e.sub);
    }
    if e.next != null {
      ValidIsSized(e.next);
    }
  }

  lemma ListIsSized(e: DirEntry?)
    requires ValidList(e)
    ensures WellSized(TreeOf(e))
  {
    if e != null {
      ValidIsSized(e);
    }
  }

  /** DirTreeSerializeSize predicts the length exactly. */
  method SerializeSize(e: DirEntry?) returns (size: nat)
    requires ValidList(e)
    ensures WellSized(TreeOf(e)) && size == |Bytes(TreeOf(e))|
    decreases Nodes(TreeOf(e))
  {
    ListIsSized(e);
    var res := 0;
    var at := e;
    while at != null
      invariant ValidList(at) && WellSized(TreeOf(at)) && Nodes(TreeOf(at)) <= Nodes(TreeOf(e))
      invariant res + |Bytes(TreeOf(at))| == |Bytes(TreeOf(e))|
      decreases Nodes(TreeOf(at))
    {
      EntrySize(at.tree);
      res := res + CDIR_SIZE + 1;
      if IsDir(at.record) {
        var i := SerializeSize(at.sub);
        res := res + i;
      }
      at := at.next;
    }
    size := res + 1;
  }

  lemma EntrySize(t: Tree)
    requires t.Entry? && WellSized(t)
    ensures |Bytes(t)| == 1 + CDIR_SIZE + (if IsDir(t.record) then |Bytes(t.sub)| else 0) + |Bytes(t.next)|
  {
    hide IsDir;
    MarkedSize(t.record);
    assert |EntryBytes(t)| == |Marked(t.record)| + |Children(t)|;
    assert |Bytes(t)| == |EntryBytes(t)| + |Bytes(t.next)|;
  }

  /** Nothing outside from..to changed. */
  predicate SameOutside(a: seq<nat>, b: seq<nat>, from: nat, to: nat) {
    |a| == |b| && forall i :: 0 <= i < |a| && !(from <= i < to) ==> b[i] == a[i]
  }

  /** Adding part b right after part a. */
  lemma HasJoin(s: seq<nat>, s': seq<nat>, from: nat, a: seq<nat>, b: seq<nat>)
    requires Has(s, from, a) && SameOutside(s, s', from + |a|, from + |a| + |b|) && Has(s', from + |a|, b)
    ensures Has(s', from, a + b)
  {
    assert s'[from..from + |a|] == s[from..from + |a|];
    assert s'[from..from + |a| + |b|] == s'[from..from + |a|] + s'[from + |a|..from + |a| + |b|];
  }

  lemma SameTwice(a: seq<nat>, b: seq<nat>, c: seq<nat>, from: nat, mid: nat, to: nat)
    requires SameOutside(a, b, from, mid) && SameOutside(b, c, mid, to) && from <= mid <= to
    ensures SameOutside(a, c, from, to)
  {
  }

  lemma Appended(s0: seq<nat>, s1: seq<nat>, s2: seq<nat>, from: nat, done: seq<nat>, part: seq<nat>)
    requires Has(s1, from, done) && SameOutside(s0, s1, from, from + |done|)
    requires Has(s2, from + |done|, part) && SameOutside(s1, s2, from + |done|, from + |done| + |part|)
    ensures Has(s2, from, done + part) && SameOutside(s0, s2, from, from + |done| + |part|)
  {
    hide Has, SameOutside;
    HasJoin(s1, s2, from, done, part);
    SameTwice(s0, s1, s2, from, from + |done|, from + |done| + |part|);
  }

  lemma Assoc(a: seq<nat>, b: seq<nat>, c: seq<nat>)
    ensures (a + b) + c == a + (b + c)
  {
  }

  /** DirTreeSerializeFill writes exactly the serialized form and touches nothing else. */
  method SerializeFill(e: DirEntry?, buf: array<nat>, from: nat) returns (res: nat)
    requires ValidList(e) && WellSized(TreeOf(e)) && from + |Bytes(TreeOf(e))| <= buf.Length
    modifies buf
    ensures res == |Bytes(TreeOf(e))| && Has(buf[..], from, Bytes(TreeOf(e)))
    ensures SameOutside(old(buf[..]), buf[..], from, from + res)
    decreases Nodes(TreeOf(e)), 1
  {
    hide IsDir, EntryBytes, Bytes, Has, SameOutside, WellSized, Nodes;
    ghost var whole, done := Bytes(TreeOf(e)), [];
    Nothing(buf[..], from);
    var dst := from;
    res := 0;
    var at := e;
    while at != null
      invariant ValidList(at) && WellSized(TreeOf(at)) && Nodes(TreeOf(at)) <= Nodes(TreeOf(e))
      invariant dst == from + res && |done| == res && done + Bytes(TreeOf(at)) == whole
      invariant Has(buf[..], from, done) && SameOutside(old(buf[..]), buf[..], from, dst)
      decreases Nodes(TreeOf(at))
    {
      ghost var t, before := at.tree, buf[..];
      FirstThenRest(t);
      var i := FillEntry(at, buf, dst);
      Appended(old(buf[..]), before, buf[..], from, done, EntryBytes(t));
      Assoc(done, EntryBytes(t), Bytes(t.next));
      done := done + EntryBytes(t);
      dst, res := dst + i, res + i;
      at := at.next;
    }
    NilBytes();
    NilSized();
    ghost var before := buf[..];
    buf[dst] := 0;
    OneByte(before, buf[..], dst, 0);
    Appended(old(buf[..]), before, buf[..], from, done, [0]);
    res := res + 1;
  }

  lemma Nothing(s: seq<nat>, from: nat)
    requires from <= |s|
    ensures Has(s, from, []) && SameOutside(s, s, from, from)
  {
  }

  lemma OneByte(s: seq<nat>, s': seq<nat>, at: nat, v: nat)
    requires at < |s| && s' == s[at := v]
    ensures Has(s', at, [v]) && SameOutside(s, s', at, at + 1)
  {
    assert s'[at..at + 1] == [v];
  }

  lemma FirstThenRest(t: Tree)
    requires t.Entry? && WellSized(t)
    ensures WellSized(t.next)
    ensures Bytes(t) == EntryBytes(t) + Bytes(t.next) && |EntryBytes(t)| > 0 && Nodes(t.next) < Nodes(t)
  {
    hide IsDir;
    MarkedSize(t.record);
  }

  lemma NilSized()
    ensures WellSized(Nil)
  {
  }

  lemma NilBytes()
    ensures Bytes(Nil) == [0]
  {
  }

  /** One round of the loop: the mark, the record, and the children of a directory. */
  method FillEntry(at: DirEntry, buf: array<nat>, from: nat) returns (i: nat)
    requires at.Valid() && WellSized(at.tree) && from + |EntryBytes(at.tree)| <= buf.Length
    modifies buf
    ensures i == |EntryBytes(at.tree)| && Has(buf[..], from, EntryBytes(at.tree))
    ensures SameOutside(old(buf[..]), buf[..], from, from + i)
    decreases Nodes(at.tree), 0
  {
    hide IsDir, Has, SameOutside;
    ghost var before0 := buf[..];
    buf[from] := 1;
    OneByte(before0, buf[..], from, 1);
    ghost var before1 := buf[..];
    CopyRecord(at.record, buf, from + 1);
    HasJoin(before1, buf[..], from, [1], at.record);
    SameTwice(before0, before1, buf[..], from, from + 1, from + 1 + CDIR_SIZE);
    i := 1 + CDIR_SIZE;
    if IsDir(at.record) {
      ghost var before2 := buf[..];
      var n := SerializeFill(at.sub, buf, from + i);
      HasJoin(before2, buf[..], from, Marked(at.record), Bytes(at.tree.sub));
      SameTwice(before0, before2, buf[..], from, from + i, from + i + n);
      i := i + n;
    } else {
      assert Marked(at.record) + [] == Marked(at.record);
    }
  }

  /** MemCpy of one record. */
  method CopyRecord(record: seq<nat>, buf: array<nat>, dst: nat)
    requires |record| == CDIR_SIZE && dst + CDIR_SIZE <= buf.Length
    modifies buf
    ensures Has(buf[..], dst, record) && SameOutside(old(buf[..]), buf[..], dst, dst + CDIR_SIZE)
  {
    for i := 0 to CDIR_SIZE
      invariant forall k :: 0 <= k < i ==> buf[dst + k] == record[k]
      invariant forall k :: 0 <= k < buf.Length && !(dst <= k < dst + CDIR_SIZE) ==> buf[k] == old(buf[k])
    {
      buf[dst + i] := record[i];
    }
    assert buf[..][dst..dst + CDIR_SIZE] == record;
  }

  /** DirTreeUnserialize2: build the tree from freshly allocated entries. */
  method Unserialize(src: seq<nat>, pos: nat) returns (e: DirEntry?, end: nat)
    requires Parse(src, pos).Parsed?
    ensures ValidList(e) && TreeOf(e) == Parse(src, pos).tree && end == Parse(src, pos).end
    ensures e != null ==> fresh(e.repr)
    decreases |src| - pos
  {
    hide IsDir;
    if src[pos] != 0 {
      var entry := new DirEntry();
      entry.record := src[pos + 1..pos + 1 + CDIR_SIZE];
      var at := pos + 1 + CDIR_SIZE;
      var sub: DirEntry? := null;
      if IsDir(entry.record) {
        sub, at := Unserialize(src, at);
      }
      var next;
      next, end := Unserialize(src, at);
      Attach(entry, sub, next);
      e := entry;
    } else {
      e, end := null, pos + 1;
    }
  }

  /** Set the link fields of a new entry. */
  method Attach(entry: DirEntry, sub: DirEntry?, next: DirEntry?)
    requires |entry.record| == CDIR_SIZE && ValidList(sub) && ValidList(next)
    requires (sub == null || entry !in sub.repr) && (next == null || entry !in next.repr)
    modifies entry
    ensures entry.Valid() && entry.tree == Entry(old(entry.record), old(entry.userData), TreeOf(sub), TreeOf(next))
    ensures entry.repr == {entry} + (if sub == null then {} else sub.repr) + (if next == null then {} else next.repr)
  {
    entry.sub := sub;
    entry.next := next;
    entry.tree := Entry(entry.record, entry.userData, TreeOf(sub), TreeOf(next));
    entry.repr := {entry} + (if sub == null then {} else sub.repr) + (if next == null then {} else next.repr);
  }

  /** Serializing a tree and reading it back, with any bytes after it, gives a new tree that agrees on what
      survives. */
  method RoundTrip(e: DirEntry?, after: seq<nat>) returns (r: DirEntry?, end: nat)
    requires ValidList(e)
    ensures WellSized(TreeOf(e)) && ValidList(r) && TreeOf(r) == Kept(TreeOf(e)) && end == |Bytes(TreeOf(e))|
    ensures ComesBack(TreeOf(e), TreeOf(r))
    ensures OnlyDirsHaveChildren(TreeOf(e)) ==> SameTree(TreeOf(e), TreeOf(r))
    ensures r != null ==> fresh(r.repr)
  {
    ListIsSized(e);
    KeptComesBack(TreeOf(e));
    if OnlyDirsHaveChildren(TreeOf(e)) {
      AllComesBack(TreeOf(e), Kept(TreeOf(e)));
    }
    var size := SerializeSize(e);
    var buf := new nat[size];
    var written := SerializeFill(e, buf, 0);
    assert buf[..] == buf[..][0..size] && (buf[..] + after)[0..size] == buf[..];
    ParseBytes(TreeOf(e), buf[..] + after, 0);
    r, end := Unserialize(buf[..] + after, 0);
  }
}
