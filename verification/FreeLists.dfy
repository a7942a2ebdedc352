/** The segregated free lists of the medium allocator: 13 x 32 doubly linked lists threaded through the free
    blocks themselves, and the two-level occupancy bitmaps over them. */
module FreeLists {
  import opened Memory
  import opened SizeClasses
  import opened Words
  import Bitmap

  // ---- one list ----

  /** The i-th node's links point to its neighbours in s, 0 at either end. */
  ghost predicate NodeOk(mem: Memory, s: seq<nat>, i: int)
    requires 0 <= i < |s|
  {
    && s[i] > 0
    && Read(mem, s[i] + 16) == (if i + 1 < |s| then s[i + 1] else 0)
    && Read(mem, s[i]) == (if i > 0 then s[i - 1] else 0)
  }

  /** Following next links from `head` visits exactly the nodes of s, and prev links go back. */
  ghost predicate ListOk(mem: Memory, head: nat, s: seq<nat>) {
    && head == (if s == [] then 0 else s[0])
    && forall i {:trigger NodeOk(mem, s, i)} :: 0 <= i < |s| ==> NodeOk(mem, s, i)
  }

  predicate Apart(x: int, y: int) {
    x + 32 <= y || y + 32 <= x
  }

  ghost predicate Spaced(s: seq<nat>) {
    forall i, j :: 0 <= i < j < |s| ==> Apart(s[i], s[j])
  }

  /** The writes of link: header word, links, the old head's back link, and the trailing size. */
  function LinkMem(mem: Memory, block: nat, size: nat, cls: nat, head: nat): Memory {
    var m1 := Write(Write(Write(mem, block + 8, FreeWord(Read(mem, block + 8), size, cls)), block + 16, head), block,
                    0);
    var m2 := if head != 0 then Write(m1, head, block) else m1;
    Write(m2, block + size - 8, size)
  }

  /** The writes of unlink for a block with these neighbours on its list. */
  function UnlinkMem(mem: Memory, prev: nat, next: nat): Memory {
    var m1 := if prev != 0 then Write(mem, prev + 16, next) else mem;
    if next != 0 then Write(m1, next, prev) else m1
  }

  lemma PushNode(mem: Memory, head: nat, s: seq<nat>, block: nat, size: nat, cls: nat, i: int)
    requires ListOk(mem, head, s) && Spaced(s)
    requires block > 0 && size >= 32
    requires forall j :: 0 <= j < |s| ==> s[j] + 32 <= block || block + size <= s[j]
    requires 0 <= i <= |s|
    ensures NodeOk(LinkMem(mem, block, size, cls, head), [block] + s, i)
  {
    hide FreeWord;
    if i > 0 {
      assert NodeOk(mem, s, i - 1);
      assert i > 1 ==> Apart(s[0], s[i - 1]);
    }
  }

  lemma PushOk(mem: Memory, head: nat, s: seq<nat>, block: nat, size: nat, cls: nat)
    requires ListOk(mem, head, s) && Spaced(s)
    requires block > 0 && size >= 32
    requires forall j :: 0 <= j < |s| ==> s[j] + 32 <= block || block + size <= s[j]
    ensures ListOk(LinkMem(mem, block, size, cls, head), block, [block] + s)
  {
    hide LinkMem, NodeOk;
    var mem' := LinkMem(mem, block, size, cls, head);
    forall i | 0 <= i < |[block] + s| ensures NodeOk(mem', [block] + s, i) {
      PushNode(mem, head, s, block, size, cls, i);
    }
  }

  function Without(s: seq<nat>, i: nat): seq<nat>
    requires i < |s|
  {
    s[..i] + s[i + 1..]
  }

  function PrevIn(s: seq<nat>, i: nat): nat
    requires i < |s|
  {
    if i > 0 then s[i - 1] else 0
  }

  function NextIn(s: seq<nat>, i: nat): nat
    requires i < |s|
  {
    if i + 1 < |s| then s[i + 1] else 0
  }

  lemma RemoveNode(mem: Memory, head: nat, s: seq<nat>, k: nat, i: int)
    requires ListOk(mem, head, s) && Spaced(s) && k < |s| && 0 <= i < |s| - 1
    ensures NodeOk(UnlinkMem(mem, PrevIn(s, k), NextIn(s, k)), Without(s, k), i)
  {
    var j := if i < k then i else i + 1;
    assert NodeOk(mem, s, j);
    assert NodeOk(mem, s, k);
    assert k > 0 ==> NodeOk(mem, s, k - 1);
    assert k + 1 < |s| ==> NodeOk(mem, s, k + 1);
    assert k > 0 && j < k - 1 ==> Apart(s[j], s[k - 1]);
    assert k > 0 && j > k - 1 ==> Apart(s[k - 1], s[j]);
    assert k + 1 < |s| && j < k + 1 ==> Apart(s[j], s[k + 1]);
    assert k + 1 < |s| && j > k + 1 ==> Apart(s[k + 1], s[j]);
  }

  lemma RemoveOk(mem: Memory, head: nat, s: seq<nat>, k: nat)
    requires ListOk(mem, head, s) && Spaced(s) && k < |s|
    ensures ListOk(UnlinkMem(mem, PrevIn(s, k), NextIn(s, k)), if k == 0 then NextIn(s, k) else head, Without(s, k))
  {
    hide UnlinkMem, NodeOk;
    var mem' := UnlinkMem(mem, PrevIn(s, k), NextIn(s, k));
    forall i | 0 <= i < |Without(s, k)| ensures NodeOk(mem', Without(s, k), i) {
      RemoveNode(mem, head, s, k, i);
    }
  }

  /** A list whose nodes' link words did not change is still intact. */
  lemma SameListOk(mem: Memory, mem': Memory, head: nat, s: seq<nat>)
    requires ListOk(mem, head, s)
    requires forall i :: 0 <= i < |s| ==>
      Read(mem', s[i]) == Read(mem, s[i]) && Read(mem', s[i] + 16) == Read(mem, s[i] + 16)
    ensures ListOk(mem', head, s)
  {
    forall i | 0 <= i < |s| ensures NodeOk(mem', s, i) {
      assert NodeOk(mem, s, i);
    }
  }

  // ---- the bitmaps ----

  ghost predicate RowOk(bitmap: seq<nat>, top: nat, lists: seq<seq<nat>>, i: nat)
    requires |bitmap| == NUM_INDICES && |lists| == NUM_CLASSES && i < NUM_INDICES
  {
    && bitmap[i] <= Bitmap.WORD32_MAX
    && (Bitmap.Has(top, i) <==> bitmap[i] != 0)
    && forall s: nat {:trigger Bitmap.Has(bitmap[i], s)} :: s < NUM_SLOTS ==>
         (Bitmap.Has(bitmap[i], s) <==> lists[i * NUM_SLOTS + s] != [])
  }

  /** Bit s of row i is set exactly when list (i, s) is nonempty; top bit i exactly when row i is nonzero. */
  ghost predicate BitmapsOk(bitmap: seq<nat>, top: nat, lists: seq<seq<nat>>) {
    && |bitmap| == NUM_INDICES && |lists| == NUM_CLASSES
    && top <= Bitmap.WORD32_MAX
    && (forall i: nat {:trigger RowOk(bitmap, top, lists, i)} :: i < NUM_INDICES ==> RowOk(bitmap, top, lists, i))
    && forall i: nat {:trigger Bitmap.Has(top, i)} :: NUM_INDICES <= i < 32 ==> !Bitmap.Has(top, i)
  }

  /** A list became nonempty, or was already. */
  lemma MarkNonempty(bitmap: seq<nat>, top: nat, lists: seq<seq<nat>>, index: nat, slot: nat, s: seq<nat>)
    requires BitmapsOk(bitmap, top, lists) && index < NUM_INDICES && slot < NUM_SLOTS && s != []
    ensures BitmapsOk(bitmap[index := Bitmap.Set(bitmap[index], slot)], Bitmap.Set(top, index),
                      lists[index * NUM_SLOTS + slot := s])
    ensures lists[index * NUM_SLOTS + slot] != [] ==> BitmapsOk(bitmap, top, lists[index * NUM_SLOTS + slot := s])
  {
    hide Bitmap.Set, Bitmap.Has;
    var c := index * NUM_SLOTS + slot;
    var lists' := lists[c := s];
    var bitmap' := bitmap[index := Bitmap.Set(bitmap[index], slot)];
    var top' := Bitmap.Set(top, index);
    assert RowOk(bitmap, top, lists, index);
    Bitmap.SetHas(top, index, 0);
    forall i: nat | i < NUM_INDICES ensures RowOk(bitmap', top', lists', i) {
      assert RowOk(bitmap, top, lists, i);
      MarkRow(bitmap, top, lists, index, slot, s, i);
    }
    forall i: nat | NUM_INDICES <= i < 32 ensures !Bitmap.Has(top', i) {
      Bitmap.SetHas(top, index, i);
    }
    if lists[c] != [] {
      forall i: nat | i < NUM_INDICES ensures RowOk(bitmap, top, lists', i) {
        assert RowOk(bitmap, top, lists, i);
      }
    }
  }

  lemma MarkRow(bitmap: seq<nat>, top: nat, lists: seq<seq<nat>>, index: nat, slot: nat, s: seq<nat>, i: nat)
    requires BitmapsOk(bitmap, top, lists) && index < NUM_INDICES && slot < NUM_SLOTS && s != [] && i < NUM_INDICES
    ensures RowOk(bitmap[index := Bitmap.Set(bitmap[index], slot)], Bitmap.Set(top, index),
                  lists[index * NUM_SLOTS + slot := s], i)
  {
    hide Bitmap.Set, Bitmap.Has;
    assert RowOk(bitmap, top, lists, i);
    Bitmap.SetHas(top, index, i);
    if i == index {
      forall t: nat | t < NUM_SLOTS
        ensures Bitmap.Has(Bitmap.Set(bitmap[i], slot), t) <==> t == slot || Bitmap.Has(bitmap[i], t)
        ensures Bitmap.Set(bitmap[i], slot) <= Bitmap.WORD32_MAX
      {
        Bitmap.SetHas(bitmap[i], slot, t);
      }
      Bitmap.SetHas(bitmap[i], slot, slot);
      Bitmap.ZeroIffNone(Bitmap.Set(bitmap[i], slot));
    }
  }

  /** The clearing done when a list becomes empty. */
  function ClearTop(bitmap: seq<nat>, top: nat, index: nat, slot: nat): nat
    requires |bitmap| == NUM_INDICES && index < NUM_INDICES && slot < NUM_SLOTS
  {
    if Bitmap.Clear(bitmap[index], slot) == 0 then Bitmap.Clear(top, index) else top
  }

  lemma ClearRow(bitmap: seq<nat>, top: nat, lists: seq<seq<nat>>, index: nat, slot: nat, i: nat)
    requires BitmapsOk(bitmap, top, lists) && index < NUM_INDICES && slot < NUM_SLOTS && i < NUM_INDICES
    requires lists[index * NUM_SLOTS + slot] != []
    ensures RowOk(bitmap[index := Bitmap.Clear(bitmap[index], slot)], ClearTop(bitmap, top, index, slot),
                  lists[index * NUM_SLOTS + slot := []], i)
  {
    hide Bitmap.Clear, Bitmap.Has;
    assert RowOk(bitmap, top, lists, i);
    assert RowOk(bitmap, top, lists, index);
    Bitmap.ClearHas(top, index, i);
    if i == index {
      forall t: nat | t < NUM_SLOTS
        ensures Bitmap.Has(Bitmap.Clear(bitmap[i], slot), t) <==> t != slot && Bitmap.Has(bitmap[i], t)
        ensures Bitmap.Clear(bitmap[i], slot) <= Bitmap.WORD32_MAX
      {
        Bitmap.ClearHas(bitmap[i], slot, t);
      }
      Bitmap.ZeroIffNone(bitmap[i]);
      assert Bitmap.Has(bitmap[i], slot);
    }
  }

  lemma MarkEmpty(bitmap: seq<nat>, top: nat, lists: seq<seq<nat>>, index: nat, slot: nat)
    requires BitmapsOk(bitmap, top, lists) && index < NUM_INDICES && slot < NUM_SLOTS
    requires lists[index * NUM_SLOTS + slot] != []
    ensures BitmapsOk(bitmap[index := Bitmap.Clear(bitmap[index], slot)], ClearTop(bitmap, top, index, slot),
                      lists[index * NUM_SLOTS + slot := []])
  {
    hide Bitmap.Clear, Bitmap.Has;
    var bitmap' := bitmap[index := Bitmap.Clear(bitmap[index], slot)];
    var top' := ClearTop(bitmap, top, index, slot);
    var lists' := lists[index * NUM_SLOTS + slot := []];
    Bitmap.ClearHas(top, index, 0);
    forall i: nat | i < NUM_INDICES ensures RowOk(bitmap', top', lists', i) {
      ClearRow(bitmap, top, lists, index, slot, i);
    }
    forall i: nat | NUM_INDICES <= i < 32 ensures !Bitmap.Has(top', i) {
      Bitmap.ClearHas(top, index, i);
    }
  }
}
