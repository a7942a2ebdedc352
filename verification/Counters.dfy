/** The outstanding-allocation counters, as sums over what is live. */
module Counters {
  import opened Memory
  import opened Blocks
  import opened Tags
  import opened MediumSteps
  import opened SystemMemory
  import opened MediumSystem
  import opened Slab
  import opened SmallSteps
  import opened Small
  import opened Large
  import opened Tally
  import opened HeapView

  ghost function CellsOf(slabs: Slabs): map<int, int> {
    map c | c in slabs :: |slabs[c].live|
  }

  /** How many small cells are live. */
  ghost function CellCount(slabs: Slabs): int {
    Sum(CellsOf(slabs), slabs.Keys)
  }

  /** What is left of region r of n bytes from p on. */
  function UserSize(r: int, n: int, p: int): int {
    r + n - p
  }

  ghost function LargeSizes(larges: Larges, owned: map<int, nat>): map<int, int> {
    map r | r in larges && r in owned :: UserSize(r, owned[r], larges[r])
  }

  /** The user sizes of the large allocations. */
  ghost function LargeBytes(larges: Larges, owned: map<int, nat>): int {
    Sum(LargeSizes(larges, owned), larges.Keys)
  }

  /** The counters agree with what is live: medium blocks (those housing slabs too), small cells and large
      allocations. */
  ghost predicate Counted(count: int, bytes: int, s: Snapshot) {
    && count == |s.bk.live| + CellCount(s.slabs) + |s.larges|
    && bytes == MediumBytes(s.bk) + SMALLEST_ALLOCATION * CellCount(s.slabs) + LargeBytes(s.larges, s.owned)
  }

  lemma SumWithout(value: map<int, int>, keys: set<int>, c: int)
    requires c in keys
    ensures Sum(value, keys) == Sum(value, keys - {c}) + At(value, c)
  {
    SumInsert(value, keys - {c}, c);
    assert (keys - {c}) + {c} == keys;
  }

  /** Small allocation adds one cell. */
  lemma CellTaken(slabs0: Slabs, slabs1: Slabs, x: int)
    requires SmallTaken(slabs0, slabs1, x)
    ensures CellCount(slabs1) == CellCount(slabs0) + 1
  {
    hide Taken;
    var c :| LiveIn(slabs1, c, x) && !LiveIn(slabs0, c, x) && c in slabs0 && Taken(slabs0[c], c, x)
        && slabs1 == slabs0[c := After(slabs0[c], x)];
    SumWithout(CellsOf(slabs1), slabs1.Keys, c);
    SumWithout(CellsOf(slabs0), slabs0.Keys, c);
    assert slabs1.Keys == slabs0.Keys;
    SumAgrees(CellsOf(slabs0), CellsOf(slabs1), slabs0.Keys - {c});
  }

  /** Small free removes one. */
  lemma CellFreed(slabs0: Slabs, slabs1: Slabs, x: nat)
    requires SmallFreed(slabs0, slabs1, x)
    ensures CellCount(slabs1) == CellCount(slabs0) - 1
  {
    var c :| LiveIn(slabs0, c, x) && slabs1 == slabs0[c := Cells(slabs0[c].live - {x as int}, [x] + slabs0[c].free)];
    SumWithout(CellsOf(slabs0), slabs0.Keys, c);
    SumWithout(CellsOf(slabs1), slabs1.Keys, c);
    assert slabs1.Keys == slabs0.Keys;
    SumAgrees(CellsOf(slabs0), CellsOf(slabs1), slabs0.Keys - {c});
  }

  /** A slab without live cells does not count. */
  lemma EmptySlabUncounted(slabs0: Slabs, slabs1: Slabs, c: int)
    requires c !in slabs0 && c in slabs1 && slabs1[c].live == {} && slabs0 == slabs1 - {c}
    ensures CellCount(slabs1) == CellCount(slabs0)
  {
    assert slabs1.Keys == slabs0.Keys + {c};
    SumInsert(CellsOf(slabs1), slabs0.Keys, c);
    SumAgrees(CellsOf(slabs0), CellsOf(slabs1), slabs0.Keys);
  }

  lemma LargeCounted(larges0: Larges, larges1: Larges, owned: map<int, nat>, r: nat, p: nat, size: nat)
    requires LargeAdded(larges0, larges1, owned, r, p, size)
    ensures |larges1| == |larges0| + 1 && LargeBytes(larges1, owned) == LargeBytes(larges0, owned) + (r + owned[r] - p)
  {
    assert larges1.Keys == larges0.Keys + {r as int};
    SumInsert(LargeSizes(larges1, owned), larges0.Keys, r);
    SumAgrees(LargeSizes(larges0, owned), LargeSizes(larges1, owned), larges0.Keys);
  }

  lemma LargeUncounted(larges: Larges, owned: map<int, nat>, r: int)
    requires r in larges && r in owned
    ensures |larges - {r}| == |larges| - 1
    ensures LargeBytes(larges - {r}, owned) == LargeBytes(larges, owned) - UserSize(r, owned[r], larges[r])
  {
    var larges' := larges - {r};
    assert larges'.Keys == larges.Keys - {r};
    SumWithout(LargeSizes(larges, owned), larges.Keys, r);
    SumAgrees(LargeSizes(larges, owned), LargeSizes(larges', owned), larges'.Keys);
    assert larges == larges'[r := larges[r]];
    assert At(LargeSizes(larges, owned), r) == UserSize(r, owned[r], larges[r]);
  }

  lemma SameLargeBytes(larges: Larges, owned0: map<int, nat>, owned1: map<int, nat>)
    requires forall r :: r in larges ==> r in owned0 && r in owned1 && owned1[r] == owned0[r]
    ensures LargeBytes(larges, owned1) == LargeBytes(larges, owned0)
  {
    SumAgrees(LargeSizes(larges, owned0), LargeSizes(larges, owned1), larges.Keys);
  }

  /** The counters never go below zero. */
  lemma CountersNatural(count: int, bytes: int, s: Snapshot, align: nat, heap: nat)
    requires Whole(s, align, heap) && Counted(count, bytes, s)
    ensures count >= 0 && bytes >= 0
  {
    hide SysOk, Tiled, RegionsApart, Filed, LargesOk;
    SumNatural(CellsOf(s.slabs), s.slabs.Keys);
    forall a | a in s.bk.live ensures At(s.bk.l.size, a) >= HEADER {
      assert KindOk(s.bk.l, s.bk.free, s.bk.live, a);
      FreeOrLiveSize(s.bk, align, a);
    }
    SumAtLeast(s.bk.l.size, s.bk.live, HEADER);
    forall r | r in s.larges ensures At(LargeSizes(s.larges, s.owned), r) >= 0 {
      if r in s.owned {
        LargeRegion(s, align, heap, r, s.larges[r], UserSize(r, s.owned[r], s.larges[r]));
      }
    }
    SumNatural(LargeSizes(s.larges, s.owned), s.larges.Keys);
  }

  lemma {:induction false} SumAtLeast(value: map<int, int>, keys: set<int>, least: nat)
    requires forall a :: a in keys ==> At(value, a) >= least
    ensures Sum(value, keys) >= least * |keys|
    decreases |keys|
  {
    if keys != {} {
      assert (forall b :: b !in keys) ==> keys == {};
      var b :| b in keys && Sum(value, keys) == At(value, b) + Sum(value, keys - {b});
      SumAtLeast(value, keys - {b}, least);
      assert |keys| == |keys - {b}| + 1;
      assert least * |keys| == least * |keys - {b}| + least;
    }
  }
}
