/** What the heap's counters of outstanding allocations and bytes stand for. */
module Tally {
  import opened Memory
  import opened Blocks
  import opened Tags
  import opened MediumSteps
  import opened MediumSystem

  const SMALLEST_ALLOCATION: nat := 8     // the usable size of a small cell

  function At(value: map<int, int>, a: int): int {
    if a in value then value[a] else 0
  }

  /** The values at these keys, added up. */
  ghost function Sum(value: map<int, int>, keys: set<int>): int
    decreases |keys|
  {
    if keys == {} then 0 else
      assert (forall a :: a !in keys) ==> keys == {};
      var a :| a in keys;
      At(value, a) + Sum(value, keys - {a})
  }

  lemma {:induction false} SumInsert(value: map<int, int>, keys: set<int>, a: int)
    requires a !in keys
    ensures Sum(value, keys + {a}) == Sum(value, keys) + At(value, a)
    decreases |keys|
  {
    var all := keys + {a};
    var b :| b in all && Sum(value, all) == At(value, b) + Sum(value, all - {b});
    if a == b {
      assert all - {b} == keys;
    } else {
      assert all - {b} == (keys - {b}) + {a};
      assert keys == (keys - {b}) + {b};
      SumInsert(value, keys - {b}, a);
      SumInsert(value, keys - {b}, b);
    }
  }

  lemma {:induction false} SumAgrees(value0: map<int, int>, value1: map<int, int>, keys: set<int>)
    requires forall a :: a in keys ==> At(value0, a) == At(value1, a)
    ensures Sum(value0, keys) == Sum(value1, keys)
    decreases |keys|
  {
    if keys != {} {
      assert (forall b :: b !in keys) ==> keys == {};
      var b :| b in keys && Sum(value0, keys) == At(value0, b) + Sum(value0, keys - {b});
      SumAgrees(value0, value1, keys - {b});
      SumInsert(value1, keys - {b}, b);
      assert (keys - {b}) + {b} == keys;
    }
  }

  lemma {:induction false} SumNatural(value: map<int, int>, keys: set<int>)
    requires forall a :: a in keys ==> At(value, a) >= 0
    ensures Sum(value, keys) >= 0
    decreases |keys|
  {
    if keys != {} {
      assert (forall b :: b !in keys) ==> keys == {};
      var b :| b in keys && Sum(value, keys) == At(value, b) + Sum(value, keys - {b});
      SumNatural(value, keys - {b});
    }
  }

  /** The user sizes of the live medium blocks. */
  ghost function MediumBytes(bk: Book): int {
    Sum(bk.l.size, bk.live) - HEADER * |bk.live|
  }

  lemma SizesAgree(m0: Memory, m1: Memory, l0: Layout, ring0: seq<nat>, l1: Layout, ring1: seq<nat>, live: set<int>)
    requires Quiet(m0, m1, l0, ring0, l1, ring1, live)
    ensures Sum(l0.size, live) == Sum(l1.size, live)
  {
    forall a | a in live ensures At(l0.size, a) == At(l1.size, a) {
      assert SameSize(l0, l1, a);
    }
    SumAgrees(l0.size, l1.size, live);
  }

  lemma BlockAdded(m0: Memory, m1: Memory, bk0: Book, ring0: seq<nat>, bk1: Book, ring1: seq<nat>, a: int)
    requires Quiet(m0, m1, bk0.l, ring0, bk1.l, ring1, bk0.live)
    requires a !in bk0.live && bk1.live == bk0.live + {a} && a in bk1.l.size
    ensures |bk1.live| == |bk0.live| + 1 && MediumBytes(bk1) == MediumBytes(bk0) + (bk1.l.size[a] - HEADER)
  {
    SizesAgree(m0, m1, bk0.l, ring0, bk1.l, ring1, bk0.live);
    SumInsert(bk1.l.size, bk0.live, a);
  }

  lemma BlockRemoved(m0: Memory, m1: Memory, bk0: Book, ring0: seq<nat>, bk1: Book, ring1: seq<nat>, a: int)
    requires Quiet(m0, m1, bk0.l, ring0, bk1.l, ring1, bk1.live)
    requires a in bk0.live && bk1.live == bk0.live - {a} && a in bk0.l.size
    ensures |bk1.live| == |bk0.live| - 1 && MediumBytes(bk1) == MediumBytes(bk0) - (bk0.l.size[a] - HEADER)
  {
    SizesAgree(m0, m1, bk0.l, ring0, bk1.l, ring1, bk1.live);
    SumInsert(bk0.l.size, bk1.live, a);
    assert bk0.live == bk1.live + {a};
  }
}
