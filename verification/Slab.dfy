/** One slab: a chunk of 16-byte cells for the smallest allocations. Each cell holds a header word and eight
    bytes of data; a free cell's data word links to the next free cell; cells never handed out yet form a tail
    that shrinks downwards. */
module Slab {
  import opened Bits
  import opened Memory
  import opened Words

  const CHUNK_SIZE: nat := 4040
  const FIRST_CELL: nat := 56      // size of the chunk header
  const LAST_CELL: nat := 4024
  const CELL: nat := 16
  const FREE_MAGIC: nat := 1

  // fields of the chunk header
  const WRAPPED_PTR: nat := 0
  const HEAP_PTR: nat := 8
  const NEXT: nat := 16
  const PREV: nat := 24
  const FIRST_FREE: nat := 32
  const UNUSED: nat := 40
  const NUM_ALLOC: nat := 48
  const FULL: nat := 52

  /** The ghost view of a slab: its live cells, and its free cells in list order. */
  datatype Cells = Cells(live: set<int>, free: seq<nat>)

  predicate IsCell(c: int, x: int) {
    c + FIRST_CELL <= x <= c + LAST_CELL && (x - c - FIRST_CELL) % CELL == 0
  }

  /** x still belongs to the untouched tail that ends at u. */
  predicate InTail(u: int, x: int) {
    u != 0 && x <= u
  }

  function Count(b: bool): nat { if b then 1 else 0 }

  /** A cell is exactly one of live, on the free list, or in the tail. */
  ghost predicate CellOk(k: Cells, u: int, x: int) {
    Count(x in k.live) + Count(x in k.free) + Count(InTail(u, x)) == 1
  }

  function NextFree(free: seq<nat>, i: nat): nat
    requires i < |free|
  {
    if i + 1 < |free| then free[i + 1] else 0
  }

  ghost predicate FreeNode(mem: Memory, c: int, free: seq<nat>, i: nat)
    requires i < |free|
  {
    IsCell(c, free[i]) && Read(mem, free[i]) == FREE_MAGIC && Read(mem, free[i] + 8) == NextFree(free, i)
  }

  ghost predicate LiveCell(mem: Memory, c: int, x: int) {
    IsCell(c, x) && Read(mem, x) == c
  }

  function HeadOf(free: seq<nat>): nat {
    if free == [] then 0 else free[0]
  }

  ghost predicate SlabOk(mem: Memory, c: int, k: Cells, heap: nat) {
    var u := Read(mem, c + UNUSED);
    && c > 0 && c % 16 == 0
    && Read(mem, c + HEAP_PTR) == heap
    && (u == 0 || IsCell(c, u))
    && Read(mem, c + FIRST_FREE) == HeadOf(k.free)
    && Read(mem, c + NUM_ALLOC) == |k.live|
    && Distinct(k.free)
    && (forall i: nat {:trigger FreeNode(mem, c, k.free, i)} :: i < |k.free| ==> FreeNode(mem, c, k.free, i))
    && (forall x {:trigger LiveCell(mem, c, x)} :: x in k.live ==> LiveCell(mem, c, x))
    && (forall x {:trigger CellOk(k, u, x)} :: IsCell(c, x) ==> CellOk(k, u, x))
  }

  /** No cell is left to hand out. */
  predicate NoRoom(mem: Memory, c: int) {
    Read(mem, c + FIRST_FREE) == 0 && Read(mem, c + UNUSED) == 0
  }

  /** SlabOk looks at these words of the chunk only: not at its links, its flag, or live cells' data. */
  predicate SlabWord(c: int, k: Cells, w: int) {
    && c <= w < c + CHUNK_SIZE
    && w != c + WRAPPED_PTR && w != c + NEXT && w != c + PREV && w != c + FULL
    && w - 8 !in k.live
  }

  lemma SlabFrame(mem: Memory, mem': Memory, c: int, k: Cells, heap: nat)
    requires SlabOk(mem, c, k, heap)
    requires forall w {:trigger Read(mem', w)} :: SlabWord(c, k, w) ==> Read(mem', w) == Read(mem, w)
    ensures SlabOk(mem', c, k, heap) && (NoRoom(mem', c) <==> NoRoom(mem, c))
  {
    hide Read;
    HeaderWords(c, k, mem);
    forall i: nat | i < |k.free| ensures FreeNode(mem', c, k.free, i) {
      assert FreeNode(mem, c, k.free, i);
      FreeWords(mem, c, k, heap, i);
    }
    forall x | x in k.live ensures LiveCell(mem', c, x) {
      assert LiveCell(mem, c, x);
      LiveWords(mem, c, k, heap, x);
    }
  }

  lemma HeaderWords(c: int, k: Cells, mem: Memory)
    requires forall x {:trigger LiveCell(mem, c, x)} :: x in k.live ==> LiveCell(mem, c, x)
    ensures SlabWord(c, k, c + HEAP_PTR) && SlabWord(c, k, c + UNUSED)
    ensures SlabWord(c, k, c + FIRST_FREE) && SlabWord(c, k, c + NUM_ALLOC)
  {
    forall x | x in k.live ensures x >= c + FIRST_CELL {
      assert LiveCell(mem, c, x);
    }
  }

  lemma FreeWords(mem: Memory, c: int, k: Cells, heap: nat, i: nat)
    requires SlabOk(mem, c, k, heap) && i < |k.free|
    ensures SlabWord(c, k, k.free[i]) && SlabWord(c, k, k.free[i] + 8)
  {
    hide Read;
    assert FreeNode(mem, c, k.free, i);
    var x := k.free[i];
    assert CellOk(k, Read(mem, c + UNUSED), x);
    assert x - 8 in k.live ==> LiveCell(mem, c, x - 8);
  }

  lemma LiveWords(mem: Memory, c: int, k: Cells, heap: nat, x: int)
    requires SlabOk(mem, c, k, heap) && x in k.live
    ensures SlabWord(c, k, x)
  {
    hide Read;
    assert LiveCell(mem, c, x);
    assert x - 8 in k.live ==> LiveCell(mem, c, x - 8);
  }

  /** Two different cells do not overlap. */
  lemma CellsApart(c: int, x: int, y: int)
    requires IsCell(c, x) && IsCell(c, y) && x != y
    ensures x + CELL <= y || y + CELL <= x
  {
  }

  // ---- handing cells out and taking them back ----

  /** Apart from the listed words, this slab's words are unchanged. */
  ghost predicate SameBut(mem: Memory, mem': Memory, c: int, changed: set<int>) {
    forall w {:trigger Read(mem', w)} ::
      c <= w < c + CHUNK_SIZE && w !in changed && w != c + NEXT && w != c + PREV && w != c + FULL ==>
        Read(mem', w) == Read(mem, w)
  }

  /** Freeing a live cell pushes it on the free list. */
  lemma PushCell(mem: Memory, mem': Memory, c: int, k: Cells, heap: nat, x: nat)
    requires SlabOk(mem, c, k, heap) && x in k.live
    requires SameBut(mem, mem', c, {x as int, x + 8, c + FIRST_FREE, c + NUM_ALLOC})
    requires Read(mem', x) == FREE_MAGIC && Read(mem', x + 8) == Read(mem, c + FIRST_FREE)
    requires Read(mem', c + FIRST_FREE) == x && Read(mem', c + NUM_ALLOC) == Read(mem, c + NUM_ALLOC) - 1
    ensures SlabOk(mem', c, Cells(k.live - {x as int}, [x] + k.free), heap)
  {
    hide Read;
    var k' := Cells(k.live - {x as int}, [x] + k.free);
    var u := Read(mem, c + UNUSED);
    assert LiveCell(mem, c, x);
    assert CellOk(k, u, x);
    forall i: nat | i < |k'.free| ensures FreeNode(mem', c, k'.free, i) {
      if i > 0 {
        assert FreeNode(mem, c, k.free, i - 1);
        CellsApart(c, x, k.free[i - 1]);
      }
    }
    forall y | y in k'.live ensures LiveCell(mem', c, y) {
      assert LiveCell(mem, c, y);
      CellsApart(c, x, y);
    }
    forall y | IsCell(c, y) ensures CellOk(k', u, y) {
      assert CellOk(k, u, y);
    }
  }

  /** Allocating takes the first free cell, if there is one. */
  lemma PopCell(mem: Memory, mem': Memory, c: int, k: Cells, heap: nat)
    requires SlabOk(mem, c, k, heap) && k.free != []
    requires SameBut(mem, mem', c, {k.free[0] as int, c + FIRST_FREE, c + NUM_ALLOC})
    requires Read(mem', k.free[0]) == c
    requires Read(mem', c + FIRST_FREE) == Read(mem, k.free[0] + 8)
    requires Read(mem', c + NUM_ALLOC) == Read(mem, c + NUM_ALLOC) + 1
    ensures SlabOk(mem', c, Cells(k.live + {k.free[0] as int}, k.free[1..]), heap)
  {
    hide Read;
    var x := k.free[0];
    var k' := Cells(k.live + {x as int}, k.free[1..]);
    var u := Read(mem, c + UNUSED);
    assert FreeNode(mem, c, k.free, 0);
    assert CellOk(k, u, x);
    forall i: nat | i < |k'.free| ensures FreeNode(mem', c, k'.free, i) {
      assert FreeNode(mem, c, k.free, i + 1);
      CellsApart(c, x, k.free[i + 1]);
    }
    forall y | y in k'.live ensures LiveCell(mem', c, y) {
      if y != x {
        assert LiveCell(mem, c, y);
        CellsApart(c, x, y);
      }
    }
    forall y | IsCell(c, y) ensures CellOk(k', u, y) {
      assert CellOk(k, u, y);
    }
  }

  /** Otherwise it takes the top of the untouched tail. */
  lemma CarveCell(mem: Memory, mem': Memory, c: int, k: Cells, heap: nat)
    requires SlabOk(mem, c, k, heap) && k.free == [] && Read(mem, c + UNUSED) != 0
    requires var u := Read(mem, c + UNUSED);
      && SameBut(mem, mem', c, {u as int, c + UNUSED, c + NUM_ALLOC})
      && Read(mem', u) == c
      && Read(mem', c + UNUSED) == (if u - CELL < c + FIRST_CELL then 0 else u - CELL)
      && Read(mem', c + NUM_ALLOC) == Read(mem, c + NUM_ALLOC) + 1
    ensures SlabOk(mem', c, Cells(k.live + {Read(mem, c + UNUSED) as int}, []), heap)
  {
    hide Read;
    var x := Read(mem, c + UNUSED);
    var u' := Read(mem', c + UNUSED);
    var k' := Cells(k.live + {x as int}, []);
    assert CellOk(k, x, x);
    forall y | y in k'.live ensures LiveCell(mem', c, y) {
      if y != x {
        assert LiveCell(mem, c, y);
        CellsApart(c, x, y);
      }
    }
    forall y | IsCell(c, y) ensures CellOk(k', u', y) {
      assert CellOk(k, x, y);
    }
  }

  /** A fresh chunk is all tail. */
  lemma FreshSlab(mem: Memory, c: int, heap: nat)
    requires c > 0 && c % 16 == 0
    requires Read(mem, c + HEAP_PTR) == heap && Read(mem, c + FIRST_FREE) == 0 && Read(mem, c + NUM_ALLOC) == 0
    requires Read(mem, c + UNUSED) == c + LAST_CELL
    ensures SlabOk(mem, c, Cells({}, []), heap) && !NoRoom(mem, c)
  {
    hide Read;
    var u := c + LAST_CELL;
    forall x | IsCell(c, x) ensures CellOk(Cells({}, []), u, x) {
    }
  }

  /** A slab without room has more than one live cell, so it is not emptied by one free. */
  lemma FullHasMany(mem: Memory, c: int, k: Cells, heap: nat)
    requires SlabOk(mem, c, k, heap) && NoRoom(mem, c)
    ensures |k.live| >= 2
  {
    hide Read;
    var x, y := c + FIRST_CELL, c + FIRST_CELL + CELL;
    assert k.free != [] ==> FreeNode(mem, c, k.free, 0);
    assert CellOk(k, 0, x) && CellOk(k, 0, y);
    assert {x, y} <= k.live;
    assert |{x, y}| == 2 && k.live == {x, y} + (k.live - {x, y});
  }
}
