/** How blocks tile the chunks of the medium allocator: a purely geometric view, without memory. */
module Blocks {
  import opened Bits

  const HEADER: nat := 16          // allocated header: heap pointer and prefix
  const SYSTEM_HEADER: nat := 48
  const CHUNK_HEADER: nat := 16
  const SMALLEST_BLOCK: nat := 32
  const MAX_BLOCK: nat := 0x20_0000 - 8   // the largest size a free block's word can hold

  /** The system allocation a chunk lives in, its length, and the address of its phantom tail. */
  datatype Chunk = Chunk(sys: int, bytes: nat, tail: int)

  /** Every block header address, phantom tails included, with the block's length, the first header of its chunk and
      the header of its physical predecessor. The pinned chunks are those whose first block has been merged into, so
      that its word says that the block before it, which there is none, is in use. */
  datatype Layout = Layout(size: map<int, int>, base: map<int, int>, prev: map<int, int>, chunks: map<int, Chunk>,
                           pinned: set<int>)

  ghost predicate Multiple(x: int, d: nat)
    requires d > 0
  {
    x % d == 0
  }

  lemma MultipleSum(x: int, y: int, d: nat)
    requires d > 0 && Multiple(x, d)
    ensures Multiple(x + y, d) <==> Multiple(y, d)
    ensures Multiple(x - y, d) <==> Multiple(y, d)
  {
    var q := x / d;
    assert x == q * d;
    if y % d == 0 {
      var r := y / d;
      assert (q + r) * d == q * d + r * d && (q - r) * d == q * d - r * d;
      DivModUnique(x + y, d, q + r, 0);
      DivModUnique(x - y, d, q - r, 0);
    } else {
      if (x + y) % d == 0 {
        var r := (x + y) / d;
        assert (r - q) * d == r * d - q * d;
        DivModUnique(y, d, r - q, 0);
      }
      if (x - y) % d == 0 {
        var r := (x - y) / d;
        assert (q - r) * d == q * d - r * d;
        DivModUnique(y, d, q - r, 0);
      }
    }
  }

  lemma MultipleGap(x: int, y: int, d: nat)
    requires d > 0 && Multiple(x, d) && Multiple(y, d) && x < y
    ensures x + d <= y
  {
    var q, r := x / d, y / d;
    assert x == q * d && y == r * d;
    if r > q {
      MulStep(r, q, d);
    }
  }

  ghost predicate SameKeys(l: Layout) {
    l.size.Keys == l.base.Keys == l.prev.Keys
  }

  predicate IsTail(l: Layout, a: int)
    requires a in l.base && l.base[a] in l.chunks
  {
    a == l.chunks[l.base[a]].tail
  }

  /** A block lies in its chunk, and its end is the next block of that chunk. */
  ghost predicate BlockOk(l: Layout, align: nat, a: int)
    requires align > 0 && SameKeys(l) && a in l.size
  {
    && l.base[a] in l.chunks
    && l.base[a] <= a <= l.chunks[l.base[a]].tail
    && Multiple(a + HEADER, align)
    && (if IsTail(l, a) then l.size[a] == HEADER
        else
          var next := a + l.size[a];
          && SMALLEST_BLOCK <= l.size[a]
          && Multiple(l.size[a], align)
          && next in l.size && l.base[next] == l.base[a] && l.prev[next] == a)
  }

  /** A block that is not the first of its chunk starts where its predecessor ends. */
  ghost predicate PrevOk(l: Layout, a: int)
    requires SameKeys(l) && a in l.size
  {
    a != l.base[a] ==>
      var p := l.prev[a];
      p in l.size && l.base[p] == l.base[a] && p + l.size[p] == a
  }

  ghost predicate ChunkOk(l: Layout, c: int)
    requires SameKeys(l) && c in l.chunks
  {
    var k := l.chunks[c];
    && 0 < k.sys
    && k.sys + SYSTEM_HEADER + CHUNK_HEADER <= c < k.tail
    && k.tail + HEADER <= k.sys + k.bytes
    && k.tail - c <= MAX_BLOCK
    && c in l.size && l.base[c] == c
    && k.tail in l.size && l.base[k.tail] == c
  }

  ghost predicate Before(l: Layout, a: int, b: int)
    requires a in l.size
  {
    a + l.size[a] <= b
  }

  /** The blocks of every chunk tile it from its first header to its phantom tail. */
  ghost predicate Tiled(l: Layout, align: nat)
    requires align > 0
  {
    && SameKeys(l)
    && (forall a {:trigger BlockOk(l, align, a)} :: a in l.size ==> BlockOk(l, align, a))
    && (forall a {:trigger PrevOk(l, a)} :: a in l.size ==> PrevOk(l, a))
    && (forall a, b {:trigger Before(l, a, b)} :: a in l.size && b in l.size && a < b ==> Before(l, a, b))
    && (forall c {:trigger ChunkOk(l, c)} :: c in l.chunks ==> ChunkOk(l, c))
  }

  // ---- the operations on a layout ----

  /** Block a absorbs its physical successor n, which ends at far. */
  function Absorb(l: Layout, a: int, n: int, far: int): Layout
    requires a in l.size && n in l.size
  {
    Layout(l.size[a := l.size[a] + l.size[n]] - {n}, l.base - {n}, l.prev[far := a] - {n}, l.chunks, l.pinned)
  }

  /** Block a keeps its first bytes; the rest, up to far, becomes the block n. */
  function Split(l: Layout, a: int, n: int, far: int): Layout
    requires a in l.base
  {
    Layout(l.size[a := n - a][n := far - n], l.base[n := l.base[a]], l.prev[n := a][far := n], l.chunks,
           l.pinned)
  }

  /** A fresh chunk holding one block. */
  function AddChunk(l: Layout, first: int, k: Chunk): Layout {
    Layout(l.size[first := k.tail - first][k.tail := HEADER],
           l.base[first := first][k.tail := first],
           l.prev[first := 0][k.tail := first],
           l.chunks[first := k],
           l.pinned - {first})
  }

  function RemoveChunk(l: Layout, first: int): Layout
    requires first in l.chunks
  {
    var gone := {first, l.chunks[first].tail};
    Layout(l.size - gone, l.base - gone, l.prev - gone, l.chunks - {first}, l.pinned - {first})
  }

  /** A chunk is known by its first block. */
  lemma FirstIsBase(l: Layout, align: nat, a: int)
    requires align > 0 && Tiled(l, align) && a in l.chunks
    ensures a in l.size && a in l.base && l.base[a] == a
  {
    assert ChunkOk(l, a);
  }

  // ---- absorbing a successor keeps the tiling ----

  /** a and n are consecutive blocks and far is the header after them. */
  ghost predicate Consecutive(l: Layout, align: nat, a: int, n: int, far: int)
    requires align > 0
  {
    && Tiled(l, align)
    && a in l.size && n in l.size && far in l.size
    && n == a + l.size[a] && far == n + l.size[n]
    && BlockOk(l, align, a) && BlockOk(l, align, n) && BlockOk(l, align, far)
    && !IsTail(l, a) && !IsTail(l, n)
  }

  lemma AbsorbBlock(l: Layout, align: nat, a: int, n: int, far: int, x: int)
    requires align > 0 && Consecutive(l, align, a, n, far) && x in l.size && x != n
    ensures SameKeys(Absorb(l, a, n, far)) && BlockOk(Absorb(l, a, n, far), align, x)
  {
    hide Multiple;
    MultipleSum(l.size[a], l.size[n], align);
    assert BlockOk(l, align, x);
    assert PrevOk(l, n);
  }

  lemma AbsorbPrev(l: Layout, align: nat, a: int, n: int, far: int, x: int)
    requires align > 0 && Consecutive(l, align, a, n, far) && x in l.size && x != n
    ensures SameKeys(Absorb(l, a, n, far)) && PrevOk(Absorb(l, a, n, far), x)
  {
    hide Multiple;
    assert BlockOk(l, align, x);
    assert PrevOk(l, x);
  }

  lemma AbsorbBefore(l: Layout, align: nat, a: int, n: int, far: int, x: int, y: int)
    requires align > 0 && Consecutive(l, align, a, n, far)
    requires x in l.size && x != n && y in l.size && y != n && x < y
    ensures Before(Absorb(l, a, n, far), x, y)
  {
    hide Multiple;
    assert Before(l, x, y);
    if x == a && n < y {
      assert Before(l, n, y);
    }
  }

  lemma AbsorbChunk(l: Layout, align: nat, a: int, n: int, far: int, c: int)
    requires align > 0 && Consecutive(l, align, a, n, far) && c in l.chunks
    ensures SameKeys(Absorb(l, a, n, far)) && ChunkOk(Absorb(l, a, n, far), c)
  {
    hide Multiple;
    assert ChunkOk(l, c);
  }

  lemma AbsorbTiled(l: Layout, align: nat, a: int, n: int, far: int)
    requires align > 0 && Consecutive(l, align, a, n, far)
    ensures Tiled(Absorb(l, a, n, far), align)
  {
    hide BlockOk, PrevOk, Before, ChunkOk, Multiple;
    var l' := Absorb(l, a, n, far);
    forall x | x in l'.size ensures BlockOk(l', align, x) { AbsorbBlock(l, align, a, n, far, x); }
    forall x | x in l'.size ensures PrevOk(l', x) { AbsorbPrev(l, align, a, n, far, x); }
    forall x, y | x in l'.size && y in l'.size && x < y ensures Before(l', x, y) {
      AbsorbBefore(l, align, a, n, far, x, y);
    }
    forall c | c in l'.chunks ensures ChunkOk(l', c) { AbsorbChunk(l, align, a, n, far, c); }
  }

  // ---- splitting keeps the tiling ----

  ghost predicate Splittable(l: Layout, align: nat, a: int, n: int, far: int)
    requires align > 0
  {
    && Tiled(l, align)
    && a in l.size && far in l.size && far == a + l.size[a]
    && BlockOk(l, align, a) && BlockOk(l, align, far) && !IsTail(l, a)
    && a + SMALLEST_BLOCK <= n && n + SMALLEST_BLOCK <= far && Multiple(n - a, align)
  }

  lemma SplitFresh(l: Layout, align: nat, a: int, n: int, far: int)
    requires align > 0 && Splittable(l, align, a, n, far)
    ensures n !in l.size && Multiple(n + HEADER, align) && Multiple(far - n, align)
  {
    assert n in l.size ==> Before(l, a, n);
    MultipleSum(a + HEADER, n - a, align);
    MultipleSum(far - a, n - a, align);
  }

  lemma SplitBlock(l: Layout, align: nat, a: int, n: int, far: int, x: int)
    requires align > 0 && Splittable(l, align, a, n, far) && (x in l.size || x == n)
    ensures SameKeys(Split(l, a, n, far)) && BlockOk(Split(l, a, n, far), align, x)
  {
    hide Multiple;
    SplitFresh(l, align, a, n, far);
    if x != n {
      assert BlockOk(l, align, x);
    }
    if x == far {
      assert PrevOk(l, x);
    }
  }

  lemma SplitPrev(l: Layout, align: nat, a: int, n: int, far: int, x: int)
    requires align > 0 && Splittable(l, align, a, n, far) && (x in l.size || x == n)
    ensures SameKeys(Split(l, a, n, far)) && PrevOk(Split(l, a, n, far), x)
  {
    hide Multiple;
    SplitFresh(l, align, a, n, far);
    if x != n {
      assert PrevOk(l, x);
    }
  }

  lemma SplitBefore(l: Layout, align: nat, a: int, n: int, far: int, x: int, y: int)
    requires align > 0 && Splittable(l, align, a, n, far)
    requires (x in l.size || x == n) && (y in l.size || y == n) && x < y
    ensures SameKeys(Split(l, a, n, far)) && Before(Split(l, a, n, far), x, y)
  {
    hide Multiple;
    SplitFresh(l, align, a, n, far);
    if x == n {
      assert Before(l, a, y);
    } else if y == n {
      if x != a {
        assert x < a ==> Before(l, x, a);
        assert x > a ==> Before(l, a, x);
      }
    } else {
      assert Before(l, x, y);
    }
  }

  lemma SplitChunk(l: Layout, align: nat, a: int, n: int, far: int, c: int)
    requires align > 0 && Splittable(l, align, a, n, far) && c in l.chunks
    ensures SameKeys(Split(l, a, n, far)) && ChunkOk(Split(l, a, n, far), c)
  {
    hide Multiple;
    SplitFresh(l, align, a, n, far);
    assert ChunkOk(l, c);
  }

  lemma SplitTiled(l: Layout, align: nat, a: int, n: int, far: int)
    requires align > 0 && Splittable(l, align, a, n, far)
    ensures Tiled(Split(l, a, n, far), align)
  {
    hide BlockOk, PrevOk, Before, ChunkOk, Multiple;
    SplitFresh(l, align, a, n, far);
    var l' := Split(l, a, n, far);
    forall x | x in l'.size ensures BlockOk(l', align, x) { SplitBlock(l, align, a, n, far, x); }
    forall x | x in l'.size ensures PrevOk(l', x) { SplitPrev(l, align, a, n, far, x); }
    forall x, y | x in l'.size && y in l'.size && x < y ensures Before(l', x, y) {
      SplitBefore(l, align, a, n, far, x, y);
    }
    forall c | c in l'.chunks ensures ChunkOk(l', c) { SplitChunk(l, align, a, n, far, c); }
  }

  // ---- adding and removing a whole chunk ----

  /** The range of one chunk's headers lies apart from every block of the layout. */
  ghost predicate RangeFree(l: Layout, lo: int, hi: int)
    requires SameKeys(l)
  {
    forall a {:trigger Before(l, a, lo)} :: a in l.size ==> Before(l, a, lo) || hi <= a
  }

  ghost predicate NewChunk(l: Layout, align: nat, first: int, k: Chunk)
    requires align > 0
  {
    && Tiled(l, align)
    && RangeFree(l, first, k.tail + HEADER)
    && 0 < k.sys && k.sys + SYSTEM_HEADER + CHUNK_HEADER <= first && first + SMALLEST_BLOCK <= k.tail
    && k.tail + HEADER <= k.sys + k.bytes && k.tail - first <= MAX_BLOCK
    && Multiple(first + HEADER, align) && Multiple(k.tail + HEADER, align)
  }

  lemma NewChunkFresh(l: Layout, align: nat, first: int, k: Chunk, x: int)
    requires align > 0 && NewChunk(l, align, first, k) && x in l.size
    ensures x != first && x != k.tail && (x < first ==> x + l.size[x] <= first) && (x > first ==> k.tail + HEADER <= x)
    ensures l.base[x] != first
    ensures Multiple(k.tail - first, align)
  {
    hide Multiple;
    MultipleSum(k.tail + HEADER, first + HEADER, align);
    assert BlockOk(l, align, x);
    assert ChunkOk(l, l.base[x]);
    assert Before(l, x, first) || k.tail + HEADER <= x;
    var b := l.base[x];
    assert BlockOk(l, align, b);
    assert Before(l, b, first) || k.tail + HEADER <= b;
  }

  lemma AddBlock(l: Layout, align: nat, first: int, k: Chunk, x: int)
    requires align > 0 && NewChunk(l, align, first, k) && (x in l.size || x == first || x == k.tail)
    ensures SameKeys(AddChunk(l, first, k)) && BlockOk(AddChunk(l, first, k), align, x)
    ensures PrevOk(AddChunk(l, first, k), x)
  {
    hide Multiple;
    if x in l.size {
      NewChunkFresh(l, align, first, k, x);
      assert BlockOk(l, align, x);
      assert PrevOk(l, x);
      if !IsTail(l, x) {
        NewChunkFresh(l, align, first, k, x + l.size[x]);
      }
      if x != l.base[x] {
        NewChunkFresh(l, align, first, k, l.prev[x]);
      }
    } else {
      MultipleSum(k.tail + HEADER, first + HEADER, align);
    }
  }

  lemma AddBefore(l: Layout, align: nat, first: int, k: Chunk, x: int, y: int)
    requires align > 0 && NewChunk(l, align, first, k)
    requires (x in l.size || x == first || x == k.tail) && (y in l.size || y == first || y == k.tail) && x < y
    ensures Before(AddChunk(l, first, k), x, y)
  {
    hide Multiple;
    if x in l.size {
      NewChunkFresh(l, align, first, k, x);
    }
    if y in l.size {
      NewChunkFresh(l, align, first, k, y);
    }
    if x in l.size && y in l.size {
      assert Before(l, x, y);
    }
  }

  lemma AddChunkOk(l: Layout, align: nat, first: int, k: Chunk, c: int)
    requires align > 0 && NewChunk(l, align, first, k) && (c in l.chunks || c == first)
    ensures SameKeys(AddChunk(l, first, k)) && ChunkOk(AddChunk(l, first, k), c)
  {
    hide Multiple;
    if c in l.chunks {
      assert ChunkOk(l, c);
      NewChunkFresh(l, align, first, k, c);
      NewChunkFresh(l, align, first, k, l.chunks[c].tail);
    }
  }

  lemma AddChunkTiled(l: Layout, align: nat, first: int, k: Chunk)
    requires align > 0 && NewChunk(l, align, first, k)
    ensures Tiled(AddChunk(l, first, k), align)
    ensures first !in l.size && k.tail !in l.size && first !in l.chunks
  {
    hide BlockOk, PrevOk, Before, Multiple;
    var l' := AddChunk(l, first, k);
    forall x | x in l'.size ensures BlockOk(l', align, x) && PrevOk(l', x) { AddBlock(l, align, first, k, x); }
    forall x, y | x in l'.size && y in l'.size && x < y ensures Before(l', x, y) {
      AddBefore(l, align, first, k, x, y);
    }
    forall c | c in l'.chunks ensures ChunkOk(l', c) { AddChunkOk(l, align, first, k, c); }
    forall x | x in l.size ensures x != first && x != k.tail { NewChunkFresh(l, align, first, k, x); }
    assert first in l.chunks ==> ChunkOk(l, first);
  }

  /** The chunk at first holds a single block. */
  ghost predicate WholeChunk(l: Layout, align: nat, first: int)
    requires align > 0
  {
    && Tiled(l, align)
    && first in l.chunks && first in l.size && l.base[first] == first
    && first + l.size[first] == l.chunks[first].tail
  }

  /** Then every other block belongs to another chunk. */
  lemma OthersElsewhere(l: Layout, align: nat, first: int, x: int)
    requires align > 0 && WholeChunk(l, align, first) && x in l.size && x != first && x != l.chunks[first].tail
    ensures l.base[x] != first
  {
    hide Multiple;
    assert ChunkOk(l, first);
    assert BlockOk(l, align, x);
    assert first < x ==> Before(l, first, x);
  }

  lemma RemoveBlock(l: Layout, align: nat, first: int, x: int)
    requires align > 0 && WholeChunk(l, align, first) && x in l.size && x != first && x != l.chunks[first].tail
    ensures SameKeys(RemoveChunk(l, first))
    ensures BlockOk(RemoveChunk(l, first), align, x) && PrevOk(RemoveChunk(l, first), x)
  {
    hide Multiple;
    OthersElsewhere(l, align, first, x);
    assert ChunkOk(l, first);
    assert BlockOk(l, align, x);
    assert PrevOk(l, x);
  }

  lemma RemoveChunkTiled(l: Layout, align: nat, first: int)
    requires align > 0 && WholeChunk(l, align, first)
    ensures Tiled(RemoveChunk(l, first), align)
  {
    hide BlockOk, PrevOk, Multiple;
    var l' := RemoveChunk(l, first);
    forall x | x in l'.size ensures BlockOk(l', align, x) && PrevOk(l', x) { RemoveBlock(l, align, first, x); }
    forall x, y | x in l'.size && y in l'.size && x < y ensures Before(l', x, y) { assert Before(l, x, y); }
    forall c | c in l'.chunks ensures ChunkOk(l', c) {
      assert ChunkOk(l, c);
      assert ChunkOk(l, first);
    }
  }

  // ---- consequences of the tiling ----

  /** Two different blocks do not overlap. */
  lemma Disjoint(l: Layout, align: nat, a: int, b: int)
    requires align > 0 && Tiled(l, align) && a in l.size && b in l.size && a != b
    ensures a + l.size[a] <= b || b + l.size[b] <= a
  {
    hide Multiple, BlockOk;
    if a < b {
      assert Before(l, a, b);
    } else {
      assert Before(l, b, a);
    }
  }

  /** A block's size is bounded by its chunk, which fits the packed size field. */
  lemma SizeBound(l: Layout, align: nat, a: int)
    requires align > 0 && Tiled(l, align) && a in l.size && l.base[a] in l.chunks && !IsTail(l, a)
    ensures SMALLEST_BLOCK <= l.size[a] && a + l.size[a] in l.size
    ensures l.base[a] <= a && a + l.size[a] <= l.chunks[l.base[a]].tail
    ensures l.size[a] <= MAX_BLOCK
    ensures l.chunks[l.base[a]].sys + SYSTEM_HEADER + CHUNK_HEADER <= l.base[a]
    ensures l.chunks[l.base[a]].tail + HEADER <= l.chunks[l.base[a]].sys + l.chunks[l.base[a]].bytes
  {
    hide Multiple;
    assert BlockOk(l, align, a);
    assert ChunkOk(l, l.base[a]);
    assert BlockOk(l, align, a + l.size[a]);
  }
}
