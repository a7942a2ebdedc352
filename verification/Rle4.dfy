/** The BMP writer's 4-bit run-length encoding, against a decoder of the BI_RLE4 encoded mode. */
module Rle4 {
  import opened Bits
  import opened Words

  const BYTE_MAX: nat := 255

  /** The colour of a pixel byte. */
  function Nibble(x: nat): nat {
    And(x, 15)
  }

  /** A pair byte: two colours. */
  function Pattern(a: nat, b: nat): nat {
    Shl(Nibble(a), 4) + Nibble(b)
  }

  lemma NibbleIs(x: nat)
    ensures Nibble(x) == x % 16
  {
    assert Pow2(4) == 16;
    LowMask(x, 4, 16);
  }

  lemma PatternIs(a: nat, b: nat)
    ensures Pattern(a, b) == 16 * (a % 16) + b % 16 <= BYTE_MAX
    ensures Pattern(a, b) / 16 == Nibble(a) && Pattern(a, b) % 16 == Nibble(b) && Nibble(Pattern(a, b)) == Nibble(b)
  {
    assert Pow2(4) == 16;
    NibbleIs(a);
    NibbleIs(b);
    ShlIsMul(Nibble(a), 4);
    NibbleIs(Pattern(a, b));
  }

  // ---- the decoder ----

  /** n pixels whose colours alternate between the high and the low half of p. */
  function Pixels(n: nat, p: nat): seq<nat> {
    seq(n, i requires 0 <= i < n => if i % 2 == 0 then p / 16 else p % 16)
  }

  /** Scan lines of an encoded bitmap: a pair (n, p) with n > 0 gives n pixels, the pair (0, 0) ends the line; any
      other escape, or the end of the data, ends decoding. `line` holds the pixels of the present line so far. */
  function Lines(data: seq<nat>, line: seq<nat>): seq<seq<nat>>
    decreases |data|
  {
    if |data| < 2 then []
    else if data[0] != 0 then Lines(data[2..], line + Pixels(data[0], data[1]))
    else if data[1] == 0 then [line] + Lines(data[2..], [])
    else []
  }

  /** The pixels of a stretch of pairs. */
  function Runs(pairs: seq<nat>): seq<nat>
    decreases |pairs|
  {
    if |pairs| < 2 then [] else Pixels(pairs[0], pairs[1]) + Runs(pairs[2..])
  }

  /** Whole pairs, with counts from 1 to 255 and byte-sized patterns. */
  predicate PairsOk(pairs: seq<nat>) {
    && |pairs| % 2 == 0
    && forall i {:trigger pairs[i]} :: 0 <= i < |pairs| ==> pairs[i] <= BYTE_MAX && (i % 2 == 0 ==> pairs[i] >= 1)
  }

  lemma {:induction false} RunsAppend(pairs: seq<nat>, n: nat, p: nat)
    requires |pairs| % 2 == 0
    ensures Runs(pairs + [n, p]) == Runs(pairs) + Pixels(n, p)
    decreases |pairs|
  {
    if |pairs| == 0 {
      assert Runs([n, p]) == Pixels(n, p) + Runs([n, p][2..]);
    } else {
      RunsAppend(pairs[2..], n, p);
      assert (pairs + [n, p])[2..] == pairs[2..] + [n, p];
    }
  }

  /** The decoder reads a line of pairs and its end marker as that line. */
  lemma {:induction false} LineRead(pairs: seq<nat>, rest: seq<nat>, line: seq<nat>)
    requires PairsOk(pairs)
    ensures Lines(pairs + [0, 0] + rest, line) == [line + Runs(pairs)] + Lines(rest, [])
    decreases |pairs|
  {
    var data := pairs + [0, 0] + rest;
    if |pairs| == 0 {
      assert data[2..] == rest;
      assert line + Runs(pairs) == line;
    } else {
      var tail := pairs[2..];
      assert forall i {:trigger tail[i]} :: 0 <= i < |tail| ==> tail[i] == pairs[i + 2];
      LineRead(tail, rest, line + Pixels(pairs[0], pairs[1]));
      assert data[2..] == tail + [0, 0] + rest;
      assert pairs[0] >= 1;
      assert (line + Pixels(pairs[0], pairs[1])) + Runs(tail) == line + Runs(pairs);
    }
  }

  // ---- the encoder ----

  /** The colours of pixels from..to of a row that starts at src. */
  function Colours(body: seq<nat>, src: nat, n: nat): (r: seq<nat>)
    requires src + n <= |body|
    ensures |r| == n
  {
    seq<nat>(n, i requires 0 <= i < n => Nibble(body[src + i]))
  }

  lemma ColoursAppend(body: seq<nat>, src: nat, x: nat, more: nat, pixels: seq<nat>)
    requires src + x + more <= |body| && |pixels| == more
    requires forall j {:trigger body[j]} :: src + x <= j < src + x + more ==> pixels[j - src - x] == Nibble(body[j])
    ensures Colours(body, src, x + more) == Colours(body, src, x) + pixels
  {
    hide Nibble;
  }

  /** How many pixels the next pair takes: the longest run of one colour, up to 255, if the first two agree; otherwise
      two, or the last one alone. */
  predicate IsRun(colours: seq<nat>, n: nat) {
    && 1 <= n <= |colours|
    && if |colours| >= 2 && colours[0] == colours[1] then
         && 2 <= n <= BYTE_MAX && (forall i :: 0 <= i < n ==> colours[i] == colours[0])
         && (n < |colours| && n < BYTE_MAX ==> colours[n] != colours[0])
       else
         n == if |colours| >= 2 then 2 else 1
  }

  /** The pairs take the colours up to `rest`, each as many as it can. */
  predicate Greedy(pairs: seq<nat>, colours: seq<nat>, rest: seq<nat>)
    decreases |pairs|
  {
    if |pairs| < 2 then rest == colours
    else IsRun(colours, pairs[0]) && Greedy(pairs[2..], colours[pairs[0]..], rest)
  }

  lemma {:induction false} GreedyMore(pairs: seq<nat>, colours: seq<nat>, rest: seq<nat>, n: nat, p: nat)
    requires |pairs| % 2 == 0 && Greedy(pairs, colours, rest) && IsRun(rest, n)
    ensures Greedy(pairs + [n, p], colours, rest[n..])
    decreases |pairs|
  {
    hide IsRun;
    RunFits(rest, n);
    if |pairs| == 0 {
      assert Greedy([n, p][2..], rest[n..], rest[n..]);
    } else {
      RunFits(colours, pairs[0]);
      GreedyMore(pairs[2..], colours[pairs[0]..], rest, n, p);
      assert (pairs + [n, p])[2..] == pairs[2..] + [n, p];
    }
  }

  lemma RunFits(colours: seq<nat>, n: nat)
    requires IsRun(colours, n)
    ensures n <= |colours|
  {
  }

  /** The byte at index i; what lies past the image is some byte. */
  function ByteAt(body: seq<nat>, i: nat, past: nat): nat {
    if i < |body| then body[i] else past
  }

  /** One pair: a run of one colour, else two different pixels, else the last pixel alone. */
  method EncodePair(body: seq<nat>, start: nat, x0: nat, w: nat, past: nat) returns (cnt: nat, pattern: nat, x: nat)
    requires x0 < w && start + w <= |body|
    ensures x0 < x && 1 <= cnt <= BYTE_MAX && pattern <= BYTE_MAX
    ensures x <= w ==> cnt == x - x0
    ensures x > w ==> x == w + 1 && cnt == w - x0
    ensures IsRun(Colours(body, start + x0, w - x0), cnt)
    ensures pattern / 16 == body[start + x0] % 16 && (cnt >= 2 ==> pattern % 16 == body[start + x0 + 1] % 16)
    ensures forall j {:trigger body[j]} :: start + x0 <= j < start + x0 + cnt ==>
      Pixels(cnt, pattern)[j - start - x0] == Nibble(body[j])
  {
    hide Nibble, Pattern;
    var src := start + x0;
    x := x0;
    var second := ByteAt(body, src + 1, past);
    pattern := Pattern(body[src], second);
    PatternIs(body[src], second);
    NibbleIs(body[src]);
    NibbleIs(second);
    if x + 1 < w && Nibble(body[src]) == Nibble(second) {
      src := src + 2;
      cnt := 2;
      x := x + 2;
      while x < w && cnt < BYTE_MAX
        invariant cnt >= 2 && x0 + 2 <= x <= w && cnt == x - x0 <= BYTE_MAX && src == start + x
        invariant forall j {:trigger body[j]} :: start + x0 <= j < start + x ==> Nibble(body[j]) == Nibble(pattern)
      {
        if Nibble(body[src]) == Nibble(pattern) {
          src := src + 1;
          cnt := cnt + 1;
          x := x + 1;
        } else {
          break;
        }
      }
    } else {
      cnt := if x + 1 < w then 2 else 1;
      x := x + 2;
    }
  }

  /** One row and its end marker, written to the buffer from ptr on. */
  method EncodeRow(body: seq<nat>, start: nat, w: nat, past: nat, buf: array<nat>, from: nat)
      returns (ptr: nat, ghost pairs: seq<nat>)
    requires start + w <= |body| && from + 2 * (w + 1) <= buf.Length
    modifies buf
    ensures from + 2 <= ptr <= from + 2 * (w + 1) && buf[..from] == old(buf[..from])
    ensures PairsOk(pairs) && buf[from..ptr] == pairs + [0, 0] && Runs(pairs) == Colours(body, start, w)
    ensures Greedy(pairs, Colours(body, start, w), [])
  {
    hide Nibble, Pixels, Runs, PairsOk, Colours, Greedy, IsRun;
    var x := 0;
    ptr := from;
    pairs := [];
    NoPairs(body, start, w);
    while x < w
      invariant from <= ptr && |pairs| == ptr - from && |pairs| % 2 == 0 && ptr <= from + 2 * (if x <= w then x else w)
      invariant x <= w + 1 && buf[..from] == old(buf[..from]) && buf[from..ptr] == pairs && PairsOk(pairs)
      invariant Runs(pairs) == Colours(body, start, if x <= w then x else w)
      invariant Greedy(pairs, Colours(body, start, w), Colours(body, start + if x <= w then x else w,
                                                               w - if x <= w then x else w))
      decreases w + 1 - x
    {
      var cnt, pattern, next := EncodePair(body, start, x, w, past);
      PixelCount(cnt, pattern);
      RunsAppend(pairs, cnt, pattern);
      GreedyMore(pairs, Colours(body, start, w), Colours(body, start + x, w - x), cnt, pattern);
      ColoursRest(body, start + x, w - x, cnt);
      PairsMore(pairs, cnt, pattern);
      ColoursAppend(body, start, x, cnt, Pixels(cnt, pattern));
      buf[ptr] := cnt;
      ptr := ptr + 1;
      buf[ptr] := pattern;
      ptr := ptr + 1;
      pairs := pairs + [cnt, pattern];
      x := next;
    }
    buf[ptr] := 0;
    ptr := ptr + 1;
    buf[ptr] := 0;
    ptr := ptr + 1;
  }

  lemma NoPairs(body: seq<nat>, start: nat, w: nat)
    requires start + w <= |body|
    ensures PairsOk([]) && Runs([]) == Colours(body, start, 0)
    ensures Greedy([], Colours(body, start, w), Colours(body, start, w))
  {
  }

  lemma ColoursRest(body: seq<nat>, src: nat, n: nat, k: nat)
    requires src + n <= |body| && k <= n
    ensures Colours(body, src, n)[k..] == Colours(body, src + k, n - k)
  {
    hide Nibble;
  }

  lemma PairsMore(pairs: seq<nat>, n: nat, p: nat)
    requires PairsOk(pairs) && 1 <= n <= BYTE_MAX && p <= BYTE_MAX
    ensures PairsOk(pairs + [n, p])
  {
  }

  lemma PixelCount(n: nat, p: nat)
    ensures |Pixels(n, p)| == n
  {
  }

  /** The rows of the image, bottom row first. */
  function Rows(body: seq<nat>, w: nat, stride: nat, h: nat, y: nat): seq<seq<nat>>
    requires y <= h && w <= stride && stride * h <= |body|
    decreases y
  {
    if y == 0 then
      []
    else
      RowInside(stride, h, y - 1);
      [Colours(body, (y - 1) * stride, w)] + Rows(body, w, stride, h, y - 1)
  }

  lemma RowInside(stride: nat, h: nat, y: nat)
    requires y < h
    ensures 0 <= y * stride && y * stride + stride <= stride * h
  {
    assert (y + 1) * stride <= h * stride;
  }

  /** The picture, bottom row first: line y is row h - 1 - y of the body, the low nibble of each of its bytes. */
  ghost predicate Shows(lines: seq<seq<nat>>, body: seq<nat>, w: nat, stride: nat, h: nat) {
    && |lines| == h
    && forall y {:trigger lines[y]} :: 0 <= y < h ==>
         0 <= (h - 1 - y) * stride && ShowsRow(lines[y], body, (h - 1 - y) * stride, w)
  }

  ghost predicate ShowsRow(line: seq<nat>, body: seq<nat>, src: nat, w: nat) {
    && |line| == w && src + w <= |body|
    && forall x {:trigger line[x]} :: 0 <= x < w ==> line[x] == body[src + x] % 16
  }

  lemma {:induction false} RowAt(body: seq<nat>, w: nat, stride: nat, h: nat, y: nat, i: nat)
    requires i < y <= h && w <= stride && stride * h <= |body|
    ensures |Rows(body, w, stride, h, y)| == y
    ensures 0 <= (y - 1 - i) * stride && (y - 1 - i) * stride + stride <= stride * h
    ensures Rows(body, w, stride, h, y)[i] == Colours(body, (y - 1 - i) * stride, w)
    decreases y
  {
    hide Colours;
    RowInside(stride, h, y - 1 - i);
    RowInside(stride, h, y - 1);
    if i > 0 {
      RowAt(body, w, stride, h, y - 1, i - 1);
    } else if y > 1 {
      RowAt(body, w, stride, h, y - 1, 0);
    }
  }

  lemma RowsShow(body: seq<nat>, w: nat, stride: nat, h: nat)
    requires w <= stride && stride * h <= |body|
    ensures Shows(Rows(body, w, stride, h, h), body, w, stride, h)
  {
    hide Rows, ShowsRow, Colours;
    var lines := Rows(body, w, stride, h, h);
    if h == 0 {
      NoRows(body, w, stride);
    } else {
      RowAt(body, w, stride, h, h, 0);
    }
    forall y | 0 <= y < h
      ensures 0 <= (h - 1 - y) * stride && ShowsRow(lines[y], body, (h - 1 - y) * stride, w)
    {
      RowAt(body, w, stride, h, h, y);
      ColoursAre(body, (h - 1 - y) * stride, w);
    }
  }

  lemma NoRows(body: seq<nat>, w: nat, stride: nat)
    requires w <= stride
    ensures Rows(body, w, stride, 0, 0) == []
  {
  }

  lemma ColoursAre(body: seq<nat>, src: nat, n: nat)
    requires src + n <= |body|
    ensures ShowsRow(Colours(body, src, n), body, src, n)
  {
    hide Nibble;
    forall x | 0 <= x < n ensures Colours(body, src, n)[x] == body[src + x] % 16 {
      NibbleIs(body[src + x]);
    }
  }

  /** Rows of pairs with their end markers. */
  function Ended(rows: seq<seq<nat>>): seq<nat> {
    if rows == [] then [] else Ended(rows[..|rows| - 1]) + (rows[|rows| - 1] + [0, 0])
  }

  /** The decoder reads the data as these lines, whatever follows it. */
  ghost predicate Reads(data: seq<nat>, lines: seq<seq<nat>>) {
    forall rest: seq<nat> {:trigger Lines(data + rest, [])} :: Lines(data + rest, []) == lines + Lines(rest, [])
  }

  lemma ReadsNothing()
    ensures Reads([], [])
  {
    forall rest: seq<nat> ensures Lines([] + rest, []) == [] + Lines(rest, []) {
      assert [] + rest == rest;
    }
  }

  lemma ReadsRow(data: seq<nat>, lines: seq<seq<nat>>, pairs: seq<nat>)
    requires Reads(data, lines) && PairsOk(pairs)
    ensures Reads(data + (pairs + [0, 0]), lines + [Runs(pairs)])
  {
    hide PairsOk, Runs;
    var data' := data + (pairs + [0, 0]);
    forall rest: seq<nat> ensures Lines(data' + rest, []) == (lines + [Runs(pairs)]) + Lines(rest, []) {
      assert data' + rest == data + (pairs + [0, 0] + rest);
      LineRead(pairs, rest, []);
      assert [] + Runs(pairs) == Runs(pairs);
    }
  }

  lemma ReadsAll(data: seq<nat>, lines: seq<seq<nat>>)
    requires Reads(data, lines)
    ensures Lines(data, []) == lines
  {
    assert data + [] == data;
    assert Lines(data + [], []) == lines + Lines([], []);
  }

  /** BMPRLE4To's pixel data: decoding it gives back exactly the colours of every row, bottom up, and it fits the
      buffer of 2(w + 1) bytes a row. The byte read past a row's end, which may lie past the image, is never decoded:
      what a decoder gets does not depend on it. */
  method Encode(body: seq<nat>, w: nat, stride: nat, h: nat, past: nat)
      returns (buf: array<nat>, size: nat, ghost pairs: seq<seq<nat>>)
    requires w <= stride && stride * h <= |body|
    ensures buf.Length == 2 * (w + 1) * h && size <= buf.Length
    ensures Shows(Lines(buf[..size], []), body, w, stride, h)
    ensures buf[..size] == Ended(pairs) && |pairs| == |Lines(buf[..size], [])|
    ensures forall y {:trigger pairs[y]} :: 0 <= y < |pairs| ==>
      PairsOk(pairs[y]) && Greedy(pairs[y], Lines(buf[..size], [])[y], [])
  {
    hide Lines, Reads, Runs, PairsOk, Colours, Shows, Rows, Greedy;
    buf := new nat[2 * (w + 1) * h];
    var y := h;
    size := 0;
    ghost var rows: seq<seq<nat>> := [];
    pairs := [];
    ReadsNothing();
    RowsShow(body, w, stride, h);
    while y > 0
      invariant 0 <= y <= h && size <= 2 * (w + 1) * (h - y) <= buf.Length
      invariant Reads(buf[..size], rows) && rows + Rows(body, w, stride, h, y) == Rows(body, w, stride, h, h)
      invariant buf[..size] == Ended(pairs) && |pairs| == |rows|
      invariant forall i {:trigger pairs[i]} :: 0 <= i < |pairs| ==> PairsOk(pairs[i]) && Greedy(pairs[i], rows[i], [])
    {
      y := y - 1;
      RowInside(stride, h, y);
      RowRoom(w, h, y);
      RowFirst(body, w, stride, h, y + 1);
      ghost var before, row := buf[..size], [];
      var from := size;
      size, row := EncodeRow(body, y * stride, w, past, buf, from);
      assert buf[..size] == before + (row + [0, 0]);
      ReadsRow(before, rows, row);
      assert (pairs + [row])[..|pairs|] == pairs;
      rows, pairs := rows + [Runs(row)], pairs + [row];
    }
    RowFirst(body, w, stride, h, 0);
    assert rows + [] == rows;
    ReadsAll(buf[..size], rows);
  }

  lemma RowFirst(body: seq<nat>, w: nat, stride: nat, h: nat, y: nat)
    requires y <= h && w <= stride && stride * h <= |body|
    ensures y == 0 ==> Rows(body, w, stride, h, y) == []
    ensures y > 0 ==> 0 <= (y - 1) * stride && (y - 1) * stride + stride <= stride * h
    ensures y > 0 ==>
      Rows(body, w, stride, h, y) == [Colours(body, (y - 1) * stride, w)] + Rows(body, w, stride, h, y - 1)
  {
    hide Colours;
    if y > 0 {
      RowInside(stride, h, y - 1);
    }
  }

  lemma RowRoom(w: nat, h: nat, y: nat)
    requires y < h
    ensures 2 * (w + 1) * (h - y) == 2 * (w + 1) * (h - (y + 1)) + 2 * (w + 1)
    ensures 2 * (w + 1) * (h - y) <= 2 * (w + 1) * h
  {
  }
}
