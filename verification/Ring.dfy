/** Circular doubly linked lists with a sentinel, as used for system allocations and for slab chunks. */
module Ring {
  import opened Memory

  /** Byte offsets of the two links in a node. */
  datatype Links = Links(next: nat, prev: nat)

  const SPACING: int := 48

  function After(ring: seq<nat>, i: nat): nat
    requires i < |ring|
  {
    if i + 1 < |ring| then ring[i + 1] else ring[0]
  }

  function Prior(ring: seq<nat>, i: nat): nat
    requires i < |ring|
  {
    if i > 0 then ring[i - 1] else ring[|ring| - 1]
  }

  ghost predicate NodeOk(mem: Memory, k: Links, ring: seq<nat>, i: nat)
    requires i < |ring|
  {
    Read(mem, ring[i] + k.next) == After(ring, i) && Read(mem, ring[i] + k.prev) == Prior(ring, i)
  }

  predicate Apart(x: nat, y: nat) {
    x + SPACING <= y || y + SPACING <= x
  }

  ghost predicate Spaced(ring: seq<nat>) {
    forall i, j :: 0 <= i < j < |ring| ==> Apart(ring[i], ring[j])
  }

  /** Following next links from the sentinel ring[0] visits exactly ring and returns; prev links go back. */
  ghost predicate RingOk(mem: Memory, k: Links, ring: seq<nat>) {
    && |ring| > 0
    && Spaced(ring)
    && forall i: nat {:trigger NodeOk(mem, k, ring, i)} :: i < |ring| ==> NodeOk(mem, k, ring, i)
  }

  predicate LinksOk(k: Links) {
    k.next + 8 <= SPACING && k.prev + 8 <= SPACING && k.next != k.prev
  }

  /** link: insert node right after the sentinel. */
  function LinkMem(mem: Memory, k: Links, sentinel: nat, node: nat): Memory {
    var first := Read(mem, sentinel + k.next);
    var m1 := Write(Write(mem, node + k.next, first), node + k.prev, sentinel);
    var m2 := Write(m1, Read(m1, sentinel + k.next) + k.prev, node);
    Write(m2, sentinel + k.next, node)
  }

  /** unlink: join the node's neighbours. */
  function UnlinkMem(mem: Memory, k: Links, node: nat): Memory {
    var next, prev := Read(mem, node + k.next), Read(mem, node + k.prev);
    Write(Write(mem, next + k.prev, prev), prev + k.next, next)
  }

  function Inserted(ring: seq<nat>, node: nat): seq<nat>
    requires |ring| > 0
  {
    [ring[0], node] + ring[1..]
  }

  function Removed(ring: seq<nat>, i: nat): seq<nat>
    requires 0 < i < |ring|
  {
    ring[..i] + ring[i + 1..]
  }

  ghost predicate AwayFrom(ring: seq<nat>, node: nat) {
    forall i :: 0 <= i < |ring| ==> Apart(ring[i], node)
  }

  /** Different members share no link word. */
  lemma MembersApart(k: Links, ring: seq<nat>, i: nat, j: nat)
    requires LinksOk(k) && Spaced(ring) && i < |ring| && j < |ring| && i != j
    ensures ring[i] != ring[j]
    ensures ring[i] + k.next != ring[j] + k.prev && ring[i] + k.prev != ring[j] + k.next
  {
    assert i < j ==> Apart(ring[i], ring[j]);
    assert j < i ==> Apart(ring[j], ring[i]);
  }

  function NextIndex(ring: seq<nat>, i: nat): nat { if i + 1 < |ring| then i + 1 else 0 }

  /** link sets the node's two words, the sentinel's next word and the old first node's prev word. */
  lemma LinkWrites(mem: Memory, k: Links, ring: seq<nat>, node: nat, w: int)
    requires LinksOk(k) && RingOk(mem, k, ring) && AwayFrom(ring, node)
    ensures Read(LinkMem(mem, k, ring[0], node), w)
         == if w == ring[0] + k.next then node
            else if w == After(ring, 0) + k.prev then node
            else if w == node + k.prev then ring[0]
            else if w == node + k.next then After(ring, 0)
            else Read(mem, w)
  {
    hide Read;
    assert NodeOk(mem, k, ring, 0);
    var n := NextIndex(ring, 0);
    assert Apart(ring[0], node) && Apart(ring[n], node);
    if n != 0 {
      MembersApart(k, ring, n, 0);
    }
  }

  /** link changes the sentinel's next word, the old first node's prev word and the node's two words. */
  lemma LinkEffect(mem: Memory, k: Links, ring: seq<nat>, node: nat, j: nat)
    requires LinksOk(k) && RingOk(mem, k, ring) && AwayFrom(ring, node) && j < |ring|
    ensures var mem' := LinkMem(mem, k, ring[0], node);
      && Read(mem', node + k.next) == After(ring, 0) && Read(mem', node + k.prev) == ring[0]
      && Read(mem', ring[j] + k.next) == (if j == 0 then node else After(ring, j))
      && Read(mem', ring[j] + k.prev) == (if j == NextIndex(ring, 0) then node else Prior(ring, j))
  {
    hide Read, LinkMem;
    assert NodeOk(mem, k, ring, j);
    var n := NextIndex(ring, 0);
    assert Apart(ring[0], node) && Apart(ring[j], node) && Apart(ring[n], node);
    if j != 0 {
      MembersApart(k, ring, j, 0);
    }
    if j != n {
      MembersApart(k, ring, j, n);
    }
    LinkWrites(mem, k, ring, node, node + k.next);
    LinkWrites(mem, k, ring, node, node + k.prev);
    LinkWrites(mem, k, ring, node, ring[j] + k.next);
    LinkWrites(mem, k, ring, node, ring[j] + k.prev);
  }

  lemma InsertNode(mem: Memory, k: Links, ring: seq<nat>, node: nat, i: nat)
    requires LinksOk(k) && RingOk(mem, k, ring) && AwayFrom(ring, node) && i <= |ring|
    ensures NodeOk(LinkMem(mem, k, ring[0], node), k, Inserted(ring, node), i)
  {
    hide Read, LinkMem, Spaced, AwayFrom;
    LinkEffect(mem, k, ring, node, if i == 0 then 0 else i - 1);
  }

  lemma InsertOk(mem: Memory, k: Links, ring: seq<nat>, node: nat)
    requires LinksOk(k) && RingOk(mem, k, ring) && AwayFrom(ring, node)
    ensures RingOk(LinkMem(mem, k, ring[0], node), k, Inserted(ring, node))
  {
    hide NodeOk, LinkMem;
    var ring' := Inserted(ring, node);
    forall i: nat | i < |ring'| ensures NodeOk(LinkMem(mem, k, ring[0], node), k, ring', i) {
      InsertNode(mem, k, ring, node, i);
    }
  }

  /** unlink changes the next word of the predecessor and the prev word of the successor, nothing else. */
  lemma UnlinkEffect(mem: Memory, k: Links, ring: seq<nat>, at: nat, j: nat)
    requires LinksOk(k) && RingOk(mem, k, ring) && 0 < at < |ring| && j < |ring|
    ensures var mem' := UnlinkMem(mem, k, ring[at]);
      && Read(mem', ring[j] + k.next) == (if j == at - 1 then After(ring, at) else After(ring, j))
      && Read(mem', ring[j] + k.prev) == (if j == NextIndex(ring, at) then ring[at - 1] else Prior(ring, j))
  {
    hide Read;
    var p, n := at - 1, NextIndex(ring, at);
    assert NodeOk(mem, k, ring, at) && NodeOk(mem, k, ring, j);
    if j != p {
      MembersApart(k, ring, j, p);
    }
    if j != n {
      MembersApart(k, ring, j, n);
    }
    if p != n {
      MembersApart(k, ring, p, n);
    }
  }

  lemma RemoveNode(mem: Memory, k: Links, ring: seq<nat>, at: nat, i: nat)
    requires LinksOk(k) && RingOk(mem, k, ring) && 0 < at < |ring| && i < |ring| - 1
    ensures NodeOk(UnlinkMem(mem, k, ring[at]), k, Removed(ring, at), i)
  {
    hide Read, UnlinkMem, Spaced;
    UnlinkEffect(mem, k, ring, at, if i < at then i else i + 1);
  }

  lemma RemoveOk(mem: Memory, k: Links, ring: seq<nat>, at: nat)
    requires LinksOk(k) && RingOk(mem, k, ring) && 0 < at < |ring|
    ensures RingOk(UnlinkMem(mem, k, ring[at]), k, Removed(ring, at))
  {
    hide NodeOk, UnlinkMem;
    var ring' := Removed(ring, at);
    forall i: nat | i < |ring'| ensures NodeOk(UnlinkMem(mem, k, ring[at]), k, ring', i) {
      RemoveNode(mem, k, ring, at, i);
    }
  }

  /** What the two operations write: link words of the node and of ring members only. */
  lemma LinkFrame(mem: Memory, k: Links, ring: seq<nat>, node: nat, w: int)
    requires RingOk(mem, k, ring)
    requires w != node + k.next && w != node + k.prev
    requires forall i :: 0 <= i < |ring| ==> w != ring[i] + k.next && w != ring[i] + k.prev
    ensures Read(LinkMem(mem, k, ring[0], node), w) == Read(mem, w)
  {
    hide Read;
    assert NodeOk(mem, k, ring, 0);
  }

  lemma UnlinkFrame(mem: Memory, k: Links, ring: seq<nat>, at: nat, w: int)
    requires RingOk(mem, k, ring) && at < |ring|
    requires forall i :: 0 <= i < |ring| ==> w != ring[i] + k.next && w != ring[i] + k.prev
    ensures Read(UnlinkMem(mem, k, ring[at]), w) == Read(mem, w)
  {
    hide Read;
    assert NodeOk(mem, k, ring, at);
  }
}
