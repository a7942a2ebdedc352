/** Word-addressed memory. Addresses are byte addresses of fields; distinct 64-bit fields of one structure have
    addresses at least eight apart, and the two 32-bit fields of a slab's header (Slab.NUM_ALLOC and Slab.FULL) four,
    so a write of one field changes exactly one entry. */
module Memory {
  /** The finitely many words ever written or handed out; all others read as 0. */
  type Memory = map<int, nat>

  function Read(mem: Memory, a: int): nat {
    if a in mem then mem[a] else 0
  }

  function Write(mem: Memory, a: int, v: nat): (mem': Memory)
    ensures forall x {:trigger Read(mem', x)} :: Read(mem', x) == if x == a then v else Read(mem, x)
  {
    mem[a := v]
  }

  /** No address occurs twice. */
  ghost predicate Distinct(s: seq<nat>) {
    forall i, j :: 0 <= i < j < |s| ==> s[i] != s[j]
  }
}
