/** The operating system's side: which regions have been handed out and not yet returned. */
module SystemMemory {
  /** Region s of n bytes overlaps nothing handed out. */
  predicate Clear(owned: map<int, nat>, s: int, n: nat) {
    forall r {:trigger owned[r]} :: r in owned ==> s + n <= r || r + owned[r] <= s
  }

  class System {
    var owned: map<int, nat>
    ghost var refusals: nat   // how many requests were refused

    constructor (owned: map<int, nat>)
      ensures this.owned == owned && refusals == 0
    {
      this.owned := owned;
      refusals := 0;
    }

    /** system_alloc: provides exactly what was asked, anywhere that is free, or nothing. */
    method Alloc(n: nat) returns (s: nat)
      modifies this
      ensures s == 0 || Clear(old(owned), s, n)
      ensures owned == if s == 0 then old(owned) else old(owned)[s as int := n]
      ensures refusals == old(refusals) + if s == 0 then 1 else 0
    {
      s := *;
      if s == 0 || !Clear(owned, s, n) {
        refusals := refusals + 1;
        return 0;
      }
      owned := owned[s := n];
    }

    /** system_free: only a region that is out can be returned, and then it is out no more. */
    method Free(s: nat)
      requires s in owned
      modifies this
      ensures owned == old(owned) - {s as int} && refusals == old(refusals)
    {
      owned := owned - {s};
    }
  }
}
