/** The heap lock: a spin lock over one word, taken by compare-and-swap and released by a plain store. */
module Spinning {
  const NOBODY: int := -1

  class SpinLock {
    var word: int
    ghost var holder: int   // the thread that has the lock, or NOBODY

    ghost predicate Valid()
      reads this
    {
      (word == 0 || word == 1) && holder >= NOBODY && (word == 0 <==> holder == NOBODY)
    }

    ghost predicate Free()
      reads this
    {
      Valid() && holder == NOBODY
    }

    ghost predicate HeldBy(me: nat)
      reads this
    {
      Valid() && holder == me
    }

    /** new_spinlock. */
    constructor ()
      ensures Free()
    {
      word := 0;
      holder := NOBODY;
    }

    /** One compare-and-swap of spin_lock. A thread never waits for a lock it has. */
    method Try(ghost me: nat) returns (got: bool)
      requires Valid() && holder != me
      modifies this
      ensures got <==> old(Free())
      ensures if got then HeldBy(me) else Valid() && word == old(word) && holder == old(holder)
    {
      got := word == 0;
      if got {
        word := 1;
        holder := me;
      }
    }

    /** spin_lock, when no other thread is about. */
    method Acquire(ghost me: nat)
      requires Free()
      modifies this
      ensures HeldBy(me)
    {
      var got := Try(me);
      assert got;
    }

    /** spin_unlock: only the thread that has the lock may release it. */
    method Unlock(ghost me: nat)
      requires HeldBy(me)
      modifies this
      ensures Free()
    {
      word := 0;
      holder := NOBODY;
    }
  }
}
