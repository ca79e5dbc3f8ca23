/** Reference counts (`ref_counted.hpp:33-62`), and how a count follows the holders. */
module RefCounting {

  /** A shared block. `deallocated` counts how often its memory was given back. */
  class RefCounted<T> {
    var value: T
    var refCount: int
    var deallocated: nat

    constructor (value: T)
      ensures this.value == value && refCount == 0 && deallocated == 0
    {
      this.value := value;
      refCount := 0;
      deallocated := 0;
    }

    method IncRef()
      modifies this`refCount
      ensures refCount == old(refCount) + 1
    {
      refCount := refCount + 1;
    }

    /** The count of at least one is asserted; the last reference gives the memory back. */
    method DecRef()
      requires refCount >= 1
      modifies this`refCount, this`deallocated
      ensures refCount == old(refCount) - 1
      ensures deallocated == old(deallocated) + if refCount == 0 then 1 else 0
    {
      refCount := refCount - 1;
      if refCount == 0 {
        deallocated := deallocated + 1;
      }
    }

    /** The count is the number of holders, and the memory was given back, once, when none is left. */
    ghost predicate HeldBy(holders: nat)
      reads this
    {
      refCount == holders && deallocated == if holders == 0 then 1 else 0
    }
  }

  /** When only one holder changed its mind, the number of holders changes by that one. */
  lemma HoldersMoved<H>(before: set<H>, after: set<H>, h: H)
    requires before - {h} == after - {h}
    ensures |after| == |before| - (if h in before then 1 else 0) + (if h in after then 1 else 0)
  {
    assert |before - {h}| == |before| - if h in before then 1 else 0;
    assert |after - {h}| == |after| - if h in after then 1 else 0;
  }
}
