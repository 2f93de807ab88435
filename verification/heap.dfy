/** The ledger of malloc and free, and of accesses in between. */
module CHeap {

  /** Which blocks are allocated. Only malloc adds one and only free removes one, and free accepts live blocks only. */
  class Heap {
    ghost var live: set<object>

    constructor ()
      ensures live == {}
    {
      live := {};
    }

    /** Bookkeeping of a successful malloc. */
    ghost method Allocated(block: object)
      requires block !in live
      modifies this
      ensures live == old(live) + {block}
    {
      live := live + {block};
    }

    /** Every access to a block, to read or to write, comes with this claim: the block has not been freed. */
    ghost method Use(block: object)
      requires block in live
    {
    }

    /** Freeing a block twice, or freeing what was never allocated, does not meet the precondition. */
    ghost method Free(block: object)
      requires block in live
      modifies this
      ensures live == old(live) - {block}
    {
      live := live - {block};
    }
  }
}
