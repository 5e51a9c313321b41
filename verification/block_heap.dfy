/**
 The C heap: it grants or refuses each allocation as it likes, knows which blocks are allocated, and
 frees only those, so that a block freed twice does not verify.
 */
module BlockHeap {

  class Heap {
    /** Whether the n-th allocation is granted. */
    const grants: nat -> bool
    var asked: nat
    ghost var live: set<object>

    constructor (grants: nat -> bool)
      ensures this.grants == grants && asked == 0 && live == {}
    {
      this.grants, asked, live := grants, 0, {};
    }

    /** The decision on the next allocation. */
    method Ask() returns (granted: bool)
      modifies this`asked
      ensures granted == grants(old(asked)) && asked == old(asked) + 1
    {
      granted := grants(asked);
      asked := asked + 1;
    }

    ghost method Allocated(o: object)
      modifies this`live
      ensures live == old(live) + {o}
    {
      live := live + {o};
    }

    method Free(ghost o: object)
      requires o in live
      modifies this`live
      ensures live == old(live) - {o}
    {
      live := live - {o};
    }
  }
}
