/** The part of the local database (Manager and its dynamic-properties store)
    that the solidity node touches: the latest solidified block number, the
    head block number, and pushing a verified block. How the store validates
    and stores a block is not modelled; it only accepts or refuses it. */
module LocalStore {
  import opened Upstream

  class Store {
    /** The persisted latest solidified block number (the marker). */
    var latestSolidifiedBlockNum: int
    /** The number of the head block of the local chain. */
    var headBlockNum: int
    /** Every value saved as the marker, oldest first. */
    ghost var saves: seq<int>
    /** Every block the store accepted, oldest first. */
    ghost var applied: seq<Block>

    constructor (latestSolidified: int, head: int)
      ensures latestSolidifiedBlockNum == latestSolidified && headBlockNum == head
      ensures saves == [] && applied == []
    {
      latestSolidifiedBlockNum, headBlockNum := latestSolidified, head;
      saves, applied := [], [];
    }

    /** saveLatestSolidifiedBlockNum: persist the marker. */
    method SaveLatestSolidifiedBlockNum(n: int)
      modifies this
      ensures latestSolidifiedBlockNum == n && saves == old(saves) + [n]
      ensures headBlockNum == old(headBlockNum) && applied == old(applied)
    {
      latestSolidifiedBlockNum := n;
      saves := saves + [n];
    }

    /** pushVerifiedBlock: the store's verdict on b is the oracle `accepted`;
        a refused block (an exception in the source) leaves the store as it
        was. */
    method PushVerifiedBlock(b: Block, accepted: bool) returns (ok: bool)
      modifies this
      ensures ok == accepted
      ensures applied == if ok then old(applied) + [b] else old(applied)
      ensures latestSolidifiedBlockNum == old(latestSolidifiedBlockNum)
      ensures headBlockNum == old(headBlockNum) && saves == old(saves)
    {
      ok := accepted;
      if ok {
        applied := applied + [b];
      }
    }
  }
}
