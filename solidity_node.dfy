/** The solidity node itself (SolidityNode.java): its constructor, the one
    iteration of the fetcher loop getBlock, and the applier loops
    processBlock and loopProcessBlock, as methods of a class whose state is
    proved to follow the state machine of module Pipeline step by step. */
module Solidity {
  import opened Upstream
  import opened Pipeline
  import opened LocalStore

  class SolidityNode {
    /** The local database (dbManager). */
    const dbManager: Store
    /** The fetch cursor ID. Once the fetcher runs, the height it is fetching. */
    var id: int
    /** remoteBlockNum: the upstream's latest solidified height, as last read. */
    var remoteBlockNum: int
    /** blockQueue, oldest first. */
    var blockQueue: seq<Block>
    /** The local `block` of loopProcessBlock: the block the applier holds. */
    var processing: Option<Block>
    /** Whether start() has run and the fetcher has taken its first height;
        the source keeps no such field, so it is ghost. */
    ghost var started: bool

    /** The node and its store, seen as a state of the pipeline. */
    ghost function State(): Node
      reads this, dbManager
    {
      Node(dbManager.latestSolidifiedBlockNum, dbManager.headBlockNum,
           dbManager.saves, dbManager.applied,
           id, remoteBlockNum, blockQueue, processing, started)
    }

    ghost predicate Valid()
      reads this, dbManager
    {
      Inv(State())
    }

    /** SolidityNode(Manager) (SolidityNode.java:48-54): reconcile the marker
        with the local head, put the cursor on the reconciled marker, and read
        the upstream's height once (its answers are `answers`). */
    constructor (dbManager: Store, answers: seq<Option<int>>)
      requires HasAnswer(answers)
      modifies dbManager
      ensures this.dbManager == dbManager && Valid()
      ensures State() == Boot(old(dbManager.latestSolidifiedBlockNum), old(dbManager.headBlockNum),
                              old(dbManager.saves), old(dbManager.applied), LatestRemote(answers))
    {
      this.dbManager := dbManager;
      id, remoteBlockNum, blockQueue := 0, 0, [];
      processing, started := None, false;
      new;
      ResolveCompatibilityIssueIfUsingFullNodeDatabase();
      id := dbManager.latestSolidifiedBlockNum;
      var latest, _ := GetLastSolidityBlockNum(answers);
      remoteBlockNum := latest;
    }

    /** resolveCompatibilityIssueIfUsingFullNodeDatabase
        (SolidityNode.java:161-171): when the local head is above the marker,
        save the head as the marker; otherwise write nothing. */
    method ResolveCompatibilityIssueIfUsingFullNodeDatabase()
      modifies dbManager
      ensures State() == Reconcile(old(State()))
    {
      var lastSolidityBlockNum := dbManager.latestSolidifiedBlockNum;
      var headBlockNum := dbManager.headBlockNum;
      if lastSolidityBlockNum < headBlockNum {
        dbManager.SaveLatestSolidifiedBlockNum(headBlockNum);
      }
    }

    /** start() and the first statement of getBlock (SolidityNode.java:56-70):
        the first height the fetcher asks for is the marker plus one. */
    method Start()
      requires Valid() && !started
      modifies this
      ensures Valid() && Next(old(State()), Event.Start) == Some(State())
      ensures started && id == old(id) + 1 == dbManager.latestSolidifiedBlockNum + 1
    {
      id := id + 1;
      started := true;
    }

    /** One iteration of the fetcher loop (SolidityNode.java:72-84). When the
        cursor is past the known remote height, re-read that height (a plain
        assignment: it may go down) and fetch nothing. Otherwise fetch the
        block at the cursor, put it at the tail of blockQueue and only then
        advance the cursor by one. `interrupted` says that put threw; the
        catch then leaves queue and cursor as they were. A put on a full
        queue would wait, so it is only taken when there is room. */
    method GetBlockIteration(answers: seq<Option<int>>, replies: seq<Reply>, interrupted: bool)
      returns (ghost step: Option<Event>)
      requires Valid() && started
      requires id > remoteBlockNum ==> HasAnswer(answers)
      requires id <= remoteBlockNum ==> HasMatch(replies, id)
      requires id <= remoteBlockNum && !interrupted ==> |blockQueue| < Capacity
      modifies this
      ensures Valid()
      ensures step.Some? ==> Next(old(State()), step.value) == Some(State())
      ensures step.None? ==> State() == old(State())
      ensures old(id > remoteBlockNum) ==>
        && step == Some(Refresh(LatestRemote(answers)))
        && remoteBlockNum == LatestRemote(answers)
        && id == old(id) && blockQueue == old(blockQueue)
      ensures old(id <= remoteBlockNum) && !interrupted ==>
        && step == Some(Put(Fetched(replies, old(id))))
        && blockQueue == old(blockQueue) + [Fetched(replies, old(id))]
        && blockQueue[|blockQueue| - 1].num == old(id)
        && id == old(id) + 1 && remoteBlockNum == old(remoteBlockNum)
      ensures old(id <= remoteBlockNum) && interrupted ==> step.None?
    {
      var blockNum := id;
      if blockNum > remoteBlockNum {
        var latest, _ := GetLastSolidityBlockNum(answers);
        remoteBlockNum := latest;
        step := Some(Refresh(latest));
        return;
      }
      var block, _ := GetBlockByNum(blockNum, replies);
      if interrupted {
        step := None;
        return;
      }
      blockQueue := blockQueue + [block];
      id := id + 1;
      step := Some(Put(block));
      NextKeepsInv(old(State()), step.value);
    }

    /** blockQueue.take() in processBlock (SolidityNode.java:91): the applier
        takes the oldest block, which is the height just above the marker. */
    method TakeBlock()
      requires Valid() && started && processing.None? && blockQueue != []
      modifies this
      ensures Valid() && Next(old(State()), Take) == Some(State())
      ensures processing == Some(old(blockQueue[0])) && blockQueue == old(blockQueue[1..])
      ensures processing.value.num == dbManager.latestSolidifiedBlockNum + 1
    {
      processing := Some(blockQueue[0]);
      blockQueue := blockQueue[1..];
      NextKeepsInv(old(State()), Take);
    }

    /** One iteration of loopProcessBlock (SolidityNode.java:101-113). Push the
        block held; if the store accepts it, save its own number as the marker.
        If not, the marker stays where it was and the same height is fetched
        afresh from the upstream (answers `replies`) for the next attempt. */
    method ApplyAttempt(accepted: bool, replies: seq<Reply>) returns (ghost e: Event)
      requires Valid() && processing.Some?
      requires !accepted ==> HasMatch(replies, processing.value.num)
      modifies this, dbManager
      ensures Valid() && Next(old(State()), e) == Some(State())
      ensures id == old(id) && remoteBlockNum == old(remoteBlockNum) && blockQueue == old(blockQueue)
      ensures accepted ==>
        && e == ApplyOk && processing.None?
        && dbManager.latestSolidifiedBlockNum == old(processing).value.num
        && dbManager.saves == old(dbManager.saves) + [old(processing).value.num]
        && dbManager.applied == old(dbManager.applied) + [old(processing).value]
      ensures !accepted ==>
        && e == ApplyFailed(Fetched(replies, old(processing).value.num))
        && processing == Some(Fetched(replies, old(processing).value.num))
        && dbManager.latestSolidifiedBlockNum == old(dbManager.latestSolidifiedBlockNum)
        && dbManager.saves == old(dbManager.saves) && dbManager.applied == old(dbManager.applied)
    {
      var block := processing.value;
      var blockNum := block.num;
      var ok := dbManager.PushVerifiedBlock(block, accepted);
      if ok {
        dbManager.SaveLatestSolidifiedBlockNum(blockNum);
        processing := None;
        e := ApplyOk;
      } else {
        var refetched, _ := GetBlockByNum(blockNum, replies);
        processing := Some(refetched);
        e := ApplyFailed(refetched);
      }
      NextKeepsInv(old(State()), e);
    }

    /** loopProcessBlock (SolidityNode.java:100-115), retried until the store
        accepts: the push is refused once per element of `refetches` (each
        the upstream's answers to the re-fetch after that refusal) and then
        accepted. The marker becomes the held height only at the end, and
        after any refusal the block applied is the re-fetched one, never the
        one first taken from the queue. */
    method LoopProcessBlock(refetches: seq<seq<Reply>>) returns (ghost events: seq<Event>)
      requires Valid() && processing.Some?
      requires forall i :: 0 <= i < |refetches| ==> HasMatch(refetches[i], processing.value.num)
      modifies this, dbManager
      ensures Valid() && Run(old(State()), events) == Some(State())
      ensures processing.None?
      ensures id == old(id) && remoteBlockNum == old(remoteBlockNum) && blockQueue == old(blockQueue)
      ensures dbManager.latestSolidifiedBlockNum == old(processing).value.num
      ensures dbManager.saves == old(dbManager.saves) + [old(processing).value.num]
      ensures |dbManager.applied| == |old(dbManager.applied)| + 1
      ensures dbManager.applied[..|old(dbManager.applied)|] == old(dbManager.applied)
      ensures dbManager.applied[|dbManager.applied| - 1] ==
        if refetches == [] then old(processing).value
        else Fetched(refetches[|refetches| - 1], old(processing).value.num)
    {
      ghost var h := processing.value.num;
      events := [];
      var attempt := 0;
      while true
        invariant attempt <= |refetches|
        invariant Valid() && processing.Some? && processing.value.num == h
        invariant processing.value ==
          if attempt == 0 then old(processing).value else Fetched(refetches[attempt - 1], h)
        invariant Run(old(State()), events) == Some(State())
        invariant id == old(id) && remoteBlockNum == old(remoteBlockNum) && blockQueue == old(blockQueue)
        invariant dbManager.latestSolidifiedBlockNum == old(dbManager.latestSolidifiedBlockNum)
        invariant dbManager.saves == old(dbManager.saves) && dbManager.applied == old(dbManager.applied)
        decreases |refetches| - attempt
      {
        var accepted := attempt == |refetches|;
        var e := ApplyAttempt(accepted, if accepted then [] else refetches[attempt]);
        RunSnoc(old(State()), events, e);
        events := events + [e];
        if accepted {
          return;
        }
        attempt := attempt + 1;
      }
    }

    /** One iteration of processBlock (SolidityNode.java:89-97): take the
        oldest block and process it until the store accepts it. The marker
        moves from m to exactly m + 1, and nothing else is written to it. */
    method ProcessBlockIteration(refetches: seq<seq<Reply>>) returns (ghost events: seq<Event>)
      requires Valid() && started && processing.None? && blockQueue != []
      requires forall i :: 0 <= i < |refetches| ==> HasMatch(refetches[i], blockQueue[0].num)
      modifies this, dbManager
      ensures Valid() && Run(old(State()), events) == Some(State())
      ensures processing.None? && blockQueue == old(blockQueue[1..])
      ensures id == old(id) && remoteBlockNum == old(remoteBlockNum)
      ensures dbManager.latestSolidifiedBlockNum == old(dbManager.latestSolidifiedBlockNum) + 1
      ensures dbManager.latestSolidifiedBlockNum == old(blockQueue[0].num)
      ensures dbManager.saves == old(dbManager.saves) + [dbManager.latestSolidifiedBlockNum]
      ensures |dbManager.applied| == |old(dbManager.applied)| + 1
      ensures dbManager.applied[..|old(dbManager.applied)|] == old(dbManager.applied)
      ensures dbManager.applied[|dbManager.applied| - 1] ==
        if refetches == [] then old(blockQueue[0])
        else Fetched(refetches[|refetches| - 1], old(blockQueue[0]).num)
    {
      TakeBlock();
      var rest := LoopProcessBlock(refetches);
      events := [Take] + rest;
      assert events[0] == Take && events[1..] == rest;
    }
  }
}
