/** Clients of SolidityNode that replay small runs of the pipeline and check,
    from the method contracts alone, what the node must do in each. */
module Scenarios {
  import opened Upstream
  import opened Pipeline
  import opened LocalStore
  import opened Solidity

  /** A well-formed block numbered h. */
  function B(h: int): Block
  {
    Block(h, [h])
  }

  /** Local head 10, marker 3: building the node raises the marker to 10,
      the cursor sits on 10 and the first height asked for is 11. */
  method HeadAboveMarker()
  {
    var store := new Store(3, 10);
    var answers := [Some(20)];
    assert answers[0].Some?;
    var node := new SolidityNode(store, answers);
    assert store.latestSolidifiedBlockNum == 10 && store.saves == [10];
    assert node.id == 10 && node.remoteBlockNum == 20;
    node.Start();
    assert node.id == 11;
  }

  /** Asking for height 9 and getting block 8 back, then an exception, then
      block 9: the first two answers are retried and block 9 is returned. */
  method MismatchedHeightRetried()
  {
    var replies := [Returned(B(8)), Failed, Returned(B(9))];
    assert Matches(replies[2], 9);
    var block, attempt := GetBlockByNum(9, replies);
    assert !Matches(replies[0], 9) && !Matches(replies[1], 9);
    assert attempt == 2 && block == B(9);
  }

  /** Marker 0, upstream at 5: after start the fetcher asks for 1 first. */
  method StartAtMarkerPlusOne()
  {
    var store := new Store(0, 0);
    var answers := [Some(5)];
    assert answers[0].Some?;
    var node := new SolidityNode(store, answers);
    node.Start();
    assert node.id == 1 && node.remoteBlockNum == 5 && node.blockQueue == [];
  }

  /** Upstream at 5, cursor on 1, empty queue: the fetcher queues 1, 2, 3 in
      order and the cursor ends on 4. */
  method FetchInOrder(node: SolidityNode)
    requires node.Valid() && node.started && node.id == 1 && node.remoteBlockNum == 5
    requires node.blockQueue == []
    modifies node
  {
    var r1, r2, r3 := [Returned(B(1))], [Returned(B(2))], [Returned(B(3))];
    assert Matches(r1[0], 1) && Matches(r2[0], 2) && Matches(r3[0], 3);
    assert FirstMatch(r1, 1) == 0 && FirstMatch(r2, 2) == 0 && FirstMatch(r3, 3) == 0;
    var _ := node.GetBlockIteration([], r1, false);
    assert node.blockQueue == [B(1)] && node.id == 2;
    var _ := node.GetBlockIteration([], r2, false);
    assert node.blockQueue == [B(1), B(2)] && node.id == 3;
    var _ := node.GetBlockIteration([], r3, false);
    assert node.blockQueue == [B(1), B(2), B(3)] && node.id == 4;
  }

  /** With 1, 2, 3 queued on marker 0, the applier stores 1 and then 2,
      writing the marker as 1 and then 2, and leaves 3 queued. */
  method ApplyInOrder(node: SolidityNode)
    requires node.Valid() && node.started && node.processing.None?
    requires node.blockQueue == [B(1), B(2), B(3)] && node.dbManager.saves == []
    modifies node, node.dbManager
  {
    var _ := node.ProcessBlockIteration([]);
    assert node.dbManager.saves == [1] && node.blockQueue == [B(2), B(3)];
    var _ := node.ProcessBlockIteration([]);
    assert node.dbManager.saves == [1, 2] && node.blockQueue == [B(3)];
  }

  /** The push of the block at the marker plus one is refused twice: the
      marker does not move until the third attempt, and the block finally
      applied is the one fetched after the second refusal. */
  method RefusedTwiceThenApplied(node: SolidityNode)
    requires node.Valid() && node.started && node.processing.None? && node.blockQueue != []
    modifies node, node.dbManager
  {
    var h := node.dbManager.latestSolidifiedBlockNum + 1;
    var again1 := [Failed, Returned(Block(h, [7]))];
    var again2 := [Returned(Block(h, [8]))];
    assert Matches(again1[1], h) && Matches(again2[0], h);
    node.TakeBlock();
    var _ := node.ApplyAttempt(false, again1);
    assert node.dbManager.latestSolidifiedBlockNum == h - 1;
    var _ := node.ApplyAttempt(false, again2);
    assert node.dbManager.latestSolidifiedBlockNum == h - 1;
    assert Fetched(again2, h) == Block(h, [8]);
    var _ := node.ApplyAttempt(true, []);
    assert node.dbManager.latestSolidifiedBlockNum == h;
    assert node.dbManager.applied[|node.dbManager.applied| - 1] == Block(h, [8]);
  }
}
