/** The synchronisation pipeline of the solidity node as a state machine.

    The fetcher thread (getBlock) and the applier thread (processBlock and
    loopProcessBlock) run as interleaved atomic steps. Each step is one
    iteration of one of their loops, with the retries of that iteration
    already settled: a fetched block always carries the requested number,
    because that is all getBlockByNum can return. The class SolidityNode
    in solidity_node.dfy is proved to move between exactly these states. */
module Pipeline {
  import opened Upstream

  /** Capacity of blockQueue (SolidityNode.java:42). */
  const Capacity: nat := 100

  /** Everything the pipeline reads or writes. */
  datatype Node = Node(
    marker: int,               // latest solidified block number in the local store
    head: int,                 // head block number of the local store
    saves: seq<int>,           // every value written to the marker, oldest first
    applied: seq<Block>,       // every block the local store accepted, oldest first
    id: int,                   // the fetch cursor ID: the height being fetched
    remote: int,               // remoteBlockNum: the last upstream height read
    queue: seq<Block>,         // blockQueue, oldest first
    processing: Option<Block>, // the block in the applier's hands, if any
    started: bool)             // whether the fetcher has taken its first height

  /** One atomic step of one of the two threads. */
  datatype Event =
    | Start                    // start(), and the fetcher's first ID.incrementAndGet()
    | Refresh(latest: int)     // fetcher: cursor past remote height, re-read it
    | Put(block: Block)        // fetcher: block fetched and put, cursor advanced
    | Take                     // applier: blockQueue.take()
    | ApplyOk                  // applier: push accepted, marker saved
    | ApplyFailed(refetched: Block) // applier: push refused, same height re-fetched

  /** Steps of the fetcher thread (getBlock); the others are the applier's. */
  predicate FetcherStep(e: Event)
  {
    e.Start? || e.Refresh? || e.Put?
  }

  /** The state after event e, or None when e cannot happen in s (the thread
      would block, or the step belongs to a phase not yet reached). The
      fetcher alone moves the cursor, the remote height and the queue's tail;
      the applier alone moves the marker, the applied blocks and the block in
      hand; neither touches the local head. A put needs room in the queue and
      a block numbered with the cursor; a refresh happens only when the
      cursor is past the remote height; a re-fetch keeps the height held. */
  function Next(s: Node, e: Event): (r: Option<Node>)
    ensures r.Some? ==> r.value.head == s.head
    ensures r.Some? && FetcherStep(e) ==>
      && r.value.marker == s.marker && r.value.saves == s.saves
      && r.value.applied == s.applied && r.value.processing == s.processing
    ensures r.Some? && !FetcherStep(e) ==>
      r.value.id == s.id && r.value.remote == s.remote && r.value.started == s.started
    ensures r.Some? && e.Put? ==>
      s.started && s.id <= s.remote && e.block.num == s.id && |s.queue| < Capacity
    ensures r.Some? && e.Refresh? ==> s.started && s.id > s.remote && r.value.queue == s.queue
    ensures r.Some? && e.ApplyFailed? ==>
      s.processing.Some? && r.value.processing == Some(e.refetched)
      && e.refetched.num == s.processing.value.num
  {
    match e
    case Start =>
      if s.started then None else Some(s.(id := s.id + 1, started := true))
    case Refresh(latest) =>
      if s.started && s.id > s.remote then Some(s.(remote := latest)) else None
    case Put(b) =>
      if s.started && s.id <= s.remote && b.num == s.id && |s.queue| < Capacity
      then Some(s.(queue := s.queue + [b], id := s.id + 1))
      else None
    case Take =>
      if s.started && s.processing.None? && s.queue != []
      then Some(s.(queue := s.queue[1..], processing := Some(s.queue[0])))
      else None
    case ApplyOk =>
      if s.processing.Some?
      then
        var b := s.processing.value;
        Some(s.(marker := b.num, saves := s.saves + [b.num],
                applied := s.applied + [b], processing := None))
      else None
    case ApplyFailed(b) =>
      if s.processing.Some? && b.num == s.processing.value.num
      then Some(s.(processing := Some(b)))
      else None
  }

  /** The state after a whole sequence of events, if every one can happen.
      No run changes the local head or rewrites a marker value already
      written: the log of marker writes only grows at its end. */
  function Run(s: Node, es: seq<Event>): (r: Option<Node>)
    ensures r.Some? ==> r.value.head == s.head
    ensures r.Some? ==> |s.saves| <= |r.value.saves| && r.value.saves[..|s.saves|] == s.saves
    decreases |es|
  {
    if es == [] then Some(s)
    else
      match Next(s, es[0])
      case None => None
      case Some(t) => Run(t, es[1..])
  }

  /** 1 while the applier holds a block, 0 otherwise. */
  function InHand(s: Node): nat
  {
    if s.processing.Some? then 1 else 0
  }

  /** The heights of bs, in order. */
  function Heights(bs: seq<Block>): seq<int>
  {
    seq(|bs|, k requires 0 <= k < |bs| => bs[k].num)
  }

  /** The heights lo, lo + 1, ..., hi - 1. */
  function Range(lo: int, hi: int): seq<int>
  {
    seq(if lo <= hi then hi - lo else 0, k => lo + k)
  }

  /** bs holds the heights from, from + 1, ... in that order. */
  ghost predicate Consecutive(bs: seq<Block>, from: int)
  {
    forall k :: 0 <= k < |bs| ==> bs[k].num == from + k
  }

  /** The pipeline invariant. Before the fetcher starts the cursor sits on the
      marker and nothing is in flight. Afterwards the block in the applier's
      hands is the one after the marker, the queue continues from there
      without a gap and ends just below the cursor, and it never holds more
      than Capacity blocks. */
  ghost predicate Inv(s: Node)
  {
    && |s.queue| <= Capacity
    && if s.started then
         && (s.processing.Some? ==> s.processing.value.num == s.marker + 1)
         && s.id - |s.queue| == s.marker + 1 + InHand(s)
         && Consecutive(s.queue, s.id - |s.queue|)
       else
         s.id == s.marker && s.queue == [] && s.processing.None?
  }

  /** resolveCompatibilityIssueIfUsingFullNodeDatabase: a local head above
      the marker raises the marker to the head; otherwise nothing is written. */
  function Reconcile(s: Node): (r: Node)
    ensures r.marker >= s.marker && r.marker >= s.head
    ensures r.marker == s.marker || r.marker == s.head
    ensures r.saves == s.saves <==> s.head <= s.marker
    ensures r.saves != s.saves ==> r.saves == s.saves + [r.marker]
    ensures r.(marker := s.marker, saves := s.saves) == s
  {
    if s.marker < s.head then s.(marker := s.head, saves := s.saves + [s.head]) else s
  }

  /** The state the constructor leaves: the marker reconciled with the head,
      the cursor on the reconciled marker, the remote height read once, and
      nothing fetched. */
  function Boot(marker: int, head: int, saves: seq<int>, applied: seq<Block>, remote: int): (s: Node)
    ensures Inv(s) && !s.started
    ensures s.marker >= marker && s.marker >= head && (s.marker == marker || s.marker == head)
    ensures s.id == s.marker && s.remote == remote && s.head == head && s.applied == applied
    ensures s.saves == if marker < head then saves + [head] else saves
    ensures s.queue == [] && s.processing.None?
  {
    var r := Reconcile(Node(marker, head, saves, applied, 0, 0, [], None, false));
    r.(id := r.marker, remote := remote)
  }

  /** Every step keeps the pipeline invariant. */
  lemma NextKeepsInv(s: Node, e: Event)
    requires Inv(s) && Next(s, e).Some?
    ensures Inv(Next(s, e).value)
  {
  }

  /** The only step that touches the marker, its log or the applied log is
      ApplyOk, and it writes exactly the height after the marker, taken from
      the applied block's own number. A refused push changes none of them. */
  lemma StepWritesNextMarker(s: Node, e: Event)
    requires Inv(s) && Next(s, e).Some?
    ensures var t := Next(s, e).value;
      if e == ApplyOk then
        && s.processing.Some?
        && t.marker == s.marker + 1 == s.processing.value.num
        && t.saves == s.saves + [t.marker]
        && t.applied == s.applied + [s.processing.value]
      else
        t.marker == s.marker && t.saves == s.saves && t.applied == s.applied
  {
  }

  lemma RangeCons(lo: int, hi: int)
    requires lo < hi
    ensures Range(lo, hi) == [lo] + Range(lo + 1, hi)
  {
  }

  lemma HeightsSnoc(bs: seq<Block>, b: Block)
    ensures Heights(bs + [b]) == Heights(bs) + [b.num]
  {
  }

  /** Running one more event is taking one more step from where the run ended. */
  lemma {:induction false} RunSnoc(s: Node, es: seq<Event>, e: Event)
    requires Run(s, es).Some?
    ensures Run(s, es + [e]) == Next(Run(s, es).value, e)
    decreases |es|
  {
    if es == [] {
      assert [e][1..] == [];
    } else {
      assert (es + [e])[0] == es[0];
      assert (es + [e])[1..] == es[1..] + [e];
      RunSnoc(Next(s, es[0]).value, es[1..], e);
    }
  }

  /** Every run keeps the pipeline invariant. In particular blockQueue never
      holds more than Capacity blocks, and its heights always run, without a
      gap, up to the cursor minus one. */
  lemma {:induction false} RunKeepsInv(s: Node, es: seq<Event>)
    requires Inv(s) && Run(s, es).Some?
    ensures Inv(Run(s, es).value)
    decreases |es|
  {
    if es != [] {
      NextKeepsInv(s, es[0]);
      RunKeepsInv(Next(s, es[0]).value, es[1..]);
    }
  }

  /** Over any run, the marker only grows, and the values written to it are
      exactly marker + 1, marker + 2, ... in that order: ascending and without
      a gap. The blocks the local store accepted have exactly those heights,
      in the same order. */
  lemma {:induction false} RunWritesConsecutiveMarkers(s: Node, es: seq<Event>)
    requires Inv(s) && Run(s, es).Some?
    ensures var t := Run(s, es).value;
      && s.marker <= t.marker
      && t.saves == s.saves + Range(s.marker + 1, t.marker + 1)
      && Heights(t.applied) == Heights(s.applied) + Range(s.marker + 1, t.marker + 1)
    decreases |es|
  {
    if es == [] {
      assert Range(s.marker + 1, s.marker + 1) == [];
    } else {
      var u := Next(s, es[0]).value;
      var t := Run(s, es).value;
      NextKeepsInv(s, es[0]);
      StepWritesNextMarker(s, es[0]);
      RunWritesConsecutiveMarkers(u, es[1..]);
      if es[0] == ApplyOk {
        RangeCons(s.marker + 1, t.marker + 1);
        HeightsSnoc(s.applied, s.processing.value);
      }
    }
  }

  /** The heights the fetcher puts into blockQueue, in order. */
  function PutHeights(es: seq<Event>): seq<int>
  {
    if es == [] then []
    else (if es[0].Put? then [es[0].block.num] else []) + PutHeights(es[1..])
  }

  /** Once started, the fetcher puts the heights id, id + 1, ... in that
      order, each exactly once, and the cursor ends just past the last one:
      it never skips a height and never advances without a put. */
  lemma {:induction false} RunFetchesConsecutiveHeights(s: Node, es: seq<Event>)
    requires s.started && Run(s, es).Some?
    ensures var t := Run(s, es).value;
      s.id <= t.id && PutHeights(es) == Range(s.id, t.id)
    decreases |es|
  {
    if es == [] {
      assert Range(s.id, s.id) == [];
    } else {
      var u := Next(s, es[0]).value;
      var t := Run(s, es).value;
      RunFetchesConsecutiveHeights(u, es[1..]);
      if es[0].Put? {
        RangeCons(s.id, t.id);
      }
    }
  }

  /** Over the node's whole life from construction: the values written to
      the marker after the constructor runs extend the earlier log, are all
      above the marker the node was built on, and strictly ascend. */
  lemma LifetimeMarkersAscend(marker: int, head: int, saves: seq<int>, applied: seq<Block>,
                              remote: int, es: seq<Event>)
    requires Run(Boot(marker, head, saves, applied, remote), es).Some?
    ensures var t := Run(Boot(marker, head, saves, applied, remote), es).value;
      && |saves| <= |t.saves| && t.saves[..|saves|] == saves
      && (forall i :: |saves| <= i < |t.saves| ==> marker < t.saves[i])
      && (forall i, j :: |saves| <= i < j < |t.saves| ==> t.saves[i] < t.saves[j])
  {
    var s := Boot(marker, head, saves, applied, remote);
    var t := Run(s, es).value;
    RunWritesConsecutiveMarkers(s, es);
    var written := Range(s.marker + 1, t.marker + 1);
    assert t.saves == s.saves + written;
    if marker < head {
      assert t.saves == saves + ([head] + written);
    } else {
      assert t.saves == saves + written;
    }
  }
}
