/** Blocks as the trusted upstream node serves them, and the two retry loops
    that read from it (SolidityNode.getBlockByNum and
    SolidityNode.getLastSolidityBlockNum).

    The upstream is an oracle: the answers it gives to successive calls are
    passed in as a finite sequence. "Retry until it works" becomes "the
    sequence holds a good answer somewhere, and the loop stops at the first
    one". */
module Upstream {

  datatype Option<T> = None | Some(value: T)

  /** A block: the number in its header, and the rest of its content, which
      this model never looks into. */
  datatype Block = Block(num: int, body: seq<int>)

  /** One answer of the upstream's getBlock call: an exception, or a block
      (whose number may differ from the one asked for). */
  datatype Reply = Failed | Returned(block: Block)

  /** An answer the fetch loop accepts for height h. */
  predicate Matches(r: Reply, h: int)
  {
    r.Returned? && r.block.num == h
  }

  ghost predicate HasMatch(replies: seq<Reply>, h: int)
  {
    exists i :: 0 <= i < |replies| && Matches(replies[i], h)
  }

  lemma HasMatchTail(replies: seq<Reply>, h: int)
    requires HasMatch(replies, h) && !Matches(replies[0], h)
    ensures HasMatch(replies[1..], h)
  {
  }

  /** The attempt at which a fetch of height h succeeds: the first answer
      that is a block numbered h. */
  function FirstMatch(replies: seq<Reply>, h: int): (k: nat)
    requires HasMatch(replies, h)
    ensures k < |replies| && Matches(replies[k], h)
    ensures forall j :: 0 <= j < k ==> !Matches(replies[j], h)
    decreases |replies|
  {
    if Matches(replies[0], h) then 0
    else
      HasMatchTail(replies, h);
      1 + FirstMatch(replies[1..], h)
  }

  /** The block a fetch of height h hands back. */
  function Fetched(replies: seq<Reply>, h: int): (b: Block)
    requires HasMatch(replies, h)
    ensures b.num == h && Returned(b) in replies
  {
    replies[FirstMatch(replies, h)].block
  }

  /** getBlockByNum (SolidityNode.java:117-136): ask for the block at
      blockNum until an answer arrives whose own header number is blockNum.
      A failed call and a block with another number are both retried; the
      block returned is never one with a different number. */
  method GetBlockByNum(blockNum: int, replies: seq<Reply>) returns (block: Block, attempt: nat)
    requires HasMatch(replies, blockNum)
    ensures block.num == blockNum
    ensures attempt < |replies| && replies[attempt] == Returned(block)
    ensures forall j :: 0 <= j < attempt ==> !Matches(replies[j], blockNum)
    ensures block == Fetched(replies, blockNum)
  {
    attempt := 0;
    while true
      invariant attempt <= FirstMatch(replies, blockNum)
      decreases FirstMatch(replies, blockNum) - attempt
    {
      var reply := replies[attempt];
      if reply.Returned? && reply.block.num == blockNum {
        return reply.block, attempt;
      }
      // a failed call, or a block numbered otherwise: back off and ask again
      attempt := attempt + 1;
    }
  }

  ghost predicate HasAnswer(answers: seq<Option<int>>)
  {
    exists i :: 0 <= i < |answers| && answers[i].Some?
  }

  lemma HasAnswerTail(answers: seq<Option<int>>)
    requires HasAnswer(answers) && answers[0].None?
    ensures HasAnswer(answers[1..])
  {
  }

  /** The attempt at which reading the upstream's latest solidified height
      succeeds: the first answer that is not an exception. */
  function FirstAnswer(answers: seq<Option<int>>): (k: nat)
    requires HasAnswer(answers)
    ensures k < |answers| && answers[k].Some?
    ensures forall j :: 0 <= j < k ==> answers[j].None?
    decreases |answers|
  {
    if answers[0].Some? then 0
    else
      HasAnswerTail(answers);
      1 + FirstAnswer(answers[1..])
  }

  /** The height that read yields: a value the upstream answered with. */
  function LatestRemote(answers: seq<Option<int>>): (n: int)
    requires HasAnswer(answers)
    ensures Some(n) in answers
  {
    answers[FirstAnswer(answers)].value
  }

  /** getLastSolidityBlockNum (SolidityNode.java:138-152): read the
      upstream's latest solidified block number, retrying every failed call. */
  method GetLastSolidityBlockNum(answers: seq<Option<int>>) returns (blockNum: int, attempt: nat)
    requires HasAnswer(answers)
    ensures attempt < |answers| && answers[attempt] == Some(blockNum)
    ensures forall j :: 0 <= j < attempt ==> answers[j].None?
    ensures blockNum == LatestRemote(answers)
  {
    attempt := 0;
    while true
      invariant attempt <= FirstAnswer(answers)
      decreases FirstAnswer(answers) - attempt
    {
      if answers[attempt].Some? {
        return answers[attempt].value, attempt;
      }
      attempt := attempt + 1;
    }
  }
}
