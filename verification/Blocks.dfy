/** Blocks as the chain links them. The height of a block is part of its id. */
module Blocks {
  datatype BlockId = BlockId(num: nat, hash: nat)

  /** The all-zero id: the parent of the first block. */
  const ZERO_ID := BlockId(0, 0)

  datatype Block = Block(previous: BlockId, hash: nat, transactions: seq<nat>) {
    function Num(): nat { previous.num + 1 }
    function Id(): BlockId { BlockId(Num(), hash) }
  }

  function Rev<T>(s: seq<T>): (r: seq<T>)
    ensures |r| == |s|
  {
    seq(|s|, i requires 0 <= i < |s| => s[|s| - 1 - i])
  }
}
