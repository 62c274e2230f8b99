/**
 The block as the chain logic sees it. How a block is mined, hashed and what
 the genesis sentinel contains belong to the Block collaborator, whose file is
 not part of this model; its three operations are uninterpreted values here.
 */
module Blocks {
  import opened Transactions

  type Hash = string

  /** `timestamp` and `nonce` stand for the collaborator-owned fields. */
  datatype Block = Block(timestamp: int, lastHash: Hash, hash: Hash, data: seq<Transaction>, nonce: int)

  /** The Block collaborator: `Block.genesis()`, `Block.mineBlock`, `Block.blockHash`. */
  datatype BlockOps = BlockOps(
    genesis: Block,
    mineBlock: (Block, seq<Transaction>) -> Block,
    blockHash: Block -> Hash)

  /**
   An ASSUMPTION about the collaborator, never established by the chain logic:
   a mined block points at its predecessor's hash and stores its own digest.
   */
  ghost predicate MiningIsSound(ops: BlockOps) {
    forall last: Block, data: seq<Transaction> ::
      && ops.mineBlock(last, data).lastHash == last.hash
      && ops.mineBlock(last, data).hash == ops.blockHash(ops.mineBlock(last, data))
  }
}
