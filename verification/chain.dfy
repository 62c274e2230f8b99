/**
 The blockchain: a never-empty sequence of blocks seeded with the genesis
 sentinel, the longest-valid-chain replacement rule, and the validity check
 behind it. Every operation is a pure function from the old chain value to
 the new one.
 */
module Chain {
  import opened Transactions
  import opened Blocks

  datatype Blockchain = Blockchain(chain: seq<Block>)

  /** The shape every reachable blockchain has: at least the genesis block. */
  predicate NonEmpty(bc: Blockchain) {
    |bc.chain| > 0
  }

  /** Block `i` points at its predecessor's hash. */
  ghost predicate LinkedAt(c: seq<Block>, i: int)
    requires 1 <= i < |c|
  {
    c[i].lastHash == c[i - 1].hash
  }

  /** Block `i` stores the digest of its own contents. */
  ghost predicate SealedAt(ops: BlockOps, c: seq<Block>, i: int)
    requires 0 <= i < |c|
  {
    c[i].hash == ops.blockHash(c[i])
  }

  /**
   What a valid chain is: it starts with a block structurally equal to the
   genesis sentinel, and every later block is linked to its predecessor and
   sealed with its own digest.
   */
  ghost predicate ValidChain(ops: BlockOps, c: seq<Block>) {
    && |c| > 0
    && c[0] == ops.genesis
    && (forall i :: 1 <= i < |c| ==> LinkedAt(c, i))
    && (forall i :: 1 <= i < |c| ==> SealedAt(ops, c, i))
  }

  /** A fresh blockchain holds exactly the genesis block, and that chain is valid. */
  function NewBlockchain(ops: BlockOps): (bc: Blockchain)
    ensures NonEmpty(bc) && |bc.chain| == 1
    ensures bc.chain[0] == ops.genesis
    ensures ValidChain(ops, bc.chain)
  {
    Blockchain([ops.genesis])
  }

  /** The tail block; the chain is the earlier blocks followed by it. */
  function GetLastBlock(bc: Blockchain): (last: Block)
    requires NonEmpty(bc)
    ensures last in bc.chain
    ensures bc.chain == bc.chain[..|bc.chain| - 1] + [last]
  {
    bc.chain[|bc.chain| - 1]
  }

  /**
   Mines a block on top of the current tail and appends it, without checking
   the mined block. The new block is returned with the extended chain.
   */
  function AddBlock(ops: BlockOps, bc: Blockchain, data: seq<Transaction>): (r: (Blockchain, Block))
    requires NonEmpty(bc)
    ensures NonEmpty(r.0)
    ensures |r.0.chain| == |bc.chain| + 1
    ensures r.0.chain[..|bc.chain|] == bc.chain
    ensures GetLastBlock(r.0) == r.1
    ensures r.1 == ops.mineBlock(GetLastBlock(bc), data)
  {
    var block := ops.mineBlock(GetLastBlock(bc), data);
    (Blockchain(bc.chain + [block]), block)
  }

  /** The per-block check of the validation loop, from index `i` to the end, stopping at the first failure. */
  function LinksFrom(ops: BlockOps, c: seq<Block>, i: nat): (ok: bool)
    requires 1 <= i <= |c|
    ensures ok <==> forall k :: i <= k < |c| ==> LinkedAt(c, k) && SealedAt(ops, c, k)
    decreases |c| - i
  {
    if i == |c| then true
    else if c[i].lastHash != c[i - 1].hash || c[i].hash != ops.blockHash(c[i]) then
      assert !(LinkedAt(c, i) && SealedAt(ops, c, i));
      false
    else LinksFrom(ops, c, i + 1)
  }

  /**
   The validation of a candidate chain. An empty candidate has no first block,
   so it fails the genesis comparison.
   */
  function IsValidChain(ops: BlockOps, c: seq<Block>): (ok: bool)
    ensures ok <==> ValidChain(ops, c)
    ensures |c| == 0 ==> !ok
    ensures |c| > 0 && c[0] != ops.genesis ==> !ok
  {
    if |c| == 0 || c[0] != ops.genesis then false
    else LinksFrom(ops, c, 1)
  }

  /** Which of the three branches of the replacement rule was taken. */
  datatype ReplaceOutcome = NotLonger | Invalid | Replaced

  /**
   Longest-valid-chain-wins: the candidate replaces the chain exactly when it
   is strictly longer and valid; otherwise the chain is left as it was.
   */
  function ReplaceChain(ops: BlockOps, bc: Blockchain, newChain: seq<Block>): (r: (Blockchain, ReplaceOutcome))
    ensures r.1 == NotLonger <==> |newChain| <= |bc.chain|
    ensures r.1 == Invalid <==> |newChain| > |bc.chain| && !ValidChain(ops, newChain)
    ensures r.1 == Replaced <==> |newChain| > |bc.chain| && ValidChain(ops, newChain)
    ensures r.1 == Replaced ==> r.0.chain == newChain
    ensures r.1 != Replaced ==> r.0 == bc
    ensures |r.0.chain| >= |bc.chain|
  {
    if |newChain| <= |bc.chain| then (bc, NotLonger)
    else if !IsValidChain(ops, newChain) then (bc, Invalid)
    else (Blockchain(newChain), Replaced)
  }

  /** Replacement never empties the chain and never turns a valid chain into an invalid one. */
  lemma ReplaceChainPreservesValidity(ops: BlockOps, bc: Blockchain, newChain: seq<Block>)
    requires ValidChain(ops, bc.chain)
    ensures NonEmpty(ReplaceChain(ops, bc, newChain).0)
    ensures ValidChain(ops, ReplaceChain(ops, bc, newChain).0.chain)
  {
  }

  /** Offered to a genesis-only chain, a one-block candidate is rejected whatever it holds. */
  lemma SingleBlockCandidateRejected(ops: BlockOps, b: Block)
    ensures ReplaceChain(ops, NewBlockchain(ops), [b]) == (NewBlockchain(ops), NotLonger)
  {
  }

  /** A block after the first whose stored hash is not its digest makes the chain invalid. */
  lemma TamperedHashInvalid(ops: BlockOps, c: seq<Block>, i: int)
    requires 1 <= i < |c|
    requires c[i].hash != ops.blockHash(c[i])
    ensures !IsValidChain(ops, c)
  {
    assert !SealedAt(ops, c, i);
  }

  /**
   Rewriting the payload of a mined block without resealing it invalidates the
   chain, provided the digest notices the rewrite (an assumption about the
   hash, stated as the second requires).
   */
  lemma TamperedPayloadInvalid(ops: BlockOps, c: seq<Block>, i: int, forged: seq<Transaction>)
    requires ValidChain(ops, c)
    requires 1 <= i < |c|
    requires ops.blockHash(c[i].(data := forged)) != ops.blockHash(c[i])
    ensures !IsValidChain(ops, c[i := c[i].(data := forged)])
  {
    var t := c[i := c[i].(data := forged)];
    assert SealedAt(ops, c, i);
    assert !SealedAt(ops, t, i);
  }

  /** The chain after appending one mined block per payload, in order. */
  function AddBlocks(ops: BlockOps, bc: Blockchain, payloads: seq<seq<Transaction>>): (r: Blockchain)
    requires NonEmpty(bc)
    ensures NonEmpty(r)
    ensures |r.chain| == |bc.chain| + |payloads|
    ensures r.chain[..|bc.chain|] == bc.chain
    decreases |payloads|
  {
    if |payloads| == 0 then bc
    else AddBlocks(ops, AddBlock(ops, bc, payloads[0]).0, payloads[1..])
  }

  /** Under the mining assumption, appending one block keeps a valid chain valid. */
  lemma AddBlockPreservesValidity(ops: BlockOps, bc: Blockchain, data: seq<Transaction>)
    requires MiningIsSound(ops)
    requires ValidChain(ops, bc.chain)
    ensures ValidChain(ops, AddBlock(ops, bc, data).0.chain)
  {
    var c := AddBlock(ops, bc, data).0.chain;
    var n := |bc.chain|;
    assert c[n] == ops.mineBlock(bc.chain[n - 1], data);
    forall i | 1 <= i < |c|
      ensures LinkedAt(c, i) && SealedAt(ops, c, i)
    {
      if i < n {
        assert c[i] == bc.chain[i] && c[i - 1] == bc.chain[i - 1];
        assert LinkedAt(bc.chain, i) && SealedAt(ops, bc.chain, i);
      }
    }
  }

  /**
   Under the mining assumption, any sequence of `addBlock` calls on a valid
   chain (in particular on a fresh one) leaves it valid.
   */
  lemma {:induction false} AddBlocksPreservesValidity(ops: BlockOps, bc: Blockchain, payloads: seq<seq<Transaction>>)
    requires MiningIsSound(ops)
    requires ValidChain(ops, bc.chain)
    ensures ValidChain(ops, AddBlocks(ops, bc, payloads).chain)
    decreases |payloads|
  {
    if |payloads| > 0 {
      AddBlockPreservesValidity(ops, bc, payloads[0]);
      AddBlocksPreservesValidity(ops, AddBlock(ops, bc, payloads[0]).0, payloads[1..]);
    }
  }
}
