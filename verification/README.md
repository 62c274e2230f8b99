# ts-blockchain ledger core in Dafny

A model of the two pieces of ledger logic in a small single-process
cryptocurrency simulator:

- **Blockchain** (`src/blockchain/index.ts`): a never-empty sequence of blocks
  seeded with the genesis block; `addBlock` mines on top of the tail and
  appends; `isValidChain` checks a candidate (genesis first, every later block
  linked to its predecessor's hash and sealed with its own digest);
  `replaceChain` adopts a candidate only when it is strictly longer and valid.
- **Wallet** (`src/wallet/index.ts`): a wallet holds a public key, an address
  and a cached balance; `calculateBalance` replays the chain (flatten all
  transactions, pick the most recent self-spend, start from its change output,
  add later credits); `createTransaction` recomputes and stores the balance,
  refuses a spend above it, and otherwise amends the wallet's pending
  transaction in the pool or creates and adds a new one.

Every operation is a pure function over immutable values: the blockchain,
wallet and pool are returned anew instead of being mutated, so "the replay
changes neither the chain nor the cached balance" holds by construction.

The collaborators whose files are not part of this model are uninterpreted
values passed as parameters:

- `Blocks.BlockOps` holds `Block.genesis()`, `Block.mineBlock` and
  `Block.blockHash`. Claims that need something of them state it as a
  `requires` (the predicate `Blocks.MiningIsSound`, or a hash that notices a
  payload change).
- `Wallets.TransactionOps` holds `Transaction.newTransaction` and
  `transaction.update`.
- The transaction pool is a map from sender key to its one pending transaction.
- `INITIAL_BALANCE` lives in a config file that is not part of this model. It
  is a parameter of the wallet constructors.
- The public key comes from key generation, which is not modelled. It is an
  opaque string parameter.

Files: `wrappers.dfy` (Option/Result), `transactions.dfy` (input, outputs,
`find` on outputs), `blocks.dfy` (block and the Block collaborator),
`chain.dfy` (blockchain), `replay.dfy` (flatten, filter, reduce, credits),
`wallet.dfy` (wallet, balance, issuance, the loop-by-loop replay),
`scenarios.dfy` (worked histories).

Behaviour of the code that is easy to misread, kept as written:

- **Tie-break.** The reduce at `src/wallet/index.ts:71-73` keeps `prev` only
  when `prev` is strictly later, so among self-spends with equal timestamps
  the last one in flattened order is chosen
  (`Replay.MostRecentIndex`, `Scenarios.EqualTimestampsLastWins`).
- **Cached balance on refusal.** `createTransaction` stores the recomputed
  balance before comparing the amount (`src/wallet/index.ts:39-43`). A refused
  spend therefore leaves the cached balance overwritten; only the pool is
  untouched.
- **Missing change output.** The `!` at `src/wallet/index.ts:75` dereferences
  `undefined` when the chosen self-spend has no output to the wallet. The model
  returns an explicit `CorruptLedger` error and leaves the wallet as it was,
  since the crash happens before the assignment at line 39 completes.
- **Empty candidate.** An empty candidate chain has no first block, so its
  `JSON.stringify` differs from the genesis block's and it is invalid. The
  `JSON.stringify` comparison is modelled as structural equality of `Block`
  values.

## Model

| member | source | states |
|---|---|---|
| `Chain.NewBlockchain` | src/blockchain/index.ts:6-8 | a fresh chain is exactly the genesis block, hence non-empty and valid |
| `Chain.GetLastBlock` | src/blockchain/index.ts:17-19 | on a non-empty chain the result is a block of the chain and the chain is its earlier blocks followed by it |
| `Chain.AddBlock` | src/blockchain/index.ts:10-15 | length grows by one, every earlier block is unchanged, the returned block is the new tail and was mined on the old tail with the given payload |
| `Chain.AddBlockPreservesValidity` | src/blockchain/index.ts:10-15 | if mining links to the predecessor and seals the block (an assumption), appending keeps a valid chain valid |
| `Chain.AddBlocksPreservesValidity` | src/blockchain/index.ts:10-15 | under the same assumption, any sequence of appends to a valid chain leaves it valid |
| `Chain.AddBlocks` | src/blockchain/index.ts:10-15 | repeated appends grow the chain by the number of payloads and keep its prefix |
| `Chain.LinksFrom` | src/blockchain/index.ts:26-36 | the loop from index i returns true iff every block from i on links to its predecessor's hash and recomputes to its stored hash |
| `Chain.IsValidChain` | src/blockchain/index.ts:21-39 | true iff the first block equals genesis and every later block is linked and sealed; false for an empty candidate or a wrong first block |
| `Chain.TamperedHashInvalid` | src/blockchain/index.ts:30-35 | a later block whose stored hash is not its digest makes the chain invalid |
| `Chain.TamperedPayloadInvalid` | src/blockchain/index.ts:30-35 | rewriting a mined block's payload without resealing invalidates a valid chain when the digest notices the rewrite |
| `Chain.ReplaceChain` | src/blockchain/index.ts:41-52 | the chain becomes the candidate iff the candidate is strictly longer and valid, else it is unchanged; the three outcomes match the three branches; length never decreases |
| `Chain.ReplaceChainPreservesValidity` | src/blockchain/index.ts:41-52 | replacing keeps a valid chain valid and non-empty |
| `Chain.SingleBlockCandidateRejected` | src/blockchain/index.ts:42-44 | a one-block candidate offered to a genesis-only chain is rejected as not longer |
| `Transactions.FindOutput` | src/wallet/index.ts:75 | the result is absent iff no output goes to the key, and a result is always an output addressed to the key |
| `Transactions.FindOutputIsFirst` | src/wallet/index.ts:75 | the output found is the one at the first position addressed to the key, as `find` returns it |
| `Replay.FlattenAppend` | src/wallet/index.ts:59-64 | flattening distributes over concatenation of chains |
| `Replay.FlattenOrder` | src/wallet/index.ts:59-64 | transaction j of block i sits right after all transactions of earlier blocks: block order, then intra-block order |
| `Replay.FlattenMembership` | src/wallet/index.ts:59-64 | a transaction is in the flattened history iff some block holds it |
| `Replay.SelfSpends` | src/wallet/index.ts:66 | every transaction the filter keeps has the key as its input address, and it keeps no more than the history holds |
| `Replay.SelfSpendsMembers` | src/wallet/index.ts:66 | a transaction is kept by the filter iff it is in the history and its input address is the key |
| `Replay.SelfSpendsNonEmpty` | src/wallet/index.ts:66-70 | the filter result is non-empty iff some transaction spends from the key |
| `Replay.MostRecentIndex` | src/wallet/index.ts:71-73 | the reduce keeps an element with maximal timestamp, and every later element has a strictly smaller one: the last maximum wins ties |
| `Replay.LatestSelfSpendUnique` | src/wallet/index.ts:71-73 | at most one position is the most recent self-spend |
| `Replay.ChosenIsLatestSelfSpend` | src/wallet/index.ts:66-73 | filtering then reducing picks the transaction at the position of the most recent self-spend, described directly on the flattened history |
| `Replay.CreditsAppend` | src/wallet/index.ts:79-87 | credits add up over concatenated histories |
| `Replay.CreditsSkipEarlier` | src/wallet/index.ts:79-87 | a transaction stamped no later than the start time contributes nothing, so the chosen self-spend's change is never counted twice |
| `Wallets.NewWallet` | src/wallet/index.ts:16-21 | a new wallet has the initial balance, the given key and an empty address |
| `Wallets.BlockchainWallet` | src/wallet/index.ts:92-96 | the issuer wallet has the initial balance, the given key and the reserved address `blockchain-wallet` |
| `Wallets.BlockchainWalletDiffersOnlyInAddress` | src/wallet/index.ts:92-96 | the issuer wallet differs from a user wallet on the same key in its address alone |
| `Wallets.LatestSelfSpendIsChosen` | src/wallet/index.ts:66-76 | every most-recent-self-spend position holds the transaction the filter and reduce choose |
| `Wallets.CalculateBalance` | src/wallet/index.ts:57-90 | without a self-spend, the cached balance plus every credit stamped after time 0; the only failure is CorruptLedger, and it needs a self-spend |
| `Wallets.FromSelfSpend` | src/wallet/index.ts:75-87 | the replay from a chosen self-spend (its change output, then the later credits) can fail only with CorruptLedger, the `!` on a missing change output |
| `Wallets.Replayed` | src/wallet/index.ts:58-87 | the replay shared by the original and the corrected balance fails only with CorruptLedger, and only when the history holds a self-spend |
| `Wallets.FromSelfSpendFails` | src/wallet/index.ts:75 | the replay from a self-spend fails iff that spend has no output back to the wallet |
| `Wallets.FromSelfSpendStartsAtChange` | src/wallet/index.ts:75-87 | with the first output back to the wallet at position i, the replay is that output's amount plus every credit stamped strictly after the spend |
| `Wallets.BalanceFromLatestSelfSpend` | src/wallet/index.ts:66-87 | with the most recent self-spend at position k of the flattened history, the balance is the replay from the transaction at k, whatever the cache holds |
| `Wallets.CacheIgnoredAfterSelfSpend` | src/wallet/index.ts:68-77 | once the wallet has a self-spend, the cached balance does not affect the replay |
| `Wallets.IssueWithBalance` | src/wallet/index.ts:39-54 | the computed balance is stored; a spend above it is refused with the pool untouched; else the pending entry is amended (keys unchanged) or a new one added (one more key) and returned |
| `Wallets.CreateTransaction` | src/wallet/index.ts:33-55 | refused iff the amount exceeds the recomputed balance, equal amounts accepted; the recomputed balance is stored even on refusal; the pool entry for the key is the returned transaction; other senders' entries are untouched |
| `Wallets.SecondIssueAmendsPending` | src/wallet/index.ts:45-52 | a second issuance amends the pending transaction of the first, and the pool still holds one entry for the wallet |
| `Wallets.RecomputeRecountsCredits` | src/wallet/index.ts:58-68 | without a self-spend, replaying again from the stored result adds the same credits a second time |
| `Wallets.CorrectedBalance` | src/wallet/index.ts:57-90 | the corrected replay starts from the initial balance without a self-spend and agrees with the original once the wallet has spent |
| `Wallets.CorrectedCreateTransaction` | src/wallet/index.ts:33-55 | issuance over the corrected replay stores a balance that recomputes to itself |
| `Wallets.CorrectedIssueIsStable` | src/wallet/index.ts:39-43 | with the corrected replay, a second issuance on an unchanged chain sees the same balance |
| `Wallets.CollectTransactions` | src/wallet/index.ts:59-64 | the nested forEach loops produce the flattened history |
| `Wallets.FilterSelfSpends` | src/wallet/index.ts:66 | the filter loop produces the self-spends |
| `Wallets.ReduceMostRecent` | src/wallet/index.ts:71-73 | the reduce loop fails exactly on an empty array, as a `reduce` without an initial value throws; otherwise it returns the element at the reduce's index, the last of the latest |
| `Wallets.FindChange` | src/wallet/index.ts:75 | the find loop returns the first output to the key, or none |
| `Wallets.AddCredits` | src/wallet/index.ts:79-87 | the final forEach adds exactly the credits stamped after the start time |
| `Wallets.ReplayBalance` | src/wallet/index.ts:57-90 | the loop-by-loop replay computes the same result as `CalculateBalance` |
| `Wallets.ReplayFrom` | src/wallet/index.ts:75-87 | the find and the final forEach, from a chosen self-spend, compute the replay from that spend |
| `Scenarios.ChangeThenCredit` | src/wallet/index.ts:70-87 | change of 600 from a self-spend plus a later credit of 250 gives 850, whatever the cache holds |
| `Scenarios.EqualTimestampsLastWins` | src/wallet/index.ts:71-75 | of two self-spends with equal timestamps in one block, the balance is the later one's change, whatever the earlier one left and whatever the cache holds |
| `Scenarios.CachedReplayAcceptsOverspend` | src/wallet/index.ts:39-58 | as written, a spend of 560 refused against 550 is accepted on the next attempt against 600 |
| `Scenarios.CorrectedReplayRefusesOverspend` | src/wallet/index.ts:39-58 | with the corrected replay, both attempts are refused against 550 |

## Left out

- Key generation, hex encoding of the public key and `sign` (`src/wallet/index.ts:18-19`, `29-31`): elliptic-curve library calls. The public key is an opaque string and the key pair is not a wallet field.
- `toString` (`src/wallet/index.ts:23-27`) and the `console.log` calls in `replaceChain`: output only. The branch taken is returned as `Chain.ReplaceOutcome`.
- The internals of `Block.genesis`, `Block.mineBlock` and `Block.blockHash`: proof-of-work and hashing; the block file is not part of this model. They are the uninterpreted fields of `Blocks.BlockOps`.
- The internals of `Transaction.newTransaction`, `transaction.update` and `TransactionPool`: their files are not part of this model. Any check they make themselves, and the outputs they build, are therefore not modelled. The pool is a map keyed by sender.
- `INITIAL_BALANCE`: its value lives in a config file that is not part of this model, so it is a parameter.
- JavaScript `number` floating point: amounts and timestamps are unbounded integers.
- `JSON.stringify`: modelled as structural equality of values.
- The thrown `AmountExceedBalanceException`: returned as a `Failure` value instead.
- The `TypeError` a `reduce` without an initial value throws on an empty array: returned as `None` by `Wallets.ReduceMostRecent`. The original never reaches it, since it calls `reduce` only after checking the length.
- `Chain.AddBlockPreservesValidity`: holds only under the explicit assumption `Blocks.MiningIsSound`. The original appends whatever the miner returns, unchecked.
- `Chain.AddBlocksPreservesValidity`: rests on the same mining assumption.
- `Chain.TamperedPayloadInvalid`: assumes the digest changes when the payload changes. Collision resistance of the hash is not modelled.

## Findings

| source | as written | input that shows it | evidently intended | confidence | as-written member | corrected member |
|---|---|---|---|---|---|---|
| src/wallet/index.ts:58 | without a self-spend, the replay starts from `this.balance`, which line 39 has already overwritten with an earlier replay that counted the same credits | wallet created with 500 and no spend of its own; the chain holds one transaction from another sender at timestamp 1 paying it 50; `createTransaction` of 560 is refused against 550, then accepted against 600 on the next call | start from the initial balance, so recomputing on an unchanged chain gives the same balance | medium, not executed | `Wallets.CalculateBalance` with `Scenarios.CachedReplayAcceptsOverspend` and `Wallets.RecomputeRecountsCredits` | `Wallets.CorrectedBalance` with `Wallets.CorrectedIssueIsStable` and `Scenarios.CorrectedReplayRefusesOverspend` |

The rest of the model keeps the as-written `CalculateBalance` and
`CreateTransaction`, which keep the original's behaviour. The
corrected pair, `CorrectedBalance` and `CorrectedCreateTransaction`, shares
the same replay (`Wallets.Replayed`) and issuance (`Wallets.IssueWithBalance`)
and differs only in the starting balance.
