/**
 Concrete histories: the replay worked through on small chains, the tie-break
 on equal timestamps, and the input on which the cached-balance replay
 counts a credit twice.
 */
module Scenarios {
  import opened Wrappers
  import opened Transactions
  import opened Blocks
  import opened Replay
  import opened Wallets
  import Chain

  const Genesis: Block := Block(0, "", "genesis-hash", [], 0)

  /** A transaction signed by `from` at time `ts` with the given outputs. */
  function Tx(from: Address, ts: int, outputs: seq<Output>): Transaction {
    Transaction("", Input(ts, 0, from, ""), outputs)
  }

  /** A block carrying `data`; its hashes play no part in the replay. */
  function Carrying(data: seq<Transaction>): Block {
    Block(1, "", "", data, 0)
  }

  /** The flattened history of genesis followed by one block. */
  lemma FlattenOne(d: seq<Transaction>)
    ensures Flatten([Genesis, Carrying(d)]) == d
  {
    assert [Genesis, Carrying(d)][..1] == [Genesis];
    assert [Genesis][..0] == [];
    assert Flatten([Genesis]) == [];
  }

  /** The flattened history of genesis followed by two blocks. */
  lemma FlattenTwo(d1: seq<Transaction>, d2: seq<Transaction>)
    ensures Flatten([Genesis, Carrying(d1), Carrying(d2)]) == d1 + d2
  {
    assert [Genesis, Carrying(d1), Carrying(d2)][..2] == [Genesis, Carrying(d1)];
    FlattenOne(d1);
  }

  /** Credits of a one-transaction history. */
  lemma CreditsOne(t: Transaction, pk: Address, after: int)
    ensures Credits([t], pk, after) == (if t.input.timestamp > after then AmountTo(t.outputs, pk) else 0)
  {
    assert [t][..0] == [];
  }

  /** Amount to `pk` in a two-output list. */
  lemma AmountToTwo(o1: Output, o2: Output, pk: Address)
    ensures AmountTo([o1, o2], pk) == (if o1.address == pk then o1.amount else 0) + (if o2.address == pk then o2.amount else 0)
  {
    assert [o1, o2][..1] == [o1];
    assert [o1][..0] == [];
    assert AmountTo([o1], pk) == (if o1.address == pk then o1.amount else 0);
  }

  /** Credits of a two-transaction history. */
  lemma CreditsTwo(t1: Transaction, t2: Transaction, pk: Address, after: int)
    ensures Credits([t1, t2], pk, after)
            == (if t1.input.timestamp > after then AmountTo(t1.outputs, pk) else 0)
             + (if t2.input.timestamp > after then AmountTo(t2.outputs, pk) else 0)
  {
    assert [t1, t2][..1] == [t1];
    CreditsOne(t1, pk, after);
  }

  /** A self-spend whose first output is its change. */
  lemma ChangeFirst(spend: Transaction, pk: Address, txs: seq<Transaction>)
    requires |spend.outputs| > 0 && spend.outputs[0].address == pk
    ensures FromSelfSpend(spend, pk, txs) == Success(spend.outputs[0].amount + Credits(txs, pk, spend.input.timestamp))
  {
    FromSelfSpendStartsAtChange(spend, pk, txs, 0);
  }

  /**
   A mined self-spend leaving 600 in change, then a later block crediting 250
   from another sender: the balance is 850 whatever the cache holds.
   */
  lemma ChangeThenCredit(cached: int)
    ensures CalculateBalance(Wallet(cached, "alice", ""), Chain.Blockchain([Genesis,
              Carrying([Tx("alice", 10, [Output(600, "alice"), Output(400, "bob")])]),
              Carrying([Tx("carol", 20, [Output(250, "alice"), Output(750, "carol")])])])) == Success(850)
  {
    var spend := Tx("alice", 10, [Output(600, "alice"), Output(400, "bob")]);
    var credit := Tx("carol", 20, [Output(250, "alice"), Output(750, "carol")]);
    var bc := Chain.Blockchain([Genesis, Carrying([spend]), Carrying([credit])]);
    var w := Wallet(cached, "alice", "");
    var txs := [spend, credit];
    assert Flatten(bc.chain) == txs by { FlattenTwo([spend], [credit]); }
    assert CalculateBalance(w, bc) == FromSelfSpend(spend, "alice", txs) by {
      assert IsLatestSelfSpend(txs, "alice", 0);
      BalanceFromLatestSelfSpend(w, bc, 0);
    }
    assert FromSelfSpend(spend, "alice", txs) == Success(850) by {
      ChangeFirst(spend, "alice", txs);
      CreditsTwo(spend, credit, "alice", 10);
      AmountToTwo(Output(250, "alice"), Output(750, "carol"), "alice");
    }
  }

  /** Of two self-spends with equal timestamps, the later in order is the most recent. */
  lemma LaterOfTwoIsLatest(earlier: Transaction, later: Transaction, pk: Address)
    requires earlier.input.address == pk && later.input.address == pk
    requires earlier.input.timestamp == later.input.timestamp
    ensures IsLatestSelfSpend([earlier, later], pk, 1)
  {
  }

  /** With two equal-time self-spends in one block, the replay starts from the later. */
  lemma ReplayFromLaterOfTwo(w: Wallet, earlier: Transaction, later: Transaction)
    requires earlier.input.address == w.publicKey && later.input.address == w.publicKey
    requires earlier.input.timestamp == later.input.timestamp
    ensures CalculateBalance(w, Chain.Blockchain([Genesis, Carrying([earlier, later])]))
            == FromSelfSpend(later, w.publicKey, [earlier, later])
  {
    FlattenOne([earlier, later]);
    LaterOfTwoIsLatest(earlier, later, w.publicKey);
    BalanceFromLatestSelfSpend(w, Chain.Blockchain([Genesis, Carrying([earlier, later])]), 1);
  }

  /** Nothing in a history of two equal-time transactions is credited after them. */
  lemma ChangeOnlyAtEqualTimes(earlier: Transaction, later: Transaction, pk: Address)
    requires earlier.input.timestamp == later.input.timestamp
    requires |later.outputs| > 0 && later.outputs[0].address == pk
    ensures FromSelfSpend(later, pk, [earlier, later]) == Success(later.outputs[0].amount)
  {
    ChangeFirst(later, pk, [earlier, later]);
    CreditsTwo(earlier, later, pk, later.input.timestamp);
  }

  /**
   Two self-spends with the same timestamp in one block: the replay starts
   from the change of the later one in flattened order, whatever the earlier
   one left and whatever the cache holds.
   */
  lemma EqualTimestampsLastWins(w: Wallet, earlier: Transaction, later: Transaction)
    requires earlier.input.address == w.publicKey && later.input.address == w.publicKey
    requires earlier.input.timestamp == later.input.timestamp
    requires |later.outputs| > 0 && later.outputs[0].address == w.publicKey
    ensures CalculateBalance(w, Chain.Blockchain([Genesis, Carrying([earlier, later])]))
            == Success(later.outputs[0].amount)
  {
    ReplayFromLaterOfTwo(w, earlier, later);
    ChangeOnlyAtEqualTimes(earlier, later, w.publicKey);
  }

  /** The history of the double-count example: one credit of 50 to alice, no spend by alice. */
  lemma IncomingOnly()
    ensures !HasSelfSpend(Flatten([Genesis, Carrying([Tx("bob", 1, [Output(50, "alice"), Output(950, "bob")])])]), "alice")
    ensures Credits(Flatten([Genesis, Carrying([Tx("bob", 1, [Output(50, "alice"), Output(950, "bob")])])]), "alice", 0) == 50
  {
    var t := Tx("bob", 1, [Output(50, "alice"), Output(950, "bob")]);
    FlattenOne([t]);
    CreditsOne(t, "alice", 0);
    AmountToTwo(Output(50, "alice"), Output(950, "bob"), "alice");
  }

  /**
   The double count as written: a wallet starting at 500 with one incoming
   credit of 50 and no spend of its own asks to send 560 and is refused
   against 550; asking again for the same 560 succeeds against 600.
   */
  lemma CachedReplayAcceptsOverspend(ops: TransactionOps)
    ensures var bc := Chain.Blockchain([Genesis, Carrying([Tx("bob", 1, [Output(50, "alice"), Output(950, "bob")])])]);
            var first := CreateTransaction(ops, NewWallet(500, "alice"), "carol", 560, bc, map[]);
            var second := CreateTransaction(ops, first.wallet, "carol", 560, bc, first.pool);
            && first.result == Failure(AmountExceedsBalance(560, 550))
            && second.wallet.balance == 600
            && second.result.Success?
  {
    IncomingOnly();
  }

  /** The same two requests against the corrected replay are both refused against 550. */
  lemma CorrectedReplayRefusesOverspend(ops: TransactionOps)
    ensures var bc := Chain.Blockchain([Genesis, Carrying([Tx("bob", 1, [Output(50, "alice"), Output(950, "bob")])])]);
            var first := CorrectedCreateTransaction(ops, 500, NewWallet(500, "alice"), "carol", 560, bc, map[]);
            var second := CorrectedCreateTransaction(ops, 500, first.wallet, "carol", 560, bc, first.pool);
            && first.result == Failure(AmountExceedsBalance(560, 550))
            && second.result == Failure(AmountExceedsBalance(560, 550))
  {
    IncomingOnly();
  }
}
