/**
 The wallet: a public key, a cached balance and an address; balance-by-replay
 over the blockchain; and issuing or amending the wallet's pending
 transaction in the pool. Key generation and signing are left to the key
 collaborator: the public key is an opaque string handed in by the caller.
 */
module Wallets {
  import opened Wrappers
  import opened Transactions
  import opened Blocks
  import opened Replay
  import Chain

  datatype Wallet = Wallet(balance: int, publicKey: Address, address: string)

  /** The reserved address of the issuer wallet that pays mining rewards. */
  const BLOCKCHAIN_WALLET_ADDRESS: string := "blockchain-wallet"

  /** A fresh user wallet: the starting balance and no address yet. */
  function NewWallet(initialBalance: int, publicKey: Address): (w: Wallet)
    ensures w.balance == initialBalance
    ensures w.publicKey == publicKey
    ensures w.address == ""
  {
    Wallet(initialBalance, publicKey, "")
  }

  /** The issuer wallet: built like a user wallet, then given the reserved address. */
  function BlockchainWallet(initialBalance: int, publicKey: Address): (w: Wallet)
    ensures w.balance == initialBalance
    ensures w.publicKey == publicKey
    ensures w.address == BLOCKCHAIN_WALLET_ADDRESS
  {
    NewWallet(initialBalance, publicKey).(address := BLOCKCHAIN_WALLET_ADDRESS)
  }

  /** The issuer wallet and a user wallet on the same key differ in their address and nothing else. */
  lemma BlockchainWalletDiffersOnlyInAddress(initialBalance: int, publicKey: Address)
    ensures BlockchainWallet(initialBalance, publicKey) != NewWallet(initialBalance, publicKey)
    ensures BlockchainWallet(initialBalance, publicKey).(address := "") == NewWallet(initialBalance, publicKey)
  {
  }

  datatype WalletError =
    | AmountExceedsBalance(amount: int, balance: int)
      /** The chosen self-spend has no change output back to the wallet. */
    | CorruptLedger

  /** Every latest-self-spend position holds the transaction the filter and reduce choose. */
  lemma LatestSelfSpendIsChosen(txs: seq<Transaction>, pk: Address)
    ensures forall k | IsLatestSelfSpend(txs, pk, k) ::
      |SelfSpends(txs, pk)| > 0 && txs[k] == ChosenSelfSpend(txs, pk)
  {
    forall k | IsLatestSelfSpend(txs, pk, k)
      ensures |SelfSpends(txs, pk)| > 0 && txs[k] == ChosenSelfSpend(txs, pk)
    {
      var k0 := ChosenIsLatestSelfSpend(txs, pk);
      LatestSelfSpendUnique(txs, pk, k, k0);
    }
  }

  /**
   The replay itself, from starting balance `base` for key `pk` over the
   flattened history `txs`: the most recent self-spend's change when there is
   a self-spend, else `base`, plus the credits stamped after the start time.
   */
  function Replayed(base: int, pk: Address, txs: seq<Transaction>): (r: Result<int, WalletError>)
    ensures r.Failure? ==> r.error == CorruptLedger && |SelfSpends(txs, pk)| > 0
  {
    if |SelfSpends(txs, pk)| > 0 then FromSelfSpend(ChosenSelfSpend(txs, pk), pk, txs)
    else Success(base + Credits(txs, pk, 0))
  }

  /**
   The replay started from self-spend `spend`: its change output to `pk` plus
   every credit stamped strictly after it, or a corrupt ledger when it has no
   change output.
   */
  function FromSelfSpend(spend: Transaction, pk: Address, txs: seq<Transaction>): (r: Result<int, WalletError>)
    ensures r.Failure? ==> r.error == CorruptLedger
  {
    var change := FindOutput(spend.outputs, pk);
    if change.None? then Failure(CorruptLedger)
    else Success(change.value.amount + Credits(txs, pk, spend.input.timestamp))
  }

  /** The replay from a self-spend fails exactly when the self-spend pays nothing back to `pk`. */
  lemma FromSelfSpendFails(spend: Transaction, pk: Address, txs: seq<Transaction>)
    ensures FromSelfSpend(spend, pk, txs).Failure? <==>
      forall i :: 0 <= i < |spend.outputs| ==> spend.outputs[i].address != pk
  {
  }

  /**
   The replay from a self-spend whose first output to `pk` is at position `i`
   starts from that output's amount.
   */
  lemma FromSelfSpendStartsAtChange(spend: Transaction, pk: Address, txs: seq<Transaction>, i: int)
    requires IsFirstOutputTo(spend.outputs, pk, i)
    ensures FromSelfSpend(spend, pk, txs) == Success(spend.outputs[i].amount + Credits(txs, pk, spend.input.timestamp))
  {
    FindOutputIsFirst(spend.outputs, pk, i);
  }

  /**
   The balance by replay. Without a self-spend it is the cached balance plus
   every credit stamped after time 0; the only failure is a corrupt ledger,
   which needs a self-spend. `BalanceFromLatestSelfSpend` gives the value when
   the wallet has spent.
   */
  function CalculateBalance(w: Wallet, bc: Chain.Blockchain): (r: Result<int, WalletError>)
    ensures !HasSelfSpend(Flatten(bc.chain), w.publicKey) ==>
      r == Success(w.balance + Credits(Flatten(bc.chain), w.publicKey, 0))
    ensures r.Failure? ==> r.error == CorruptLedger && HasSelfSpend(Flatten(bc.chain), w.publicKey)
  {
    SelfSpendsNonEmpty(Flatten(bc.chain), w.publicKey);
    Replayed(w.balance, w.publicKey, Flatten(bc.chain))
  }

  /**
   With the most recent self-spend at position `k` of the flattened history,
   the balance is the replay started from that self-spend: its change plus
   every credit stamped strictly after it, or a corrupt ledger.
   */
  lemma BalanceFromLatestSelfSpend(w: Wallet, bc: Chain.Blockchain, k: int)
    requires IsLatestSelfSpend(Flatten(bc.chain), w.publicKey, k)
    ensures CalculateBalance(w, bc) == FromSelfSpend(Flatten(bc.chain)[k], w.publicKey, Flatten(bc.chain))
  {
    LatestSelfSpendIsChosen(Flatten(bc.chain), w.publicKey);
  }

  /** Once the wallet has spent, the cached balance plays no part in the replay. */
  lemma CacheIgnoredAfterSelfSpend(w: Wallet, bc: Chain.Blockchain, cached: int)
    requires HasSelfSpend(Flatten(bc.chain), w.publicKey)
    ensures CalculateBalance(w.(balance := cached), bc) == CalculateBalance(w, bc)
  {
    SelfSpendsNonEmpty(Flatten(bc.chain), w.publicKey);
    assert CalculateBalance(w, bc) == Replayed(w.balance, w.publicKey, Flatten(bc.chain));
    assert CalculateBalance(w.(balance := cached), bc) == Replayed(cached, w.publicKey, Flatten(bc.chain));
  }

  /** The Transaction collaborator: `Transaction.newTransaction` and `transaction.update`. */
  datatype TransactionOps = TransactionOps(
    newTransaction: (Wallet, Address, int) -> Transaction,
    update: (Transaction, Wallet, Address, int) -> Transaction)

  /** The pending-transaction pool: at most one transaction per sender. */
  type Pool = map<Address, Transaction>

  /** The wallet and pool after an issuance attempt, with its transaction or error. */
  datatype Issued = Issued(wallet: Wallet, pool: Pool, result: Result<Transaction, WalletError>)

  /**
   Issuing against an already computed balance: the balance is stored in the
   wallet first; a spend above it is refused with the pool untouched;
   otherwise the wallet's pending transaction is amended in place, or a new
   one is created and added to the pool.
   */
  function IssueWithBalance(ops: TransactionOps, w: Wallet, recipient: Address, amount: int,
                            pool: Pool, computed: Result<int, WalletError>): (r: Issued)
    ensures r.wallet.publicKey == w.publicKey && r.wallet.address == w.address
    ensures computed.Failure? ==> r == Issued(w, pool, Failure(computed.error))
    ensures computed.Success? ==> r.wallet.balance == computed.value
    ensures r.result.Success? <==> computed.Success? && amount <= computed.value
    ensures computed.Success? && amount > computed.value ==>
      r.result == Failure(AmountExceedsBalance(amount, computed.value))
    ensures r.result.Failure? ==> r.pool == pool
    ensures r.result.Success? ==> r.pool == pool[w.publicKey := r.result.value]
    ensures r.result.Success? && w.publicKey in pool ==>
      r.result.value == ops.update(pool[w.publicKey], r.wallet, recipient, amount) && r.pool.Keys == pool.Keys
    ensures r.result.Success? && w.publicKey !in pool ==>
      r.result.value == ops.newTransaction(r.wallet, recipient, amount) && r.pool.Keys == pool.Keys + {w.publicKey}
  {
    match computed
    case Failure(e) => Issued(w, pool, Failure(e))
    case Success(balance) =>
      var stored := w.(balance := balance);
      if amount > balance then
        Issued(stored, pool, Failure(AmountExceedsBalance(amount, balance)))
      else if w.publicKey in pool then
        var tx := ops.update(pool[w.publicKey], stored, recipient, amount);
        Issued(stored, pool[w.publicKey := tx], Success(tx))
      else
        var tx := ops.newTransaction(stored, recipient, amount);
        Issued(stored, pool[w.publicKey := tx], Success(tx))
  }

  /**
   `createTransaction`: recompute the balance by replay and store it, refuse a
   spend strictly above it, else amend or create the wallet's pending
   transaction. A spend equal to the balance is accepted; a refused spend
   still leaves the recomputed balance in the wallet; other senders' pending
   transactions are never touched.
   */
  function CreateTransaction(ops: TransactionOps, w: Wallet, recipient: Address, amount: int,
                             bc: Chain.Blockchain, pool: Pool): (r: Issued)
    ensures CalculateBalance(w, bc).Failure? ==> r.wallet == w && r.pool == pool && r.result.Failure?
    ensures CalculateBalance(w, bc).Success? ==>
      && r.wallet == w.(balance := CalculateBalance(w, bc).value)
      && (r.result.Failure? <==> amount > CalculateBalance(w, bc).value)
    ensures r.result.Failure? ==> r.pool == pool
    ensures r.result.Success? ==> w.publicKey in r.pool && r.pool[w.publicKey] == r.result.value
    ensures forall a | a in pool && a != w.publicKey :: a in r.pool && r.pool[a] == pool[a]
    ensures r.pool.Keys <= pool.Keys + {w.publicKey}
  {
    IssueWithBalance(ops, w, recipient, amount, pool, CalculateBalance(w, bc))
  }

  /**
   A second issuance before the first is mined amends the pending transaction
   the first one produced: the pool still holds exactly one entry for the wallet.
   */
  lemma SecondIssueAmendsPending(ops: TransactionOps, w: Wallet, bc: Chain.Blockchain, pool: Pool,
                                 r1: Address, a1: int, r2: Address, a2: int)
    requires CreateTransaction(ops, w, r1, a1, bc, pool).result.Success?
    ensures var first := CreateTransaction(ops, w, r1, a1, bc, pool);
            var second := CreateTransaction(ops, first.wallet, r2, a2, bc, first.pool);
            && second.pool.Keys == pool.Keys + {w.publicKey}
            && (second.result.Success? ==>
                  second.result.value == ops.update(first.result.value, second.wallet, r2, a2))
  {
  }

  /**
   As written, a replay without a self-spend starts from the cached balance,
   and `createTransaction` stores its result back into that cache: each
   recomputation adds the same credits again.
   */
  lemma RecomputeRecountsCredits(w: Wallet, bc: Chain.Blockchain)
    requires !HasSelfSpend(Flatten(bc.chain), w.publicKey)
    ensures CalculateBalance(w, bc).Success?
    ensures CalculateBalance(w.(balance := CalculateBalance(w, bc).value), bc)
            == Success(CalculateBalance(w, bc).value + Credits(Flatten(bc.chain), w.publicKey, 0))
  {
  }

  /**
   The corrected replay: without a self-spend it starts from the wallet's
   initial balance instead of the cache, and agrees with `CalculateBalance`
   as soon as the wallet has spent.
   */
  function CorrectedBalance(initialBalance: int, w: Wallet, bc: Chain.Blockchain): (r: Result<int, WalletError>)
    ensures HasSelfSpend(Flatten(bc.chain), w.publicKey) ==> r == CalculateBalance(w, bc)
    ensures !HasSelfSpend(Flatten(bc.chain), w.publicKey) ==>
      r == Success(initialBalance + Credits(Flatten(bc.chain), w.publicKey, 0))
  {
    SelfSpendsNonEmpty(Flatten(bc.chain), w.publicKey);
    Replayed(initialBalance, w.publicKey, Flatten(bc.chain))
  }

  /** `createTransaction` over the corrected replay. */
  function CorrectedCreateTransaction(ops: TransactionOps, initialBalance: int, w: Wallet, recipient: Address,
                                      amount: int, bc: Chain.Blockchain, pool: Pool): (r: Issued)
    ensures CorrectedBalance(initialBalance, w, bc).Success? ==>
      && r.wallet == w.(balance := CorrectedBalance(initialBalance, w, bc).value)
      && (r.result.Failure? <==> amount > CorrectedBalance(initialBalance, w, bc).value)
    ensures CorrectedBalance(initialBalance, r.wallet, bc) == CorrectedBalance(initialBalance, w, bc)
  {
    IssueWithBalance(ops, w, recipient, amount, pool, CorrectedBalance(initialBalance, w, bc))
  }

  /**
   With the corrected replay, issuing again against an unchanged chain sees
   the same balance: the stored balance is a fixed point of recomputation.
   */
  lemma CorrectedIssueIsStable(ops: TransactionOps, initialBalance: int, w: Wallet, bc: Chain.Blockchain,
                               pool: Pool, r1: Address, a1: int, r2: Address, a2: int)
    requires CorrectedBalance(initialBalance, w, bc).Success?
    ensures var first := CorrectedCreateTransaction(ops, initialBalance, w, r1, a1, bc, pool);
            var second := CorrectedCreateTransaction(ops, initialBalance, first.wallet, r2, a2, bc, first.pool);
            second.wallet.balance == first.wallet.balance
  {
    var first := CorrectedCreateTransaction(ops, initialBalance, w, r1, a1, bc, pool);
    assert CorrectedBalance(initialBalance, first.wallet, bc) == CorrectedBalance(initialBalance, w, bc);
  }

  /** The two nested `forEach` loops that collect every block's transactions. */
  method CollectTransactions(chain: seq<Block>) returns (transactions: seq<Transaction>)
    ensures transactions == Flatten(chain)
  {
    transactions := [];
    var i := 0;
    while i < |chain|
      invariant 0 <= i <= |chain|
      invariant transactions == Flatten(chain[..i])
    {
      var data := chain[i].data;
      var j := 0;
      while j < |data|
        invariant 0 <= j <= |data|
        invariant transactions == Flatten(chain[..i]) + data[..j]
      {
        transactions := transactions + [data[j]];
        j := j + 1;
      }
      assert data[..j] == data;
      assert chain[..i + 1][..i] == chain[..i];
      i := i + 1;
    }
    assert chain[..i] == chain;
  }

  /** The `filter` keeping the transactions signed by `pk`. */
  method FilterSelfSpends(transactions: seq<Transaction>, pk: Address) returns (walletInputs: seq<Transaction>)
    ensures walletInputs == SelfSpends(transactions, pk)
  {
    walletInputs := [];
    var i := 0;
    while i < |transactions|
      invariant 0 <= i <= |transactions|
      invariant walletInputs == SelfSpends(transactions[..i], pk)
    {
      assert transactions[..i + 1][..i] == transactions[..i];
      if transactions[i].input.address == pk {
        walletInputs := walletInputs + [transactions[i]];
      }
      i := i + 1;
    }
    assert transactions[..i] == transactions;
  }

  /**
   The `reduce` without an initial value: keep `prev` only when it is strictly
   later. On an empty array such a `reduce` throws, modelled as `None`.
   */
  method ReduceMostRecent(walletInputs: seq<Transaction>) returns (recent: Option<Transaction>)
    ensures recent.None? <==> |walletInputs| == 0
    ensures |walletInputs| > 0 ==> recent == Some(walletInputs[MostRecentIndex(walletInputs)])
  {
    if |walletInputs| == 0 {
      return None;
    }
    var kept := walletInputs[0];
    var i := 1;
    while i < |walletInputs|
      invariant 1 <= i <= |walletInputs|
      invariant kept == walletInputs[MostRecentIndex(walletInputs[..i])]
    {
      MostRecentStep(walletInputs, i);
      if kept.input.timestamp <= walletInputs[i].input.timestamp {
        kept := walletInputs[i];
      }
      i := i + 1;
    }
    assert walletInputs[..i] == walletInputs;
    return Some(kept);
  }

  /** The `find` for the change output; `None` where the original dereferences `undefined`. */
  method FindChange(outputs: seq<Output>, pk: Address) returns (change: Option<Output>)
    ensures change == FindOutput(outputs, pk)
  {
    var k := 0;
    while k < |outputs| && outputs[k].address != pk
      invariant 0 <= k <= |outputs|
      invariant forall m :: 0 <= m < k ==> outputs[m].address != pk
    {
      k := k + 1;
    }
    if k == |outputs| {
      return None;
    }
    FindOutputIsFirst(outputs, pk, k);
    return Some(outputs[k]);
  }

  /** The final `forEach`: add every output to `pk` of every transaction stamped after `startTime`. */
  method AddCredits(balance0: int, transactions: seq<Transaction>, pk: Address, startTime: int)
    returns (balance: int)
    ensures balance == balance0 + Credits(transactions, pk, startTime)
  {
    balance := balance0;
    var i := 0;
    while i < |transactions|
      invariant 0 <= i <= |transactions|
      invariant balance == balance0 + Credits(transactions[..i], pk, startTime)
    {
      var tx := transactions[i];
      assert transactions[..i + 1][..i] == transactions[..i];
      if tx.input.timestamp > startTime {
        var j := 0;
        ghost var before := balance;
        while j < |tx.outputs|
          invariant 0 <= j <= |tx.outputs|
          invariant balance == before + AmountTo(tx.outputs[..j], pk)
        {
          assert tx.outputs[..j + 1][..j] == tx.outputs[..j];
          if tx.outputs[j].address == pk {
            balance := balance + tx.outputs[j].amount;
          }
          j := j + 1;
        }
        assert tx.outputs[..j] == tx.outputs;
      }
      i := i + 1;
    }
    assert transactions[..i] == transactions;
  }

  /** `calculateBalance` as the sequence of loops the original runs. */
  method ReplayBalance(w: Wallet, bc: Chain.Blockchain) returns (r: Result<int, WalletError>)
    ensures r == CalculateBalance(w, bc)
  {
    var transactions := CollectTransactions(bc.chain);
    var walletInputs := FilterSelfSpends(transactions, w.publicKey);
    if |walletInputs| > 0 {
      var recent := ReduceMostRecent(walletInputs);
      r := ReplayFrom(recent.value, w.publicKey, transactions);
    } else {
      var balance := AddCredits(w.balance, transactions, w.publicKey, 0);
      r := Success(balance);
    }
  }

  /** The tail of `calculateBalance` once the most recent self-spend is known. */
  method ReplayFrom(recent: Transaction, pk: Address, transactions: seq<Transaction>)
    returns (r: Result<int, WalletError>)
    ensures r == FromSelfSpend(recent, pk, transactions)
  {
    var change := FindChange(recent.outputs, pk);
    if change.None? {
      return Failure(CorruptLedger);
    }
    var balance := AddCredits(change.value.amount, transactions, pk, recent.input.timestamp);
    r := Success(balance);
  }
}
