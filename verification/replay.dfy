/**
 The pieces of balance-by-replay: flattening the chain's transactions, the
 self-spend filter, the max-by-timestamp reduce that picks the most recent
 self-spend, and the sum of credits received after a given time.
 */
module Replay {
  import opened Transactions
  import opened Blocks

  /** All transactions of all blocks, in block order and then intra-block order. */
  function Flatten(chain: seq<Block>): seq<Transaction>
  {
    if |chain| == 0 then []
    else Flatten(chain[..|chain| - 1]) + chain[|chain| - 1].data
  }

  /** Flattening distributes over concatenation of chains. */
  lemma {:induction false} FlattenAppend(c1: seq<Block>, c2: seq<Block>)
    ensures Flatten(c1 + c2) == Flatten(c1) + Flatten(c2)
    decreases |c2|
  {
    if |c2| == 0 {
      assert c1 + c2 == c1;
    } else {
      var n := |c2|;
      assert (c1 + c2)[..|c1 + c2| - 1] == c1 + c2[..n - 1];
      assert (c1 + c2)[|c1 + c2| - 1] == c2[n - 1];
      FlattenAppend(c1, c2[..n - 1]);
    }
  }

  /**
   Transaction `j` of block `i` sits in the flattened sequence right after the
   transactions of blocks `0..i-1`: block order first, intra-block order second.
   */
  lemma FlattenOrder(chain: seq<Block>, i: int, j: int)
    requires 0 <= i < |chain| && 0 <= j < |chain[i].data|
    ensures |Flatten(chain[..i])| + j < |Flatten(chain)|
    ensures Flatten(chain)[|Flatten(chain[..i])| + j] == chain[i].data[j]
  {
    assert chain == chain[..i] + ([chain[i]] + chain[i + 1..]);
    FlattenAppend(chain[..i], [chain[i]] + chain[i + 1..]);
    FlattenAppend([chain[i]], chain[i + 1..]);
    assert [chain[i]][..0] == [];
    assert Flatten([chain[i]]) == chain[i].data;
  }

  /** Every flattened transaction comes from some block, and every block's transactions are flattened. */
  lemma {:induction false} FlattenMembership(chain: seq<Block>, t: Transaction)
    ensures t in Flatten(chain) <==> exists i :: 0 <= i < |chain| && t in chain[i].data
    decreases |chain|
  {
    if |chain| > 0 {
      var n := |chain|;
      FlattenMembership(chain[..n - 1], t);
      assert forall i :: 0 <= i < n - 1 ==> chain[..n - 1][i] == chain[i];
    }
  }

  /** The wallet's own spends: transactions whose input is signed by `pk`, in flattened order. */
  function SelfSpends(txs: seq<Transaction>, pk: Address): (r: seq<Transaction>)
    ensures |r| <= |txs|
    ensures forall i :: 0 <= i < |r| ==> r[i].input.address == pk
  {
    if |txs| == 0 then []
    else
      var init := SelfSpends(txs[..|txs| - 1], pk);
      var last := txs[|txs| - 1];
      if last.input.address == pk then init + [last] else init
  }

  /** The filter keeps exactly the transactions of `txs` signed by `pk`. */
  lemma {:induction false} SelfSpendsMembers(txs: seq<Transaction>, pk: Address)
    ensures forall t :: t in SelfSpends(txs, pk) <==> t in txs && t.input.address == pk
    decreases |txs|
  {
    if |txs| > 0 {
      var n := |txs|;
      SelfSpendsMembers(txs[..n - 1], pk);
      assert txs == txs[..n - 1] + [txs[n - 1]];
    }
  }

  /** Some transaction of `txs` spends from `pk`. */
  ghost predicate HasSelfSpend(txs: seq<Transaction>, pk: Address) {
    exists k :: 0 <= k < |txs| && txs[k].input.address == pk
  }

  /**
   The reduce `(prev, cur) => prev.ts > cur.ts ? prev : cur` over a non-empty
   sequence, as the index of the element it keeps: a maximal timestamp, and
   the last one on ties because `cur` wins unless `prev` is strictly later.
   */
  function MostRecentIndex(s: seq<Transaction>): (r: nat)
    requires |s| > 0
    ensures r < |s|
    ensures forall j :: 0 <= j < |s| ==> s[j].input.timestamp <= s[r].input.timestamp
    ensures forall j :: r < j < |s| ==> s[j].input.timestamp < s[r].input.timestamp
  {
    if |s| == 1 then 0
    else
      var p := MostRecentIndex(s[..|s| - 1]);
      if s[p].input.timestamp > s[|s| - 1].input.timestamp then p else |s| - 1
  }

  /** The self-spend the balance replay starts from. */
  function ChosenSelfSpend(txs: seq<Transaction>, pk: Address): Transaction
    requires |SelfSpends(txs, pk)| > 0
  {
    var spends := SelfSpends(txs, pk);
    spends[MostRecentIndex(spends)]
  }

  /**
   Position `k` of the flattened history holds the most recent self-spend: it
   spends from `pk`, no self-spend is later, and every self-spend after it in
   flattened order is strictly earlier in time.
   */
  ghost predicate IsLatestSelfSpend(txs: seq<Transaction>, pk: Address, k: int) {
    && 0 <= k < |txs|
    && txs[k].input.address == pk
    && (forall j :: 0 <= j < |txs| && txs[j].input.address == pk ==>
          txs[j].input.timestamp <= txs[k].input.timestamp)
    && (forall j :: k < j < |txs| && txs[j].input.address == pk ==>
          txs[j].input.timestamp < txs[k].input.timestamp)
  }

  /** The self-spends exist exactly when the filter keeps something. */
  lemma SelfSpendsNonEmpty(txs: seq<Transaction>, pk: Address)
    ensures |SelfSpends(txs, pk)| > 0 <==> HasSelfSpend(txs, pk)
  {
    var spends := SelfSpends(txs, pk);
    SelfSpendsMembers(txs, pk);
    if HasSelfSpend(txs, pk) {
      var k :| 0 <= k < |txs| && txs[k].input.address == pk;
      assert txs[k] in spends;
    }
    if |spends| > 0 {
      assert spends[0] in txs;
      var k :| 0 <= k < |txs| && txs[k] == spends[0];
      assert txs[k].input.address == pk;
    }
  }

  /** At most one position satisfies `IsLatestSelfSpend`. */
  lemma LatestSelfSpendUnique(txs: seq<Transaction>, pk: Address, k1: int, k2: int)
    requires IsLatestSelfSpend(txs, pk, k1) && IsLatestSelfSpend(txs, pk, k2)
    ensures k1 == k2
  {
  }

  /** A later transaction that is not a self-spend keeps the latest self-spend where it was. */
  lemma LatestPastOtherSpend(txs: seq<Transaction>, pk: Address, k: int)
    requires |txs| > 0 && txs[|txs| - 1].input.address != pk
    requires IsLatestSelfSpend(txs[..|txs| - 1], pk, k)
    ensures IsLatestSelfSpend(txs, pk, k)
  {
    assert forall j :: 0 <= j < |txs| - 1 ==> txs[..|txs| - 1][j] == txs[j];
  }

  /** A later self-spend stamped strictly earlier keeps the latest self-spend where it was. */
  lemma LatestPastEarlierSelfSpend(txs: seq<Transaction>, pk: Address, k: int)
    requires |txs| > 0 && txs[|txs| - 1].input.address == pk
    requires IsLatestSelfSpend(txs[..|txs| - 1], pk, k)
    requires txs[k].input.timestamp > txs[|txs| - 1].input.timestamp
    ensures IsLatestSelfSpend(txs, pk, k)
  {
    assert forall j :: 0 <= j < |txs| - 1 ==> txs[..|txs| - 1][j] == txs[j];
  }

  /** A final self-spend stamped no earlier than every other self-spend is the latest one. */
  lemma LatestAtEnd(txs: seq<Transaction>, pk: Address)
    requires |txs| > 0 && txs[|txs| - 1].input.address == pk
    requires forall j :: 0 <= j < |txs| - 1 && txs[j].input.address == pk ==>
               txs[j].input.timestamp <= txs[|txs| - 1].input.timestamp
    ensures IsLatestSelfSpend(txs, pk, |txs| - 1)
  {
  }

  /** A final self-spend stamped no earlier than the latest self-spend before it becomes the latest. */
  lemma LatestAtEndAfter(txs: seq<Transaction>, pk: Address, k0: nat)
    requires |txs| > 0 && txs[|txs| - 1].input.address == pk
    requires IsLatestSelfSpend(txs[..|txs| - 1], pk, k0)
    requires txs[k0].input.timestamp <= txs[|txs| - 1].input.timestamp
    ensures IsLatestSelfSpend(txs, pk, |txs| - 1)
  {
    forall j | 0 <= j < |txs| - 1 && txs[j].input.address == pk
      ensures txs[j].input.timestamp <= txs[|txs| - 1].input.timestamp
    {
      assert txs[..|txs| - 1][j] == txs[j];
    }
    LatestAtEnd(txs, pk);
  }

  /** The filter on a history extended by one transaction. */
  lemma SelfSpendsSnoc(txs: seq<Transaction>, pk: Address)
    requires |txs| > 0
    ensures SelfSpends(txs, pk) ==
      SelfSpends(txs[..|txs| - 1], pk) + (if txs[|txs| - 1].input.address == pk then [txs[|txs| - 1]] else [])
  {
  }

  /** The reduce over self-spends extended by one self-spend `t`. */
  lemma MostRecentSnoc(si: seq<Transaction>, t: Transaction)
    requires |si| > 0
    ensures MostRecentIndex(si + [t]) ==
      (if si[MostRecentIndex(si)].input.timestamp > t.input.timestamp then MostRecentIndex(si) else |si|)
  {
    assert (si + [t])[..|si|] == si;
  }

  /** One step of the reduce over the prefixes of `s`. */
  lemma MostRecentStep(s: seq<Transaction>, i: int)
    requires 1 <= i < |s|
    ensures MostRecentIndex(s[..i + 1]) ==
      (if s[MostRecentIndex(s[..i])].input.timestamp > s[i].input.timestamp then MostRecentIndex(s[..i]) else i)
  {
    MostRecentSnoc(s[..i], s[i]);
    assert s[..i + 1] == s[..i] + [s[i]];
  }

  /**
   Filtering then reducing picks the transaction at the position that
   `IsLatestSelfSpend` describes (unique by `LatestSelfSpendUnique`).
   */
  lemma {:induction false} ChosenIsLatestSelfSpend(txs: seq<Transaction>, pk: Address) returns (k: nat)
    requires HasSelfSpend(txs, pk)
    ensures |SelfSpends(txs, pk)| > 0
    ensures IsLatestSelfSpend(txs, pk, k) && txs[k] == ChosenSelfSpend(txs, pk)
    decreases |txs|
  {
    var n := |txs|;
    if txs[n - 1].input.address != pk {
      SelfSpendBeforeOther(txs, pk);
      var k0 := ChosenIsLatestSelfSpend(txs[..n - 1], pk);
      ChosenPastOtherSpend(txs, pk, k0);
      k := k0;
    } else if !HasSelfSpend(txs[..n - 1], pk) {
      LatestAfterNoSelfSpend(txs, pk);
      k := n - 1;
    } else {
      var k0 := ChosenIsLatestSelfSpend(txs[..n - 1], pk);
      k := ChosenAfterSelfSpend(txs, pk, k0);
    }
  }

  /** A self-spend in a history that ends with someone else's transaction lies before that end. */
  lemma SelfSpendBeforeOther(txs: seq<Transaction>, pk: Address)
    requires HasSelfSpend(txs, pk) && txs[|txs| - 1].input.address != pk
    ensures HasSelfSpend(txs[..|txs| - 1], pk)
  {
    var k0 :| 0 <= k0 < |txs| && txs[k0].input.address == pk;
    assert txs[..|txs| - 1][k0].input.address == pk;
  }

  /** Someone else's transaction at the end leaves the latest self-spend, and the chosen one, unchanged. */
  lemma ChosenPastOtherSpend(txs: seq<Transaction>, pk: Address, k0: nat)
    requires |txs| > 0 && txs[|txs| - 1].input.address != pk
    requires |SelfSpends(txs[..|txs| - 1], pk)| > 0
    requires IsLatestSelfSpend(txs[..|txs| - 1], pk, k0)
    requires txs[k0] == ChosenSelfSpend(txs[..|txs| - 1], pk)
    ensures |SelfSpends(txs, pk)| > 0
    ensures IsLatestSelfSpend(txs, pk, k0) && txs[k0] == ChosenSelfSpend(txs, pk)
  {
    SelfSpendsSnoc(txs, pk);
    LatestPastOtherSpend(txs, pk, k0);
  }

  /** A first self-spend at the end of the history is the latest one and the one the reduce keeps. */
  lemma LatestAfterNoSelfSpend(txs: seq<Transaction>, pk: Address)
    requires |txs| > 0 && txs[|txs| - 1].input.address == pk
    requires !HasSelfSpend(txs[..|txs| - 1], pk)
    ensures |SelfSpends(txs, pk)| > 0
    ensures IsLatestSelfSpend(txs, pk, |txs| - 1) && txs[|txs| - 1] == ChosenSelfSpend(txs, pk)
  {
    var init := txs[..|txs| - 1];
    SelfSpendsSnoc(txs, pk);
    SelfSpendsNonEmpty(init, pk);
    assert SelfSpends(txs, pk) == [txs[|txs| - 1]];
    forall j | 0 <= j < |txs| - 1
      ensures txs[j].input.address != pk
    {
      assert init[j] == txs[j];
    }
    LatestAtEnd(txs, pk);
  }

  /** One more self-spend after a history whose latest self-spend is at `k0`. */
  lemma ChosenAfterSelfSpend(txs: seq<Transaction>, pk: Address, k0: nat) returns (k: nat)
    requires |txs| > 0 && txs[|txs| - 1].input.address == pk
    requires HasSelfSpend(txs[..|txs| - 1], pk)
    requires |SelfSpends(txs[..|txs| - 1], pk)| > 0
    requires IsLatestSelfSpend(txs[..|txs| - 1], pk, k0)
    requires txs[k0] == ChosenSelfSpend(txs[..|txs| - 1], pk)
    ensures |SelfSpends(txs, pk)| > 0
    ensures IsLatestSelfSpend(txs, pk, k) && txs[k] == ChosenSelfSpend(txs, pk)
  {
    var n := |txs|;
    var t := txs[n - 1];
    var si := SelfSpends(txs[..n - 1], pk);
    SelfSpendsSnoc(txs, pk);
    assert SelfSpends(txs, pk) == si + [t];
    MostRecentSnoc(si, t);
    var p := MostRecentIndex(si);
    assert si[p] == txs[k0];
    if txs[k0].input.timestamp > t.input.timestamp {
      assert MostRecentIndex(si + [t]) == p;
      assert (si + [t])[p] == si[p];
      LatestPastEarlierSelfSpend(txs, pk, k0);
      k := k0;
    } else {
      assert MostRecentIndex(si + [t]) == |si|;
      LatestAtEndAfter(txs, pk, k0);
      k := n - 1;
    }
  }

  /** Credits to `pk`: every output to `pk` of every transaction stamped strictly after `after`. */
  function Credits(txs: seq<Transaction>, pk: Address, after: int): int
  {
    if |txs| == 0 then 0
    else
      Credits(txs[..|txs| - 1], pk, after)
      + (if txs[|txs| - 1].input.timestamp > after then AmountTo(txs[|txs| - 1].outputs, pk) else 0)
  }

  /** Credits add up over concatenated histories. */
  lemma {:induction false} CreditsAppend(a: seq<Transaction>, b: seq<Transaction>, pk: Address, after: int)
    ensures Credits(a + b, pk, after) == Credits(a, pk, after) + Credits(b, pk, after)
    decreases |b|
  {
    if |b| == 0 {
      assert a + b == a;
    } else {
      assert (a + b)[..|a + b| - 1] == a + b[..|b| - 1];
      assert (a + b)[|a + b| - 1] == b[|b| - 1];
      CreditsAppend(a, b[..|b| - 1], pk, after);
    }
  }

  /**
   A transaction stamped no later than `after` contributes nothing: removing
   it leaves the credits unchanged. Applied to the chosen self-spend, whose
   timestamp is the start time, its change output is never counted twice.
   */
  lemma CreditsSkipEarlier(txs: seq<Transaction>, pk: Address, after: int, k: int)
    requires 0 <= k < |txs| && txs[k].input.timestamp <= after
    ensures Credits(txs, pk, after) == Credits(txs[..k] + txs[k + 1..], pk, after)
  {
    assert txs == txs[..k] + ([txs[k]] + txs[k + 1..]);
    CreditsAppend(txs[..k], [txs[k]] + txs[k + 1..], pk, after);
    CreditsAppend([txs[k]], txs[k + 1..], pk, after);
    CreditsAppend(txs[..k], txs[k + 1..], pk, after);
    assert [txs[k]][..0] == [];
  }
}
