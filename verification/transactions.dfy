/**
 The shape of a transaction as the wallet reads it: one signed input and an
 ordered list of outputs. Construction, amendment and signing belong to the
 Transaction collaborator and are not modelled here.
 */
module Transactions {
  import opened Wrappers

  type Address = string

  datatype Output = Output(amount: int, address: Address)

  datatype Input = Input(timestamp: int, amount: int, address: Address, signature: string)

  datatype Transaction = Transaction(id: string, input: Input, outputs: seq<Output>)

  /** `i` is the first position of `outputs` addressed to `who`. */
  ghost predicate IsFirstOutputTo(outputs: seq<Output>, who: Address, i: int) {
    && 0 <= i < |outputs|
    && outputs[i].address == who
    && forall j :: 0 <= j < i ==> outputs[j].address != who
  }

  /**
   The first output addressed to `who`, as `Array.prototype.find` returns it:
   nothing when no output goes to `who`, else an output that does (the first
   one, by `FindOutputIsFirst`).
   */
  function FindOutput(outputs: seq<Output>, who: Address): (r: Option<Output>)
    ensures r.None? <==> forall i :: 0 <= i < |outputs| ==> outputs[i].address != who
    ensures r.Some? ==> r.value.address == who
  {
    if |outputs| == 0 then None
    else if outputs[0].address == who then Some(outputs[0])
    else FindOutput(outputs[1..], who)
  }

  /** The output `FindOutput` returns is the one at the first position addressed to `who`. */
  lemma {:induction false} FindOutputIsFirst(outputs: seq<Output>, who: Address, i: int)
    requires IsFirstOutputTo(outputs, who, i)
    ensures FindOutput(outputs, who) == Some(outputs[i])
    decreases i
  {
    if i > 0 {
      assert outputs[0].address != who;
      assert IsFirstOutputTo(outputs[1..], who, i - 1);
      FindOutputIsFirst(outputs[1..], who, i - 1);
    }
  }

  /** Total amount of the outputs addressed to `who`, summed left to right. */
  function AmountTo(outputs: seq<Output>, who: Address): int
  {
    if |outputs| == 0 then 0
    else
      AmountTo(outputs[..|outputs| - 1], who)
      + (if outputs[|outputs| - 1].address == who then outputs[|outputs| - 1].amount else 0)
  }
}
