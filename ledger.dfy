/**
 * The chain as the action handlers see it, and the record of what a handler
 * did.  A write either yields a transaction hash or is refused with an
 * error; a hash has a receipt that reports success or reversion, or none, or
 * waiting for it fails.  These answers come from an oracle fixed before the
 * handler runs, so that every outcome of the wallet and the node is covered.
 * The record lists chain switches, writes, receipt waits, toasts and
 * refetches in the order the handler performed them.
 */
module Ledger {
  /** The three deployed contracts the application talks to. */
  datatype Contract = BorrowFi | CltToken | BorrowToken

  datatype Arg = Address(contract: Contract) | Amount(value: int)

  /** A contract write: the contract, the function name and the arguments. */
  datatype Request = Request(contract: Contract, functionName: string, args: seq<Arg>)

  /** A thrown error, reduced to its `message`. */
  datatype Failure = Failure(message: string)

  datatype Submission = Submitted(hash: string) | Refused(error: Failure)

  datatype Receipt = Mined(succeeded: bool) | Missing | WaitFailed(error: Failure)

  /**
   * What the wallet answers to a write, what the node reports for a hash, and
   * the text the application's error parser makes of a thrown error.
   */
  datatype Oracle = Oracle(submit: Request -> Submission, receiptOf: string -> Receipt, parseError: Failure -> string)

  datatype Variant = Success | Error

  datatype Effect =
    | SwitchChain(chainId: int)
    | Write(request: Request)
    | AwaitReceipt(hash: string)
    | Toast(message: string, variant: Variant)
    | Refetch

  // ---------------------------------------------------------------------------
  // Reading a record

  function ToastCount(t: seq<Effect>): (n: nat)
    ensures n <= |t|
  {
    if t == [] then 0 else (if t[0].Toast? then 1 else 0) + ToastCount(t[1..])
  }

  function WriteCount(t: seq<Effect>): (n: nat)
    ensures n <= |t|
  {
    if t == [] then 0 else (if t[0].Write? then 1 else 0) + WriteCount(t[1..])
  }

  lemma {:induction false} CountsAppend(a: seq<Effect>, b: seq<Effect>)
    ensures ToastCount(a + b) == ToastCount(a) + ToastCount(b)
    ensures WriteCount(a + b) == WriteCount(a) + WriteCount(b)
  {
    if a != [] {
      assert (a + b)[1..] == a[1..] + b;
      CountsAppend(a[1..], b);
    } else {
      assert a + b == b;
    }
  }

  /** A record with no effect of the write kind. */
  predicate NoWrite(t: seq<Effect>) {
    forall i :: 0 <= i < |t| ==> !t[i].Write?
  }

  lemma {:induction false} NoWriteCount(t: seq<Effect>)
    ensures NoWrite(t) <==> WriteCount(t) == 0
  {
    if t != [] {
      NoWriteCount(t[1..]);
      assert forall i :: 1 <= i < |t| ==> t[i] == t[1..][i - 1];
    }
  }

  /** Every write in the record sends `request`. */
  predicate AllWritesAre(t: seq<Effect>, request: Request) {
    forall i :: 0 <= i < |t| && t[i].Write? ==> t[i].request == request
  }

  /** Exactly one toast, and it reports an error. */
  predicate OneErrorToast(t: seq<Effect>) {
    ToastCount(t) == 1 && forall i :: 0 <= i < |t| && t[i].Toast? ==> t[i].variant == Error
  }

  /** A refetch happens only as the last step, right after a success toast. */
  predicate RefetchLastAfterSuccess(t: seq<Effect>) {
    forall i :: 0 <= i < |t| && t[i].Refetch? ==>
      i == |t| - 1 && i >= 1 && t[i - 1].Toast? && t[i - 1].variant == Success
  }

  /** A success toast comes right after waiting for a receipt that reported success. */
  predicate SuccessAfterConfirmedReceipt(t: seq<Effect>, oracle: Oracle) {
    forall i :: 0 <= i < |t| && t[i].Toast? && t[i].variant == Success ==>
      i >= 1 && t[i - 1].AwaitReceipt? && oracle.receiptOf(t[i - 1].hash) == Mined(true)
  }

  /** A success toast comes right after a write that the wallet accepted with a non-empty hash. */
  predicate SuccessAfterAcceptedWrite(t: seq<Effect>, oracle: Oracle) {
    forall i :: 0 <= i < |t| && t[i].Toast? && t[i].variant == Success ==>
      i >= 1 && t[i - 1].Write? && oracle.submit(t[i - 1].request).Submitted?
      && oracle.submit(t[i - 1].request).hash != ""
  }
}
