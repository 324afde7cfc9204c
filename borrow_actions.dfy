/**
 * The lending actions of src/hooks/useBorrowActions.ts.  Each action switches
 * to Sepolia if needed, validates its amount, writes to the chain (reusing
 * the simulated request when there is one), waits for the receipt, and then
 * shows exactly one toast, followed by a refetch only after a successful
 * receipt.  The class records what an action does; each method is proved to
 * record exactly the trace a pure function describes, and those functions
 * carry the ordering guarantees.
 */
module BorrowActions {
  import opened Wrappers
  import opened Ledger

  /** Chain id of the Sepolia test network. */
  const Sepolia: int := 11155111

  // ---------------------------------------------------------------------------
  // Traces

  /** `ensureSepolia`: a switch request only for a known chain other than Sepolia; its failure is ignored. */
  function SepoliaTrace(chainId: int): (t: seq<Effect>)
    ensures t == [] || t == [SwitchChain(Sepolia)]
    ensures t != [] <==> chainId != 0 && chainId != Sepolia
  {
    if chainId != 0 && chainId != Sepolia then [SwitchChain(Sepolia)] else []
  }

  /** The error, if any, that writing `request` and waiting for its receipt throws. */
  function ConfirmFailure(oracle: Oracle, request: Request, failMessage: string): (thrown: Option<Failure>)
    ensures thrown.None? <==>
      oracle.submit(request).Submitted? && oracle.receiptOf(oracle.submit(request).hash) == Mined(true)
  {
    match oracle.submit(request)
    case Refused(e) => Some(e)
    case Submitted(h) =>
      match oracle.receiptOf(h)
      case Mined(ok) => if ok then None else Some(Failure(failMessage))
      case Missing => Some(Failure(failMessage))
      case WaitFailed(e) => Some(e)
  }

  /** The write, then the receipt wait when the wallet returned a hash. */
  function ConfirmSteps(oracle: Oracle, request: Request): seq<Effect> {
    [Write(request)] + match oracle.submit(request)
      case Submitted(h) => [AwaitReceipt(h)]
      case Refused(_) => []
  }

  /** After the try block: the success toast and a refetch, or the parsed error as the one toast. */
  function SettleSteps(oracle: Oracle, thrown: Option<Failure>, successMessage: string): seq<Effect> {
    match thrown
    case None => [Toast(successMessage, Success), Refetch]
    case Some(e) => [Toast(oracle.parseError(e), Error)]
  }

  /** Every action's shared shape once its amount is accepted. */
  predicate Disciplined(t: seq<Effect>, oracle: Oracle) {
    ToastCount(t) == 1 && RefetchLastAfterSuccess(t) && SuccessAfterConfirmedReceipt(t, oracle)
  }

  /**
   * Write `request`, wait for it and report: one write, one toast, and a
   * success toast and refetch exactly when the receipt reported success.
   */
  function WriteTrace(oracle: Oracle, request: Request, failMessage: string, successMessage: string): (t: seq<Effect>)
    ensures Disciplined(t, oracle)
    ensures WriteCount(t) == 1 && AllWritesAre(t, request)
    ensures Refetch in t <==> ConfirmFailure(oracle, request, failMessage).None?
    ensures Toast(successMessage, Success) in t <==> ConfirmFailure(oracle, request, failMessage).None?
    ensures ConfirmFailure(oracle, request, failMessage).Some? ==> OneErrorToast(t)
  {
    var thrown := ConfirmFailure(oracle, request, failMessage);
    var t := ConfirmSteps(oracle, request) + SettleSteps(oracle, thrown, successMessage);
    WriteTraceFacts(oracle, request, failMessage, successMessage, t);
    t
  }

  lemma WriteTraceFacts(oracle: Oracle, request: Request, failMessage: string, successMessage: string, t: seq<Effect>)
    requires t == ConfirmSteps(oracle, request) + SettleSteps(oracle, ConfirmFailure(oracle, request, failMessage), successMessage)
    ensures Disciplined(t, oracle)
    ensures WriteCount(t) == 1 && AllWritesAre(t, request)
    ensures Refetch in t <==> ConfirmFailure(oracle, request, failMessage).None?
    ensures Toast(successMessage, Success) in t <==> ConfirmFailure(oracle, request, failMessage).None?
    ensures ConfirmFailure(oracle, request, failMessage).Some? ==> OneErrorToast(t)
  {
    var thrown := ConfirmFailure(oracle, request, failMessage);
    var settle := SettleSteps(oracle, thrown, successMessage);
    CountsAppend(ConfirmSteps(oracle, request), settle);
    match oracle.submit(request)
    case Refused(e) =>
      assert t == [Write(request), Toast(oracle.parseError(e), Error)];
    case Submitted(h) =>
      CountsAppend([Write(request)], [AwaitReceipt(h)]);
      if thrown.None? {
        CountsAppend([Toast(successMessage, Success)], [Refetch]);
        assert t == [Write(request), AwaitReceipt(h), Toast(successMessage, Success), Refetch];
      } else {
        assert t == [Write(request), AwaitReceipt(h), Toast(oracle.parseError(thrown.value), Error)];
      }
  }

  /**
   * An action after `ensureSepolia`: a rejected amount (or, for `borrow`, a
   * failed simulation) gives one error toast and no write; otherwise the write
   * trace.
   */
  function GuardedTrace(chainId: int, oracle: Oracle, rejection: Option<string>, request: Request,
                        failMessage: string, successMessage: string): seq<Effect>
  {
    SepoliaTrace(chainId) + ActionBody(oracle, rejection, request, failMessage, successMessage)
  }

  /**
   * Every guarded action shows one toast and refetches only last, after a
   * success toast that follows a confirmed receipt; a rejection writes nothing
   * and shows its own text as the one error toast; an accepted amount writes
   * the request exactly once, after at most a chain switch.
   */
  lemma GuardedGuarantees(chainId: int, oracle: Oracle, rejection: Option<string>, request: Request,
                          failMessage: string, successMessage: string)
    ensures var t := GuardedTrace(chainId, oracle, rejection, request, failMessage, successMessage);
      Disciplined(t, oracle)
      && WriteCount(t) <= 1 && AllWritesAre(t, request)
      && (rejection.Some? ==> NoWrite(t) && OneErrorToast(t) && Toast(rejection.value, Error) in t)
      && (rejection.None? ==> WriteCount(t) == 1)
      && t[..|SepoliaTrace(chainId)|] == SepoliaTrace(chainId)
      && (Refetch in t <==> rejection.None? && ConfirmFailure(oracle, request, failMessage).None?)
      && (rejection.None? && ConfirmFailure(oracle, request, failMessage).Some? ==> OneErrorToast(t))
  {
    var p := SepoliaTrace(chainId);
    var body := ActionBody(oracle, rejection, request, failMessage, successMessage);
    BodyGuarantees(oracle, rejection, request, failMessage, successMessage);
    SwitchPrefix(p, body, oracle, request);
    assert (p + body)[..|p|] == p;
  }

  /** The guarantees of `GuardedGuarantees` for the action without its chain switch. */
  lemma BodyGuarantees(oracle: Oracle, rejection: Option<string>, request: Request,
                       failMessage: string, successMessage: string)
    ensures var t := ActionBody(oracle, rejection, request, failMessage, successMessage);
      Disciplined(t, oracle)
      && WriteCount(t) <= 1 && AllWritesAre(t, request)
      && (rejection.Some? ==> NoWrite(t) && OneErrorToast(t) && Toast(rejection.value, Error) in t)
      && (rejection.None? ==> WriteCount(t) == 1)
      && (Refetch in t <==> rejection.None? && ConfirmFailure(oracle, request, failMessage).None?)
      && (rejection.None? && ConfirmFailure(oracle, request, failMessage).Some? ==> OneErrorToast(t))
  {
    if rejection.Some? {
      var t := [Toast(rejection.value, Error)];
      assert ActionBody(oracle, rejection, request, failMessage, successMessage) == t;
      assert ToastCount(t) == 1 && WriteCount(t) == 0;
    }
  }

  /** The action once the chain is settled: the rejection toast, or the write trace. */
  function ActionBody(oracle: Oracle, rejection: Option<string>, request: Request,
                      failMessage: string, successMessage: string): seq<Effect>
  {
    match rejection
    case Some(m) => [Toast(m, Error)]
    case None => WriteTrace(oracle, request, failMessage, successMessage)
  }

  lemma {:induction false} SwitchesCountNothing(p: seq<Effect>)
    requires forall i :: 0 <= i < |p| ==> p[i].SwitchChain?
    ensures ToastCount(p) == 0 && WriteCount(p) == 0
  {
    if p != [] {
      assert forall i :: 0 <= i < |p| - 1 ==> p[1..][i] == p[i + 1];
      SwitchesCountNothing(p[1..]);
    }
  }

  /** A leading chain switch changes none of the guarantees. */
  lemma SwitchPrefix(p: seq<Effect>, t: seq<Effect>, oracle: Oracle, request: Request)
    requires forall i :: 0 <= i < |p| ==> p[i].SwitchChain?
    ensures ToastCount(p + t) == ToastCount(t) && WriteCount(p + t) == WriteCount(t)
    ensures NoWrite(t) ==> NoWrite(p + t)
    ensures AllWritesAre(t, request) ==> AllWritesAre(p + t, request)
    ensures RefetchLastAfterSuccess(t) ==> RefetchLastAfterSuccess(p + t)
    ensures SuccessAfterConfirmedReceipt(t, oracle) ==> SuccessAfterConfirmedReceipt(p + t, oracle)
    ensures OneErrorToast(t) ==> OneErrorToast(p + t)
    ensures forall e :: e in t ==> e in p + t
    ensures forall e :: e in p + t && !e.SwitchChain? ==> e in t
  {
    CountsAppend(p, t);
    SwitchesCountNothing(p);
    var s := p + t;
    assert forall i :: |p| <= i < |s| ==> s[i] == t[i - |p|];
    assert forall i :: 0 <= i < |p| ==> s[i] == p[i];
  }

  function BorrowRequest(amt: int, simulated: Option<Request>): Request {
    simulated.GetOr(Request(BorrowFi, "borrow", [Amount(amt)]))
  }

  function BorrowRejection(amt: int, simulateBorrowError: Option<string>): Option<string> {
    if amt <= 0 then Some("Enter a valid borrow amount")
    else simulateBorrowError
  }

  /** `borrow`: the simulated request (or a plain `borrow(amt)`) unless the amount or the simulation is bad. */
  function BorrowTrace(chainId: int, oracle: Oracle, amt: int, simulated: Option<Request>,
                       simulateBorrowError: Option<string>): (t: seq<Effect>)
    ensures Disciplined(t, oracle) && WriteCount(t) <= 1
    ensures amt <= 0 ==> NoWrite(t) && OneErrorToast(t) && Toast("Enter a valid borrow amount", Error) in t
    ensures amt > 0 && simulateBorrowError.Some? ==>
      NoWrite(t) && OneErrorToast(t) && Toast(simulateBorrowError.value, Error) in t
    ensures t[..|SepoliaTrace(chainId)|] == SepoliaTrace(chainId)
    ensures AllWritesAre(t, BorrowRequest(amt, simulated))
    ensures amt > 0 && simulateBorrowError.None? ==> WriteCount(t) == 1
    ensures amt > 0 && simulateBorrowError.None? && simulated.None? ==>
      AllWritesAre(t, Request(BorrowFi, "borrow", [Amount(amt)])) && WriteCount(t) == 1
    ensures Refetch in t <==>
      amt > 0 && simulateBorrowError.None? && ConfirmFailure(oracle, BorrowRequest(amt, simulated), "Borrow failed").None?
  {
    var t := GuardedTrace(chainId, oracle, BorrowRejection(amt, simulateBorrowError), BorrowRequest(amt, simulated),
        "Borrow failed", "Borrow successful");
    GuardedGuarantees(chainId, oracle, BorrowRejection(amt, simulateBorrowError), BorrowRequest(amt, simulated),
        "Borrow failed", "Borrow successful");
    t
  }

  function AmountRejection(amt: int, message: string): Option<string> {
    if amt <= 0 then Some(message) else None
  }

  /** `repay`: the simulated request or a plain `repay(amt)`. */
  function RepayTrace(chainId: int, oracle: Oracle, amt: int, simulated: Option<Request>): (t: seq<Effect>)
    ensures Disciplined(t, oracle) && WriteCount(t) <= 1
    ensures amt <= 0 <==> NoWrite(t)
    ensures amt <= 0 ==> OneErrorToast(t) && Toast("Enter a valid repay amount", Error) in t
    ensures t[..|SepoliaTrace(chainId)|] == SepoliaTrace(chainId)
    ensures AllWritesAre(t, simulated.GetOr(Request(BorrowFi, "repay", [Amount(amt)])))
    ensures amt > 0 ==> WriteCount(t) == 1
    ensures Refetch in t <==>
      amt > 0 && ConfirmFailure(oracle, simulated.GetOr(Request(BorrowFi, "repay", [Amount(amt)])), "Repay failed").None?
  {
    var t := GuardedTrace(chainId, oracle, AmountRejection(amt, "Enter a valid repay amount"),
        simulated.GetOr(Request(BorrowFi, "repay", [Amount(amt)])), "Repay failed", "Repay successful");
    GuardedGuarantees(chainId, oracle, AmountRejection(amt, "Enter a valid repay amount"),
        simulated.GetOr(Request(BorrowFi, "repay", [Amount(amt)])), "Repay failed", "Repay successful");
    NoWriteCount(t);
    t
  }

  /** The request `repayExact` sends: the simulated one with its arguments replaced by the exact amount. */
  function RepayExactRequest(weiAmount: int, simulated: Option<Request>): (r: Request)
    ensures r.args == [Amount(weiAmount)]
    ensures simulated.Some? ==> r.contract == simulated.value.contract && r.functionName == simulated.value.functionName
    ensures simulated.None? ==> r == Request(BorrowFi, "repay", [Amount(weiAmount)])
  {
    match simulated
    case Some(req) => req.(args := [Amount(weiAmount)])
    case None => Request(BorrowFi, "repay", [Amount(weiAmount)])
  }

  /** `repayExact`: repays exactly `weiAmount`, whatever amount was simulated. */
  function RepayExactTrace(chainId: int, oracle: Oracle, weiAmount: int, simulated: Option<Request>): (t: seq<Effect>)
    ensures Disciplined(t, oracle) && WriteCount(t) <= 1
    ensures weiAmount <= 0 ==> NoWrite(t) && OneErrorToast(t)
    ensures forall i :: 0 <= i < |t| && t[i].Write? ==> t[i].request.args == [Amount(weiAmount)]
    ensures Refetch in t <==>
      weiAmount > 0 && ConfirmFailure(oracle, RepayExactRequest(weiAmount, simulated), "Repay failed").None?
  {
    var request := RepayExactRequest(weiAmount, simulated);
    var t := GuardedTrace(chainId, oracle, AmountRejection(weiAmount, "Enter a valid repay amount"),
        request, "Repay failed", "Repay successful");
    GuardedGuarantees(chainId, oracle, AmountRejection(weiAmount, "Enter a valid repay amount"),
        request, "Repay failed", "Repay successful");
    WritesCarry(t, request);
    t
  }

  /** Under `AllWritesAre`, every write carries the request's contract, function and arguments. */
  lemma WritesCarry(t: seq<Effect>, request: Request)
    requires AllWritesAre(t, request)
    ensures forall i :: 0 <= i < |t| && t[i].Write? ==>
      t[i].request.contract == request.contract && t[i].request.functionName == request.functionName
      && t[i].request.args == request.args
  {
  }

  /** The approval `approveRepay` sends: the borrow token allows the lending contract exactly `weiAmount`. */
  function ApprovalRequest(weiAmount: int): Request {
    Request(BorrowToken, "approve", [Address(BorrowFi), Amount(weiAmount)])
  }

  /** `approveRepay`: approves exactly `weiAmount` to the lending contract and repays nothing. */
  function ApproveRepayTrace(chainId: int, oracle: Oracle, weiAmount: int): (t: seq<Effect>)
    ensures Disciplined(t, oracle) && WriteCount(t) <= 1
    ensures weiAmount <= 0 ==> NoWrite(t) && OneErrorToast(t)
    ensures forall i :: 0 <= i < |t| && t[i].Write? ==>
      t[i].request.contract == BorrowToken && t[i].request.functionName == "approve"
      && t[i].request.args == [Address(BorrowFi), Amount(weiAmount)]
    ensures Refetch in t <==> weiAmount > 0 && ConfirmFailure(oracle, ApprovalRequest(weiAmount), "Approval failed").None?
  {
    var request := ApprovalRequest(weiAmount);
    var t := GuardedTrace(chainId, oracle, AmountRejection(weiAmount, "Enter a valid repay amount"),
        request, "Approval failed", "BFI approval successful");
    GuardedGuarantees(chainId, oracle, AmountRejection(weiAmount, "Enter a valid repay amount"),
        request, "Approval failed", "BFI approval successful");
    WritesCarry(t, request);
    t
  }

  /** `withdraw`: the simulated request or a plain `withdrawCollateral(amt)`. */
  function WithdrawTrace(chainId: int, oracle: Oracle, amt: int, simulated: Option<Request>): (t: seq<Effect>)
    ensures Disciplined(t, oracle) && WriteCount(t) <= 1
    ensures amt <= 0 ==> NoWrite(t) && OneErrorToast(t) && Toast("Enter a valid withdraw amount", Error) in t
    ensures t[..|SepoliaTrace(chainId)|] == SepoliaTrace(chainId)
    ensures AllWritesAre(t, simulated.GetOr(Request(BorrowFi, "withdrawCollateral", [Amount(amt)])))
    ensures amt > 0 ==> WriteCount(t) == 1
    ensures Refetch in t <==>
      amt > 0 && ConfirmFailure(oracle, simulated.GetOr(Request(BorrowFi, "withdrawCollateral", [Amount(amt)])),
                                "Withdraw failed").None?
  {
    var t := GuardedTrace(chainId, oracle, AmountRejection(amt, "Enter a valid withdraw amount"),
        simulated.GetOr(Request(BorrowFi, "withdrawCollateral", [Amount(amt)])),
        "Withdraw failed", "Withdraw successful");
    GuardedGuarantees(chainId, oracle, AmountRejection(amt, "Enter a valid withdraw amount"),
        simulated.GetOr(Request(BorrowFi, "withdrawCollateral", [Amount(amt)])),
        "Withdraw failed", "Withdraw successful");
    t
  }

  // ---------------------------------------------------------------------------
  // The hook's actions

  class Actions {
    const chainId: int
    const oracle: Oracle
    /** Everything the actions have done so far, oldest first. */
    var effects: seq<Effect>

    constructor(chainId: int, oracle: Oracle)
      ensures this.chainId == chainId && this.oracle == oracle && effects == []
    {
      this.chainId := chainId;
      this.oracle := oracle;
      effects := [];
    }

    method ShowToast(message: string, variant: Variant)
      modifies this
      ensures effects == old(effects) + [Toast(message, variant)]
    {
      effects := effects + [Toast(message, variant)];
    }

    method RefetchAll()
      modifies this
      ensures effects == old(effects) + [Refetch]
    {
      effects := effects + [Refetch];
    }

    method WriteContract(request: Request) returns (s: Submission)
      modifies this
      ensures s == oracle.submit(request)
      ensures effects == old(effects) + [Write(request)]
    {
      effects := effects + [Write(request)];
      s := oracle.submit(request);
    }

    method WaitForReceipt(hash: string) returns (r: Receipt)
      modifies this
      ensures r == oracle.receiptOf(hash)
      ensures effects == old(effects) + [AwaitReceipt(hash)]
    {
      effects := effects + [AwaitReceipt(hash)];
      r := oracle.receiptOf(hash);
    }

    method EnsureSepolia()
      modifies this
      ensures effects == old(effects) + SepoliaTrace(chainId)
    {
      if chainId != 0 && chainId != Sepolia {
        effects := effects + [SwitchChain(Sepolia)];
      }
    }

    /** The body of the try block up to the receipt check; `thrown` is what it throws, if anything. */
    method WriteAndConfirm(request: Request, failMessage: string) returns (thrown: Option<Failure>)
      modifies this
      ensures thrown == ConfirmFailure(oracle, request, failMessage)
      ensures effects == old(effects) + ConfirmSteps(oracle, request)
    {
      var submission := WriteContract(request);
      match submission {
        case Refused(e) =>
          thrown := Some(e);
        case Submitted(h) =>
          var receipt := WaitForReceipt(h);
          if receipt == Mined(true) {
            thrown := None;
          } else if receipt.WaitFailed? {
            thrown := Some(receipt.error);
          } else {
            thrown := Some(Failure(failMessage));
          }
      }
    }

    /** The tail shared by every action: success toast and refetch, or the parsed error. */
    method Settle(thrown: Option<Failure>, successMessage: string)
      modifies this
      ensures effects == old(effects) + SettleSteps(oracle, thrown, successMessage)
    {
      match thrown {
        case None =>
          ShowToast(successMessage, Success);
          RefetchAll();
        case Some(e) =>
          ShowToast(oracle.parseError(e), Error);
      }
    }

    /** Write, wait and report, for an amount already accepted. */
    method WriteAndReport(request: Request, failMessage: string, successMessage: string)
      modifies this
      ensures effects == old(effects) + WriteTrace(oracle, request, failMessage, successMessage)
    {
      var thrown := WriteAndConfirm(request, failMessage);
      Settle(thrown, successMessage);
    }

    method Guarded(rejection: Option<string>, request: Request, failMessage: string, successMessage: string)
      modifies this
      ensures effects == old(effects) + GuardedTrace(chainId, oracle, rejection, request, failMessage, successMessage)
    {
      EnsureSepolia();
      var afterSwitch := effects;
      match rejection {
        case Some(m) =>
          ShowToast(m, Error);
        case None =>
          WriteAndReport(request, failMessage, successMessage);
      }
      assert effects == afterSwitch + ActionBody(oracle, rejection, request, failMessage, successMessage);
    }

    method Borrow(amt: int, simulated: Option<Request>, simulateBorrowError: Option<string>)
      modifies this
      ensures effects == old(effects) + BorrowTrace(chainId, oracle, amt, simulated, simulateBorrowError)
    {
      Guarded(BorrowRejection(amt, simulateBorrowError), BorrowRequest(amt, simulated), "Borrow failed", "Borrow successful");
    }

    method Repay(amt: int, simulated: Option<Request>)
      modifies this
      ensures effects == old(effects) + RepayTrace(chainId, oracle, amt, simulated)
    {
      Guarded(AmountRejection(amt, "Enter a valid repay amount"),
              simulated.GetOr(Request(BorrowFi, "repay", [Amount(amt)])), "Repay failed", "Repay successful");
    }

    method RepayExact(weiAmount: int, simulated: Option<Request>)
      modifies this
      ensures effects == old(effects) + RepayExactTrace(chainId, oracle, weiAmount, simulated)
    {
      Guarded(AmountRejection(weiAmount, "Enter a valid repay amount"),
              RepayExactRequest(weiAmount, simulated), "Repay failed", "Repay successful");
    }

    method ApproveRepay(weiAmount: int)
      modifies this
      ensures effects == old(effects) + ApproveRepayTrace(chainId, oracle, weiAmount)
    {
      Guarded(AmountRejection(weiAmount, "Enter a valid repay amount"),
              ApprovalRequest(weiAmount), "Approval failed", "BFI approval successful");
    }

    method Withdraw(amt: int, simulated: Option<Request>)
      modifies this
      ensures effects == old(effects) + WithdrawTrace(chainId, oracle, amt, simulated)
    {
      Guarded(AmountRejection(amt, "Enter a valid withdraw amount"),
              simulated.GetOr(Request(BorrowFi, "withdrawCollateral", [Amount(amt)])),
              "Withdraw failed", "Withdraw successful");
    }
  }
}
