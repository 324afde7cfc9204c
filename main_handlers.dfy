/**
 * The four action handlers of src/components/Main.tsx: add collateral,
 * withdraw collateral, borrow and repay.  Unlike the lending hook they do not
 * switch chains, wait for receipts or refetch: a write that returns a
 * non-empty hash counts as success.  Add and repay first approve the token
 * when the allowance is below the amount, and carry on only when the approval
 * returned a hash.  A thrown error is shown with its own message, or with a
 * fallback text when that message is empty.
 */
module MainHandlers {
  import opened Wrappers
  import opened Ledger
  import BorrowActions

  /** `x && x > 0` on an on-chain amount that may not have loaded (0 is falsy too). */
  predicate Held(x: Option<nat>) {
    x.Some? && x.value > 0
  }

  /** `(err as Error)?.message || fallback`. */
  function MessageOr(message: string, fallback: string): (m: string)
    ensures message != "" ==> m == message
    ensures message == "" ==> m == fallback
  {
    if message != "" then message else fallback
  }

  /** What part of a handler did before the catch block: its effects and the error it threw, if any. */
  datatype Run = Run(trace: seq<Effect>, thrown: Option<Failure>)

  function AddCollateralRequest(amount: int): Request {
    Request(BorrowFi, "addCollateral", [Amount(amount)])
  }

  function CltApproval(amount: int): Request {
    Request(CltToken, "approve", [Address(BorrowFi), Amount(amount)])
  }

  function BfiApproval(amount: int): Request {
    Request(BorrowToken, "approve", [Address(BorrowFi), Amount(amount)])
  }

  function WithdrawRequest(amount: int): Request {
    Request(BorrowFi, "withdrawCollateral", [Amount(amount)])
  }

  function BorrowRequest(amount: int): Request {
    Request(BorrowFi, "borrow", [Amount(amount)])
  }

  function RepayRequest(amount: int): Request {
    Request(BorrowFi, "repay", [Amount(amount)])
  }

  /**
   * One write: a refusal throws; a non-empty hash shows the success toast; an
   * empty hash throws `onEmptyHash` (or does nothing when that is None).
   */
  function Attempt(oracle: Oracle, request: Request, successMessage: string, onEmptyHash: Option<Failure>): Run {
    match oracle.submit(request)
    case Refused(e) => Run([Write(request)], Some(e))
    case Submitted(h) =>
      if h != "" then Run([Write(request), Toast(successMessage, Success)], None)
      else Run([Write(request)], onEmptyHash)
  }

  /**
   * The approval gate: when `needed`, write `approval` first and run `step`
   * only if it returned a non-empty hash; otherwise run `step` directly.
   */
  function AfterApproval(oracle: Oracle, approval: Request, needed: bool, step: Run): Run {
    if !needed then step
    else
      match oracle.submit(approval)
      case Refused(e) => Run([Write(approval)], Some(e))
      case Submitted(h) =>
        if h != "" then Run([Write(approval)] + step.trace, step.thrown)
        else Run([Write(approval)], None)
  }

  /** The catch block: one error toast with the error's message or the fallback. */
  function Catch(thrown: Option<Failure>, fallback: string): seq<Effect> {
    match thrown
    case None => []
    case Some(e) => [Toast(MessageOr(e.message, fallback), Error)]
  }

  /** `userCLT && userCLT >= parsedAmount`. */
  predicate CoversAmount(userCLT: Option<nat>, amount: int) {
    userCLT.Some? && userCLT.value != 0 && userCLT.value >= amount
  }

  /** `_addClt`: add the collateral when the balance covers it, else throw "Insufficient CLT". */
  function AddStep(oracle: Oracle, amount: int, userCLT: Option<nat>): Run {
    if CoversAmount(userCLT, amount) then
      Attempt(oracle, AddCollateralRequest(amount), "Collateral added successfully", Some(Failure("Add Collateral failed!")))
    else Run([], Some(Failure("Insufficient CLT")))
  }

  /** `addCLT`. */
  function AddCltTrace(oracle: Oracle, amount: int, userCLT: Option<nat>, cltAllowance: Option<nat>): seq<Effect> {
    if amount <= 0 then [Toast("Enter a valid CLT amount", Error)]
    else
      var r := AfterApproval(oracle, CltApproval(amount), amount > cltAllowance.GetOr(0), AddStep(oracle, amount, userCLT));
      r.trace + Catch(r.thrown, "Collateral add failed")
  }

  /** `withdrawCLT`. */
  function WithdrawCltTrace(oracle: Oracle, amount: int, userCollateral: Option<nat>): seq<Effect> {
    if !Held(userCollateral) then [Toast("No collateral to withdraw", Error)]
    else if amount <= 0 then [Toast("Enter a valid withdraw amount", Error)]
    else
      var r := Attempt(oracle, WithdrawRequest(amount), "Withdraw successful", None);
      r.trace + Catch(r.thrown, "Withdraw failed")
  }

  /** `borrowBFI`. */
  function BorrowBfiTrace(oracle: Oracle, amount: int, userCollateral: Option<nat>, userCLT: Option<nat>): seq<Effect> {
    if !Held(userCollateral) || !Held(userCLT) then [Toast("Add collateral and hold CLT before borrowing", Error)]
    else if amount <= 0 then [Toast("Enter a valid borrow amount", Error)]
    else
      var r := Attempt(oracle, BorrowRequest(amount), "Borrow successful", None);
      r.trace + Catch(r.thrown, "Borrow failed")
  }

  /** `repayBFI`. */
  function RepayBfiTrace(oracle: Oracle, amount: int, userLoan: Option<nat>, bfiAllowance: Option<nat>): seq<Effect> {
    if !Held(userLoan) then [Toast("No outstanding loan to repay", Error)]
    else if amount <= 0 then [Toast("Enter a valid repay amount", Error)]
    else
      var r := AfterApproval(oracle, BfiApproval(amount), amount > bfiAllowance.GetOr(0),
                             Attempt(oracle, RepayRequest(amount), "Repay successful", None));
      r.trace + Catch(r.thrown, "Repay failed")
  }

  // ---------------------------------------------------------------------------
  // Shape of a handler's record

  /** A toast, if any, is the last effect; so there is at most one. */
  predicate ToastLast(t: seq<Effect>) {
    forall i :: 0 <= i < |t| && t[i].Toast? ==> i == |t| - 1
  }

  /** No toast shows an empty text. */
  predicate ToastsNonEmpty(t: seq<Effect>) {
    forall i :: 0 <= i < |t| && t[i].Toast? ==> t[i].message != ""
  }

  /** What every handler's record satisfies. */
  predicate HandlerShape(t: seq<Effect>, oracle: Oracle) {
    ToastLast(t) && ToastsNonEmpty(t) && SuccessAfterAcceptedWrite(t, oracle)
  }

  /** A run before the catch block: any toast is a final success toast, and only when nothing was thrown. */
  predicate GoodRun(r: Run, oracle: Oracle) {
    HandlerShape(r.trace, oracle)
    && (forall i :: 0 <= i < |r.trace| && r.trace[i].Toast? ==> r.trace[i].variant == Success && r.thrown.None?)
  }

  lemma AttemptGood(oracle: Oracle, request: Request, successMessage: string, onEmptyHash: Option<Failure>)
    requires successMessage != ""
    ensures GoodRun(Attempt(oracle, request, successMessage, onEmptyHash), oracle)
  {
  }

  lemma AfterApprovalGood(oracle: Oracle, approval: Request, needed: bool, step: Run)
    requires GoodRun(step, oracle)
    ensures GoodRun(AfterApproval(oracle, approval, needed, step), oracle)
  {
    if needed && oracle.submit(approval).Submitted? && oracle.submit(approval).hash != "" {
      var t := [Write(approval)] + step.trace;
      assert forall i :: 1 <= i < |t| ==> t[i] == step.trace[i - 1];
    }
  }

  lemma CatchGood(r: Run, oracle: Oracle, fallback: string)
    requires GoodRun(r, oracle) && fallback != ""
    ensures HandlerShape(r.trace + Catch(r.thrown, fallback), oracle)
  {
    var t := r.trace + Catch(r.thrown, fallback);
    assert forall i :: 0 <= i < |r.trace| ==> t[i] == r.trace[i];
    if r.thrown.None? {
      assert t == r.trace;
    }
  }

  /** The approval gate lets the handler go on: no approval was needed, or it returned a non-empty hash. */
  predicate ApprovalPassed(oracle: Oracle, approval: Request, needed: bool) {
    !needed || (oracle.submit(approval).Submitted? && oracle.submit(approval).hash != "")
  }

  /** The approval write that precedes the main write when one was needed. */
  function ApprovalPrefix(approval: Request, needed: bool): seq<Effect> {
    if needed then [Write(approval)] else []
  }

  /**
   * Every handler shows at most one toast, as its last effect and never with
   * an empty text, and a success toast only right after a write that the
   * wallet answered with a non-empty hash.  Beyond that shape, each handler's
   * record is stated case by case: a failed check shows its own error toast
   * and writes nothing; a write the wallet refuses ends with one error toast
   * carrying the error's message, or the handler's fallback text when that
   * message is empty; an empty hash shows nothing (or, for adding collateral,
   * "Add Collateral failed!"); a non-empty hash shows the success toast.
   */
  lemma AddCltShape(oracle: Oracle, amount: int, userCLT: Option<nat>, cltAllowance: Option<nat>)
    ensures HandlerShape(AddCltTrace(oracle, amount, userCLT, cltAllowance), oracle)
    ensures amount <= 0 ==> AddCltTrace(oracle, amount, userCLT, cltAllowance) == [Toast("Enter a valid CLT amount", Error)]
    ensures var t := AddCltTrace(oracle, amount, userCLT, cltAllowance);
      var approval := oracle.submit(CltApproval(amount));
      amount > 0 && amount > cltAllowance.GetOr(0) ==>
        (approval.Refused? ==>
           t == [Write(CltApproval(amount)), Toast(MessageOr(approval.error.message, "Collateral add failed"), Error)])
        && (approval == Submitted("") ==> t == [Write(CltApproval(amount))])
    ensures var t := AddCltTrace(oracle, amount, userCLT, cltAllowance);
      var needed := amount > cltAllowance.GetOr(0);
      var pre := ApprovalPrefix(CltApproval(amount), needed);
      var add := oracle.submit(AddCollateralRequest(amount));
      amount > 0 && ApprovalPassed(oracle, CltApproval(amount), needed) ==>
        (!CoversAmount(userCLT, amount) ==> t == pre + [Toast("Insufficient CLT", Error)])
        && (CoversAmount(userCLT, amount) && add.Refused? ==>
              t == pre + [Write(AddCollateralRequest(amount)),
                          Toast(MessageOr(add.error.message, "Collateral add failed"), Error)])
        && (CoversAmount(userCLT, amount) && add == Submitted("") ==>
              t == pre + [Write(AddCollateralRequest(amount)), Toast("Add Collateral failed!", Error)])
        && (CoversAmount(userCLT, amount) && add.Submitted? && add.hash != "" ==>
              t == pre + [Write(AddCollateralRequest(amount)), Toast("Collateral added successfully", Success)])
  {
    if amount > 0 {
      AttemptGood(oracle, AddCollateralRequest(amount), "Collateral added successfully", Some(Failure("Add Collateral failed!")));
      var add := AddStep(oracle, amount, userCLT);
      assert GoodRun(add, oracle);
      AfterApprovalGood(oracle, CltApproval(amount), amount > cltAllowance.GetOr(0), add);
      CatchGood(AfterApproval(oracle, CltApproval(amount), amount > cltAllowance.GetOr(0), add), oracle, "Collateral add failed");
    }
  }

  lemma WithdrawCltShape(oracle: Oracle, amount: int, userCollateral: Option<nat>)
    ensures HandlerShape(WithdrawCltTrace(oracle, amount, userCollateral), oracle)
    ensures var t := WithdrawCltTrace(oracle, amount, userCollateral);
      var s := oracle.submit(WithdrawRequest(amount));
      (!Held(userCollateral) ==> t == [Toast("No collateral to withdraw", Error)])
      && (Held(userCollateral) && amount <= 0 ==> t == [Toast("Enter a valid withdraw amount", Error)])
      && (Held(userCollateral) && amount > 0 ==>
            (s.Refused? ==> t == [Write(WithdrawRequest(amount)), Toast(MessageOr(s.error.message, "Withdraw failed"), Error)])
            && (s == Submitted("") ==> t == [Write(WithdrawRequest(amount))])
            && (s.Submitted? && s.hash != "" ==> t == [Write(WithdrawRequest(amount)), Toast("Withdraw successful", Success)]))
  {
    AttemptGood(oracle, WithdrawRequest(amount), "Withdraw successful", None);
    CatchGood(Attempt(oracle, WithdrawRequest(amount), "Withdraw successful", None), oracle, "Withdraw failed");
  }

  lemma BorrowBfiShape(oracle: Oracle, amount: int, userCollateral: Option<nat>, userCLT: Option<nat>)
    ensures HandlerShape(BorrowBfiTrace(oracle, amount, userCollateral, userCLT), oracle)
    ensures var t := BorrowBfiTrace(oracle, amount, userCollateral, userCLT);
      var held := Held(userCollateral) && Held(userCLT);
      var s := oracle.submit(BorrowRequest(amount));
      (!held ==> t == [Toast("Add collateral and hold CLT before borrowing", Error)])
      && (held && amount <= 0 ==> t == [Toast("Enter a valid borrow amount", Error)])
      && (held && amount > 0 ==>
            (s.Refused? ==> t == [Write(BorrowRequest(amount)), Toast(MessageOr(s.error.message, "Borrow failed"), Error)])
            && (s == Submitted("") ==> t == [Write(BorrowRequest(amount))])
            && (s.Submitted? && s.hash != "" ==> t == [Write(BorrowRequest(amount)), Toast("Borrow successful", Success)]))
  {
    AttemptGood(oracle, BorrowRequest(amount), "Borrow successful", None);
    CatchGood(Attempt(oracle, BorrowRequest(amount), "Borrow successful", None), oracle, "Borrow failed");
  }

  lemma RepayBfiShape(oracle: Oracle, amount: int, userLoan: Option<nat>, bfiAllowance: Option<nat>)
    ensures HandlerShape(RepayBfiTrace(oracle, amount, userLoan, bfiAllowance), oracle)
    ensures var t := RepayBfiTrace(oracle, amount, userLoan, bfiAllowance);
      (!Held(userLoan) ==> t == [Toast("No outstanding loan to repay", Error)])
      && (Held(userLoan) && amount <= 0 ==> t == [Toast("Enter a valid repay amount", Error)])
    ensures var t := RepayBfiTrace(oracle, amount, userLoan, bfiAllowance);
      var approval := oracle.submit(BfiApproval(amount));
      Held(userLoan) && amount > 0 && amount > bfiAllowance.GetOr(0) ==>
        (approval.Refused? ==>
           t == [Write(BfiApproval(amount)), Toast(MessageOr(approval.error.message, "Repay failed"), Error)])
        && (approval == Submitted("") ==> t == [Write(BfiApproval(amount))])
    ensures var t := RepayBfiTrace(oracle, amount, userLoan, bfiAllowance);
      var needed := amount > bfiAllowance.GetOr(0);
      var pre := ApprovalPrefix(BfiApproval(amount), needed);
      var s := oracle.submit(RepayRequest(amount));
      Held(userLoan) && amount > 0 && ApprovalPassed(oracle, BfiApproval(amount), needed) ==>
        (s.Refused? ==> t == pre + [Write(RepayRequest(amount)), Toast(MessageOr(s.error.message, "Repay failed"), Error)])
        && (s == Submitted("") ==> t == pre + [Write(RepayRequest(amount))])
        && (s.Submitted? && s.hash != "" ==> t == pre + [Write(RepayRequest(amount)), Toast("Repay successful", Success)])
  {
    var repay := Attempt(oracle, RepayRequest(amount), "Repay successful", None);
    AttemptGood(oracle, RepayRequest(amount), "Repay successful", None);
    AfterApprovalGood(oracle, BfiApproval(amount), amount > bfiAllowance.GetOr(0), repay);
    CatchGood(AfterApproval(oracle, BfiApproval(amount), amount > bfiAllowance.GetOr(0), repay), oracle, "Repay failed");
  }

  // ---------------------------------------------------------------------------
  // Approvals and validation

  /**
   * Adding collateral writes first the approval of exactly the amount when,
   * and only when, the amount exceeds the allowance (a missing allowance
   * counts as 0).
   */
  lemma AddCltApprovesExactlyWhenNeeded(oracle: Oracle, amount: int, userCLT: Option<nat>, cltAllowance: Option<nat>)
    requires amount > 0
    ensures var t := AddCltTrace(oracle, amount, userCLT, cltAllowance);
      |t| > 0 && (t[0] == Write(CltApproval(amount)) <==> amount > cltAllowance.GetOr(0))
  {
    var r := AfterApproval(oracle, CltApproval(amount), amount > cltAllowance.GetOr(0), AddStep(oracle, amount, userCLT));
    var t := r.trace + Catch(r.thrown, "Collateral add failed");
    if amount > cltAllowance.GetOr(0) {
      assert r.trace[0] == Write(CltApproval(amount));
    } else if CoversAmount(userCLT, amount) {
      assert r.trace[0] == Write(AddCollateralRequest(amount));
    } else {
      assert t == [Toast("Insufficient CLT", Error)];
    }
  }

  /**
   * Collateral is added only when the balance covers the amount, and, when an
   * approval was needed, only after that approval returned a non-empty hash.
   */
  lemma AddOnlyAfterApproval(oracle: Oracle, amount: int, userCLT: Option<nat>, cltAllowance: Option<nat>)
    ensures var t := AddCltTrace(oracle, amount, userCLT, cltAllowance);
      Write(AddCollateralRequest(amount)) in t ==>
        amount > 0 && CoversAmount(userCLT, amount)
        && (amount > cltAllowance.GetOr(0) ==>
              t[0] == Write(CltApproval(amount))
              && oracle.submit(CltApproval(amount)).Submitted? && oracle.submit(CltApproval(amount)).hash != "")
  {
    if amount > 0 {
      var r := AfterApproval(oracle, CltApproval(amount), amount > cltAllowance.GetOr(0), AddStep(oracle, amount, userCLT));
      var t := r.trace + Catch(r.thrown, "Collateral add failed");
      if !CoversAmount(userCLT, amount) {
        assert AddStep(oracle, amount, userCLT).trace == [];
        assert !(Write(AddCollateralRequest(amount)) in Catch(r.thrown, "Collateral add failed"));
        assert AddCollateralRequest(amount) != CltApproval(amount);
      } else if amount > cltAllowance.GetOr(0) {
        assert AddCollateralRequest(amount) != CltApproval(amount);
        assert r.trace[0] == Write(CltApproval(amount));
      }
    }
  }

  /** Repaying approves the borrow token for exactly the amount when, and only when, the amount exceeds the allowance. */
  lemma RepayApprovesExactlyWhenNeeded(oracle: Oracle, amount: int, userLoan: Option<nat>, bfiAllowance: Option<nat>)
    requires amount > 0 && Held(userLoan)
    ensures var t := RepayBfiTrace(oracle, amount, userLoan, bfiAllowance);
      |t| > 0 && (t[0] == Write(BfiApproval(amount)) <==> amount > bfiAllowance.GetOr(0))
      && (Write(RepayRequest(amount)) in t ==>
            amount > bfiAllowance.GetOr(0) ==>
              oracle.submit(BfiApproval(amount)).Submitted? && oracle.submit(BfiApproval(amount)).hash != "")
  {
    var step := Attempt(oracle, RepayRequest(amount), "Repay successful", None);
    var r := AfterApproval(oracle, BfiApproval(amount), amount > bfiAllowance.GetOr(0), step);
    assert RepayRequest(amount) != BfiApproval(amount);
    if amount > bfiAllowance.GetOr(0) {
      assert r.trace[0] == Write(BfiApproval(amount));
    } else {
      assert r.trace[0] == Write(RepayRequest(amount));
    }
  }

  /**
   * A handler writes nothing exactly when its checks reject the input (or, for
   * adding collateral, when no approval is needed and the balance does not
   * cover the amount); a rejection's toast names the first check that failed.
   */
  lemma AddCltWritesIff(oracle: Oracle, amount: int, userCLT: Option<nat>, cltAllowance: Option<nat>)
    ensures NoWrite(AddCltTrace(oracle, amount, userCLT, cltAllowance))
        <==> amount <= 0 || (amount <= cltAllowance.GetOr(0) && !CoversAmount(userCLT, amount))
  {
    if amount > 0 {
      var r := AfterApproval(oracle, CltApproval(amount), amount > cltAllowance.GetOr(0), AddStep(oracle, amount, userCLT));
      var t := r.trace + Catch(r.thrown, "Collateral add failed");
      if amount > cltAllowance.GetOr(0) || CoversAmount(userCLT, amount) {
        assert t[0].Write?;
      } else {
        assert t == [Toast("Insufficient CLT", Error)];
      }
    }
  }

  lemma WithdrawCltWritesIff(oracle: Oracle, amount: int, userCollateral: Option<nat>)
    ensures NoWrite(WithdrawCltTrace(oracle, amount, userCollateral)) <==> !Held(userCollateral) || amount <= 0
    ensures !Held(userCollateral) ==> WithdrawCltTrace(oracle, amount, userCollateral)[0].message == "No collateral to withdraw"
  {
    if Held(userCollateral) && amount > 0 {
      assert WithdrawCltTrace(oracle, amount, userCollateral)[0] == Write(WithdrawRequest(amount));
    }
  }

  lemma BorrowBfiWritesIff(oracle: Oracle, amount: int, userCollateral: Option<nat>, userCLT: Option<nat>)
    ensures NoWrite(BorrowBfiTrace(oracle, amount, userCollateral, userCLT))
        <==> !Held(userCollateral) || !Held(userCLT) || amount <= 0
  {
    if Held(userCollateral) && Held(userCLT) && amount > 0 {
      assert BorrowBfiTrace(oracle, amount, userCollateral, userCLT)[0] == Write(BorrowRequest(amount));
    }
  }

  lemma RepayBfiWritesIff(oracle: Oracle, amount: int, userLoan: Option<nat>, bfiAllowance: Option<nat>)
    ensures NoWrite(RepayBfiTrace(oracle, amount, userLoan, bfiAllowance)) <==> !Held(userLoan) || amount <= 0
    ensures !Held(userLoan) ==> RepayBfiTrace(oracle, amount, userLoan, bfiAllowance)[0].message == "No outstanding loan to repay"
  {
    if Held(userLoan) && amount > 0 {
      var r := AfterApproval(oracle, BfiApproval(amount), amount > bfiAllowance.GetOr(0),
                             Attempt(oracle, RepayRequest(amount), "Repay successful", None));
      assert r.trace[0].Write?;
      assert RepayBfiTrace(oracle, amount, userLoan, bfiAllowance)[0].Write?;
    }
  }

  /**
   * An approval answered with an empty hash ends the add handler silently:
   * nothing but the approval write, and no toast at all.
   */
  lemma EmptyApprovalHashIsSilent(oracle: Oracle, amount: int, userCLT: Option<nat>, cltAllowance: Option<nat>)
    requires amount > 0 && amount > cltAllowance.GetOr(0)
    requires oracle.submit(CltApproval(amount)) == Submitted("")
    ensures AddCltTrace(oracle, amount, userCLT, cltAllowance) == [Write(CltApproval(amount))]
    ensures ToastCount(AddCltTrace(oracle, amount, userCLT, cltAllowance)) == 0
  {
  }

  /** A wallet that accepts every write with hash "0x1" and a node that reports every transaction reverted. */
  function RevertingNode(): Oracle {
    Oracle((r: Request) => Submitted("0x1"), (h: string) => Mined(false), (e: Failure) => e.message)
  }

  /**
   * The handlers here report success on a hash alone, the lending hook only on
   * a successful receipt: with a wallet that accepts every write and a node
   * that reports every transaction reverted, borrowing here toasts "Borrow
   * successful" while the hook's borrow never shows a success toast.
   */
  lemma SuccessWithoutReceipt(amount: int)
    requires amount > 0
    ensures var oracle := RevertingNode();
      Toast("Borrow successful", Success) in BorrowBfiTrace(oracle, amount, Some(1), Some(1))
      && forall i :: 0 <= i < |BorrowActions.BorrowTrace(BorrowActions.Sepolia, oracle, amount, None, None)| ==>
           BorrowActions.BorrowTrace(BorrowActions.Sepolia, oracle, amount, None, None)[i] != Toast("Borrow successful", Success)
  {
    var oracle := RevertingNode();
    assert "0x1" != "";
    assert BorrowBfiTrace(oracle, amount, Some(1), Some(1))
        == [Write(BorrowRequest(amount)), Toast("Borrow successful", Success)];
  }

  // ---------------------------------------------------------------------------
  // The component's handlers

  class Handlers {
    const oracle: Oracle
    /** Everything the handlers have done so far, oldest first. */
    var effects: seq<Effect>

    constructor(oracle: Oracle)
      ensures this.oracle == oracle && effects == []
    {
      this.oracle := oracle;
      effects := [];
    }

    method ShowToast(message: string, variant: Variant)
      modifies this
      ensures effects == old(effects) + [Toast(message, variant)]
    {
      effects := effects + [Toast(message, variant)];
    }

    method WriteContract(request: Request) returns (s: Submission)
      modifies this
      ensures s == oracle.submit(request)
      ensures effects == old(effects) + [Write(request)]
    {
      effects := effects + [Write(request)];
      s := oracle.submit(request);
    }

    /** One write that toasts on a non-empty hash; returns what it throws. */
    method Try(request: Request, successMessage: string, onEmptyHash: Option<Failure>) returns (thrown: Option<Failure>)
      modifies this
      ensures var r := Attempt(oracle, request, successMessage, onEmptyHash);
        effects == old(effects) + r.trace && thrown == r.thrown
    {
      var s := WriteContract(request);
      match s {
        case Refused(e) =>
          thrown := Some(e);
        case Submitted(h) =>
          if h != "" {
            ShowToast(successMessage, Success);
            thrown := None;
          } else {
            thrown := onEmptyHash;
          }
      }
    }

    /** `_addClt`. */
    method AddStepRun(amount: int, userCLT: Option<nat>) returns (thrown: Option<Failure>)
      modifies this
      ensures var r := AddStep(oracle, amount, userCLT);
        effects == old(effects) + r.trace && thrown == r.thrown
    {
      if CoversAmount(userCLT, amount) {
        thrown := Try(AddCollateralRequest(amount), "Collateral added successfully", Some(Failure("Add Collateral failed!")));
      } else {
        thrown := Some(Failure("Insufficient CLT"));
      }
    }

    method Report(thrown: Option<Failure>, fallback: string)
      modifies this
      ensures effects == old(effects) + Catch(thrown, fallback)
    {
      if thrown.Some? {
        ShowToast(MessageOr(thrown.value.message, fallback), Error);
      }
    }

    method AddCLT(amount: int, userCLT: Option<nat>, cltAllowance: Option<nat>)
      modifies this
      ensures effects == old(effects) + AddCltTrace(oracle, amount, userCLT, cltAllowance)
    {
      if amount <= 0 {
        ShowToast("Enter a valid CLT amount", Error);
        return;
      }
      var thrown: Option<Failure>;
      if amount > cltAllowance.GetOr(0) {
        var s := WriteContract(CltApproval(amount));
        match s {
          case Refused(e) =>
            thrown := Some(e);
          case Submitted(h) =>
            if h != "" {
              thrown := AddStepRun(amount, userCLT);
            } else {
              thrown := None;
            }
        }
      } else {
        thrown := AddStepRun(amount, userCLT);
      }
      Report(thrown, "Collateral add failed");
    }

    method WithdrawCLT(amount: int, userCollateral: Option<nat>)
      modifies this
      ensures effects == old(effects) + WithdrawCltTrace(oracle, amount, userCollateral)
    {
      if !Held(userCollateral) {
        ShowToast("No collateral to withdraw", Error);
        return;
      }
      if amount <= 0 {
        ShowToast("Enter a valid withdraw amount", Error);
        return;
      }
      var thrown := Try(WithdrawRequest(amount), "Withdraw successful", None);
      Report(thrown, "Withdraw failed");
    }

    method BorrowBFI(amount: int, userCollateral: Option<nat>, userCLT: Option<nat>)
      modifies this
      ensures effects == old(effects) + BorrowBfiTrace(oracle, amount, userCollateral, userCLT)
    {
      if !Held(userCollateral) || !Held(userCLT) {
        ShowToast("Add collateral and hold CLT before borrowing", Error);
        return;
      }
      if amount <= 0 {
        ShowToast("Enter a valid borrow amount", Error);
        return;
      }
      var thrown := Try(BorrowRequest(amount), "Borrow successful", None);
      Report(thrown, "Borrow failed");
    }

    method RepayBFI(amount: int, userLoan: Option<nat>, bfiAllowance: Option<nat>)
      modifies this
      ensures effects == old(effects) + RepayBfiTrace(oracle, amount, userLoan, bfiAllowance)
    {
      if !Held(userLoan) {
        ShowToast("No outstanding loan to repay", Error);
        return;
      }
      if amount <= 0 {
        ShowToast("Enter a valid repay amount", Error);
        return;
      }
      var thrown: Option<Failure>;
      if amount > bfiAllowance.GetOr(0) {
        var s := WriteContract(BfiApproval(amount));
        match s {
          case Refused(e) =>
            thrown := Some(e);
          case Submitted(h) =>
            if h != "" {
              thrown := Try(RepayRequest(amount), "Repay successful", None);
            } else {
              thrown := None;
            }
        }
      } else {
        thrown := Try(RepayRequest(amount), "Repay successful", None);
      }
      Report(thrown, "Repay failed");
    }
  }
}
