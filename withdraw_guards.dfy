/**
 * The withdraw guards of src/hooks/useWithdrawGuards.ts.  The typed amount is
 * parsed by the library's `parseEther` (18 decimals) before either check; the
 * parsed amount is the parameter here.  Both checks hard-code the scale 10000
 * and the threshold 7000 instead of the values `useLend` reads from chain.
 */
module WithdrawGuards {
  import opened Wrappers
  import opened Arith
  import Lend

  const GuardScale: nat := 10000
  const GuardThreshold: nat := 7000

  const HealthBreach: string := "Health breach: Can't have 0 collateral"

  /**
   * `withdrawDisabled`: disabled for a zero amount, an amount above the
   * collateral, a withdrawal of all of it, or a projected ratio of 7000 or more.
   * Enabled exactly when something remains and the scaled loan stays below
   * 7000 remaining collaterals.
   */
  function WithdrawDisabled(amount: nat, userCollateral: Option<nat>, userLoan: Option<nat>): (disabled: bool)
    ensures var c, l := userCollateral.GetOr(0), userLoan.GetOr(0);
      !disabled <==> 0 < amount < c && l * GuardScale < GuardThreshold * (c - amount)
  {
    if amount == 0 then true
    else
      var currentCollateral := userCollateral.GetOr(0);
      if currentCollateral < amount then true
      else
        var newCollateral := currentCollateral - amount;
        if newCollateral == 0 then true
        else
          var projectedRatio := Quot(userLoan.GetOr(0) * GuardScale, newCollateral);
          QuotBelowIff(userLoan.GetOr(0) * GuardScale, newCollateral, GuardThreshold);
          projectedRatio >= GuardThreshold
  }

  /**
   * `withdrawWarning`: silent for a zero amount or one above the collateral,
   * and for an allowed withdrawal; the health-breach text in both breach cases.
   */
  function WithdrawWarning(amount: nat, userCollateral: Option<nat>, userLoan: Option<nat>): (w: string)
    ensures w == "" || w == HealthBreach
    ensures w != "" <==> 0 < amount <= userCollateral.GetOr(0) && WithdrawDisabled(amount, userCollateral, userLoan)
  {
    var currentCollateral := userCollateral.GetOr(0);
    if amount == 0 || currentCollateral < amount then ""
    else
      var newCollateral := currentCollateral - amount;
      if newCollateral == 0 then HealthBreach
      else
        var projectedRatio := Quot(userLoan.GetOr(0) * GuardScale, newCollateral);
        QuotBelowIff(userLoan.GetOr(0) * GuardScale, newCollateral, GuardThreshold);
        if projectedRatio >= GuardThreshold then HealthBreach else ""
  }

  // ---------------------------------------------------------------------------
  // Properties

  /**
   * The guard allows a withdrawal exactly when it leaves collateral behind and
   * the remaining position is healthy under the fixed threshold and scale.
   */
  lemma GuardIsHealthAfterWithdraw(amount: nat, collateral: nat, userLoan: Option<nat>)
    ensures !WithdrawDisabled(amount, Some(collateral), userLoan)
        <==> 0 < amount < collateral
             && Lend.IsHealthy(Some(collateral - amount), userLoan, Some(GuardThreshold), Some(GuardScale))
  {
  }

  /** A warning is shown only for a disabled withdrawal; a rejected amount of 0 or above the collateral shows none. */
  lemma WarningMeansDisabled(amount: nat, userCollateral: Option<nat>, userLoan: Option<nat>)
    ensures WithdrawWarning(amount, userCollateral, userLoan) != "" ==> WithdrawDisabled(amount, userCollateral, userLoan)
    ensures amount == 0 || amount > userCollateral.GetOr(0) ==>
      WithdrawDisabled(amount, userCollateral, userLoan) && WithdrawWarning(amount, userCollateral, userLoan) == ""
    ensures 0 < amount && amount == userCollateral.GetOr(0) ==> WithdrawWarning(amount, userCollateral, userLoan) == HealthBreach
  {
  }

  /** Without a loan, any withdrawal that leaves something behind is allowed. */
  lemma NoLoanAnyPartialWithdraw(amount: nat, collateral: nat)
    requires 0 < amount < collateral
    ensures !WithdrawDisabled(amount, Some(collateral), None)
    ensures WithdrawWarning(amount, Some(collateral), Some(0)) == ""
  {
  }
}
