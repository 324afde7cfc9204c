/**
 * The collateral panel of src/features/Collateral.tsx: the add-Max and
 * withdraw-Max suggestions and the add button, which either approves the
 * token or adds collateral depending on the current allowance.
 */
module CollateralPanel {
  import opened Wrappers
  import opened DecimalText
  import opened Arith
  import opened Formatting
  import opened UiTypes
  import opened WithdrawGuards

  // ---------------------------------------------------------------------------
  // Add side

  /** The add Max text: the CLT balance (0 when unknown) floored to hundredths. */
  function AddMaxText(userCLT: Option<nat>, cltDecimals: int): (s: string)
    ensures ParseUnits(s, 2) == Some(FloorCents(userCLT.GetOr(0), cltDecimals))
  {
    FormatUnits2dpFloor(Some(userCLT.GetOr(0)), Some(cltDecimals))
  }

  /** Read back at the token's decimals, the add Max never exceeds the balance and falls short by less than a cent. */
  lemma AddMaxWithinBalance(userCLT: Option<nat>, cltDecimals: int)
    requires cltDecimals >= 2
    ensures var bal := userCLT.GetOr(0);
      exists x :: ParseUnits(AddMaxText(userCLT, cltDecimals), cltDecimals) == Some(x)
                  && x <= bal < x + Cent(cltDecimals)
  {
    var bal := userCLT.GetOr(0);
    FloorRoundTrip(bal, cltDecimals);
    FloorBrackets(bal, cltDecimals);
    var x := bal / Cent(cltDecimals) * Cent(cltDecimals);
    assert ParseUnits(AddMaxText(userCLT, cltDecimals), cltDecimals) == Some(x);
  }

  /** Which handler the add button calls. */
  datatype AddRole = ApproveClt | AddClt

  /** `hasCltAllowance ? onAdd : onApproveClt`. */
  function AddButtonRole(hasCltAllowance: bool): (r: AddRole)
    ensures r == AddClt <==> hasCltAllowance
  {
    if hasCltAllowance then AddClt else ApproveClt
  }

  /** Loading flag of the action the button currently performs. */
  function RoleLoading(role: AddRole, isAddCltLoading: bool, isApproveCltLoading: bool): bool {
    match role
    case AddClt => isAddCltLoading
    case ApproveClt => isApproveCltLoading
  }

  /** The add button's `disabled`: the form says so, or the selected action is in flight. */
  function AddButtonDisabled(addDisabled: bool, hasCltAllowance: bool, isAddCltLoading: bool,
                             isApproveCltLoading: bool): (d: bool)
    ensures !addDisabled && !isAddCltLoading && !isApproveCltLoading ==> !d
    ensures hasCltAllowance && isAddCltLoading ==> d
    ensures !hasCltAllowance && isApproveCltLoading ==> d
  {
    addDisabled || (if hasCltAllowance then isAddCltLoading else isApproveCltLoading)
  }

  /** The add button's face: a spinner while the selected action loads, else "Add" or "Approve". */
  function AddButtonFace(hasCltAllowance: bool, isAddCltLoading: bool, isApproveCltLoading: bool): (f: ButtonFace)
    ensures f == Label("Add") ==> hasCltAllowance
    ensures f == Label("Approve") ==> !hasCltAllowance
    ensures !RoleLoading(AddButtonRole(hasCltAllowance), isAddCltLoading, isApproveCltLoading)
      ==> f == Label(if hasCltAllowance then "Add" else "Approve")
  {
    if hasCltAllowance then (if isAddCltLoading then Spinner else Label("Add"))
    else (if isApproveCltLoading then Spinner else Label("Approve"))
  }

  /**
   * The button's face, disabled state and handler agree: a spinner shows
   * exactly while the action the button would call is loading, and then the
   * button is disabled; the other action's loading flag changes nothing.
   */
  lemma AddButtonConsistent(addDisabled: bool, hasCltAllowance: bool, isAddCltLoading: bool,
                            isApproveCltLoading: bool, otherFlag: bool)
    ensures var role := AddButtonRole(hasCltAllowance);
      ((AddButtonFace(hasCltAllowance, isAddCltLoading, isApproveCltLoading) == Spinner)
        <==> RoleLoading(role, isAddCltLoading, isApproveCltLoading))
      && (AddButtonFace(hasCltAllowance, isAddCltLoading, isApproveCltLoading) == Spinner
        ==> AddButtonDisabled(addDisabled, hasCltAllowance, isAddCltLoading, isApproveCltLoading))
      && AddButtonDisabled(addDisabled, hasCltAllowance, isAddCltLoading, isApproveCltLoading)
        == (addDisabled || RoleLoading(role, isAddCltLoading, isApproveCltLoading))
    ensures hasCltAllowance ==>
      AddButtonDisabled(addDisabled, true, isAddCltLoading, otherFlag)
        == AddButtonDisabled(addDisabled, true, isAddCltLoading, isApproveCltLoading)
    ensures !hasCltAllowance ==>
      AddButtonDisabled(addDisabled, false, otherFlag, isApproveCltLoading)
        == AddButtonDisabled(addDisabled, false, isAddCltLoading, isApproveCltLoading)
  {
  }

  // ---------------------------------------------------------------------------
  // Withdraw side

  /**
   * `floor(loan * 10000 / 7000) + 1`, kept at 1 or more: the least collateral
   * that keeps the loan's ratio below 7000 under the withdraw guard's scale.
   */
  function MinNewCollateral(loan: nat): (m: nat)
    ensures m >= 1
    ensures loan * GuardScale < GuardThreshold * m
    ensures m >= 2 ==> GuardThreshold * (m - 1) <= loan * GuardScale
  {
    var q := Quot(loan * GuardScale, GuardThreshold);
    DivBrackets(loan * GuardScale, GuardThreshold);
    var minNewCollateral: int := q + 1;
    var bounded: int := if minNewCollateral < 1 then 1 else minNewCollateral;
    bounded
  }

  /**
   * The most the Max button suggests withdrawing, before formatting: 0 without
   * collateral or when the collateral is already at or below the minimum.
   */
  function MaxWithdrawAmount(userCollateral: Option<nat>, userLoan: Option<nat>): (a: nat)
    ensures a < userCollateral.GetOr(0) || a == 0
    ensures a > 0 ==> userCollateral.GetOr(0) - a == MinNewCollateral(userLoan.GetOr(0))
  {
    var currentCollateral := userCollateral.GetOr(0);
    var minNew := MinNewCollateral(userLoan.GetOr(0));
    if currentCollateral == 0 then 0
    else if currentCollateral <= minNew then 0
    else currentCollateral - minNew
  }

  /**
   * The unformatted Max is exactly the guard's limit: the guard lets a
   * withdrawal through precisely when it is positive and at most the Max.
   */
  lemma MaxWithdrawIsGuardLimit(amount: nat, userCollateral: Option<nat>, userLoan: Option<nat>)
    ensures !WithdrawDisabled(amount, userCollateral, userLoan)
        <==> 0 < amount <= MaxWithdrawAmount(userCollateral, userLoan)
  {
    var c, l := userCollateral.GetOr(0), userLoan.GetOr(0);
    var m := MinNewCollateral(l);
    if 0 < amount < c {
      var rest := c - amount;
      if rest >= m {
        MulMono(m, rest, GuardThreshold);
      } else {
        if rest + 1 <= m - 1 {
          MulMono(rest, m - 1, GuardThreshold);
        }
        assert GuardThreshold * rest <= l * GuardScale;
      }
    }
  }

  /**
   * The withdraw Max text: "0" without collateral or without room, otherwise
   * the room above the minimum floored to hundredths; read at two places it is
   * always the unformatted Max in whole hundredths of a token.
   */
  function WithdrawMaxText(userCollateral: Option<nat>, userLoan: Option<nat>, cltDecimals: int): (s: string)
    ensures MaxWithdrawAmount(userCollateral, userLoan) == 0 <==> s == "0"
    ensures ParseUnits(s, 2) == Some(FloorCents(MaxWithdrawAmount(userCollateral, userLoan), cltDecimals))
  {
    var maxWithdraw := MaxWithdrawAmount(userCollateral, userLoan);
    if maxWithdraw == 0 then
      ZeroTextReads(2);
      "0"
    else
      TwoDecimalPlaces(Some(maxWithdraw), Some(cltDecimals));
      FormatUnits2dpFloor(Some(maxWithdraw), Some(cltDecimals))
  }

  lemma ZeroTextReads(d: nat)
    ensures ParseUnits("0", d) == Some(0)
  {
    var s := "0";
    IndexOfDotNoDot(s);
    assert s[..1] == s;
    assert DigitsValue(s) == 0 by {
      assert s[..0] == [];
    }
  }

  /**
   * Max is never rejected: for an 18-decimal token (the precision the guard
   * parses at) the withdraw Max text reads back as at most the unformatted Max,
   * and, when not zero, as an amount the guard lets through.
   */
  lemma WithdrawMaxAccepted(userCollateral: Option<nat>, userLoan: Option<nat>)
    ensures exists x ::
      (ParseUnits(WithdrawMaxText(userCollateral, userLoan, 18), 18) == Some(x)
       && x <= MaxWithdrawAmount(userCollateral, userLoan)
       && (x > 0 ==> !WithdrawDisabled(x, userCollateral, userLoan)))
  {
    var a := MaxWithdrawAmount(userCollateral, userLoan);
    if a == 0 {
      ZeroTextReads(18);
      MaxWithdrawIsGuardLimit(0, userCollateral, userLoan);
      assert ParseUnits(WithdrawMaxText(userCollateral, userLoan, 18), 18) == Some(0);
    } else {
      FloorRoundTrip(a, 18);
      var x := a / Cent(18) * Cent(18);
      assert WithdrawMaxText(userCollateral, userLoan, 18) == FormatUnits2dpFloor(Some(a), Some(18));
      MaxWithdrawIsGuardLimit(x, userCollateral, userLoan);
      assert ParseUnits(WithdrawMaxText(userCollateral, userLoan, 18), 18) == Some(x);
    }
  }
}
