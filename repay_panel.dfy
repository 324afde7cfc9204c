/**
 * The repay panel of src/features/Repay.tsx: the button, which approves the
 * token first when the allowance is short, and the Max suggestion.
 */
module RepayPanel {
  import opened Wrappers
  import opened DecimalText
  import opened Formatting
  import opened UiTypes

  /** `buttonState`: whether the next click approves or repays. */
  datatype RepayState = Approve | Repay

  /**
   * The button's `disabled`: while loading, or when the form reports an error
   * and the click would repay.  An approval is never blocked by the error flag.
   */
  function RepayDisabled(isLoading: bool, hasError: bool, buttonState: RepayState): (d: bool)
    ensures isLoading ==> d
    ensures buttonState == Approve ==> (d <==> isLoading)
    ensures buttonState == Repay ==> (d <==> isLoading || hasError)
  {
    isLoading || (hasError && buttonState != Approve)
  }

  /** The button's face: a spinner while loading, else "Approve" or "Repay" by state. */
  function RepayFace(isLoading: bool, buttonState: RepayState): (f: ButtonFace)
    ensures f == Spinner <==> isLoading
    ensures !isLoading ==> f == Label(if buttonState == Approve then "Approve" else "Repay")
  {
    if isLoading then Spinner
    else Label(match buttonState case Approve => "Approve" case Repay => "Repay")
  }

  /** A spinner on the button always comes with a disabled button. */
  lemma SpinnerDisables(isLoading: bool, hasError: bool, buttonState: RepayState)
    ensures RepayFace(isLoading, buttonState) == Spinner ==> RepayDisabled(isLoading, hasError, buttonState)
  {
  }

  /** The repay Max text: the outstanding loan (0 when unknown) floored to hundredths at 18 decimals by default. */
  function RepayMaxText(userLoan: Option<nat>, bfiDecimals: Option<int>): (s: string)
    ensures ParseUnits(s, 2) == Some(FloorCents(userLoan.GetOr(0), bfiDecimals.GetOr(18)))
  {
    FormatUnits2dpFloor(Some(userLoan.GetOr(0)), Some(bfiDecimals.GetOr(18)))
  }

  /** Read back at the token's decimals, the repay Max never exceeds the loan and is short of it by less than a cent. */
  lemma RepayMaxWithinLoan(userLoan: Option<nat>, bfiDecimals: Option<int>)
    requires bfiDecimals.GetOr(18) >= 2
    ensures var loan, d := userLoan.GetOr(0), bfiDecimals.GetOr(18);
      exists x ::
        (ParseUnits(RepayMaxText(userLoan, bfiDecimals), d) == Some(x) && x <= loan < x + Cent(d))
  {
    var loan, d := userLoan.GetOr(0), bfiDecimals.GetOr(18);
    FloorRoundTrip(loan, d);
    FloorBrackets(loan, d);
    var x := loan / Cent(d) * Cent(d);
    assert ParseUnits(RepayMaxText(userLoan, bfiDecimals), d) == Some(x);
  }
}
