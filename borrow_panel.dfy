/**
 * The borrow panel of src/features/Borrow.tsx: the Max suggestion, the
 * button's disabled state and the notice under the form.  The typed amount
 * reaches the panel already parsed (`parsedBorrowAmount`), and the simulation
 * error reaches it as the text the application's error parser made of it.
 */
module BorrowPanel {
  import opened Wrappers
  import opened DecimalText
  import opened Arith
  import opened Formatting

  /**
   * `(borrowable / CENT) * CENT`: the borrowable amount cut down to whole
   * hundredths of a token.
   */
  function Headroom(borrowable: nat, bfiDecimals: int): (h: nat)
    ensures h <= borrowable < h + Cent(bfiDecimals)
    ensures h % Cent(bfiDecimals) == 0
  {
    var cent := Cent(bfiDecimals);
    var q := Quot(borrowable, cent);
    DivBrackets(borrowable, cent);
    assert (q * cent) % cent == 0 by {
      DivUnique(q * cent, cent, q, 0);
    }
    q * cent
  }

  /**
   * The button's `disabled`: exactly a zero amount or one above the headroom.
   * An enabled button never borrows more than `borrowable`, and for amounts in
   * whole hundredths the cut costs nothing: such an amount is allowed exactly
   * when it is positive and within `borrowable`.
   */
  function BorrowDisabled(parsedBorrowAmount: nat, borrowable: nat, bfiDecimals: int): (disabled: bool)
    ensures disabled <==> parsedBorrowAmount == 0 || parsedBorrowAmount > Headroom(borrowable, bfiDecimals)
    ensures !disabled ==> 0 < parsedBorrowAmount <= borrowable
    ensures parsedBorrowAmount % Cent(bfiDecimals) == 0 ==>
      (!disabled <==> 0 < parsedBorrowAmount <= borrowable)
  {
    if parsedBorrowAmount == 0 then true
    else
      var headroom := Headroom(borrowable, bfiDecimals);
      WholeCentsWithin(parsedBorrowAmount, borrowable, headroom, Cent(bfiDecimals));
      parsedBorrowAmount > headroom
  }

  /** An amount in whole hundredths that fits in `borrowable` fits in its cut-down headroom. */
  lemma WholeCentsWithin(amount: nat, borrowable: nat, headroom: nat, cent: nat)
    requires cent >= 1 && headroom <= borrowable < headroom + cent && headroom % cent == 0
    ensures amount % cent == 0 && amount <= borrowable ==> amount <= headroom
  {
    if amount % cent == 0 && amount <= borrowable && amount > headroom {
      DivBrackets(amount, cent);
      DivBrackets(headroom, cent);
      var a, h := amount / cent, headroom / cent;
      assert a * cent > h * cent;
      if a <= h {
        MulMono(a, h, cent);
      }
      MulMono(h + 1, a, cent);
    }
  }

  datatype Notice = ExceedsBorrowable | SimulationFailed(text: string)

  /** The text a notice shows. */
  function NoticeText(n: Notice): string {
    match n
    case ExceedsBorrowable => "Amount exceeds borrowable"
    case SimulationFailed(text) => text
  }

  /**
   * The notice under the form: none for a zero amount, "Amount exceeds
   * borrowable" above the headroom, otherwise the simulation error if any.
   */
  function BorrowNotice(parsedBorrowAmount: nat, borrowable: nat, bfiDecimals: int,
                        simulateBorrowError: Option<string>): (n: Option<Notice>)
    ensures n == Some(ExceedsBorrowable) <==>
      parsedBorrowAmount != 0 && BorrowDisabled(parsedBorrowAmount, borrowable, bfiDecimals)
    ensures n.Some? && n.value.SimulationFailed? <==>
      !BorrowDisabled(parsedBorrowAmount, borrowable, bfiDecimals) && simulateBorrowError.Some?
    ensures n.Some? && n.value.SimulationFailed? ==> simulateBorrowError == Some(n.value.text)
  {
    if parsedBorrowAmount == 0 then None
    else
      var headroom := Headroom(borrowable, bfiDecimals);
      if parsedBorrowAmount > headroom then Some(ExceedsBorrowable)
      else if simulateBorrowError.Some? then Some(SimulationFailed(simulateBorrowError.value))
      else None
  }

  /** The Max button's text: `formatUnits2dpFloor(borrowable, bfiDecimals)`. */
  function BorrowMaxText(borrowable: nat, bfiDecimals: int): (s: string)
    ensures ParseUnits(s, 2) == Some(FloorCents(borrowable, bfiDecimals))
  {
    FormatUnits2dpFloor(Some(borrowable), Some(bfiDecimals))
  }

  /**
   * Max is never rejected: read back at the token's decimals (2 or more) the
   * Max text is exactly the headroom, which the button accepts unless it is 0,
   * and which raises no "exceeds" notice.
   */
  lemma MaxNeverRejected(borrowable: nat, bfiDecimals: int)
    requires bfiDecimals >= 2
    ensures ParseUnits(BorrowMaxText(borrowable, bfiDecimals), bfiDecimals) == Some(Headroom(borrowable, bfiDecimals))
    ensures var h := Headroom(borrowable, bfiDecimals);
      !BorrowDisabled(h, borrowable, bfiDecimals) <==> h > 0
    ensures BorrowNotice(Headroom(borrowable, bfiDecimals), borrowable, bfiDecimals, None) == None
  {
    FloorRoundTrip(borrowable, bfiDecimals);
  }
}
