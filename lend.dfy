/**
 * The risk calculator of src/hooks/useLend.ts: the loan-to-collateral ratio,
 * the health flag and the borrowable headroom.  Every input is an on-chain
 * bigint that may not have loaded yet (`undefined`), so each is an Option
 * defaulted as the source does with `??`.  The ratio and the threshold are
 * compared as exact integers.
 */
module Lend {
  import opened Wrappers
  import opened Arith

  /** Ratio scale used when none is read from chain. */
  const DefaultRatioDecimals: nat := 10000

  /** Health threshold used when none is read from chain. */
  const DefaultThreshold: nat := 7000

  /**
   * `ltcRatio`: 0 without collateral, otherwise `loan * decimals / collateral`
   * floored, i.e. the largest ratio whose multiple of the collateral fits in
   * the scaled loan.
   */
  function LtcRatio(userCollateral: Option<nat>, userLoan: Option<nat>, ratioDecimals: Option<nat>): (r: nat)
    ensures userCollateral.GetOr(0) == 0 ==> r == 0
    ensures var c, l, d := userCollateral.GetOr(0), userLoan.GetOr(0), ratioDecimals.GetOr(DefaultRatioDecimals);
      c > 0 ==> r * c <= l * d < (r + 1) * c
  {
    var c, l, d := userCollateral.GetOr(0), userLoan.GetOr(0), ratioDecimals.GetOr(DefaultRatioDecimals);
    if c == 0 then 0
    else
      DivBrackets(l * d, c);
      Quot(l * d, c)
  }

  /**
   * `isHealthy`: the ratio is below the threshold.  Without collateral that
   * holds for any loan (as long as the threshold is positive); with collateral
   * it means the scaled loan is below `threshold` collaterals.
   */
  function IsHealthy(userCollateral: Option<nat>, userLoan: Option<nat>, healthThreshold: Option<nat>,
                     ratioDecimals: Option<nat>): (h: bool)
    ensures var c, l, t, d := userCollateral.GetOr(0), userLoan.GetOr(0),
                              healthThreshold.GetOr(DefaultThreshold), ratioDecimals.GetOr(DefaultRatioDecimals);
      h <==> (if c == 0 then 0 < t else l * d < t * c)
  {
    var c, l, d := userCollateral.GetOr(0), userLoan.GetOr(0), ratioDecimals.GetOr(DefaultRatioDecimals);
    var t := healthThreshold.GetOr(DefaultThreshold);
    var ratio := LtcRatio(userCollateral, userLoan, ratioDecimals);
    if c == 0 then ratio < t
    else
      QuotBelowIff(l * d, c, t);
      ratio < t
  }

  /** `maxLoan = collateral * threshold / decimals - 1`; -1 when the quotient is 0. */
  function MaxLoan(collateral: nat, threshold: nat, decimals: nat): (m: int)
    requires decimals >= 1
    ensures m >= -1
    ensures (m + 1) * decimals <= collateral * threshold < (m + 2) * decimals
  {
    DivBrackets(collateral * threshold, decimals);
    Quot(collateral * threshold, decimals) - 1
  }

  /**
   * `borrowable`: 0 without collateral or when the loan already reaches
   * `maxLoan`; otherwise the smaller of the remaining headroom and the pool.
   * A ratio scale of 0 would make the source divide by zero, so it is excluded.
   */
  function Borrowable(userCollateral: Option<nat>, userLoan: Option<nat>, availableBorrow: Option<nat>,
                      healthThreshold: Option<nat>, ratioDecimals: Option<nat>): (b: nat)
    requires ratioDecimals != Some(0)
    ensures b <= availableBorrow.GetOr(0)
    ensures userCollateral.GetOr(0) == 0 ==> b == 0
    ensures var c, l := userCollateral.GetOr(0), userLoan.GetOr(0);
      var m := MaxLoan(c, healthThreshold.GetOr(DefaultThreshold), ratioDecimals.GetOr(DefaultRatioDecimals));
      c > 0 ==>
        (m <= l ==> b == 0)
        && (m > l ==> b <= m - l && (b == m - l || b == availableBorrow.GetOr(0)))
  {
    var c, l := userCollateral.GetOr(0), userLoan.GetOr(0);
    if c == 0 then 0
    else
      var t, d := healthThreshold.GetOr(DefaultThreshold), ratioDecimals.GetOr(DefaultRatioDecimals);
      var maxLoan := MaxLoan(c, t, d);
      if maxLoan <= l then 0
      else
        var headroom := maxLoan - l;
        var pool := availableBorrow.GetOr(0);
        if headroom < pool then headroom else pool
  }

  // ---------------------------------------------------------------------------
  // Properties

  /**
   * Soundness: taking any part of the borrowable amount, up to all of it, keeps
   * the position healthy (`L * decimals / collateral < threshold`).
   */
  lemma BorrowableSound(collateral: nat, loan: nat, pool: Option<nat>, threshold: nat, decimals: nat, newLoan: nat)
    requires decimals >= 1
    requires var b := Borrowable(Some(collateral), Some(loan), pool, Some(threshold), Some(decimals));
      b > 0 && loan <= newLoan <= loan + b
    ensures IsHealthy(Some(collateral), Some(newLoan), Some(threshold), Some(decimals))
    ensures LtcRatio(Some(collateral), Some(newLoan), Some(decimals)) < threshold
  {
    var m := MaxLoan(collateral, threshold, decimals);
    assert newLoan <= m;
    MulMono(newLoan, m, decimals);
    assert newLoan * decimals < threshold * collateral;
  }

  /** With the collateral fixed, a larger loan never leaves more to borrow. */
  lemma BorrowableAntitoneInLoan(collateral: Option<nat>, loan1: nat, loan2: nat, pool: Option<nat>,
                                 threshold: Option<nat>, decimals: Option<nat>)
    requires decimals != Some(0) && loan1 <= loan2
    ensures Borrowable(collateral, Some(loan2), pool, threshold, decimals)
         <= Borrowable(collateral, Some(loan1), pool, threshold, decimals)
  {
  }

  /** With the loan fixed, adding collateral never turns a healthy position unhealthy. */
  lemma HealthyMonotoneInCollateral(collateral1: nat, collateral2: nat, loan: Option<nat>,
                                    threshold: Option<nat>, decimals: Option<nat>)
    requires 0 < collateral1 <= collateral2
    requires IsHealthy(Some(collateral1), loan, threshold, decimals)
    ensures IsHealthy(Some(collateral2), loan, threshold, decimals)
  {
    MulMono(collateral1, collateral2, threshold.GetOr(DefaultThreshold));
  }

  /**
   * Without collateral the ratio is 0, so any loan, however large, counts as
   * healthy under a positive threshold, while nothing can be borrowed.
   */
  lemma ZeroCollateralHealthy(loan: nat, threshold: Option<nat>, decimals: Option<nat>)
    requires threshold.GetOr(DefaultThreshold) > 0 && decimals != Some(0)
    ensures LtcRatio(None, Some(loan), decimals) == 0
    ensures IsHealthy(None, Some(loan), threshold, decimals)
    ensures IsHealthy(Some(0), Some(loan), threshold, decimals)
    ensures Borrowable(Some(0), Some(loan), Some(loan), threshold, decimals) == 0
  {
  }

  /**
   * `maxLoan` is the largest healthy loan or one less: it is healthy, two more
   * is not, and one more is still healthy whenever `collateral * threshold` is
   * not a multiple of `decimals`.
   */
  lemma MaxLoanTight(collateral: nat, threshold: nat, decimals: nat)
    requires collateral > 0 && decimals >= 1
    ensures var m := MaxLoan(collateral, threshold, decimals);
      (m >= 0 ==> IsHealthy(Some(collateral), Some(m), Some(threshold), Some(decimals)))
      && !IsHealthy(Some(collateral), Some(m + 2), Some(threshold), Some(decimals))
      && ((collateral * threshold) % decimals != 0 ==>
            IsHealthy(Some(collateral), Some(m + 1), Some(threshold), Some(decimals)))
  {
    var p := collateral * threshold;
    var q, r := p / decimals, p % decimals;
    var m := MaxLoan(collateral, threshold, decimals);
    assert threshold * collateral == p;
    DivBrackets(p, decimals);
    assert m == q - 1;
    assert (m + 1) * decimals == p - r;
    assert (m + 2) * decimals == q * decimals + decimals;
    if m >= 0 {
      assert m * decimals == q * decimals - decimals;
    }
  }

  /**
   * With 3 units of collateral, threshold 7000 and scale 10000, the calculator
   * offers 1 unit although a loan of 2 would be healthy.
   */
  lemma MaxLoanOneShortExample()
    ensures Borrowable(Some(3), Some(0), Some(100), Some(7000), Some(10000)) == 1
    ensures IsHealthy(Some(3), Some(2), Some(7000), Some(10000))
  {
  }

  /** With the default threshold and scale, 10000 units of collateral allow a loan of up to 6999. */
  lemma DefaultsExample()
    ensures MaxLoan(10000, DefaultThreshold, DefaultRatioDecimals) == 6999
    ensures Borrowable(Some(10000), Some(0), Some(1_000_000), None, None) == 6999
    ensures Borrowable(Some(10000), Some(6999), Some(1_000_000), None, None) == 0
    ensures Borrowable(Some(10000), Some(1000), Some(500), None, None) == 500
    ensures IsHealthy(Some(10000), Some(6999), None, None)
    ensures !IsHealthy(Some(10000), Some(7000), None, None)
  {
  }
}
