/**
 * Fixed-point display of smallest-unit amounts with two decimal places
 * (src/lib/formatting.ts).  Amounts are bigints in the source; they are
 * naturals here, and every step is exact integer division as in the source.
 */
module Formatting {
  import opened Wrappers
  import opened DecimalText
  import opened Arith

  /** Decimals used when the caller passes none. */
  const DefaultDecimals: int := 18

  const WeiPerEther: nat := 1_000_000_000_000_000_000

  /** The literal `10_000_000_000_000_00` of the source: 10^15, not the 10^16 its comment names. */
  const WeiPerCentAsWritten: nat := 1_000_000_000_000_000

  /** Distance from a whole unit within which `formatEther2dp` snaps to "n.00". */
  const SnapEpsilon: nat := 1_000_000_000_000

  /** Below this many wei `formatBorrowable` shows "0". */
  const DustThreshold: nat := 1_000_000_000_000

  /** `Math.max(0, d - 2)`: the exponent of the cent unit, never negative. */
  function CentExponent(decimals: int): nat {
    if decimals > 2 then decimals - 2 else 0
  }

  /** One hundredth of a whole token, in smallest units (1 when decimals < 2). */
  function Cent(decimals: int): (c: nat)
    ensures c >= 1
  {
    Pow10(CentExponent(decimals))
  }

  function FloorCents(v: nat, decimals: int): nat {
    Quot(v, Cent(decimals))
  }

  function RoundedCents(v: nat, decimals: int): nat {
    Quot(v + Cent(decimals) / 2, Cent(decimals))
  }

  /** `formatUnits2dp`: rounds half up to hundredths; the text reads back as those hundredths. */
  function FormatUnits2dp(value: Option<nat>, decimals: Option<int>): (s: string)
    ensures ParseUnits(s, 2) == Some(RoundedCents(value.GetOr(0), decimals.GetOr(DefaultDecimals)))
  {
    var c := RoundedCents(value.GetOr(0), decimals.GetOr(DefaultDecimals));
    RenderCentsReads(c, 2);
    RenderCents(c)
  }

  /** `formatUnits2dpFloor`: truncates to hundredths; the text reads back as those hundredths. */
  function FormatUnits2dpFloor(value: Option<nat>, decimals: Option<int>): (s: string)
    ensures ParseUnits(s, 2) == Some(FloorCents(value.GetOr(0), decimals.GetOr(DefaultDecimals)))
  {
    var c := FloorCents(value.GetOr(0), decimals.GetOr(DefaultDecimals));
    RenderCentsReads(c, 2);
    RenderCents(c)
  }

  /** `formatEther2dpFloor` as written: hundredths counted in units of 10^15 wei. */
  function FormatEther2dpFloor(value: Option<nat>): (s: string)
    ensures ParseUnits(s, 2) == Some(value.GetOr(0) / WeiPerCentAsWritten)
  {
    var c := value.GetOr(0) / WeiPerCentAsWritten;
    RenderCentsReads(c, 2);
    RenderCents(c)
  }

  /** `formatBorrowable`: "0" exactly for dust below 10^12 wei, otherwise `formatEther2dpFloor`. */
  function FormatBorrowable(value: Option<nat>): (s: string)
    ensures s == "0" <==> value.GetOr(0) < DustThreshold
    ensures value.GetOr(0) >= DustThreshold ==> ParseUnits(s, 2) == Some(value.GetOr(0) / WeiPerCentAsWritten)
  {
    var v := value.GetOr(0);
    if v < DustThreshold then "0"
    else
      RenderCentsNonzero(v / WeiPerCentAsWritten);
      FormatEther2dpFloor(Some(v))
  }

  /** The snapped whole amount `formatEther2dp` shows when `v` lies within 10^12 wei of a whole unit. */
  predicate NearWhole(v: nat) {
    v % WeiPerEther <= SnapEpsilon || WeiPerEther - v % WeiPerEther <= SnapEpsilon
  }

  function SnappedWhole(v: nat): nat {
    if v % WeiPerEther <= SnapEpsilon then v / WeiPerEther else v / WeiPerEther + 1
  }

  /** `formatEther2dp` as written: snap near whole units, otherwise round half up in 10^15-wei steps. */
  function FormatEther2dp(value: Option<nat>): (s: string)
    ensures NearWhole(value.GetOr(0)) ==> ParseUnits(s, 18) == Some(SnappedWhole(value.GetOr(0)) * WeiPerEther)
    ensures !NearWhole(value.GetOr(0)) ==>
      ParseUnits(s, 2) == Some((value.GetOr(0) + WeiPerCentAsWritten / 2) / WeiPerCentAsWritten)
  {
    var v := value.GetOr(0);
    if NearWhole(v) then
      SnapReads(SnappedWhole(v));
      NatToString(SnappedWhole(v)) + ".00"
    else
      var c := (v + WeiPerCentAsWritten / 2) / WeiPerCentAsWritten;
      RenderCentsReads(c, 2);
      RenderCents(c)
  }

  lemma Pow10Literals()
    ensures Pow10(16) == 10 * WeiPerCentAsWritten
    ensures Pow10(18) == WeiPerEther
  {
    assert Pow10(4) == 10_000 by {
      assert Pow10(1) == 10;
      assert Pow10(2) == 100;
      assert Pow10(3) == 1000;
    }
    assert Pow10(8) == 100_000_000 by { Pow10Add(4, 4); }
    assert Pow10(16) == 10_000_000_000_000_000 by { Pow10Add(8, 8); }
    assert Pow10(18) == 1_000_000_000_000_000_000 by {
      Pow10Add(16, 2);
      assert Pow10(2) == 100;
    }
  }

  lemma ZeroCentsText()
    ensures PadStart2(NatToString(0)) == "00"
  {
    assert NatToString(0) == "0";
  }

  lemma WholeCentsText(w: nat)
    ensures RenderCents(w * 100) == NatToString(w) + "." + "00"
  {
    var c := w * 100;
    assert c / 100 == w && c % 100 == 0;
    ZeroCentsText();
  }

  lemma DotZeroZero(a: string)
    ensures a + ".00" == a + "." + "00"
  {
  }

  /** `${w}.00` is the rendering of `w` whole units as hundredths. */
  lemma WholeAsCents(w: nat)
    ensures NatToString(w) + ".00" == RenderCents(w * 100)
  {
    WholeCentsText(w);
    DotZeroZero(NatToString(w));
  }

  lemma SnapReads(w: nat)
    ensures ParseUnits(NatToString(w) + ".00", 18) == Some(w * WeiPerEther)
  {
    WholeAsCents(w);
    RenderCentsReads(w * 100, 18);
    WholeHundredths(w);
  }

  lemma WholeHundredths(w: nat)
    ensures w * 100 * Pow10(16) == w * WeiPerEther
  {
    Pow10Hundred(18);
    Pow10Literals();
    Regroup(w, Pow10(16), Pow10(18));
  }

  lemma Regroup(w: int, p: int, q: int)
    requires q == 100 * p
    ensures w * 100 * p == w * q
  {
  }

  // ---------------------------------------------------------------------------
  // Properties of the formats

  /** Missing value reads as 0, missing decimals as 18, and decimals below 2 give a cent of 1. */
  lemma MissingInputsDefault(value: Option<nat>, decimals: int)
    ensures FormatUnits2dpFloor(None, Some(decimals)) == FormatUnits2dpFloor(Some(0), Some(decimals))
    ensures FormatUnits2dp(None, Some(decimals)) == FormatUnits2dp(Some(0), Some(decimals))
    ensures FormatUnits2dpFloor(value, None) == FormatUnits2dpFloor(value, Some(18))
    ensures FormatUnits2dp(value, None) == FormatUnits2dp(value, Some(18))
    ensures decimals <= 2 ==> Cent(decimals) == 1
  {
  }

  /** Floor never overstates: the floored hundredths cover `v` from below by less than one cent. */
  lemma FloorBrackets(v: nat, decimals: int)
    ensures FloorCents(v, decimals) * Cent(decimals) <= v < (FloorCents(v, decimals) + 1) * Cent(decimals)
  {
    DivBrackets(v, Cent(decimals));
  }

  lemma {:induction false} Pow10Even(n: nat)
    requires n > 0
    ensures Pow10(n) % 2 == 0
  {
    var k := 5 * Pow10(n - 1);
    assert Pow10(n) == 2 * k;
    EvenDouble(k);
  }

  lemma EvenDouble(k: int)
    ensures (2 * k) % 2 == 0
  {
  }

  lemma CentEvenOrOne(decimals: int)
    ensures Cent(decimals) == 1 || Cent(decimals) % 2 == 0
  {
    if CentExponent(decimals) > 0 {
      Pow10Even(CentExponent(decimals));
    }
  }

  /**
   * Half-up rounding gives the floored hundredths or one more, never fewer, and one
   * more exactly when the remainder is at least half a cent.
   */
  lemma RoundedIsFloorOrNext(v: nat, decimals: int)
    ensures RoundedCents(v, decimals) >= FloorCents(v, decimals)
    ensures RoundedCents(v, decimals) <= FloorCents(v, decimals) + 1
    ensures RoundedCents(v, decimals) == FloorCents(v, decimals) + 1 <==> 2 * (v % Cent(decimals)) >= Cent(decimals)
  {
    CentEvenOrOne(decimals);
    HalfUp(v, Cent(decimals));
  }

  /** The text is always "I.DD": digits, a dot, and exactly two digits. */
  lemma TwoDecimalPlaces(value: Option<nat>, decimals: Option<int>)
    ensures TwoPlaceText(FormatUnits2dpFloor(value, decimals))
    ensures TwoPlaceText(FormatUnits2dp(value, decimals))
  {
    var d := decimals.GetOr(DefaultDecimals);
    var f, r := FloorCents(value.GetOr(0), d), RoundedCents(value.GetOr(0), d);
    assert FormatUnits2dpFloor(value, decimals) == RenderCents(f);
    assert FormatUnits2dp(value, decimals) == RenderCents(r);
    RenderCentsShape(f);
    RenderCentsShape(r);
  }

  /**
   * Round trip: read back at its own `d >= 2` decimals, the floor text is `v` with
   * everything below a cent cut off, so at most `v`, and exactly `v` when `v` is a
   * whole number of cents.
   */
  lemma FloorRoundTrip(v: nat, d: int)
    requires d >= 2
    ensures ParseUnits(FormatUnits2dpFloor(Some(v), Some(d)), d) == Some(v / Cent(d) * Cent(d))
    ensures v / Cent(d) * Cent(d) <= v
    ensures v / Cent(d) * Cent(d) == v <==> v % Cent(d) == 0
  {
    var c := Cent(d);
    assert c == Pow10(d - 2);
    RenderCentsReads(FloorCents(v, d), d);
    DivBrackets(v, c);
  }

  /** Read back at its own `d >= 2` decimals, the rounded text is within half a cent of `v`. */
  lemma RoundedRoundTrip(v: nat, d: int)
    requires d >= 2
    ensures ParseUnits(FormatUnits2dp(Some(v), Some(d)), d) == Some(RoundedCents(v, d) * Cent(d))
    ensures RoundedCents(v, d) * Cent(d) <= v + Cent(d) / 2
    ensures v <= RoundedCents(v, d) * Cent(d) + Cent(d) / 2
  {
    var c := Cent(d);
    assert c == Pow10(d - 2);
    RenderCentsReads(RoundedCents(v, d), d);
    CentEvenOrOne(d);
    HalfUp(v, c);
    DivBrackets(v, c);
    var q, r := v / c, v % c;
    if 2 * r >= c {
      assert RoundedCents(v, d) * c == q * c + c;
    }
  }

  // ---------------------------------------------------------------------------
  // The 10^15 cent constant (see "Findings" in README.md)

  /** Hundredths counted in units ten times too small read back as more than the amount. */
  lemma TenfoldExceeds(v: int, u: int, c: int)
    requires u >= 1 && c >= 1 && v < (c + 1) * u
    ensures c * (10 * u) > v
  {
    assert c * (10 * u) == (c + 1) * u + (9 * c - 1) * u;
    MulMono(0, 9 * c - 1, u);
  }

  /** Counting `n >= v` (at least one unit `u`) in units of `u` and reading each as `10 * u` overshoots `v`. */
  lemma QuotTenfold(v: nat, n: nat, u: nat)
    requires u >= 1 && v <= n && n >= u
    ensures n / u * (10 * u) > v
  {
    DivBrackets(n, u);
    DivAbove(n, u, 1);
    TenfoldExceeds(v, u, n / u);
  }

  /** As written, `formatEther2dpFloor` reads back as ten times the floored amount. */
  lemma EtherFloorOverstates(v: nat)
    ensures ParseUnits(FormatEther2dpFloor(Some(v)), 18) == Some(v / WeiPerCentAsWritten * Pow10(16))
    ensures v >= WeiPerCentAsWritten ==> v / WeiPerCentAsWritten * Pow10(16) > v
    ensures v == WeiPerEther ==> ParseUnits(FormatEther2dpFloor(Some(v)), 18) == Some(10 * WeiPerEther)
  {
    EtherFloorReads(v);
    Pow10Literals();
    if v >= WeiPerCentAsWritten {
      QuotTenfold(v, v, WeiPerCentAsWritten);
    }
    if v == WeiPerEther {
      OneEtherTenfold();
    }
  }

  lemma EtherFloorReads(v: nat)
    ensures ParseUnits(FormatEther2dpFloor(Some(v)), 18) == Some(v / WeiPerCentAsWritten * Pow10(16))
  {
    var c := v / WeiPerCentAsWritten;
    assert FormatEther2dpFloor(Some(v)) == RenderCents(c);
    RenderCentsReads(c, 18);
  }

  lemma OneEtherTenfold()
    ensures WeiPerEther / WeiPerCentAsWritten * Pow10(16) == 10 * WeiPerEther
  {
    Pow10Literals();
    assert WeiPerEther / WeiPerCentAsWritten == 1000;
  }

  /** As written, `formatEther2dp` away from whole units also reads back ten times too large. */
  lemma EtherRoundedOverstates(v: nat)
    requires !NearWhole(v) && v >= WeiPerCentAsWritten
    ensures ParseUnits(FormatEther2dp(Some(v)), 18)
      == Some((v + WeiPerCentAsWritten / 2) / WeiPerCentAsWritten * Pow10(16))
    ensures (v + WeiPerCentAsWritten / 2) / WeiPerCentAsWritten * Pow10(16) > v
  {
    var c := (v + WeiPerCentAsWritten / 2) / WeiPerCentAsWritten;
    assert FormatEther2dp(Some(v)) == RenderCents(c);
    RenderCentsReads(c, 18);
    Pow10Literals();
    QuotTenfold(v, v + WeiPerCentAsWritten / 2, WeiPerCentAsWritten);
  }

  /** `formatEther2dpFloor` with the cent the comment intends, 10^16 wei. */
  function FormatEther2dpFloorCorrected(value: Option<nat>): (s: string)
    ensures ParseUnits(s, 18) == Some(value.GetOr(0) / Pow10(16) * Pow10(16))
    ensures value.GetOr(0) / Pow10(16) * Pow10(16) <= value.GetOr(0) < value.GetOr(0) / Pow10(16) * Pow10(16) + Pow10(16)
  {
    FloorRoundTrip(value.GetOr(0), 18);
    FloorBrackets(value.GetOr(0), 18);
    FormatUnits2dpFloor(value, Some(18))
  }

  /** `formatEther2dp` with the intended 10^16-wei cent: the text is within half a cent of the amount. */
  function FormatEther2dpCorrected(value: Option<nat>): (s: string)
    ensures NearWhole(value.GetOr(0)) ==> ParseUnits(s, 18) == Some(SnappedWhole(value.GetOr(0)) * WeiPerEther)
    ensures !NearWhole(value.GetOr(0)) ==>
      (exists x :: ParseUnits(s, 18) == Some(x) &&
        x <= value.GetOr(0) + Pow10(16) / 2 && value.GetOr(0) <= x + Pow10(16) / 2)
  {
    var v := value.GetOr(0);
    if NearWhole(v) then
      SnapReads(SnappedWhole(v));
      NatToString(SnappedWhole(v)) + ".00"
    else
      RoundedRoundTrip(v, 18);
      FormatUnits2dp(Some(v), Some(18))
  }

  /** Snapping moves the amount by at most 10^12 wei. */
  lemma SnapIsClose(v: nat)
    requires NearWhole(v)
    ensures SnappedWhole(v) * WeiPerEther <= v + SnapEpsilon
    ensures v <= SnappedWhole(v) * WeiPerEther + SnapEpsilon
  {
    var w, r := v / WeiPerEther, v % WeiPerEther;
    assert v == w * WeiPerEther + r;
    if r > SnapEpsilon {
      assert (w + 1) * WeiPerEther == w * WeiPerEther + WeiPerEther;
    }
  }
}
