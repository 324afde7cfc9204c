/**
 * Decimal digit strings: rendering a natural number the way a JavaScript
 * template literal renders a bigint, and a reference decimal parser that reads
 * such text back at a given number of fractional digits.  The parser is the
 * reading against which the display formats are proved to round-trip; it is
 * not the library parser the application calls.
 */
module DecimalText {
  import opened Wrappers

  function Pow10(n: nat): (r: nat)
    ensures r >= 1
  {
    if n == 0 then 1 else 10 * Pow10(n - 1)
  }

  lemma {:induction false} Pow10Add(a: nat, b: nat)
    ensures Pow10(a + b) == Pow10(a) * Pow10(b)
  {
    if a > 0 {
      Pow10Add(a - 1, b);
      assert Pow10(a + b) == 10 * Pow10(a - 1 + b);
    }
  }

  predicate IsDigit(c: char) {
    '0' <= c <= '9'
  }

  predicate AllDigits(s: string) {
    forall i :: 0 <= i < |s| ==> IsDigit(s[i])
  }

  function DigitChar(k: nat): (c: char)
    requires k < 10
    ensures IsDigit(c)
  {
    ('0' as int + k) as char
  }

  function DigitValue(c: char): (k: nat)
    requires IsDigit(c)
    ensures k < 10
  {
    c as int - '0' as int
  }

  /** `${n}` for a non-negative bigint: most significant digit first, no leading zeros. */
  function NatToString(n: nat): (s: string)
    ensures 1 <= |s| && AllDigits(s)
    ensures |s| > 1 ==> s[0] != '0'
  {
    if n < 10 then [DigitChar(n)] else NatToString(n / 10) + [DigitChar(n % 10)]
  }

  /** The number a string of decimal digits denotes (leading zeros allowed; "" is 0). */
  function DigitsValue(s: string): nat
    requires AllDigits(s)
  {
    if s == [] then 0 else DigitsValue(s[..|s| - 1]) * 10 + DigitValue(s[|s| - 1])
  }

  lemma {:induction false} NatToStringRoundTrip(n: nat)
    ensures DigitsValue(NatToString(n)) == n
  {
    var s := NatToString(n);
    if n >= 10 {
      NatToStringRoundTrip(n / 10);
      assert s[..|s| - 1] == NatToString(n / 10);
    }
  }

  /** `s.padStart(2, '0')`. */
  function PadStart2(s: string): (r: string)
    ensures |r| == if |s| >= 2 then |s| else 2
    ensures r[|r| - |s|..] == s
    ensures forall i :: 0 <= i < |r| - |s| ==> r[i] == '0'
  {
    if |s| >= 2 then s else if |s| == 1 then "0" + s else "00"
  }

  lemma TwoDigits(n: nat)
    requires n < 100
    ensures |PadStart2(NatToString(n))| == 2
    ensures AllDigits(PadStart2(NatToString(n)))
    ensures DigitsValue(PadStart2(NatToString(n))) == n
  {
    var s := NatToString(n);
    var p := PadStart2(s);
    NatToStringRoundTrip(n);
    if n < 10 {
      assert p == ['0', s[0]];
      assert p[..1] == "0";
      assert DigitsValue(p[..1]) == 0 by { assert p[..1][..0] == []; }
    } else {
      assert p == s;
    }
  }

  /** Position of the first '.', or |s| when there is none (the split point of `s.split('.')`). */
  function IndexOfDot(s: string): (k: nat)
    ensures k <= |s|
    ensures k < |s| ==> s[k] == '.'
    ensures forall i :: 0 <= i < k ==> s[i] != '.'
  {
    if s == [] then 0 else if s[0] == '.' then 0 else 1 + IndexOfDot(s[1..])
  }

  lemma {:induction false} IndexOfDotNoDot(s: string)
    requires forall i :: 0 <= i < |s| ==> s[i] != '.'
    ensures IndexOfDot(s) == |s|
  {
    if s != [] {
      IndexOfDotNoDot(s[1..]);
    }
  }

  lemma IndexOfDotAfterDigits(a: string, b: string)
    requires AllDigits(a)
    ensures IndexOfDot(a + "." + b) == |a|
  {
    var s := a + "." + b;
    assert s[|a|] == '.';
    assert forall i :: 0 <= i < |a| ==> s[i] == a[i];
  }

  /**
   * Reads "I", "I." or "I.F" (I and F digit strings, either possibly empty) as an
   * amount with `d` fractional digits: fractional digits beyond `d` are dropped
   * and missing ones count as zeros.  Any other text has no reading.
   */
  function ParseUnits(s: string, d: nat): Option<nat> {
    var k := IndexOfDot(s);
    var whole := s[..k];
    var frac := if k < |s| then s[k + 1..] else "";
    if !AllDigits(whole) || !AllDigits(frac) then None
    else
      var f := if |frac| <= d then frac else frac[..d];
      Some(DigitsValue(whole) * Pow10(d) + DigitsValue(f) * Pow10(d - |f|))
  }

  /** Renders a count of hundredths as `${cents / 100}.${pad2(cents % 100)}`. */
  function RenderCents(cents: nat): string {
    NatToString(cents / 100) + "." + PadStart2(NatToString(cents % 100))
  }

  lemma ParseWholeDotFraction(a: string, b: string, d: nat)
    requires AllDigits(a) && AllDigits(b) && |b| <= d
    ensures ParseUnits(a + "." + b, d) == Some(DigitsValue(a) * Pow10(d) + DigitsValue(b) * Pow10(d - |b|))
  {
    var s := a + "." + b;
    IndexOfDotAfterDigits(a, b);
    assert s[..|a|] == a;
    assert s[|a| + 1..] == b;
  }

  lemma CentsSplit(x: int, y: int, q: int, m: int, p: int, c: int)
    requires x == q && y == m && p == 100 * c
    ensures x * p + y * c == (q * 100 + m) * c
  {
    assert q * p == (q * 100) * c;
  }

  lemma Pow10Hundred(d: nat)
    requires d >= 2
    ensures Pow10(d) == 100 * Pow10(d - 2)
  {
    Pow10Add(2, d - 2);
    assert Pow10(2) == 100;
  }

  lemma PartsRead(q: nat, m: nat, d: nat, text: string)
    requires m < 100 && d >= 2
    requires text == NatToString(q) + "." + PadStart2(NatToString(m))
    ensures ParseUnits(text, d) == Some((q * 100 + m) * Pow10(d - 2))
  {
    var a, b := NatToString(q), PadStart2(NatToString(m));
    TwoDigits(m);
    NatToStringRoundTrip(q);
    Pow10Hundred(d);
    ParseWholeDotFraction(a, b, d);
    CentsSplit(DigitsValue(a), DigitsValue(b), q, m, Pow10(d), Pow10(d - 2));
  }

  /** Read at `d >= 2` fractional digits, rendered hundredths are worth `cents * 10^(d-2)`. */
  lemma RenderCentsReads(cents: nat, d: nat)
    requires d >= 2
    ensures ParseUnits(RenderCents(cents), d) == Some(cents * Pow10(d - 2))
  {
    var q, m := cents / 100, cents % 100;
    PartsRead(q, m, d, RenderCents(cents));
    assert q * 100 + m == cents;
  }

  /** "I.DD": at least one digit, a dot, exactly two digits. */
  predicate TwoPlaceText(s: string) {
    |s| >= 4 && s[|s| - 3] == '.' && AllDigits(s[..|s| - 3]) && AllDigits(s[|s| - 2..])
  }

  lemma RenderCentsShape(cents: nat)
    ensures TwoPlaceText(RenderCents(cents))
  {
    var a, b := NatToString(cents / 100), PadStart2(NatToString(cents % 100));
    TwoDigits(cents % 100);
    var s := a + "." + b;
    assert s[..|s| - 3] == a;
    assert s[|s| - 2..] == b;
  }

  lemma RenderCentsNonzero(cents: nat)
    ensures RenderCents(cents) != "0"
  {
    assert |RenderCents(cents)| >= 4;
  }
}
