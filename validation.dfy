/**
 * Amount comparisons and the decimal-input sanitiser (src/lib/validation.ts).
 * The sanitiser trims, keeps only digits and dots, splits at the dots and
 * rebuilds "I" or "I.F" with the fraction cut to the allowed number of digits.
 */
module Validation {
  import opened DecimalText

  // ---------------------------------------------------------------------------
  // Bigint comparisons

  predicate IsZero(v: int) {
    v == 0
  }

  predicate Lt(a: int, b: int) {
    a < b
  }

  predicate Gt(a: int, b: int) {
    a > b
  }

  /** Exactly one of `lt`, `gt` and `isZero` of the difference holds, and `gt` is `lt` flipped. */
  lemma CompareTrichotomy(a: int, b: int)
    ensures Gt(a, b) == Lt(b, a)
    ensures (Lt(a, b) && !Gt(a, b) && !IsZero(a - b))
         || (!Lt(a, b) && Gt(a, b) && !IsZero(a - b))
         || (!Lt(a, b) && !Gt(a, b) && IsZero(a - b))
  {
  }

  // ---------------------------------------------------------------------------
  // String.prototype.trim

  /** The characters JavaScript's `trim` removes: white space and line terminators. */
  predicate IsWhitespace(c: char) {
    var k := c as int;
    (0x09 <= k <= 0x0D) || k == 0x20 || k == 0xA0 || k == 0x1680
      || (0x2000 <= k <= 0x200A) || k == 0x2028 || k == 0x2029
      || k == 0x202F || k == 0x205F || k == 0x3000 || k == 0xFEFF
  }

  function TrimStart(s: string): (r: string)
    ensures |r| <= |s| && r == s[|s| - |r|..]
    ensures r != [] ==> !IsWhitespace(r[0])
    ensures forall i :: 0 <= i < |s| - |r| ==> IsWhitespace(s[i])
  {
    if s != [] && IsWhitespace(s[0]) then TrimStart(s[1..]) else s
  }

  function TrimEnd(s: string): (r: string)
    ensures |r| <= |s| && r == s[..|r|]
    ensures r != [] ==> !IsWhitespace(r[|r| - 1])
    ensures forall i :: |r| <= i < |s| ==> IsWhitespace(s[i])
  {
    if s != [] && IsWhitespace(s[|s| - 1]) then TrimEnd(s[..|s| - 1]) else s
  }

  /** `s.trim()`. */
  function Trim(s: string): string {
    TrimEnd(TrimStart(s))
  }

  /** Trimming leaves nothing exactly when the text is all white space. */
  lemma TrimEmpty(s: string)
    ensures Trim(s) == [] <==> forall i :: 0 <= i < |s| ==> IsWhitespace(s[i])
  {
    var t := TrimStart(s);
    if Trim(s) == [] {
      forall i | 0 <= i < |s|
        ensures IsWhitespace(s[i])
      {
        if i >= |s| - |t| {
          assert s[i] == t[i - (|s| - |t|)];
        }
      }
    } else {
      var r := Trim(s);
      assert r[0] == t[0];
      assert !IsWhitespace(s[|s| - |t|]);
    }
  }

  /** Text without white space at either end is left alone by `trim`. */
  lemma {:induction false} TrimNoWhitespace(s: string)
    requires forall i :: 0 <= i < |s| ==> !IsWhitespace(s[i])
    ensures Trim(s) == s
  {
  }

  // ---------------------------------------------------------------------------
  // value.replace(/[^0-9.]/g, '') and split('.')

  predicate IsDecimalChar(c: char) {
    IsDigit(c) || c == '.'
  }

  /**
   * Removes every character other than a digit or a dot, keeping the order of
   * the rest: text made only of digits and dots comes through whole, and the
   * result is shorter exactly when something else was typed.
   */
  function KeepDecimalChars(s: string): (r: string)
    ensures |r| <= |s|
    ensures forall i :: 0 <= i < |r| ==> IsDecimalChar(r[i])
    ensures (forall i :: 0 <= i < |s| ==> IsDecimalChar(s[i])) ==> r == s
    ensures |r| == |s| ==> forall i :: 0 <= i < |s| ==> IsDecimalChar(s[i])
  {
    if s == [] then []
    else
      var rest := KeepDecimalChars(s[1..]);
      assert forall i :: 1 <= i < |s| ==> s[1..][i - 1] == s[i];
      if IsDecimalChar(s[0]) then [s[0]] + rest
      else rest
  }

  /** The filter works character by character: filtering a concatenation filters each part. */
  lemma {:induction false} KeepDecimalCharsAppend(a: string, b: string)
    ensures KeepDecimalChars(a + b) == KeepDecimalChars(a) + KeepDecimalChars(b)
  {
    if a == [] {
      assert a + b == b;
    } else {
      assert (a + b)[0] == a[0];
      assert (a + b)[1..] == a[1..] + b;
      KeepDecimalCharsAppend(a[1..], b);
    }
  }

  /** Filtering drops a non-decimal character and keeps a digit or a dot. */
  lemma KeepDecimalCharsOne(c: char)
    ensures KeepDecimalChars([c]) == if IsDecimalChar(c) then [c] else []
  {
  }

  /** `parts[0]` of `s.split('.')`: everything before the first dot. */
  function FirstPart(s: string): string {
    s[..IndexOfDot(s)]
  }

  /** `parts[1]` of `s.split('.')`, with a missing part read as "": between the first and second dot. */
  function SecondPart(s: string): string {
    var k := IndexOfDot(s);
    if k < |s| then FirstPart(s[k + 1..]) else ""
  }

  /** `Math.max(0, maxDecimals)`. */
  function FractionLimit(maxDecimals: int): nat {
    if maxDecimals > 0 then maxDecimals else 0
  }

  /** `s.slice(0, n)` for `n >= 0`. */
  function Prefix(s: string, n: nat): (r: string)
    ensures |r| == if |s| <= n then |s| else n
    ensures r == s[..|r|]
  {
    if |s| <= n then s else s[..n]
  }

  /** `sanitizeDecimalInput(value, maxDecimals)`. */
  function SanitizeDecimalInput(value: string, maxDecimals: int): string {
    var trimmed := Trim(value);
    if trimmed == [] then "" else Rebuild(KeepDecimalChars(trimmed), FractionLimit(maxDecimals))
  }

  /** From the filtered text on: `parts[0] || "0"`, the cut `parts[1]`, and the template. */
  function Rebuild(kept: string, n: nat): string {
    var integer := if FirstPart(kept) != [] then FirstPart(kept) else "0";
    var decimals := Prefix(SecondPart(kept), n);
    if decimals != [] then integer + "." + decimals else integer
  }

  // ---------------------------------------------------------------------------
  // Properties of the sanitiser

  /** "I" or "I.F": a non-empty run of digits, then optionally a dot and 1..n more digits. */
  predicate WellFormedAmount(s: string, n: nat) {
    var k := IndexOfDot(s);
    k > 0 && AllDigits(s[..k])
      && (k < |s| ==> 1 <= |s| - k - 1 <= n && AllDigits(s[k + 1..]))
  }

  /** The output is empty exactly for blank input, and otherwise a well-formed amount. */
  lemma SanitizeShape(value: string, maxDecimals: int)
    ensures var r := SanitizeDecimalInput(value, maxDecimals);
      (r == [] <==> forall i :: 0 <= i < |value| ==> IsWhitespace(value[i]))
      && (r != [] ==> WellFormedAmount(r, FractionLimit(maxDecimals)))
  {
    TrimEmpty(value);
    if Trim(value) != [] {
      RebuildShape(KeepDecimalChars(Trim(value)), FractionLimit(maxDecimals));
    }
  }

  lemma RebuildShape(kept: string, n: nat)
    requires forall i :: 0 <= i < |kept| ==> IsDecimalChar(kept[i])
    ensures WellFormedAmount(Rebuild(kept, n), n)
  {
    var first := FirstPart(kept);
    var integer := if first != [] then first else "0";
    var decimals := Prefix(SecondPart(kept), n);
    NoDotBefore(kept);
    NoDotInSecond(kept);
    assert AllDigits(integer);
    if decimals != [] {
      assert AllDigits(decimals);
      WellFormedJoin(integer, decimals, n);
    } else {
      IndexOfDotNoDot(integer);
    }
  }

  /** Before the first dot a filtered string holds only digits. */
  lemma NoDotBefore(kept: string)
    requires forall i :: 0 <= i < |kept| ==> IsDecimalChar(kept[i])
    ensures AllDigits(FirstPart(kept))
  {
  }

  lemma NoDotInSecond(kept: string)
    requires forall i :: 0 <= i < |kept| ==> IsDecimalChar(kept[i])
    ensures AllDigits(SecondPart(kept))
  {
    var k := IndexOfDot(kept);
    if k < |kept| {
      NoDotBefore(kept[k + 1..]);
    }
  }

  lemma WellFormedJoin(integer: string, decimals: string, n: nat)
    requires integer != [] && AllDigits(integer) && AllDigits(decimals)
    requires 1 <= |decimals| <= n
    ensures WellFormedAmount(integer + "." + decimals, n)
  {
    var s := integer + "." + decimals;
    IndexOfDotAfterDigits(integer, decimals);
    assert s[..|integer|] == integer;
    assert s[|integer| + 1..] == decimals;
  }

  /**
   * The fraction is cut, never rounded: typed as digits `whole`, a dot, digits
   * `typed` and possibly a further dot with anything after it, the amount
   * keeps the first `max(0, maxDecimals)` digits of `typed`, drops the dot
   * when none are kept, and reads an empty whole part as "0".
   */
  lemma SanitizeTruncates(whole: string, typed: string, rest: string, maxDecimals: int)
    requires AllDigits(whole) && AllDigits(typed)
    requires rest == [] || rest[0] == '.'
    requires forall i :: 0 <= i < |rest| ==> IsDecimalChar(rest[i])
    ensures var n := FractionLimit(maxDecimals);
      var k := if |typed| <= n then |typed| else n;
      SanitizeDecimalInput(whole + "." + typed + rest, maxDecimals)
        == (if whole == [] then "0" else whole) + (if k == 0 then "" else "." + typed[..k])
  {
    var s := whole + "." + typed + rest;
    TypedParts(whole, typed, rest);
    SanitizeDecimalText(s, maxDecimals);
    RebuildParts(s, whole, typed, FractionLimit(maxDecimals));
  }

  /** `Rebuild` in terms of the two parts of the split. */
  lemma RebuildParts(kept: string, whole: string, typed: string, n: nat)
    requires FirstPart(kept) == whole && SecondPart(kept) == typed
    ensures var k := if |typed| <= n then |typed| else n;
      Rebuild(kept, n) == (if whole == [] then "0" else whole) + (if k == 0 then "" else "." + typed[..k])
  {
    var integer := if whole == [] then "0" else whole;
    if |typed| > n && n > 0 {
      assert integer + "." + typed[..n] == integer + ("." + typed[..n]);
    } else if |typed| <= n && typed != [] {
      assert typed[..|typed|] == typed;
      assert integer + "." + typed == integer + ("." + typed);
    } else {
      assert integer + "" == integer;
    }
  }

  /** Digits, a dot, digits and an optional dotted tail: decimal text that splits into the two digit runs. */
  lemma TypedParts(whole: string, typed: string, rest: string)
    requires AllDigits(whole) && AllDigits(typed)
    requires rest == [] || rest[0] == '.'
    requires forall i :: 0 <= i < |rest| ==> IsDecimalChar(rest[i])
    ensures var s := whole + "." + typed + rest;
      s != [] && (forall i :: 0 <= i < |s| ==> IsDecimalChar(s[i]))
      && FirstPart(s) == whole && SecondPart(s) == typed
  {
    var s := whole + "." + typed + rest;
    assert s == whole + "." + (typed + rest);
    forall i | 0 <= i < |s|
      ensures IsDecimalChar(s[i])
    {
      if i < |whole| {
        assert s[i] == whole[i];
      } else if i > |whole| && i < |whole| + 1 + |typed| {
        assert s[i] == typed[i - |whole| - 1];
      } else if i >= |whole| + 1 + |typed| {
        assert s[i] == rest[i - |whole| - 1 - |typed|];
      }
    }
    IndexOfDotAfterDigits(whole, typed + rest);
    assert s[..|whole|] == whole;
    assert s[|whole| + 1..] == typed + rest;
    if rest == [] {
      assert typed + rest == typed;
      IndexOfDotNoDot(typed);
    } else {
      assert typed + rest == typed + "." + rest[1..];
      IndexOfDotAfterDigits(typed, rest[1..]);
    }
    assert (typed + rest)[..|typed|] == typed;
  }

  /** Typed digits beyond the limit are dropped, not rounded: "1.239" at 2 places is "1.23". */
  lemma CutNotRounded()
    ensures SanitizeDecimalInput("1.239", 2) == "1.23"
  {
    var s := "1.239";
    assert IsDecimalChar(s[0]) && IsDecimalChar(s[1]) && IsDecimalChar(s[2])
        && IsDecimalChar(s[3]) && IsDecimalChar(s[4]);
    SanitizeDecimalText(s, 2);
    RebuildCut();
  }

  lemma RebuildCut()
    ensures Rebuild("1.239", 2) == "1.23"
  {
    var whole, typed := "1", "239";
    assert AllDigits(typed) by {
      assert IsDigit(typed[0]) && IsDigit(typed[1]) && IsDigit(typed[2]);
    }
    TypedParts(whole, typed, "");
    assert whole + "." + typed + "" == "1.239";
    RebuildParts("1.239", whole, typed, 2);
    assert typed[..2] == "23";
  }

  /** Text made of digits and dots survives trimming and filtering unchanged. */
  lemma DecimalTextKept(s: string)
    requires forall i :: 0 <= i < |s| ==> IsDecimalChar(s[i])
    ensures KeepDecimalChars(Trim(s)) == s
  {
    DecimalTextTrimmed(s);
  }

  lemma DecimalTextTrimmed(s: string)
    requires forall i :: 0 <= i < |s| ==> IsDecimalChar(s[i])
    ensures Trim(s) == s
  {
    assert forall i :: 0 <= i < |s| ==> !IsWhitespace(s[i]);
    TrimNoWhitespace(s);
  }

  /** On text already made of digits and dots only the split-and-rebuild step acts. */
  lemma SanitizeDecimalText(s: string, maxDecimals: int)
    requires s != [] && forall i :: 0 <= i < |s| ==> IsDecimalChar(s[i])
    ensures SanitizeDecimalInput(s, maxDecimals) == Rebuild(s, FractionLimit(maxDecimals))
  {
    DecimalTextKept(s);
  }

  /** A missing whole part becomes "0": ".5" reads as "0.5". */
  lemma LeadingDotGetsZero()
    ensures SanitizeDecimalInput(".5", 2) == "0.5"
  {
    var s := ".5";
    assert IsDecimalChar(s[0]) && IsDecimalChar(s[1]);
    SanitizeDecimalText(s, 2);
    RebuildLeadingDot();
  }

  lemma RebuildLeadingDot()
    ensures Rebuild(".5", 2) == "0.5"
  {
    var s := ".5";
    assert IndexOfDot(s) == 0;
    assert s[1..] == "5";
    IndexOfDotNoDot("5");
    assert FirstPart(s) == [] && SecondPart(s) == "5";
    assert "0" + "." + "5" == "0.5";
  }

  /** A dot with no digits after it is dropped: "5." reads as "5". */
  lemma TrailingDotDropped()
    ensures SanitizeDecimalInput("5.", 2) == "5"
  {
    var s := "5.";
    assert IsDecimalChar(s[0]) && IsDecimalChar(s[1]);
    SanitizeDecimalText(s, 2);
    RebuildTrailingDot();
  }

  lemma RebuildTrailingDot()
    ensures Rebuild("5.", 2) == "5"
  {
    var s := "5.";
    assert IndexOfDot(s) == 1 by {
      assert s[1..] == ".";
    }
    assert s[..1] == "5";
    assert s[2..] == [];
    assert FirstPart(s) == "5" && SecondPart(s) == [];
  }

  /** Sanitising twice is sanitising once. */
  lemma SanitizeIdempotent(value: string, maxDecimals: int)
    ensures var r := SanitizeDecimalInput(value, maxDecimals);
      SanitizeDecimalInput(r, maxDecimals) == r
  {
    var r := SanitizeDecimalInput(value, maxDecimals);
    var n := FractionLimit(maxDecimals);
    SanitizeShape(value, maxDecimals);
    if r != [] {
      WellFormedFixed(r, n, maxDecimals);
    }
  }

  /** A well-formed amount within the digit limit passes through the sanitiser unchanged. */
  lemma WellFormedFixed(s: string, n: nat, maxDecimals: int)
    requires n == FractionLimit(maxDecimals)
    requires WellFormedAmount(s, n)
    ensures SanitizeDecimalInput(s, maxDecimals) == s
  {
    WellFormedChars(s, n);
    SanitizeDecimalText(s, maxDecimals);
    RebuildWellFormed(s, n);
  }

  lemma WellFormedChars(s: string, n: nat)
    requires WellFormedAmount(s, n)
    ensures s != [] && forall i :: 0 <= i < |s| ==> IsDecimalChar(s[i])
  {
    var k := IndexOfDot(s);
    forall i | 0 <= i < |s|
      ensures IsDecimalChar(s[i])
    {
      if i < k {
        assert s[i] == s[..k][i];
      } else if i > k {
        assert s[i] == s[k + 1..][i - k - 1];
      }
    }
  }

  lemma RebuildWellFormed(s: string, n: nat)
    requires WellFormedAmount(s, n)
    ensures Rebuild(s, n) == s
  {
    var k := IndexOfDot(s);
    if k < |s| {
      var f := s[k + 1..];
      IndexOfDotNoDot(f);
      assert FirstPart(f) == f;
      assert SecondPart(s) == f;
      assert s == s[..k] + "." + f;
    } else {
      assert s[..k] == s;
    }
  }
}
