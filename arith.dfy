/** Facts about integer division and multiplication that the solver needs spelled out. */
module Arith {

  /** Floor quotient of naturals (bigint `/` on non-negative operands). */
  function Quot(v: nat, c: nat): nat
    requires c >= 1
  {
    v / c
  }

  lemma MulMono(a: int, b: int, c: int)
    requires a <= b && c >= 0
    ensures a * c <= b * c
  {
    assert b * c - a * c == (b - a) * c;
  }

  lemma DivUnique(v: int, c: int, q: int, r: int)
    requires c >= 1 && 0 <= r < c && v == q * c + r
    ensures v / c == q && v % c == r
  {
    var q', r' := v / c, v % c;
    assert v == q' * c + r';
    assert (q' + 1) * c == q' * c + c;
    assert (q + 1) * c == q * c + c;
    MulCancel(q, q' + 1, c);
    MulCancel(q', q + 1, c);
  }

  /** Multiplying by a positive factor keeps a strict order, read backwards. */
  lemma MulCancel(a: int, b: int, c: int)
    requires c >= 1
    ensures a * c < b * c ==> a < b
  {
    if a >= b {
      MulMono(b, a, c);
    }
  }

  lemma DivBrackets(v: int, c: int)
    requires c >= 1
    ensures (v / c) * c <= v < (v / c + 1) * c
    ensures v == (v / c) * c + v % c
  {
    assert (v / c + 1) * c == (v / c) * c + c;
  }

  /** v < q * c + c (strictly below the next multiple) forces v / c <= q. */
  lemma DivBelow(v: int, c: int, q: int)
    requires c >= 1 && v < (q + 1) * c
    ensures v / c <= q
  {
    DivBrackets(v, c);
    if v / c > q {
      MulMono(q + 1, v / c, c);
    }
  }

  /** q * c <= v forces q <= v / c. */
  lemma DivAbove(v: int, c: int, q: int)
    requires c >= 1 && q * c <= v
    ensures q <= v / c
  {
    DivBrackets(v, c);
    if q > v / c {
      MulMono(v / c + 1, q, c);
    }
  }

  /** A floored quotient is below `t` exactly when the dividend is below `t` divisors. */
  lemma QuotBelowIff(v: int, c: int, t: int)
    requires c >= 1
    ensures v / c < t <==> v < t * c
  {
    if v < t * c {
      assert v < ((t - 1) + 1) * c;
      DivBelow(v, c, t - 1);
    } else {
      DivAbove(v, c, t);
    }
  }

  lemma DivMono(a: int, b: int, c: int)
    requires c >= 1 && a <= b
    ensures a / c <= b / c
  {
    DivBrackets(a, c);
    DivAbove(b, c, a / c);
  }

  /** Adding half of an even (or unit) divisor before dividing rounds half up. */
  lemma HalfUp(v: nat, c: nat)
    requires c >= 1 && (c == 1 || c % 2 == 0)
    ensures (v + c / 2) / c == v / c || (v + c / 2) / c == v / c + 1
    ensures (v + c / 2) / c == v / c + 1 <==> 2 * (v % c) >= c
  {
    var h := c / 2;
    var q, r := v / c, v % c;
    DivBrackets(v, c);
    if r + h >= c {
      assert v + h == (q + 1) * c + (r + h - c);
      DivUnique(v + h, c, q + 1, r + h - c);
    } else {
      DivUnique(v + h, c, q, r + h);
    }
  }
}
