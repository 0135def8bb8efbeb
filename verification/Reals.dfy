/** Extremes, products and quotients of reals, one small fact at a time. */
module Reals {

  function Min(x: real, y: real): real { if x <= y then x else y }
  function Max(x: real, y: real): real { if x >= y then x else y }
  function Abs(x: real): real { if x < 0.0 then -x else x }

  /** Multiplication under a name, so that proofs can treat a product as one number. */
  function Times(x: real, y: real): real { x * y }

  lemma TimesPositive(c: real, d: real)
    requires c > 0.0 && d > 0.0
    ensures Times(c, d) > 0.0
  {
  }

  lemma TimesMinus(c: real, a: real, b: real)
    ensures Times(c, a - b) == Times(c, a) - Times(c, b)
  {
  }

  lemma TimesPlus(c: real, a: real, b: real)
    ensures Times(c, a + b) == Times(c, a) + Times(c, b)
  {
  }

  lemma TimesLess(c: real, a: real, b: real)
    requires c > 0.0
    ensures a < b <==> Times(c, a) < Times(c, b)
  {
    hide Times;
    TimesMinus(c, a, b);
    TimesMinus(c, b, a);
    if a < b {
      TimesPositive(c, b - a);
    } else if b < a {
      TimesPositive(c, a - b);
    }
  }

  lemma TimesMono(c: real, a: real, b: real)
    requires c >= 0.0 && a <= b
    ensures Times(c, a) <= Times(c, b)
  {
    if c > 0.0 && a < b {
      TimesLess(c, a, b);
    }
  }

  lemma TimesSwap(a: real, b: real, c: real)
    ensures Times(a, Times(b, c)) == Times(b, Times(a, c)) == Times(Times(a, b), c)
  {
  }

  lemma TimesUnits(c: real)
    ensures Times(c, 0.0) == 0.0 && Times(0.0, c) == 0.0 && Times(c, 1.0) == c && Times(c, 2.0) == 2.0 * c
  {
  }

  lemma Quotient(a: real, b: real, q: real)
    requires b > 0.0
    ensures (a / b > q <==> a > q * b) && (a / b < q <==> a < q * b)
  {
    var r := a / b;
    assert r * b == a;
    TimesLess(b, q, r);
    TimesLess(b, r, q);
  }

  lemma QuotientNeg(a: real, b: real, q: real)
    requires b < 0.0
    ensures (a / b > q <==> a < q * b) && (a / b < q <==> a > q * b)
  {
    var r := a / b;
    assert r * b == a;
    TimesLess(-b, q, r);
    TimesLess(-b, r, q);
  }
}
