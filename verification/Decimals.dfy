/** Arbitrary-precision decimals and the removal of trailing zeros. */
module Decimals {

  /** `digits` scaled down by ten to the power `scale`. */
  datatype Decimal = Decimal(digits: int, scale: int)

  function Pow10(k: nat): (r: nat)
    ensures r > 0
  {
    if k == 0 then 1 else 10 * Pow10(k - 1)
  }

  ghost function Abs(x: int): nat { if x < 0 then -x else x }

  /** Trailing zeros are removed from the digits; zero has one form. */
  function Normalized(d: Decimal): Decimal
    decreases Abs(d.digits)
  {
    if d.digits == 0 then Decimal(0, 0)
    else if d.digits % 10 == 0 then Normalized(Decimal(d.digits / 10, d.scale - 1))
    else d
  }

  /** The two decimals denote the same rational number. */
  ghost predicate SameNumber(a: Decimal, b: Decimal) {
    if a.scale <= b.scale then a.digits * Pow10(b.scale - a.scale) == b.digits
    else b.digits * Pow10(a.scale - b.scale) == a.digits
  }

  lemma {:induction false} SameNumberScaled(a: Decimal, b: Decimal)
    requires b.digits % 10 == 0
    ensures SameNumber(a, b) <==> SameNumber(a, Decimal(b.digits / 10, b.scale - 1))
  {
    if a.scale < b.scale {
      assert Pow10(b.scale - a.scale) == 10 * Pow10(b.scale - 1 - a.scale);
      Regroup(a.digits, Pow10(b.scale - 1 - a.scale));
    } else {
      assert Pow10(a.scale - b.scale + 1) == 10 * Pow10(a.scale - b.scale);
      Regroup(b.digits / 10, Pow10(a.scale - b.scale));
      assert b.digits / 10 * Pow10(a.scale - b.scale + 1) == b.digits * Pow10(a.scale - b.scale) by {
        assert b.digits == b.digits / 10 * 10;
      }
    }
  }

  lemma Regroup(x: int, k: int)
    ensures x * (10 * k) == 10 * (x * k)
    ensures x * (10 * k) == (x * 10) * k
  {
  }

  lemma {:induction false} NormalizedSame(a: Decimal, b: Decimal)
    ensures SameNumber(a, b) <==> SameNumber(a, Normalized(b))
    decreases Abs(b.digits)
  {
    if b.digits == 0 {
      ZeroProduct(a.digits, if a.scale <= b.scale then Pow10(b.scale - a.scale) else 1);
      ZeroProduct(a.digits, if a.scale <= 0 then Pow10(-a.scale) else 1);
    } else if b.digits % 10 == 0 {
      SameNumberScaled(a, b);
      NormalizedSame(a, Decimal(b.digits / 10, b.scale - 1));
    }
  }

  lemma ZeroProduct(x: int, k: int)
    requires k > 0
    ensures x * k == 0 <==> x == 0
  {
  }

  lemma MultipleOfTen(x: int, k: nat)
    requires k > 0
    ensures x * Pow10(k) % 10 == 0
  {
    var m := x * Pow10(k - 1);
    Regroup(x, Pow10(k - 1));
    assert x * Pow10(k) == 10 * m;
    assert 10 * m % 10 == 0;
  }

  /** Two forms without trailing zeros denote the same number only if they are identical. */
  lemma StrippedUnique(a: Decimal, b: Decimal)
    requires a.digits % 10 != 0 && b.digits % 10 != 0 && SameNumber(a, b)
    ensures a == b
  {
    MultipleOfTen(a.digits, if a.scale < b.scale then b.scale - a.scale else 1);
    MultipleOfTen(b.digits, if b.scale < a.scale then a.scale - b.scale else 1);
    assert Pow10(0) == 1;
  }

  lemma {:induction false} NormalizedStripped(d: Decimal)
    ensures Normalized(d) == Decimal(0, 0) || Normalized(d).digits % 10 != 0
    ensures d.digits != 0 ==> Normalized(d).digits % 10 != 0
    ensures d.digits == 0 ==> Normalized(d) == Decimal(0, 0)
    decreases Abs(d.digits)
  {
    if d.digits != 0 && d.digits % 10 == 0 { NormalizedStripped(Decimal(d.digits / 10, d.scale - 1)); }
  }

  lemma SameNumberSymmetric(a: Decimal, b: Decimal)
    ensures SameNumber(a, b) <==> SameNumber(b, a)
  {
  }

  /** Equal normal forms exactly for equal numbers. */
  lemma NormalizedDecides(a: Decimal, b: Decimal)
    ensures Normalized(a) == Normalized(b) <==> SameNumber(a, b)
  {
    NormalizedSame(a, b);
    SameNumberSymmetric(a, Normalized(b));
    NormalizedSame(Normalized(b), a);
    NormalizedStripped(a);
    NormalizedStripped(b);
    var x, y := Normalized(a), Normalized(b);
    assert SameNumber(a, b) <==> SameNumber(y, x);
    if SameNumber(y, x) {
      if y.digits == 0 {
        ZeroProduct(x.digits, if x.scale <= y.scale then Pow10(y.scale - x.scale) else 1);
      } else if x.digits == 0 {
        ZeroProduct(y.digits, if y.scale <= x.scale then Pow10(x.scale - y.scale) else 1);
      } else {
        StrippedUnique(y, x);
      }
    }
  }
}
