/** Finite decimals, their fixed-point text, and the exact reading of a number token. */
module Decimals {
  import opened Common

  /** A finite `Decimal`: sign, integer coefficient, power of ten. */
  datatype Decimal = Decimal(negative: bool, coefficient: nat, exponent: int)

  // ----- numeric equality -----

  function Pow10(n: nat): nat
    ensures Pow10(n) >= 1
  {
    if n == 0 then 1 else 10 * Pow10(n - 1)
  }

  function Signed(d: Decimal): int {
    if d.negative then -(d.coefficient as int) else d.coefficient
  }

  /** Numeric equality, as `Decimal.__eq__` decides it: the coefficients on the smaller exponent. */
  predicate NumEq(a: Decimal, b: Decimal) {
    if a.exponent <= b.exponent then Signed(a) == Signed(b) * Pow10(b.exponent - a.exponent)
    else Signed(b) == Signed(a) * Pow10(a.exponent - b.exponent)
  }

  /** The one representative of a numeric value: no trailing zero in the coefficient, one zero. */
  function Normalize(d: Decimal): Decimal
    decreases d.coefficient
  {
    if d.coefficient == 0 then Decimal(false, 0, 0)
    else if d.coefficient % 10 == 0 then Normalize(Decimal(d.negative, d.coefficient / 10, d.exponent + 1))
    else d
  }

  predicate IsNormal(d: Decimal) {
    (d.coefficient == 0 && !d.negative && d.exponent == 0) || d.coefficient % 10 != 0
  }

  lemma {:induction false} NormalizeIsNormal(d: Decimal)
    ensures IsNormal(Normalize(d))
    decreases d.coefficient
  {
    if d.coefficient != 0 && d.coefficient % 10 == 0 {
      NormalizeIsNormal(Decimal(d.negative, d.coefficient / 10, d.exponent + 1));
    }
  }

  lemma {:induction false} PowAdd(a: nat, b: nat)
    ensures Pow10(a + b) == Pow10(a) * Pow10(b)
  {
    if a > 0 {
      PowAdd(a - 1, b);
    }
  }

  /** The coefficient of `d` at the exponent `low`. */
  function Scaled(d: Decimal, low: int): int
    requires low <= d.exponent
  {
    Signed(d) * Pow10(d.exponent - low)
  }

  lemma {:induction false} ScaledLower(d: Decimal, low: int, lower: int)
    requires lower <= low <= d.exponent
    ensures Scaled(d, lower) == Scaled(d, low) * Pow10(low - lower)
  {
    PowAdd(d.exponent - low, low - lower);
    assert Signed(d) * (Pow10(d.exponent - low) * Pow10(low - lower))
        == (Signed(d) * Pow10(d.exponent - low)) * Pow10(low - lower);
  }

  lemma {:induction false} CancelFactor(x: int, y: int, p: int)
    requires p > 0 && x * p == y * p
    ensures x == y
  {
    assert (x - y) * p == 0;
  }

  /** Numeric equality is equality at any common exponent. */
  lemma {:induction false} NumEqScaled(a: Decimal, b: Decimal, low: int)
    requires low <= a.exponent && low <= b.exponent
    ensures NumEq(a, b) <==> Scaled(a, low) == Scaled(b, low)
  {
    var m := Min(a.exponent, b.exponent);
    ScaledLower(a, m, low);
    ScaledLower(b, m, low);
    assert NumEq(a, b) <==> Scaled(a, m) == Scaled(b, m);
    if Scaled(a, low) == Scaled(b, low) {
      CancelFactor(Scaled(a, m), Scaled(b, m), Pow10(m - low));
    }
  }

  /** Moving a trailing zero of the coefficient into the exponent keeps the value. */
  lemma {:induction false} ScaledTen(d: Decimal, low: int)
    requires d.coefficient % 10 == 0 && low <= d.exponent
    ensures Scaled(d, low) == Scaled(Decimal(d.negative, d.coefficient / 10, d.exponent + 1), low)
  {
    var p := Pow10(d.exponent - low);
    var s := Signed(Decimal(d.negative, d.coefficient / 10, d.exponent + 1));
    assert Signed(d) == 10 * s;
    assert (10 * s) * p == s * (10 * p);
  }

  lemma {:induction false} NormalizeKeepsValue(d: Decimal)
    ensures NumEq(d, Normalize(d))
    decreases d.coefficient
  {
    var n := Normalize(d);
    if d.coefficient != 0 && d.coefficient % 10 == 0 {
      var shorter := Decimal(d.negative, d.coefficient / 10, d.exponent + 1);
      NormalizeKeepsValue(shorter);
      var low := Min(d.exponent, n.exponent);
      NumEqScaled(shorter, n, low);
      NumEqScaled(d, n, low);
      ScaledTen(d, low);
    }
  }

  /** Two normal decimals with the same value are the same. */
  lemma {:induction false} NormalUnique(a: Decimal, b: Decimal)
    requires IsNormal(a) && IsNormal(b) && NumEq(a, b)
    ensures a == b
  {
    if a.exponent < b.exponent {
      NormalShorter(a, b);
    } else if b.exponent < a.exponent {
      NormalShorter(b, a);
    }
  }

  lemma {:induction false} NormalShorter(a: Decimal, b: Decimal)
    requires IsNormal(a) && IsNormal(b) && a.exponent < b.exponent
    ensures !NumEq(a, b)
  {
    var p := Pow10(b.exponent - a.exponent - 1);
    var s := Signed(b) * p;
    assert Signed(b) * (10 * p) == 10 * s;
    if NumEq(a, b) {
      assert Signed(a) == 10 * s;
      assert a.coefficient % 10 == 0;
      assert a.coefficient == 0;
      assert Signed(b) != 0;
      assert s != 0 by {
        if s == 0 {
          CancelFactor(Signed(b), 0, p);
        }
      }
    }
  }

  /** The normal form decides numeric equality. */
  lemma {:induction false} NormalizeIff(a: Decimal, b: Decimal)
    ensures Normalize(a) == Normalize(b) <==> NumEq(a, b)
  {
    NormalizeKeepsValue(a);
    NormalizeKeepsValue(b);
    NormalizeIsNormal(a);
    NormalizeIsNormal(b);
    var na, nb := Normalize(a), Normalize(b);
    var low := Min(Min(a.exponent, b.exponent), Min(na.exponent, nb.exponent));
    NumEqScaled(a, na, low);
    NumEqScaled(b, nb, low);
    NumEqScaled(a, b, low);
    NumEqScaled(na, nb, low);
    if NumEq(a, b) {
      NormalUnique(na, nb);
    }
  }
}
