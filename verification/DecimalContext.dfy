/** Decimal arithmetic in a context of bounded precision, with Python's long division and quantising. */
module DecimalContext {
  import opened Common
  import opened Decimals

  /** How many digits a coefficient has. */
  function NumDigits(n: nat): (k: nat)
    ensures k >= 1
  {
    if n < 10 then 1 else 1 + NumDigits(n / 10)
  }

  lemma {:induction false} FewDigits(n: nat, k: nat)
    requires k >= 1 && n < Pow10(k)
    ensures NumDigits(n) <= k
  {
    if n >= 10 {
      assert k > 1 by {
        assert Pow10(0) == 1;
      }
      FewDigits(n / 10, k - 1);
    }
  }

  /** `divmod`. */
  function DivMod(a: nat, b: nat): (nat, nat)
    requires b > 0
  {
    (a / b, a % b)
  }

  /** A quotient and its remainder over `unit`, rounded half to even. */
  function RoundEven(q: nat, r: nat, unit: nat): nat {
    if 2 * r > unit || (2 * r == unit && q % 2 == 1) then q + 1 else q
  }

  /** The coefficient without its last `drop` digits, rounded half to even. */
  function HalfEven(c: nat, drop: nat): nat {
    var (q, r) := DivMod(c, Pow10(drop));
    RoundEven(q, r, Pow10(drop))
  }

  /** And rounded half up. */
  function HalfUp(c: nat, drop: nat): nat {
    var (q, r) := DivMod(c, Pow10(drop));
    if 2 * r >= Pow10(drop) then q + 1 else q
  }

  /** A result, rounded when it has more digits than the context keeps. */
  function Fix(d: Decimal, precision: nat): Decimal {
    var digits := NumDigits(d.coefficient);
    if digits <= precision then d
    else
      var drop := digits - precision;
      var c := HalfEven(d.coefficient, drop);
      if NumDigits(c) > precision then Decimal(d.negative, c / 10, d.exponent + drop + 1)
      else Decimal(d.negative, c, d.exponent + drop)
  }

  function Mul(a: Decimal, b: Decimal, precision: nat): Decimal {
    Fix(Decimal(a.negative != b.negative, a.coefficient * b.coefficient, a.exponent + b.exponent), precision)
  }

  /** The sum at the smaller exponent. A zero sum is negative only when both terms are. */
  function Add(a: Decimal, b: Decimal, precision: nat): Decimal {
    var low := Min(a.exponent, b.exponent);
    var sum := Scaled(a, low) + Scaled(b, low);
    if sum == 0 then Decimal(a.negative && b.negative, 0, low)
    else Fix(Decimal(sum < 0, if sum < 0 then -sum else sum, low), precision)
  }

  /** An exact quotient sheds zeros until its exponent is the ideal one. */
  function Shed(c: nat, exponent: int, ideal: int): (nat, int)
    decreases c
  {
    if exponent < ideal && c > 0 && c % 10 == 0 then Shed(c / 10, exponent + 1, ideal) else (c, exponent)
  }

  /** A coefficient with `n` more zeros. */
  function Raised(c: nat, n: nat): (r: nat)
    ensures c > 0 ==> r > 0
  {
    if c == 0 then 0
    else
      TimesPositive(c, Pow10(n));
      c * Pow10(n)
  }

  /** Long division to one digit more than the precision, with a sticky last digit when it is inexact. */
  function Div(a: Decimal, b: Decimal, precision: nat): Decimal
    requires b.coefficient > 0
  {
    var negative, ideal := a.negative != b.negative, a.exponent - b.exponent;
    if a.coefficient == 0 then Decimal(negative, 0, ideal)
    else
      var shift := NumDigits(b.coefficient) - NumDigits(a.coefficient) + precision + 1;
      var num := if shift >= 0 then Raised(a.coefficient, shift) else a.coefficient;
      var den := if shift >= 0 then b.coefficient else Raised(b.coefficient, -shift);
      var (q, r) := DivMod(num, den);
      if r != 0 then Fix(Decimal(negative, if q % 5 == 0 then q + 1 else q, ideal - shift), precision)
      else
        var (c, exponent) := Shed(q, ideal - shift, ideal);
        Fix(Decimal(negative, c, exponent), precision)
  }

  /** `quantize` with rounding half up; `None` when the result does not fit the precision. */
  function Quantize(d: Decimal, exponent: int, precision: nat): Option<Decimal> {
    var c := if exponent <= d.exponent then d.coefficient * Pow10(d.exponent - exponent)
             else HalfUp(d.coefficient, exponent - d.exponent);
    if NumDigits(c) > precision then None else Some(Decimal(d.negative, c, exponent))
  }

  // ----- operations that do not round -----

  lemma {:induction false} FixExact(d: Decimal, precision: nat)
    requires precision >= 1 && d.coefficient < Pow10(precision)
    ensures Fix(d, precision) == d
  {
    FewDigits(d.coefficient, precision);
  }

  lemma {:induction false} ShedStep(c: nat, k: nat)
    requires c > 0 && k > 0
    ensures c * Pow10(k) > 0 && c * Pow10(k) % 10 == 0 && c * Pow10(k) / 10 == c * Pow10(k - 1)
  {
    assert c * Pow10(k) == 10 * (c * Pow10(k - 1));
    TimesPositive(c, Pow10(k - 1));
  }

  lemma {:induction false} TimesPositive(a: nat, b: nat)
    requires a > 0 && b > 0
    ensures a * b > 0
  {
  }

  /** Zeros that were added are shed again. */
  lemma {:induction false} ShedAdded(c: nat, k: nat, exponent: int, ideal: int)
    requires c > 0 && exponent + k <= ideal
    ensures Shed(c * Pow10(k), exponent, ideal) == Shed(c, exponent + k, ideal)
  {
    if k > 0 {
      ShedStep(c, k);
      ShedAdded(c, k - 1, exponent + 1, ideal);
    }
  }

  /** Shedding keeps the value. */
  lemma {:induction false} ShedKeeps(c: nat, exponent: int, ideal: int)
    requires exponent <= ideal
    ensures var (m, e) := Shed(c, exponent, ideal);
            exponent <= e <= ideal && m <= c && m * Pow10(e - exponent) == c
    decreases c
  {
    if exponent < ideal && c > 0 && c % 10 == 0 {
      ShedKeeps(c / 10, exponent + 1, ideal);
      var (m, e) := Shed(c / 10, exponent + 1, ideal);
      assert Pow10(e - exponent) == 10 * Pow10(e - exponent - 1);
      TimesTen(m, Pow10(e - exponent - 1));
    }
  }

  lemma {:induction false} TimesTen(a: nat, b: nat)
    ensures a * (10 * b) == 10 * (a * b)
  {
  }
}
