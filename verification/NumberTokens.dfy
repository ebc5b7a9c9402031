/**
 Fixed-point number tokens and their exact reading by the number grammar of section 6 of
 RFC 8259. A token is decided by the numeric value alone, and reading it gives that value back.
 */
module NumberTokens {
  import opened Common
  import opened Decimals

  predicate IsDigit(c: char) {
    '0' <= c <= '9'
  }

  predicate AllDigits(s: string) {
    forall i :: 0 <= i < |s| ==> IsDigit(s[i])
  }

  function DigitChar(d: nat): (c: char)
    requires d < 10
    ensures IsDigit(c) && DigitValue(c) == d
  {
    ('0' as int + d) as char
  }

  function DigitValue(c: char): (d: nat)
    requires IsDigit(c)
    ensures d < 10
  {
    c as int - '0' as int
  }

  /** The decimal digits of a natural number, with no leading zero. */
  function Digits(n: nat): (s: string)
    ensures |s| >= 1 && AllDigits(s)
  {
    if n < 10 then [DigitChar(n)] else Digits(n / 10) + [DigitChar(n % 10)]
  }

  function Value(s: string): nat
    requires AllDigits(s)
  {
    if s == "" then 0 else 10 * Value(s[..|s| - 1]) + DigitValue(s[|s| - 1])
  }

  function Zeros(n: nat): (s: string)
    ensures |s| == n && AllDigits(s)
  {
    if n == 0 then "" else "0" + Zeros(n - 1)
  }

  function PadLeft(s: string, width: nat): string {
    if |s| >= width then s else Zeros(width - |s|) + s
  }

  /** `rstrip` of one character. */
  function StripRight(s: string, c: char): string {
    if s != "" && s[|s| - 1] == c then StripRight(s[..|s| - 1], c) else s
  }

  function Sign(negative: bool): string {
    if negative then "-" else ""
  }

  /** The digits with a point `scale` places from the right, at least one digit before it. */
  function WithPoint(digits: string, scale: nat): string {
    var padded := PadLeft(digits, scale + 1);
    padded[..|padded| - scale] + "." + padded[|padded| - scale..]
  }

  /** `format(value, "f")`, given the digits of the coefficient. */
  function FixedText(negative: bool, digits: string, exponent: int): string {
    if exponent >= 0 then Sign(negative) + (if digits == "0" then "0" else digits + Zeros(exponent))
    else Sign(negative) + WithPoint(digits, -exponent)
  }

  function Stripped(text: string): string {
    var short := if '.' in text then StripRight(StripRight(text, '0'), '.') else text;
    if short == "-0" || short == "" || short == "-" then "0" else short
  }

  /** `_number_token`. */
  function NumberToken(d: Decimal): string {
    Stripped(FixedText(d.negative, Digits(d.coefficient), d.exponent))
  }

  // ----- digits -----

  lemma {:induction false} ValueSnoc(s: string, c: char)
    requires AllDigits(s) && IsDigit(c)
    ensures AllDigits(s + [c]) && Value(s + [c]) == 10 * Value(s) + DigitValue(c)
  {
    assert (s + [c])[..|s|] == s;
  }

  lemma {:induction false} ValueOfDigits(n: nat)
    ensures Value(Digits(n)) == n
  {
    if n >= 10 {
      ValueOfDigits(n / 10);
      ValueSnoc(Digits(n / 10), DigitChar(n % 10));
    } else {
      ValueSnoc("", DigitChar(n));
      assert "" + [DigitChar(n)] == [DigitChar(n)];
    }
  }

  lemma {:induction false} DigitsStart(n: nat)
    ensures n > 0 ==> Digits(n)[0] != '0'
    ensures n == 0 ==> Digits(n) == "0"
  {
    if n >= 10 {
      DigitsStart(n / 10);
    }
  }

  lemma {:induction false} ValueZeros(n: nat, s: string)
    requires AllDigits(s)
    ensures AllDigits(Zeros(n) + s) && Value(Zeros(n) + s) == Value(s)
  {
    if s == "" {
      assert Zeros(n) + s == Zeros(n);
      if n > 0 {
        ZerosSnoc(n - 1);
        ValueZeros(n - 1, "");
        assert Zeros(n - 1) + "" == Zeros(n - 1);
        ValueSnoc(Zeros(n - 1), '0');
      }
    } else {
      ValueZeros(n, s[..|s| - 1]);
      ValueSnoc(Zeros(n) + s[..|s| - 1], s[|s| - 1]);
      assert Zeros(n) + s == Zeros(n) + s[..|s| - 1] + [s[|s| - 1]];
    }
  }

  lemma {:induction false} ZerosSnoc(n: nat)
    ensures Zeros(n + 1) == Zeros(n) + "0"
  {
    if n > 0 {
      ZerosSnoc(n - 1);
    }
  }

  lemma {:induction false} TenTimes(v: nat, p: nat)
    ensures 10 * (v * p) == v * (10 * p)
  {
  }

  lemma {:induction false} ThenZerosSnoc(s: string, n: nat)
    requires n > 0
    ensures s + Zeros(n) == s + Zeros(n - 1) + "0"
  {
    ZerosSnoc(n - 1);
  }

  lemma {:induction false} ValueThenZeros(s: string, n: nat)
    requires AllDigits(s)
    ensures AllDigits(s + Zeros(n)) && Value(s + Zeros(n)) == Value(s) * Pow10(n)
  {
    if n == 0 {
      assert s + Zeros(0) == s;
    } else {
      ValueThenZeros(s, n - 1);
      ThenZerosSnoc(s, n);
      ValueSnoc(s + Zeros(n - 1), '0');
      TenTimes(Value(s), Pow10(n - 1));
    }
  }

  // ----- the token depends on the value alone -----

  lemma {:induction false} StripSnoc(s: string, c: char)
    ensures StripRight(s + [c], c) == StripRight(s, c)
  {
    assert (s + [c])[..|s|] == s;
  }

  lemma {:induction false} DigitsOfTen(n: nat)
    requires n > 0 && n % 10 == 0
    ensures Digits(n) == Digits(n / 10) + "0"
  {
  }

  lemma {:induction false} NoDot(negative: bool, digits: string, exponent: nat)
    requires AllDigits(digits)
    ensures '.' !in FixedText(negative, digits, exponent)
  {
  }

  /** A whole number followed by `.0` strips to the whole number. */
  lemma {:induction false} StripPointZero(text: string)
    requires text != "" && IsDigit(text[|text| - 1])
    ensures StripRight(StripRight(text + "." + "0", '0'), '.') == text
  {
    StripSnoc(text + ".", '0');
    assert StripRight(text + ".", '0') == text + ".";
    StripSnoc(text, '.');
    assert StripRight(text, '.') == text;
  }

  lemma {:induction false} WholeFixed(negative: bool, digits: string)
    requires digits != ""
    ensures FixedText(negative, digits + "0", -1) == Sign(negative) + digits + "." + "0"
  {
    var padded := PadLeft(digits + "0", 2);
    assert padded == digits + "0";
    assert padded[..|padded| - 1] == digits && padded[|padded| - 1..] == "0";
  }

  lemma {:induction false} WholeStrips(sign: string, digits: string)
    requires digits != "" && AllDigits(digits) && (sign == "" || sign == "-")
    ensures Stripped(sign + digits + "." + "0") == Stripped(sign + digits)
  {
    var text := sign + digits;
    assert text[|text| - 1] == digits[|digits| - 1];
    assert '.' !in text;
    StripPointZero(text);
  }

  lemma {:induction false} WholeShift(negative: bool, digits: string)
    requires digits != "" && AllDigits(digits)
    ensures Stripped(FixedText(negative, digits + "0", -1)) == Stripped(FixedText(negative, digits, 0))
  {
    WholeFixed(negative, digits);
    WholeStrips(Sign(negative), digits);
    FixedWhole(negative, digits);
  }

  lemma {:induction false} FixedWhole(negative: bool, digits: string)
    ensures FixedText(negative, digits, 0) == Sign(negative) + digits
  {
    assert digits + Zeros(0) == digits;
  }

  lemma {:induction false} PointShift(digits: string, scale: nat)
    requires scale > 1
    ensures WithPoint(digits + "0", scale) == WithPoint(digits, scale - 1) + "0"
    ensures '.' in WithPoint(digits, scale - 1)
  {
    var padded := PadLeft(digits, scale);
    assert PadLeft(digits + "0", scale + 1) == padded + "0";
    var cut := |padded| - (scale - 1);
    assert (padded + "0")[..cut] == padded[..cut];
    assert (padded + "0")[cut..] == padded[cut..] + "0";
    assert WithPoint(digits, scale - 1)[cut] == '.';
  }

  lemma {:induction false} StrippedSnoc(text: string)
    requires '.' in text
    ensures Stripped(text + "0") == Stripped(text)
  {
    StripSnoc(text, '0');
    assert '.' in text + "0";
  }

  lemma {:induction false} Regroup(a: string, b: string, c: string)
    ensures a + (b + c) == (a + b) + c
  {
  }

  lemma {:induction false} SignedSnoc(sign: string, point: string)
    requires '.' in point
    ensures Stripped(sign + (point + "0")) == Stripped(sign + point)
  {
    Regroup(sign, point, "0");
    StrippedSnoc(sign + point);
  }

  lemma {:induction false} FractionShift(negative: bool, digits: string, scale: int)
    requires scale > 1
    ensures Stripped(FixedText(negative, digits + "0", -scale)) == Stripped(FixedText(negative, digits, 1 - scale))
  {
    PointShift(digits, scale);
    SignedSnoc(Sign(negative), WithPoint(digits, scale - 1));
    FixedSmall(negative, digits + "0", scale);
    FixedSmall(negative, digits, scale - 1);
  }

  lemma {:induction false} FixedSmall(negative: bool, digits: string, scale: int)
    requires scale > 0
    ensures FixedText(negative, digits, -scale) == Sign(negative) + WithPoint(digits, scale)
  {
  }

  lemma {:induction false} TallShift(negative: bool, digits: string, exponent: nat)
    requires digits != "" && digits != "0"
    ensures FixedText(negative, digits + "0", exponent) == FixedText(negative, digits, exponent + 1)
  {
    assert digits + "0" + Zeros(exponent) == digits + Zeros(exponent + 1);
  }

  /** One more zero in the coefficient is one place higher, up to stripping. */
  lemma {:induction false} TextShift(negative: bool, digits: string, exponent: int)
    requires digits != "" && digits != "0" && AllDigits(digits)
    ensures Stripped(FixedText(negative, digits + "0", exponent)) == Stripped(FixedText(negative, digits, exponent + 1))
  {
    if exponent >= 0 {
      TallShift(negative, digits, exponent);
    } else if exponent == -1 {
      WholeShift(negative, digits);
    } else {
      FractionShift(negative, digits, -exponent);
    }
  }

  lemma {:induction false} StripAllZeros(s: string, n: nat)
    ensures StripRight(s + Zeros(n), '0') == StripRight(s, '0')
  {
    if n == 0 {
      assert s + Zeros(0) == s;
    } else {
      ZerosSnoc(n - 1);
      assert s + Zeros(n) == s + Zeros(n - 1) + "0";
      StripSnoc(s + Zeros(n - 1), '0');
      StripAllZeros(s, n - 1);
    }
  }

  lemma {:induction false} ZeroText(scale: int)
    requires scale > 0
    ensures WithPoint("0", scale) == "0" + "." + Zeros(scale)
  {
    ZerosSnoc(scale);
    var digits := PadLeft("0", scale + 1);
    assert digits == Zeros(scale) + "0" == Zeros(scale + 1) == "0" + Zeros(scale);
    assert digits[..1] == "0" && digits[1..] == Zeros(scale);
  }

  lemma {:induction false} ZeroStrips(text: string, scale: int)
    requires (text == "0" || text == "-0") && scale > 0
    ensures Stripped(text + "." + Zeros(scale)) == "0"
  {
    var full := text + "." + Zeros(scale);
    assert full[|text|] == '.';
    StripAllZeros(text + ".", scale);
    StripPointZero(text);
    StripSnoc(text + ".", '0');
  }

  lemma {:induction false} ZeroFixed(negative: bool, scale: int)
    requires scale > 0
    ensures FixedText(negative, "0", -scale) == Sign(negative) + "0" + "." + Zeros(scale)
  {
    FixedSmall(negative, "0", scale);
    ZeroText(scale);
    assert Sign(negative) + ("0" + "." + Zeros(scale)) == Sign(negative) + "0" + "." + Zeros(scale);
  }

  lemma {:induction false} ZeroFraction(negative: bool, scale: int)
    requires scale > 0
    ensures Stripped(FixedText(negative, "0", -scale)) == "0"
  {
    ZeroFixed(negative, scale);
    ZeroStrips(Sign(negative) + "0", scale);
  }

  /** Every zero, signed or scaled, prints as 0. */
  lemma {:induction false} ZeroToken(negative: bool, exponent: int)
    ensures Stripped(FixedText(negative, "0", exponent)) == "0"
  {
    if exponent >= 0 {
      NoDot(negative, "0", exponent);
      assert FixedText(negative, "0", exponent) == if negative then "-0" else "0";
    } else {
      ZeroFraction(negative, -exponent);
    }
  }

  lemma {:induction false} ZeroNumber(d: Decimal)
    requires d.coefficient == 0
    ensures NumberToken(d) == "0"
  {
    assert Digits(0) == "0";
    ZeroToken(d.negative, d.exponent);
  }

  lemma {:induction false} TokenShift(d: Decimal)
    requires d.coefficient > 0 && d.coefficient % 10 == 0
    ensures NumberToken(d) == NumberToken(Decimal(d.negative, d.coefficient / 10, d.exponent + 1))
  {
    var digits := Digits(d.coefficient / 10);
    DigitsStart(d.coefficient / 10);
    DigitsOfTen(d.coefficient);
    TextShift(d.negative, digits, d.exponent);
  }

  lemma {:induction false} NormalizeStep(d: Decimal)
    requires d.coefficient > 0 && d.coefficient % 10 == 0
    ensures Normalize(d) == Normalize(Decimal(d.negative, d.coefficient / 10, d.exponent + 1))
  {
  }

  /** A decimal has the token of its normal form, whatever trailing zeros or scale it carries. */
  lemma {:induction false} TokenOfNormal(d: Decimal, n: Decimal)
    requires n == Normalize(d)
    ensures NumberToken(d) == NumberToken(n)
    decreases d.coefficient
  {
    if d.coefficient == 0 {
      ZeroNumber(d);
      ZeroNumber(n);
    } else if d.coefficient % 10 == 0 {
      NormalizeStep(d);
      TokenOfNormal(Decimal(d.negative, d.coefficient / 10, d.exponent + 1), n);
      TokenShift(d);
    }
  }

  // ----- the shape of a token -----

  /** Digits, a sign and a point: a fixed-point token has no exponent. */
  predicate Plain(c: char) {
    IsDigit(c) || c == '-' || c == '.'
  }

  ghost predicate AllPlain(s: string) {
    forall i :: 0 <= i < |s| ==> Plain(s[i])
  }

  /** At most one point, and nothing after it that says nothing. */
  ghost predicate Minimal(s: string) {
    '.' in s ==> s[|s| - 1] != '0' && s[|s| - 1] != '.'
  }

  lemma {:induction false} StripKeepsFront(s: string, c: char)
    ensures StripRight(s, c) <= s
    ensures StripRight(s, c) != "" ==> StripRight(s, c)[|StripRight(s, c)| - 1] != c
    ensures StripRight(s, c) == s || (|StripRight(s, c)| < |s| && s[|StripRight(s, c)|] == c)
  {
    if s != "" && s[|s| - 1] == c {
      StripKeepsFront(s[..|s| - 1], c);
    }
  }

  /** No two points. */
  ghost predicate OnePoint(s: string) {
    forall i, j :: 0 <= i < j < |s| ==> s[i] != '.' || s[j] != '.'
  }

  lemma {:induction false} PointShape(sign: string, whole: string, fraction: string)
    requires AllDigits(whole) && AllDigits(fraction) && |sign| <= 1 && (sign != "" ==> sign[0] == '-')
    ensures AllPlain(sign + (whole + "." + fraction)) && OnePoint(sign + (whole + "." + fraction))
  {
    var text := sign + (whole + "." + fraction);
    forall i | 0 <= i < |text| ensures Plain(text[i]) && (text[i] == '.' <==> i == |sign| + |whole|) {
    }
  }

  lemma {:induction false} WholeShape(sign: string, whole: string)
    requires AllDigits(whole) && |sign| <= 1 && (sign != "" ==> sign[0] == '-')
    ensures AllPlain(sign + whole) && OnePoint(sign + whole)
  {
    forall i | 0 <= i < |sign + whole| ensures Plain((sign + whole)[i]) && (sign + whole)[i] != '.' {
    }
  }

  lemma {:induction false} FixedShape(negative: bool, digits: string, exponent: int)
    requires AllDigits(digits) && digits != ""
    ensures AllPlain(FixedText(negative, digits, exponent)) && OnePoint(FixedText(negative, digits, exponent))
  {
    if exponent < 0 {
      var padded := PadLeft(digits, -exponent + 1);
      assert AllDigits(padded) && |padded| >= -exponent + 1;
      PointShape(Sign(negative), padded[..|padded| + exponent], padded[|padded| + exponent..]);
    } else {
      WholeShape(Sign(negative), if digits == "0" then "0" else digits + Zeros(exponent));
    }
  }

  /** Stripping zeros and then a point leaves nothing to strip. */
  lemma {:induction false} StrippedShape(text: string)
    requires OnePoint(text)
    ensures Minimal(Stripped(text))
    ensures AllPlain(text) ==> AllPlain(Stripped(text))
  {
    if '.' in text {
      StripKeepsFront(text, '0');
      StripKeepsFront(StripRight(text, '0'), '.');
    }
  }

  /** A token is a fixed-point number without an exponent, a useless zero or a bare point. */
  lemma {:induction false} TokenShape(d: Decimal)
    ensures AllPlain(NumberToken(d)) && Minimal(NumberToken(d))
  {
    FixedShape(d.negative, Digits(d.coefficient), d.exponent);
    StrippedShape(FixedText(d.negative, Digits(d.coefficient), d.exponent));
  }
}
