/**
 The number grammar of section 6 of RFC 8259, read exactly, and the round trip with
 `NumberTokens.NumberToken`.
 */
module NumberReader {
  import opened Common
  import opened Decimals
  import opened NumberTokens

  /** How many digits `s` starts with. */
  function DigitRun(s: string): (n: nat)
    ensures n <= |s| && AllDigits(s[..n])
  {
    if s != "" && IsDigit(s[0]) then
      var n := DigitRun(s[1..]);
      assert s[..n + 1] == [s[0]] + s[1..][..n];
      n + 1
    else 0
  }

  /** A zero alone, or a digit run that does not start with one. */
  function ReadWhole(s: string): (r: Option<(string, string)>)
    ensures r.Some? ==> AllDigits(r.value.0) && |r.value.1| < |s|
  {
    if s == "" || !IsDigit(s[0]) then None
    else if s[0] == '0' then Some(("0", s[1..]))
    else Some((s[..DigitRun(s)], s[DigitRun(s)..]))
  }

  function ReadFraction(s: string): (r: Option<(string, string)>)
    ensures r.Some? ==> AllDigits(r.value.0) && |r.value.1| <= |s|
  {
    if s == "" || s[0] != '.' then Some(("", s))
    else if DigitRun(s[1..]) == 0 then None
    else Some((s[1..][..DigitRun(s[1..])], s[1..][DigitRun(s[1..])..]))
  }

  function ReadExponent(s: string): (r: Option<(int, string)>)
    ensures r.Some? ==> |r.value.1| <= |s|
  {
    if s == "" || (s[0] != 'e' && s[0] != 'E') then Some((0, s))
    else
      var signed := |s| > 1 && (s[1] == '+' || s[1] == '-');
      var digits := if signed then s[2..] else s[1..];
      var n := DigitRun(digits);
      if n == 0 then None
      else
        var power := Value(digits[..n]);
        Some((if signed && s[1] == '-' then -(power as int) else power, digits[n..]))
  }

  /** The parts of a number as they are written. */
  datatype Scan = Scan(negative: bool, whole: string, fraction: string, power: int)

  function ScanMagnitude(negative: bool, s: string): (r: Option<(Scan, string)>)
    ensures r.Some? ==> AllDigits(r.value.0.whole) && AllDigits(r.value.0.fraction)
    ensures r.Some? ==> |r.value.1| < |s|
  {
    match ReadWhole(s)
    case None => None
    case Some((whole, afterWhole)) =>
      match ReadFraction(afterWhole)
      case None => None
      case Some((fraction, afterFraction)) =>
        match ReadExponent(afterFraction)
        case None => None
        case Some((power, rest)) => Some((Scan(negative, whole, fraction, power), rest))
  }

  function ScanNumber(s: string): (r: Option<(Scan, string)>)
    ensures r.Some? ==> AllDigits(r.value.0.whole) && AllDigits(r.value.0.fraction)
    ensures r.Some? ==> |r.value.1| < |s|
  {
    if s != "" && s[0] == '-' then ScanMagnitude(true, s[1..]) else ScanMagnitude(false, s)
  }

  /** The exact value of a scan, in normal form. */
  function Exact(scan: Scan): Decimal
    requires AllDigits(scan.whole) && AllDigits(scan.fraction)
  {
    Normalize(Decimal(scan.negative, Value(scan.whole + scan.fraction), scan.power - |scan.fraction|))
  }

  /** The number at the start of `s`, by its exact value, and what follows it. */
  function ReadNumber(s: string): (r: Option<(Decimal, string)>)
    ensures r.Some? ==> |r.value.1| < |s|
  {
    match ScanNumber(s)
    case None => None
    case Some((scan, rest)) => Some((Exact(scan), rest))
  }

  lemma {:induction false} NumberStart(s: string)
    requires ReadNumber(s).Some?
    ensures s != "" && (s[0] == '-' || IsDigit(s[0]))
  {
  }

  /** What may follow a value inside a document. */
  predicate Delimited(rest: string) {
    rest == "" || rest[0] == ',' || rest[0] == ']' || rest[0] == '}'
  }

  // ----- reading the parts of a token -----

  lemma {:induction false} RunOf(digits: string, rest: string)
    requires AllDigits(digits) && (rest == "" || !IsDigit(rest[0]))
    ensures DigitRun(digits + rest) == |digits|
  {
    if digits == "" {
      assert digits + rest == rest;
    } else {
      RunOf(digits[1..], rest);
      assert (digits + rest)[1..] == digits[1..] + rest;
    }
  }

  /** The integer part of the grammar. */
  predicate Whole(digits: string) {
    digits != "" && AllDigits(digits) && (digits[0] == '0' ==> digits == "0")
  }

  lemma {:induction false} ReadsWhole(digits: string, rest: string)
    requires Whole(digits) && (rest == "" || !IsDigit(rest[0]))
    ensures ReadWhole(digits + rest) == Some((digits, rest))
  {
    RunOf(digits, rest);
    assert (digits + rest)[|digits|..] == rest;
    assert (digits + rest)[..|digits|] == digits;
    assert (digits + rest)[0] == digits[0];
  }

  lemma {:induction false} ReadsFraction(digits: string, rest: string)
    requires digits != "" && AllDigits(digits) && (rest == "" || !IsDigit(rest[0]))
    ensures ReadFraction("." + digits + rest) == Some((digits, rest))
  {
    RunOf(digits, rest);
    var s := "." + digits + rest;
    assert s[1..] == digits + rest;
    assert (digits + rest)[|digits|..] == rest;
    assert (digits + rest)[..|digits|] == digits;
  }

  lemma {:induction false} ScansSigned(negative: bool, body: string)
    requires body != "" && IsDigit(body[0])
    ensures ScanNumber(Sign(negative) + body) == ScanMagnitude(negative, body)
  {
    if negative {
      assert ("-" + body)[1..] == body;
    } else {
      assert "" + body == body;
    }
  }

  lemma {:induction false} ScansWhole(negative: bool, digits: string, rest: string)
    requires Whole(digits) && Delimited(rest)
    ensures ScanMagnitude(negative, digits + rest) == Some((Scan(negative, digits, "", 0), rest))
  {
    ReadsWhole(digits, rest);
  }

  lemma {:induction false} ScansInteger(negative: bool, digits: string, rest: string)
    requires Whole(digits) && Delimited(rest)
    ensures ScanNumber(Sign(negative) + digits + rest) == Some((Scan(negative, digits, "", 0), rest))
  {
    ScansWhole(negative, digits, rest);
    ScansSigned(negative, digits + rest);
    Regroup(Sign(negative), digits, rest);
  }

  lemma {:induction false} ScansTail(negative: bool, whole: string, fraction: string, rest: string)
    requires Whole(whole) && fraction != "" && AllDigits(fraction) && Delimited(rest)
    ensures ScanMagnitude(negative, whole + ("." + fraction + rest)) == Some((Scan(negative, whole, fraction, 0), rest))
  {
    var tail := "." + fraction + rest;
    assert tail[0] == '.';
    ReadsWhole(whole, tail);
    ReadsFraction(fraction, rest);
  }

  lemma {:induction false} RegroupPoint(sign: string, whole: string, fraction: string, rest: string)
    ensures sign + (whole + "." + fraction) + rest == sign + (whole + ("." + fraction + rest))
  {
  }

  lemma {:induction false} ScansPoint(negative: bool, whole: string, fraction: string, rest: string)
    requires Whole(whole) && fraction != "" && AllDigits(fraction) && Delimited(rest)
    ensures ScanNumber(Sign(negative) + (whole + "." + fraction) + rest) == Some((Scan(negative, whole, fraction, 0), rest))
  {
    ScansTail(negative, whole, fraction, rest);
    ScansSigned(negative, whole + ("." + fraction + rest));
    RegroupPoint(Sign(negative), whole, fraction, rest);
  }

  // ----- the shape of the token of a normal decimal -----

  lemma {:induction false} NormalizeRaised(negative: bool, coefficient: nat, n: nat)
    requires coefficient > 0
    ensures Normalize(Decimal(negative, coefficient * Pow10(n), 0)) == Normalize(Decimal(negative, coefficient, n))
  {
    var raised := Decimal(negative, coefficient * Pow10(n), 0);
    var d := Decimal(negative, coefficient, n);
    assert NumEq(raised, d);
    NormalizeIff(raised, d);
  }

  lemma {:induction false} DigitsWhole(n: nat)
    ensures Whole(Digits(n))
    ensures n % 10 != 0 ==> Digits(n)[|Digits(n)| - 1] != '0'
  {
    DigitsStart(n);
  }

  lemma {:induction false} ScansTall(negative: bool, digits: string, exponent: nat, rest: string)
    requires Whole(digits) && digits != "0" && Delimited(rest)
    ensures ScanNumber(Stripped(FixedText(negative, digits, exponent)) + rest)
         == Some((Scan(negative, digits + Zeros(exponent), "", 0), rest))
  {
    var wide := digits + Zeros(exponent);
    assert wide[0] == digits[0];
    ScansInteger(negative, wide, rest);
    TallToken(negative, digits, exponent);
  }

  lemma {:induction false} ExactTall(d: Decimal)
    requires d.coefficient > 0 && d.exponent >= 0
    ensures Exact(Scan(d.negative, Digits(d.coefficient) + Zeros(d.exponent), "", 0)) == Normalize(d)
  {
    var wide := Digits(d.coefficient) + Zeros(d.exponent);
    assert wide + "" == wide;
    ValueOfDigits(d.coefficient);
    ValueThenZeros(Digits(d.coefficient), d.exponent);
    NormalizeRaised(d.negative, d.coefficient, d.exponent);
  }

  /** A scan of the token of `d` that has the value of `d` is a reading of it. */
  lemma {:induction false} ReadsScan(text: string, rest: string, scan: Scan, value: Decimal)
    requires ScanNumber(text + rest) == Some((scan, rest))
    requires AllDigits(scan.whole) && AllDigits(scan.fraction) && Exact(scan) == value
    ensures ReadNumber(text + rest) == Some((value, rest))
  {
  }

  lemma {:induction false} ReadTall(d: Decimal, rest: string)
    requires d.coefficient > 0 && d.exponent >= 0 && Delimited(rest)
    ensures ReadNumber(NumberToken(d) + rest) == Some((Normalize(d), rest))
  {
    var digits := Digits(d.coefficient);
    DigitsStart(d.coefficient);
    ScansTall(d.negative, digits, d.exponent, rest);
    ExactTall(d);
    ReadsScan(NumberToken(d), rest, Scan(d.negative, digits + Zeros(d.exponent), "", 0), Normalize(d));
  }

  lemma {:induction false} TallToken(negative: bool, digits: string, exponent: nat)
    requires Whole(digits) && digits != "0"
    ensures Stripped(FixedText(negative, digits, exponent)) == Sign(negative) + (digits + Zeros(exponent))
  {
    NoDot(negative, digits, exponent);
    var text := Sign(negative) + (digits + Zeros(exponent));
    assert text[|Sign(negative)|] == digits[0];
  }

  /** Nothing is stripped from a text whose last digit is not a zero. */
  lemma {:induction false} KeptWhole(text: string)
    requires |text| > 2 && text[|text| - 1] != '0' && text[|text| - 1] != '.'
    ensures Stripped(text) == text
  {
  }

  /** The digits before and after the point. */
  function Parts(digits: string, scale: nat): (string, string) {
    var padded := PadLeft(digits, scale + 1);
    (padded[..|padded| - scale], padded[|padded| - scale..])
  }

  lemma {:induction false} PartsAreWhole(digits: string, scale: nat)
    requires Whole(digits)
    ensures Whole(Parts(digits, scale).0)
  {
    if |digits| <= scale {
      assert Parts(digits, scale).0 == "0";
    } else {
      assert Parts(digits, scale).0[0] == digits[0];
    }
  }

  lemma {:induction false} PartsKeepValue(digits: string, scale: nat)
    requires AllDigits(digits)
    ensures AllDigits(Parts(digits, scale).0 + Parts(digits, scale).1)
    ensures Value(Parts(digits, scale).0 + Parts(digits, scale).1) == Value(digits)
  {
    var padded := PadLeft(digits, scale + 1);
    assert Parts(digits, scale).0 + Parts(digits, scale).1 == padded;
    if |digits| <= scale {
      ValueZeros(scale + 1 - |digits|, digits);
    }
  }

  lemma {:induction false} FractionEnds(digits: string, scale: nat)
    requires digits != "" && AllDigits(digits) && scale > 0
    ensures |Parts(digits, scale).1| == scale && AllDigits(Parts(digits, scale).1)
    ensures Parts(digits, scale).1[scale - 1] == digits[|digits| - 1]
  {
    var padded := PadLeft(digits, scale + 1);
    assert padded[|padded| - 1] == digits[|digits| - 1];
  }

  lemma {:induction false} SmallKept(sign: string, whole: string, fraction: string)
    requires whole != "" && fraction != "" && AllDigits(fraction) && fraction[|fraction| - 1] != '0'
    ensures Stripped(sign + (whole + "." + fraction)) == sign + (whole + "." + fraction)
  {
    var text := sign + (whole + "." + fraction);
    assert text[|text| - 1] == fraction[|fraction| - 1];
    KeptWhole(text);
  }

  lemma {:induction false} SmallFixed(negative: bool, digits: string, scale: int)
    requires scale > 0
    ensures FixedText(negative, digits, -scale)
         == Sign(negative) + (Parts(digits, scale).0 + "." + Parts(digits, scale).1)
  {
  }

  lemma {:induction false} ScansSmall(negative: bool, digits: string, scale: int, rest: string)
    requires Whole(digits) && digits[|digits| - 1] != '0' && scale > 0 && Delimited(rest)
    ensures ScanNumber(Stripped(FixedText(negative, digits, -scale)) + rest)
         == Some((Scan(negative, Parts(digits, scale).0, Parts(digits, scale).1, 0), rest))
  {
    var whole, fraction := Parts(digits, scale).0, Parts(digits, scale).1;
    SmallFixed(negative, digits, scale);
    PartsAreWhole(digits, scale);
    FractionEnds(digits, scale);
    SmallKept(Sign(negative), whole, fraction);
    ScansPoint(negative, whole, fraction, rest);
  }

  lemma {:induction false} PartsAreDigits(digits: string, scale: nat)
    requires AllDigits(digits)
    ensures AllDigits(Parts(digits, scale).0) && AllDigits(Parts(digits, scale).1)
  {
  }

  lemma {:induction false} ExactOf(scan: Scan, d: Decimal)
    requires AllDigits(scan.whole) && AllDigits(scan.fraction)
    requires d == Decimal(scan.negative, Value(scan.whole + scan.fraction), scan.power - |scan.fraction|)
    ensures Exact(scan) == Normalize(d)
  {
  }

  lemma {:induction false} ExactParts(negative: bool, digits: string, coefficient: nat, scale: int)
    requires digits != "" && AllDigits(digits) && Value(digits) == coefficient && scale > 0
    ensures var scan := Scan(negative, Parts(digits, scale).0, Parts(digits, scale).1, 0);
            AllDigits(scan.whole) && AllDigits(scan.fraction) &&
            Exact(scan) == Normalize(Decimal(negative, coefficient, -scale))
  {
    PartsAreDigits(digits, scale);
    PartsKeepValue(digits, scale);
    FractionEnds(digits, scale);
    var scan := Scan(negative, Parts(digits, scale).0, Parts(digits, scale).1, 0);
    ExactOf(scan, Decimal(negative, coefficient, -scale));
  }

  lemma {:induction false} ReadsSmall(negative: bool, digits: string, coefficient: nat, scale: int, rest: string)
    requires Whole(digits) && digits[|digits| - 1] != '0' && Value(digits) == coefficient
    requires scale > 0 && Delimited(rest)
    ensures ReadNumber(Stripped(FixedText(negative, digits, -scale)) + rest)
         == Some((Normalize(Decimal(negative, coefficient, -scale)), rest))
  {
    var text, value := Stripped(FixedText(negative, digits, -scale)), Normalize(Decimal(negative, coefficient, -scale));
    var scan := Scan(negative, Parts(digits, scale).0, Parts(digits, scale).1, 0);
    ScansSmall(negative, digits, scale, rest);
    ExactParts(negative, digits, coefficient, scale);
    ReadsScan(text, rest, scan, value);
  }

  lemma {:induction false} ReadSmall(d: Decimal, rest: string)
    requires d.coefficient % 10 != 0 && d.exponent < 0 && Delimited(rest)
    ensures ReadNumber(NumberToken(d) + rest) == Some((Normalize(d), rest))
  {
    DigitsWhole(d.coefficient);
    ValueOfDigits(d.coefficient);
    ReadsSmall(d.negative, Digits(d.coefficient), d.coefficient, -d.exponent, rest);
  }

  lemma {:induction false} ReadZero(rest: string)
    requires Delimited(rest)
    ensures ReadNumber("0" + rest) == Some((Decimal(false, 0, 0), rest))
  {
    ScansInteger(false, "0", rest);
    assert "0" + "" == "0";
    ValueOfDigits(0);
    DigitsStart(0);
    assert Sign(false) + "0" + rest == "0" + rest;
  }

  /** Reading the token of any finite decimal gives back its value, and leaves what follows. */
  lemma {:induction false} ReadToken(d: Decimal, rest: string)
    requires Delimited(rest)
    ensures ReadNumber(NumberToken(d) + rest) == Some((Normalize(d), rest))
  {
    var n := Normalize(d);
    TokenOfNormal(d, n);
    NormalizeIsNormal(d);
    NormalizeIsIdempotent(d);
    if n.coefficient == 0 {
      ZeroNumber(n);
      ReadZero(rest);
    } else if n.exponent >= 0 {
      ReadTall(n, rest);
    } else {
      ReadSmall(n, rest);
    }
  }

  lemma {:induction false} NormalizeIsIdempotent(d: Decimal)
    ensures Normalize(Normalize(d)) == Normalize(d)
  {
    NormalizeIsNormal(d);
  }

  /** Two decimals have the same token exactly when they are numerically equal. */
  lemma {:induction false} TokenIff(a: Decimal, b: Decimal)
    ensures NumberToken(a) == NumberToken(b) <==> NumEq(a, b)
  {
    NormalizeIff(a, b);
    TokenOfNormal(a, Normalize(a));
    TokenOfNormal(b, Normalize(b));
    if NumberToken(a) == NumberToken(b) {
      ReadToken(a, "");
      ReadToken(b, "");
    }
  }
}
