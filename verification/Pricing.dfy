/** Model rates and the exact cost of a call. */
module Pricing {
  import opened Common
  import opened Decimals
  import opened DecimalContext

  datatype PriceError = InvalidPriceBook | DecimalException

  /** A JSON value where a rate is expected. */
  datatype RateValue = NotNumber | NotFinite | Number(d: Decimal)

  /** A token count as the provider reports it. */
  datatype Tokens = Missing | NotInt | Count(n: int)

  datatype ModelPrice = ModelPrice(input: Decimal, output: Decimal)

  const MAX_RATE := Decimal(false, 999_999_999_999_999_999, -6)
  const MAX_COST := Decimal(false, 999_999_999_999_999_999_999_999, -12)
  const MAX_TOKENS := 2_147_483_647
  const MILLION := Decimal(false, 1_000_000, 0)
  const RATE_PRECISION := 18
  const COST_PRECISION := 40

  predicate Greater(a: Decimal, b: Decimal) {
    var low := Min(a.exponent, b.exponent);
    Scaled(a, low) > Scaled(b, low)
  }

  /** `_normalize_rate`. */
  function NormalizeRate(value: RateValue): Result<Decimal, PriceError> {
    match value
    case NotNumber => Err(InvalidPriceBook)
    case NotFinite => Err(InvalidPriceBook)
    case Number(d) =>
      if Signed(d) < 0 then Err(InvalidPriceBook)
      else if d.exponent < -6 then Err(InvalidPriceBook)
      else if Greater(d, MAX_RATE) then Err(InvalidPriceBook)
      else
        match Quantize(d, -6, RATE_PRECISION)
        case Some(rate) => Ok(rate)
        case None => Err(InvalidPriceBook)
  }

  /** A rate as it is stored: Numeric(18, 6), not negative. */
  predicate IsRate(d: Decimal) {
    d.exponent == -6 && d.coefficient <= MAX_RATE.coefficient && (d.negative ==> d.coefficient == 0)
  }

  function FromInt(n: nat): Decimal {
    Decimal(false, n, 0)
  }

  /** The cost expression, each operation in the 40-digit context. */
  function RawCost(price: ModelPrice, input: nat, output: nat): Decimal {
    Div(Add(Mul(FromInt(input), price.input, COST_PRECISION), Mul(FromInt(output), price.output, COST_PRECISION), COST_PRECISION),
        MILLION, COST_PRECISION)
  }

  predicate InRange(tokens: Tokens) {
    tokens.Count? && 0 <= tokens.n <= MAX_TOKENS
  }

  /** `estimate_cost`. */
  function EstimateCost(price: ModelPrice, input: Tokens, output: Tokens): Result<Option<Decimal>, PriceError> {
    if input.Missing? || output.Missing? then Ok(None)
    else if !InRange(input) || !InRange(output) then Err(InvalidPriceBook)
    else
      match Quantize(RawCost(price, input.n, output.n), -12, COST_PRECISION)
      case None => Err(DecimalException)
      case Some(cost) => if Greater(cost, MAX_COST) then Err(InvalidPriceBook) else Ok(Some(cost))
  }

  // ----- powers of ten -----

  lemma {:induction false} Powers()
    ensures Pow10(6) == 1_000_000
    ensures Pow10(12) == 1_000_000_000_000
    ensures Pow10(18) == 1_000_000_000_000_000_000
    ensures Pow10(28) == 10_000_000_000_000_000_000_000_000_000
    ensures Pow10(40) > Pow10(28)
  {
    assert Pow10(6) == 1_000_000 && Pow10(4) == 10_000;
    PowAdd(6, 6);
    PowAdd(12, 6);
    PowAdd(18, 6);
    PowAdd(24, 4);
    PowAdd(28, 12);
  }

  lemma {:induction false} TimesLe(a: nat, b: nat, c: nat)
    requires a <= b
    ensures a * c <= b * c
  {
  }

  lemma {:induction false} TimesOne(a: int)
    ensures a * Pow10(0) == a
  {
  }

  // ----- rates -----

  /** What a quantised rate is: the same value at six places. */
  lemma {:induction false} RaisedValue(d: Decimal, k: nat)
    requires k == d.exponent + 6
    ensures NumEq(d, Decimal(d.negative, d.coefficient * Pow10(k), -6))
  {
    var r := Decimal(d.negative, d.coefficient * Pow10(k), -6);
    assert Signed(r) == Signed(d) * Pow10(k);
    if k == 0 {
      TimesOne(Signed(d));
    }
  }

  lemma {:induction false} NotGreater(d: Decimal, k: nat)
    requires Signed(d) >= 0 && k == d.exponent + 6
    ensures Greater(d, MAX_RATE) <==> d.coefficient * Pow10(k) > MAX_RATE.coefficient
  {
    assert Scaled(d, -6) == Signed(d) * Pow10(k);
    assert Scaled(MAX_RATE, -6) == MAX_RATE.coefficient * Pow10(0);
    TimesOne(MAX_RATE.coefficient);
    if d.negative {
      assert d.coefficient == 0;
    }
  }

  /** A rate is accepted exactly when it is a number, not negative, of at most six places, and not too large. */
  lemma {:induction false} RateAcceptedIff(value: RateValue)
    ensures NormalizeRate(value).Ok? <==>
              value.Number? && Signed(value.d) >= 0 && value.d.exponent >= -6 && !Greater(value.d, MAX_RATE)
    ensures NormalizeRate(value).Ok? ==> IsRate(NormalizeRate(value).value) && NumEq(value.d, NormalizeRate(value).value)
    ensures NormalizeRate(value).Err? ==> NormalizeRate(value).error == InvalidPriceBook
  {
    if value.Number? && Signed(value.d) >= 0 && value.d.exponent >= -6 && !Greater(value.d, MAX_RATE) {
      var d := value.d;
      var c := d.coefficient * Pow10(d.exponent + 6);
      NotGreater(d, d.exponent + 6);
      RaisedValue(d, d.exponent + 6);
      Powers();
      FewDigits(c, 18);
      assert Quantize(d, -6, RATE_PRECISION) == Some(Decimal(d.negative, c, -6));
    }
  }

  // ----- the exact cost -----

  /** One term of the cost, in units of a millionth of a millionth. */
  function Term(tokens: nat, rate: Decimal): nat {
    tokens * rate.coefficient
  }

  function Total(price: ModelPrice, input: nat, output: nat): nat {
    Term(input, price.input) + Term(output, price.output)
  }

  const MAX_TERM := 2_147_483_646_999_999_997_852_516_353

  lemma {:induction false} TermBound(tokens: nat, rate: Decimal)
    requires tokens <= MAX_TOKENS && IsRate(rate)
    ensures Term(tokens, rate) <= MAX_TERM
  {
    TimesLe(tokens, MAX_TOKENS, rate.coefficient);
    assert MAX_TOKENS * rate.coefficient <= MAX_TOKENS * MAX_RATE.coefficient;
  }

  lemma {:induction false} Small(n: nat)
    requires n <= 2 * MAX_TERM
    ensures n < Pow10(40) && NumDigits(n) <= 28
  {
    Powers();
    FewDigits(n, 28);
  }

  /** A product of tokens and a rate is not rounded. */
  lemma {:induction false} MulExact(tokens: nat, rate: Decimal)
    requires tokens <= MAX_TOKENS && IsRate(rate)
    ensures Mul(FromInt(tokens), rate, COST_PRECISION) == Decimal(rate.negative, Term(tokens, rate), -6)
  {
    TermBound(tokens, rate);
    Small(Term(tokens, rate));
    FixExact(Decimal(rate.negative, Term(tokens, rate), -6), COST_PRECISION);
  }

  /** Neither is the sum of two of them. */
  lemma {:induction false} AddExact(a: Decimal, b: Decimal)
    requires a.exponent == -6 && b.exponent == -6 && Signed(a) >= 0 && Signed(b) >= 0
    requires a.coefficient + b.coefficient <= 2 * MAX_TERM
    ensures var sum := Add(a, b, COST_PRECISION);
            sum.exponent == -6 && sum.coefficient == a.coefficient + b.coefficient && Signed(sum) >= 0
  {
    var n := a.coefficient + b.coefficient;
    AtSix(a);
    AtSix(b);
    Small(n);
    FixExact(Decimal(false, n, -6), COST_PRECISION);
  }

  lemma {:induction false} AtSix(d: Decimal)
    requires d.exponent == -6 && Signed(d) >= 0
    ensures Scaled(d, -6) == d.coefficient
  {
    TimesOne(Signed(d));
  }

  lemma {:induction false} DivModExact(q: nat, d: nat)
    requires d > 0
    ensures DivMod(q * d, d) == (q, 0)
  {
    DivModUnique(q * d, d, q);
  }

  lemma {:induction false} DivModUnique(n: nat, d: nat, q: nat)
    requires d > 0 && n == q * d
    ensures n / d == q && n % d == 0
  {
    var e := n / d - q;
    assert n == (n / d) * d + n % d;
    assert e * d == (n / d) * d - q * d;
    SmallMultiple(e, d, n % d);
  }

  lemma {:induction false} SmallMultiple(e: int, d: int, r: int)
    requires 0 <= r < d && e * d == -r
    ensures e == 0
  {
    MultipleSign(e, d);
  }

  lemma {:induction false} MultipleSign(e: int, d: int)
    requires d > 0
    ensures e >= 1 ==> e * d >= d
    ensures e <= -1 ==> e * d <= -d
  {
    assert e * d == d + (e - 1) * d == -d + (e + 1) * d;
  }

  lemma {:induction false} MillionDivides(n: nat, shift: nat)
    requires shift >= 6
    ensures DivMod(n * Pow10(shift), 1_000_000) == (n * Pow10(shift - 6), 0)
  {
    PowAdd(shift - 6, 6);
    Powers();
    assert n * (Pow10(shift - 6) * 1_000_000) == (n * Pow10(shift - 6)) * 1_000_000;
    DivModExact(n * Pow10(shift - 6), 1_000_000);
  }

  /** Nor the division by a million: the quotient has the same digits, six places down. */
  lemma {:induction false} DivExact(n: nat, negative: bool)
    requires n <= 2 * MAX_TERM
    ensures var q := Div(Decimal(negative, n, -6), MILLION, COST_PRECISION);
            q.negative == negative && -12 <= q.exponent <= -6 && q.coefficient * Pow10(q.exponent + 12) == n
  {
    if n > 0 {
      Small(n);
      var shift := 7 - NumDigits(n) + COST_PRECISION + 1;
      MillionDigits();
      MillionDivides(n, shift);
      ShedAdded(n, shift - 6, -6 - shift, -6);
      ShedKeeps(n, -12, -6);
      var (c, exponent) := Shed(n, -12, -6);
      Small(c);
      FixExact(Decimal(negative, c, exponent), COST_PRECISION);
      DivShed(n, negative, shift, c, exponent);
    }
  }

  lemma {:induction false} MillionDigits()
    ensures NumDigits(1_000_000) == 7
  {
  }

  lemma {:induction false} DivShed(n: nat, negative: bool, shift: nat, c: nat, exponent: int)
    requires n > 0 && shift >= 6 && shift == NumDigits(1_000_000) - NumDigits(n) + COST_PRECISION + 1
    requires DivMod(n * Pow10(shift), 1_000_000) == (n * Pow10(shift - 6), 0)
    requires Shed(n * Pow10(shift - 6), -6 - shift, -6) == (c, exponent)
    requires Fix(Decimal(negative, c, exponent), COST_PRECISION) == Decimal(negative, c, exponent)
    ensures Div(Decimal(negative, n, -6), MILLION, COST_PRECISION) == Decimal(negative, c, exponent)
  {
    assert Raised(n, shift) == n * Pow10(shift);
  }

  lemma {:induction false} SumIsTotal(price: ModelPrice, input: nat, output: nat) returns (sum: Decimal)
    requires IsRate(price.input) && IsRate(price.output) && input <= MAX_TOKENS && output <= MAX_TOKENS
    ensures sum == Add(Mul(FromInt(input), price.input, COST_PRECISION), Mul(FromInt(output), price.output, COST_PRECISION),
                       COST_PRECISION)
    ensures sum.exponent == -6 && sum.coefficient == Total(price, input, output) <= 2 * MAX_TERM && Signed(sum) >= 0
  {
    MulExact(input, price.input);
    MulExact(output, price.output);
    TermBound(input, price.input);
    TermBound(output, price.output);
    TermSign(input, price.input);
    TermSign(output, price.output);
    var a := Decimal(price.input.negative, Term(input, price.input), -6);
    var b := Decimal(price.output.negative, Term(output, price.output), -6);
    AddExact(a, b);
    sum := Add(a, b, COST_PRECISION);
  }

  /** The quantised cost is the total, exactly. */
  lemma {:induction false} CostIsTotal(price: ModelPrice, input: nat, output: nat)
    requires IsRate(price.input) && IsRate(price.output) && input <= MAX_TOKENS && output <= MAX_TOKENS
    ensures var cost := Quantize(RawCost(price, input, output), -12, COST_PRECISION);
            cost.Some? && cost.value.exponent == -12 && cost.value.coefficient == Total(price, input, output)
            && Signed(cost.value) >= 0
  {
    var sum := SumIsTotal(price, input, output);
    DivExact(sum.coefficient, sum.negative);
    QuantizeExact(Div(sum, MILLION, COST_PRECISION), sum.coefficient);
  }

  lemma {:induction false} TermSign(tokens: nat, rate: Decimal)
    requires IsRate(rate)
    ensures rate.negative ==> Term(tokens, rate) == 0
  {
  }

  lemma {:induction false} QuantizeExact(q: Decimal, n: nat)
    requires -12 <= q.exponent && q.coefficient * Pow10(q.exponent + 12) == n && n <= 2 * MAX_TERM
    ensures Quantize(q, -12, COST_PRECISION) == Some(Decimal(q.negative, n, -12))
  {
    Small(n);
  }

  /**
   The whole of `estimate_cost`: unknown usage has no cost, bad counts are refused, and otherwise the
   cost is the true value, refused only when it does not fit Numeric(24, 12).
   */
  lemma {:induction false} CostIsExact(price: ModelPrice, input: Tokens, output: Tokens)
    requires IsRate(price.input) && IsRate(price.output)
    ensures var r := EstimateCost(price, input, output);
            (r == Ok(None) <==> input.Missing? || output.Missing?)
            && (r.Err? <==> (!input.Missing? && !output.Missing? &&
                  (!InRange(input) || !InRange(output) || Total(price, input.n, output.n) > MAX_COST.coefficient)))
            && (r.Err? ==> r.error == InvalidPriceBook)
            && (r.Ok? && r.value.Some? ==>
                 r.value.value.exponent == -12 && Signed(r.value.value) == Total(price, input.n, output.n))
  {
    if InRange(input) && InRange(output) {
      CostIsTotal(price, input.n, output.n);
      var cost := Quantize(RawCost(price, input.n, output.n), -12, COST_PRECISION).value;
      TimesOne(Signed(cost));
      TimesOne(MAX_COST.coefficient);
    }
  }

  /** The call has this cost. */
  predicate Costs(price: ModelPrice, input: nat, output: nat, cost: Decimal) {
    EstimateCost(price, Count(input), Count(output)) == Ok(Some(cost))
  }

  lemma {:induction false} CostValue(price: ModelPrice, input: nat, output: nat, cost: Decimal)
    requires IsRate(price.input) && IsRate(price.output) && Costs(price, input, output, cost)
    ensures cost.exponent == -12 && Signed(cost) == Total(price, input, output)
  {
    CostIsExact(price, Count(input), Count(output));
  }

  lemma {:induction false} TotalAdds(price: ModelPrice, i: nat, o: nat, j: nat, p: nat)
    ensures Total(price, i + j, o + p) == Total(price, i, o) + Total(price, j, p)
  {
    TermsAdd(i, j, price.input);
    TermsAdd(o, p, price.output);
  }

  lemma {:induction false} TermsAdd(a: nat, b: nat, rate: Decimal)
    ensures Term(a + b, rate) == Term(a, rate) + Term(b, rate)
  {
  }

  /** Costs add up over calls. */
  lemma {:induction false} CostIsAdditive(price: ModelPrice, i: nat, o: nat, j: nat, p: nat, a: Decimal, b: Decimal, both: Decimal)
    requires IsRate(price.input) && IsRate(price.output)
    requires Costs(price, i, o, a) && Costs(price, j, p, b) && Costs(price, i + j, o + p, both)
    ensures both.exponent == a.exponent == b.exponent && Signed(both) == Signed(a) + Signed(b)
  {
    CostValue(price, i, o, a);
    CostValue(price, j, p, b);
    CostValue(price, i + j, o + p, both);
    TotalAdds(price, i, o, j, p);
  }

  /** More tokens never cost less, and fewer are never refused when more are accepted. */
  lemma {:induction false} CostIsMonotone(price: ModelPrice, i: nat, o: nat, more: nat, further: nat)
    requires IsRate(price.input) && IsRate(price.output) && i <= more && o <= further
    requires EstimateCost(price, Count(more), Count(further)).Ok?
    ensures EstimateCost(price, Count(i), Count(o)).Ok?
    ensures Signed(EstimateCost(price, Count(i), Count(o)).value.value)
         <= Signed(EstimateCost(price, Count(more), Count(further)).value.value)
  {
    CostIsExact(price, Count(i), Count(o));
    CostIsExact(price, Count(more), Count(further));
    TimesLe(i, more, price.input.coefficient);
    TimesLe(o, further, price.output.coefficient);
  }

  /** The limit is met exactly by a cost of all nines, and one quantum more is refused. */
  lemma {:induction false} LimitIsSharp()
    ensures var free := Decimal(false, 0, -6);
            EstimateCost(ModelPrice(Decimal(false, 999_999_000_000_999_999, -6), free), Count(1_000_001), Count(0)).Ok?
            && EstimateCost(ModelPrice(Decimal(false, 500_000_000_000_000_000, -6), free), Count(2_000_000), Count(0))
               == Err(InvalidPriceBook)
  {
    var free := Decimal(false, 0, -6);
    var dear := ModelPrice(Decimal(false, 999_999_000_000_999_999, -6), free);
    var round := ModelPrice(Decimal(false, 500_000_000_000_000_000, -6), free);
    CostIsExact(dear, Count(1_000_001), Count(0));
    CostIsExact(round, Count(2_000_000), Count(0));
    assert Total(dear, 1_000_001, 0) == MAX_COST.coefficient;
    assert Total(round, 2_000_000, 0) == MAX_COST.coefficient + 1;
  }

  // ----- in whole numbers -----

  /** A rate in the millionths it is stored in: accepted from nothing to all eighteen nines, and kept. */
  lemma {:induction false} RateInMillionths(d: Decimal)
    ensures NormalizeRate(Number(d)).Ok? <==>
              && !(d.negative && d.coefficient > 0) && d.exponent >= -6
              && d.coefficient * Pow10(d.exponent + 6) <= 999_999_999_999_999_999
    ensures NormalizeRate(Number(d)).Ok? ==>
              && NormalizeRate(Number(d)).value.exponent == -6
              && NormalizeRate(Number(d)).value.coefficient == d.coefficient * Pow10(d.exponent + 6)
    ensures NormalizeRate(NotNumber).Err? && NormalizeRate(NotFinite).Err?
  {
    RateAcceptedIff(Number(d));
    if Signed(d) >= 0 && d.exponent >= -6 {
      NotGreater(d, d.exponent + 6);
    }
  }

  /**
   The cost of a call in the trillionths it is stored in: tokens times rate, input plus output,
   without a remainder; refused exactly beyond the counts of a 32-bit integer or twenty-four nines.
   */
  lemma {:induction false} CostInTrillionths(price: ModelPrice, input: nat, output: nat, trillionths: nat)
    requires IsRate(price.input) && IsRate(price.output)
    requires trillionths == input * price.input.coefficient + output * price.output.coefficient
    ensures var r := EstimateCost(price, Count(input), Count(output));
            && (r.Ok? <==> input <= 2_147_483_647 && output <= 2_147_483_647
                           && trillionths <= 999_999_999_999_999_999_999_999)
            && (r.Ok? ==> r.value.Some? && r.value.value.exponent == -12 && r.value.value.coefficient == trillionths
                          && !(r.value.value.negative && trillionths > 0))
  {
    CostIsExact(price, Count(input), Count(output));
  }

  /** No count below zero, no count that is no integer, and no cost without both counts. */
  lemma {:induction false} CountsAreChecked(price: ModelPrice, input: Tokens, output: Tokens)
    requires IsRate(price.input) && IsRate(price.output)
    ensures input == Missing || output == Missing ==> EstimateCost(price, input, output) == Ok(None)
    ensures input != Missing && output != Missing
            && (input == NotInt || output == NotInt || (input.Count? && input.n < 0) || (output.Count? && output.n < 0)) ==>
              EstimateCost(price, input, output) == Err(InvalidPriceBook)
  {
  }
}
