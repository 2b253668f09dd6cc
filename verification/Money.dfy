/** Prices and discounts. Amounts are integer cents, percentages integer thousandths of a percent.
    Rounding is round-half-even (roundTiesToEven, section 4.3.1 of IEEE 754-2008). The field limits
    keep every intermediate product inside the decimal context, so `quantize` alone rounds. */
module Money {
  import opened Arithmetic
  import opened Wrappers
  import Text

  datatype Currency = USD | EUR

  /** What an option row says about its price: one price and at most one discount amount per
      currency, and a percentage. The table is liberal: no combination is excluded here. */
  datatype Terms = Terms(
    priceUsd: int, priceEur: int,
    percent: Option<int>, amountUsd: Option<int>, amountEur: Option<int>)
  {
    function Base(c: Currency): int {
      if c == USD then priceUsd else priceEur
    }

    function Amount(c: Currency): Option<int> {
      if c == USD then amountUsd else amountEur
    }
  }

  const HUNDRED_PERCENT := 100_000

  // ---- rounding ----

  /** `r` is the integer nearest to `n / d`, the even one of two equally near. */
  ghost predicate IsHalfEven(n: int, d: int, r: int) {
    && -d <= 2 * (d * r - n) <= d
    && (2 * (d * r - n) == d || 2 * (d * r - n) == -d ==> r % 2 == 0)
  }

  lemma QuotientIsNearest(n: int, d: int, q: int, rest: int)
    requires d > 0 && n == d * q + rest && 0 <= rest < d
    ensures IsHalfEven(n, d, if 2 * rest < d || (2 * rest == d && q % 2 == 0) then q else q + 1)
  {
    assert d * (q + 1) == d * q + d;
  }

  function RoundHalfEven(n: int, d: int): (r: int)
    requires d > 0
    ensures IsHalfEven(n, d, r)
  {
    var q, rest := n / d, n % d;
    QuotientIsNearest(n, d, q, rest);
    if 2 * rest < d || (2 * rest == d && q % 2 == 0) then q else q + 1
  }

  lemma ScaledGap(d: int, a: int, b: int)
    requires d > 0 && a < b
    ensures d * b >= d * a + d
    ensures b > a + 1 ==> d * b >= d * a + 2 * d
  {
    var gap := b - a;
    assert d * b == d * a + d * gap;
    assert d * gap >= d && (gap >= 2 ==> d * gap >= d * 2);
  }

  lemma ScaledOrder(a: int, b: int, k: int)
    requires a <= b && k >= 0
    ensures a * k <= b * k && k * a <= k * b
  {
    var gap := b - a;
    assert b * k == a * k + gap * k && gap * k >= 0;
  }

  /** At most one integer meets the rounding specification. */
  lemma HalfEvenUnique(n: int, d: int, a: int, b: int)
    requires d > 0 && IsHalfEven(n, d, a) && IsHalfEven(n, d, b)
    ensures a == b
  {
    if a < b { ScaledGap(d, a, b); }
    if b < a { ScaledGap(d, b, a); }
  }

  /** Rounding two parts and rounding their sum differ by at most one. */
  lemma HalfEvenSum(m: int, n: int, d: int, a: int, b: int, whole: int)
    requires d > 0 && IsHalfEven(m, d, a) && IsHalfEven(n, d, b) && IsHalfEven(m + n, d, whole)
    ensures -1 <= whole - (a + b) <= 1
  {
    assert d * (a + b) == d * a + d * b;
    if whole > a + b { ScaledGap(d, a + b, whole); }
    if whole < a + b { ScaledGap(d, whole, a + b); }
  }

  lemma RoundMonotone(m: int, n: int, d: int)
    requires d > 0 && m <= n
    ensures RoundHalfEven(m, d) <= RoundHalfEven(n, d)
  {
    var a, b := RoundHalfEven(n, d), RoundHalfEven(m, d);
    if a < b {
      ScaledGap(d, a, b);
      assert m == n;
    }
  }

  /** Rounding leaves whole cents alone. */
  lemma RoundWhole(n: int, d: int)
    requires d > 0
    ensures RoundHalfEven(n * d, d) == n
  {
    assert IsHalfEven(n * d, d, n) by {
      assert d * n == n * d;
    }
    HalfEvenUnique(n * d, d, RoundHalfEven(n * d, d), n);
  }

  /** Rounding does not depend on the scale of the fraction. */
  lemma ScaledRound(n: int, d: int, k: int)
    requires d > 0 && k > 0
    ensures k * d > 0 && RoundHalfEven(k * n, k * d) == RoundHalfEven(n, d)
  {
    hide RoundHalfEven, IsHalfEven;
    ScaledOrder(1, d, k);
    ScaledHalfEven(n, d, k, RoundHalfEven(n, d));
    HalfEvenUnique(k * n, k * d, RoundHalfEven(k * n, k * d), RoundHalfEven(n, d));
  }

  lemma ScaledHalfEven(n: int, d: int, k: int, r: int)
    requires d > 0 && k > 0 && IsHalfEven(n, d, r)
    ensures IsHalfEven(k * n, k * d, r)
  {
    var gap := 2 * (d * r - n);
    assert 2 * ((k * d) * r - k * n) == k * gap by {
      assert (k * d) * r == k * (d * r);
      assert k * gap == 2 * (k * (d * r) - k * n);
    }
    ScaledOrder(-d, gap, k);
    ScaledOrder(gap, d, k);
    assert k * -d == -(k * d);
    if k * gap == k * d { SameProduct(k, gap, d); }
    if k * gap == -(k * d) { SameProduct(k, gap, -d); }
  }

  lemma SameProduct(k: int, a: int, b: int)
    requires k > 0 && k * a == k * b
    ensures a == b
  {
    if a < b { ScaledGap(k, a, b); }
    if b < a { ScaledGap(k, b, a); }
  }

  // ---- decimals ----

  /** The decimal `coefficient / 10^places`. Operations are exact: the field limits keep every
      coefficient far below the 28 digits of the context. */
  datatype Decimal = Decimal(coefficient: int, places: nat)

  function Times(a: Decimal, b: Decimal): Decimal {
    Decimal(a.coefficient * b.coefficient, a.places + b.places)
  }

  /** The quotient by 100, with as many places as it needs but no fewer than its operand has. */
  function Hundredth(a: Decimal): Decimal {
    Stripped(Decimal(a.coefficient, a.places + 2), a.places)
  }

  function Stripped(a: Decimal, ideal: nat): Decimal
    decreases a.places
  {
    if a.places > ideal && a.coefficient % 10 == 0
    then Stripped(Decimal(a.coefficient / 10, a.places - 1), ideal)
    else a
  }

  /** `quantize` to two places, in cents. */
  function ToCents(a: Decimal): int {
    if a.places <= 2 then a.coefficient * Text.Pow10(2 - a.places)
    else RoundHalfEven(a.coefficient, Text.Pow10(a.places - 2))
  }

  lemma ZeroMayGo(coefficient: int, places: nat)
    ensures ToCents(Decimal(10 * coefficient, places + 1)) == ToCents(Decimal(coefficient, places))
  {
    if places == 2 {
      RoundWhole(coefficient, 10);
    } else if places > 2 {
      ScaledRound(coefficient, Text.Pow10(places - 2), 10);
    } else {
      assert Text.Pow10(2 - places) == 10 * Text.Pow10(1 - places);
    }
  }

  /** Stripping zeros from a factor changes no product's cents. */
  lemma {:induction false} StrippedFactor(a: Decimal, b: Decimal, ideal: nat)
    ensures ToCents(Times(a, Stripped(b, ideal))) == ToCents(Times(a, b))
    decreases b.places
  {
    hide ToCents;
    if b.places > ideal && b.coefficient % 10 == 0 {
      var fewer := Decimal(b.coefficient / 10, b.places - 1);
      StrippedFactor(a, fewer, ideal);
      TenfoldProduct(a.coefficient, b.coefficient);
      ZeroMayGo(a.coefficient * fewer.coefficient, a.places + fewer.places);
    }
  }

  lemma TenfoldProduct(m: int, n: int)
    requires n % 10 == 0
    ensures m * n == 10 * (m * (n / 10))
  {
    var tenth := n / 10;
    assert n == 10 * tenth;
    assert m * (10 * tenth) == 10 * (m * tenth);
  }

  lemma HundredthInCents(n: int)
    ensures ToCents(Decimal(n, 4)) == RoundHalfEven(n, 100)
  {
    assert Text.Pow10(2) == 100;
  }

  lemma StrippedAlone(b: Decimal, ideal: nat)
    ensures ToCents(Stripped(b, ideal)) == ToCents(b)
  {
    var one := Decimal(1, 0);
    StrippedFactor(one, b, ideal);
    assert Times(one, b) == b && Times(one, Stripped(b, ideal)) == Stripped(b, ideal);
  }

  /** Taking a hundredth of the percentage first, or of the product last, gives the same cents: the
      product's hundredth, rounded half-even once. */
  lemma ShareInCents(cents: int, percent: int)
    ensures ToCents(Times(Decimal(cents, 2), Hundredth(Decimal(percent, 0)))) == RoundHalfEven(cents * percent, 100)
    ensures ToCents(Hundredth(Times(Decimal(cents, 2), Decimal(percent, 0)))) == RoundHalfEven(cents * percent, 100)
  {
    StrippedFactor(Decimal(cents, 2), Decimal(percent, 2), 0);
    StrippedAlone(Decimal(cents * percent, 4), 2);
    HundredthInCents(cents * percent);
  }

  // ---- the price a customer is shown and charged ----

  /** The option's price in one currency after its discount, in cents: a non-zero percentage wins
      over amounts, and amounts never push the price below zero. */
  function DiscountedPrice(t: Terms, c: Currency): int {
    var base := t.Base(c);
    if t.percent.Some? && t.percent.value != 0 then
      RoundHalfEven(base * (HUNDRED_PERCENT - t.percent.value), HUNDRED_PERCENT)
    else if t.Amount(c).Some? && t.Amount(c).value != 0 then
      Max(base - t.Amount(c).value, 0)
    else
      base
  }

  function UpperChar(c: char): char {
    if 'a' <= c <= 'z' then c - 'a' + 'A' else c
  }

  function Upper(s: string): string {
    seq(|s|, i requires 0 <= i < |s| => UpperChar(s[i]))
  }

  datatype PriceError = UnsupportedCurrency(code: string)

  /** The same price looked up by currency code in any letter case. */
  function CalculateDiscountedPrice(t: Terms, code: string): Result<int, PriceError> {
    match Upper(code)
    case "USD" => Ok(DiscountedPrice(t, USD))
    case "EUR" => Ok(DiscountedPrice(t, EUR))
    case other => Err(UnsupportedCurrency(other))
  }

  // ---- which discounts a row may carry ----

  datatype DiscountError =
    | MutuallyExclusive
    | MustComeTogether
    | PercentOutOfRange
    | AmountUsdNotPositive
    | AmountEurNotPositive

  /** No discount, or one percentage strictly between 0 and 100, or a positive amount in both currencies. */
  ghost predicate DiscountOk(percent: Option<int>, usd: Option<int>, eur: Option<int>) {
    || (percent == None && usd == None && eur == None)
    || (percent.Some? && 0 < percent.value < HUNDRED_PERCENT && usd == None && eur == None)
    || (percent == None && usd.Some? && eur.Some? && usd.value > 0 && eur.value > 0)
  }

  /** The validator, check by check; it accepts exactly the permitted combinations. */
  function ValidateDiscountCombination(percent: Option<int>, usd: Option<int>, eur: Option<int>):
    (r: Result<(), DiscountError>)
    ensures r.Ok? <==> DiscountOk(percent, usd, eur)
  {
    if percent.Some? && (usd.Some? || eur.Some?) then Err(MutuallyExclusive)
    else if usd.None? != eur.None? then Err(MustComeTogether)
    else if percent.Some? && !(0 < percent.value < HUNDRED_PERCENT) then Err(PercentOutOfRange)
    else if usd.Some? && usd.value <= 0 then Err(AmountUsdNotPositive)
    else if eur.Some? && eur.value <= 0 then Err(AmountEurNotPositive)
    else Ok(())
  }

  /** Ten digits, two of them decimals: the most an amount can be in a payload and in a column. */
  const AMOUNT_LIMIT := 9_999_999_999

  predicate AmountFits(cents: int) {
    -AMOUNT_LIMIT <= cents <= AMOUNT_LIMIT
  }

  predicate PriceFits(cents: int) {
    0 <= cents <= AMOUNT_LIMIT
  }

  /** A percentage has seven digits, three of them decimals. */
  predicate DigitsFit(t: Terms) {
    && PriceFits(t.priceUsd) && PriceFits(t.priceEur)
    && (t.percent.Some? ==> -9_999_999 <= t.percent.value <= 9_999_999)
    && (t.amountUsd.Some? ==> AmountFits(t.amountUsd.value))
    && (t.amountEur.Some? ==> AmountFits(t.amountEur.value))
  }

  ghost predicate TermsOk(t: Terms) {
    && DigitsFit(t)
    && DiscountOk(t.percent, t.amountUsd, t.amountEur)
  }

  // ---- what the rules give for prices ----

  /** The price before rounding, in real cents. */
  ghost function ExactPrice(t: Terms, c: Currency): real {
    var base := t.Base(c) as real;
    if t.percent.Some? then base * ((HUNDRED_PERCENT - t.percent.value) as real / HUNDRED_PERCENT as real)
    else if t.Amount(c).Some? then (if base >= t.Amount(c).value as real then base - t.Amount(c).value as real else 0.0)
    else base
  }

  /** A discount never raises a price and never makes it negative. */
  lemma PriceInRange(t: Terms, c: Currency)
    requires TermsOk(t)
    ensures 0 <= DiscountedPrice(t, c) <= t.Base(c)
  {
    if t.percent.Some? {
      var base, keep := t.Base(c), HUNDRED_PERCENT - t.percent.value;
      ScaledOrder(keep, HUNDRED_PERCENT, base);
      ScaledOrder(0, keep, base);
      RoundMonotone(0, base * keep, HUNDRED_PERCENT);
      RoundMonotone(base * keep, base * HUNDRED_PERCENT, HUNDRED_PERCENT);
      RoundWhole(0, HUNDRED_PERCENT);
      RoundWhole(base, HUNDRED_PERCENT);
    }
  }

  lemma RealShare(base: int, keep: int)
    ensures base as real * (keep as real / HUNDRED_PERCENT as real) == (base * keep) as real / HUNDRED_PERCENT as real
  {
    assert (base * keep) as real == base as real * keep as real;
  }

  lemma RoundIsNear(n: int)
    ensures -0.5 <= RoundHalfEven(n, HUNDRED_PERCENT) as real - n as real / HUNDRED_PERCENT as real <= 0.5
  {
    var r := RoundHalfEven(n, HUNDRED_PERCENT);
    assert -HUNDRED_PERCENT <= 2 * (HUNDRED_PERCENT * r - n) <= HUNDRED_PERCENT;
  }

  lemma ExactShare(t: Terms, c: Currency)
    requires t.percent.Some?
    ensures ExactPrice(t, c) ==
            (t.Base(c) * (HUNDRED_PERCENT - t.percent.value)) as real / HUNDRED_PERCENT as real
  {
    RealShare(t.Base(c), HUNDRED_PERCENT - t.percent.value);
  }

  lemma FlatPriceIsExact(t: Terms, c: Currency)
    requires t.percent.None? && (t.Amount(c).Some? ==> t.Amount(c).value > 0)
    ensures t.Base(c) >= 0 ==> DiscountedPrice(t, c) as real == ExactPrice(t, c)
  {
  }

  /** The price is within half a cent of the unrounded one. */
  lemma PriceNearExact(t: Terms, c: Currency)
    requires TermsOk(t)
    ensures -0.5 <= DiscountedPrice(t, c) as real - ExactPrice(t, c) <= 0.5
  {
    hide RoundHalfEven, IsHalfEven, ExactPrice;
    if t.percent.Some? {
      ExactShare(t, c);
      RoundIsNear(t.Base(c) * (HUNDRED_PERCENT - t.percent.value));
    } else {
      FlatPriceIsExact(t, c);
    }
  }

  /** What an option's price in one currency is, from the columns of that currency: the list price without
      a discount; the list price less the amount, but not below zero; or within half a cent of the list
      price less the percentage, which is in thousandths. */
  ghost predicate PricedAs(price: int, base: int, percent: Option<int>, amount: Option<int>) {
    && 0 <= price <= base
    && (percent.None? && amount.None? ==> price == base)
    && (percent.None? && amount.Some? ==> price == if base >= amount.value then base - amount.value else 0)
    && (percent.Some? ==> -0.5 <= price as real - base as real * ((100_000 - percent.value) as real / 100_000.0) <= 0.5)
  }

  /** A look-up by currency code, in any letter case, prices from that currency's columns; any other code is
      refused. */
  ghost predicate SafelyPriced(t: Terms, code: string) {
    match CalculateDiscountedPrice(t, code)
    case Ok(price) =>
      || (Upper(code) == "USD" && PricedAs(price, t.priceUsd, t.percent, t.amountUsd))
      || (Upper(code) == "EUR" && PricedAs(price, t.priceEur, t.percent, t.amountEur))
    case Err(_) => Upper(code) != "USD" && Upper(code) != "EUR"
  }

  lemma PriceIsPricedAs(t: Terms, c: Currency)
    requires TermsOk(t)
    ensures PricedAs(DiscountedPrice(t, c), if c == USD then t.priceUsd else t.priceEur, t.percent,
                     if c == USD then t.amountUsd else t.amountEur)
  {
    hide RoundHalfEven, IsHalfEven, DiscountedPrice, ExactPrice;
    PriceInRange(t, c);
    if t.percent.Some? {
      ExactWithPercent(t, c);
      PriceNearExact(t, c);
    } else {
      PriceWithoutPercent(t, c);
    }
  }

  lemma ExactWithPercent(t: Terms, c: Currency)
    requires t.percent.Some?
    ensures ExactPrice(t, c) == t.Base(c) as real * ((100_000 - t.percent.value) as real / 100_000.0)
  {
  }

  lemma PriceWithoutPercent(t: Terms, c: Currency)
    requires TermsOk(t) && t.percent.None?
    ensures DiscountedPrice(t, c) ==
            if t.Amount(c).None? then t.Base(c)
            else if t.Base(c) >= t.Amount(c).value then t.Base(c) - t.Amount(c).value else 0
  {
  }

  lemma PriceIsSafe(t: Terms, code: string)
    requires TermsOk(t)
    ensures SafelyPriced(t, code)
  {
    hide DiscountedPrice, TermsOk, Upper, PricedAs;
    PriceIsPricedAs(t, USD);
    PriceIsPricedAs(t, EUR);
  }

  /** Raising the list price under the same discount never lowers the charged price. */
  lemma PriceMonotone(cheap: Terms, dear: Terms, c: Currency)
    requires TermsOk(cheap) && TermsOk(dear)
    requires cheap.percent == dear.percent && cheap.Amount(c) == dear.Amount(c)
    requires cheap.Base(c) <= dear.Base(c)
    ensures DiscountedPrice(cheap, c) <= DiscountedPrice(dear, c)
  {
    if cheap.percent.Some? {
      var keep := HUNDRED_PERCENT - cheap.percent.value;
      ScaledOrder(cheap.Base(c), dear.Base(c), keep);
      RoundMonotone(cheap.Base(c) * keep, dear.Base(c) * keep, HUNDRED_PERCENT);
    }
  }

  /** A larger percentage off the same list price never raises the charged price. */
  lemma PriceAntitone(small: Terms, large: Terms, c: Currency)
    requires TermsOk(small) && TermsOk(large)
    requires small.percent.Some? && large.percent.Some? && small.percent.value <= large.percent.value
    requires small.Base(c) == large.Base(c)
    ensures DiscountedPrice(large, c) <= DiscountedPrice(small, c)
  {
    var base := small.Base(c);
    var keepLess, keepMore := HUNDRED_PERCENT - large.percent.value, HUNDRED_PERCENT - small.percent.value;
    ScaledOrder(keepLess, keepMore, base);
    RoundMonotone(base * keepLess, base * keepMore, HUNDRED_PERCENT);
  }
}
