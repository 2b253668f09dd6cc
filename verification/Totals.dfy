/** Order totals as functions of the chosen items, and how far they are from the exact amounts. */
module Totals {
  import opened Wrappers
  import opened Money

  datatype Item = Item(terms: Terms, quantity: int)

  /** The money columns of an order; only the public flow fills the total in euro. */
  datatype Bill = Bill(subtotalUsd: int, discountUsd: int, discountPercent: int, finalUsd: int, finalEur: Option<int>)

  const USDT_DISCOUNT_PERCENT := 5

  /** Unit prices are whole cents, so rounding a line to cents changes nothing. */
  function LineTotal(i: Item, c: Currency): int {
    DiscountedPrice(i.terms, c) * i.quantity
  }

  function Subtotal(items: seq<Item>, c: Currency): int {
    if items == [] then 0 else Subtotal(items[..|items| - 1], c) + LineTotal(items[|items| - 1], c)
  }

  /** The order-level discount, rounded once on the subtotal. */
  function DiscountOn(subtotal: int, percent: int): int {
    RoundHalfEven(subtotal * percent, 100)
  }

  function FinalTotal(items: seq<Item>, c: Currency, percent: int): int {
    Subtotal(items, c) - DiscountOn(Subtotal(items, c), percent)
  }

  // ---- distance from the exact total ----

  ghost function Quantities(items: seq<Item>): int {
    if items == [] then 0 else Quantities(items[..|items| - 1]) + items[|items| - 1].quantity
  }

  ghost function IdealLine(i: Item, c: Currency): real {
    ExactPrice(i.terms, c) * i.quantity as real
  }

  /** The total before any rounding, in real cents. */
  ghost function IdealSubtotal(items: seq<Item>, c: Currency): real {
    if items == [] then 0.0 else
      IdealSubtotal(items[..|items| - 1], c) + IdealLine(items[|items| - 1], c)
  }

  ghost predicate ItemsOk(items: seq<Item>) {
    forall k :: 0 <= k < |items| ==> TermsOk(items[k].terms) && items[k].quantity >= 0
  }

  ghost predicate Within(x: real, y: real, bound: real) {
    -bound <= x - y <= bound
  }

  lemma ScaledError(p: int, e: real, n: int)
    requires Within(p as real, e, 0.5) && n >= 0
    ensures Within((p * n) as real, e * n as real, 0.5 * n as real)
  {
    assert (p * n) as real == p as real * n as real;
    assert p as real * n as real - e * n as real == (p as real - e) * n as real;
    ScaledBound(p as real - e, n as real);
  }

  lemma ScaledBound(x: real, n: real)
    requires -0.5 <= x <= 0.5 && n >= 0.0
    ensures -(0.5 * n) <= x * n <= 0.5 * n
  {
  }

  lemma {:induction false} QuantitiesNonNegative(items: seq<Item>)
    requires ItemsOk(items)
    ensures Quantities(items) >= 0
  {
    if items != [] {
      QuantitiesNonNegative(items[..|items| - 1]);
    }
  }

  lemma LineError(i: Item, c: Currency)
    requires TermsOk(i.terms) && i.quantity >= 0
    ensures Within(LineTotal(i, c) as real, IdealLine(i, c), 0.5 * i.quantity as real)
  {
    hide DiscountedPrice, ExactPrice;
    PriceNearExact(i.terms, c);
    ScaledError(DiscountedPrice(i.terms, c), ExactPrice(i.terms, c), i.quantity);
  }

  lemma ErrorsAdd(x: int, y: real, m: int, x': int, y': real, m': int)
    requires Within(x as real, y, 0.5 * m as real) && Within(x' as real, y', 0.5 * m' as real)
    ensures Within((x + x') as real, y + y', 0.5 * (m + m') as real)
  {
  }

  lemma {:induction false} SubtotalError(items: seq<Item>, c: Currency)
    requires ItemsOk(items)
    ensures Within(Subtotal(items, c) as real, IdealSubtotal(items, c), 0.5 * Quantities(items) as real)
  {
    if items != [] {
      var before, last := items[..|items| - 1], items[|items| - 1];
      SubtotalError(before, c);
      LineError(last, c);
      ErrorsAdd(Subtotal(before, c), IdealSubtotal(before, c), Quantities(before),
                LineTotal(last, c), IdealLine(last, c), last.quantity);
    }
  }

  lemma {:induction false} SubtotalNonNegative(items: seq<Item>, c: Currency)
    requires ItemsOk(items)
    ensures Subtotal(items, c) >= 0
  {
    if items != [] {
      var last := items[|items| - 1];
      SubtotalNonNegative(items[..|items| - 1], c);
      PriceInRange(last.terms, c);
      ScaledOrder(0, DiscountedPrice(last.terms, c), last.quantity);
    }
  }

  /** Without an order discount the total is off by at most half a cent per unit. */
  lemma PlainTotalError(items: seq<Item>, c: Currency)
    requires ItemsOk(items)
    ensures Within(FinalTotal(items, c, 0) as real, IdealSubtotal(items, c), 0.5 * Quantities(items) as real)
  {
    SubtotalError(items, c);
    RoundWhole(0, 100);
  }

  /** With the USDT discount, by at most 0.475 cents per unit and half a cent more. */
  lemma DiscountedTotalError(items: seq<Item>, c: Currency)
    requires ItemsOk(items)
    ensures Within(FinalTotal(items, c, USDT_DISCOUNT_PERCENT) as real, 0.95 * IdealSubtotal(items, c),
                   0.475 * Quantities(items) as real + 0.5)
  {
    SubtotalError(items, c);
    var s := Subtotal(items, c);
    assert IsHalfEven(s * USDT_DISCOUNT_PERCENT, 100, DiscountOn(s, USDT_DISCOUNT_PERCENT));
    assert Within(DiscountOn(s, USDT_DISCOUNT_PERCENT) as real, 0.05 * s as real, 0.5);
  }

  /** The half cent per unit is reached: half off a one-cent price, in any quantity. */
  lemma PlainTotalErrorIsReached(n: nat)
    ensures var items := [Item(Terms(1, 1, Some(50_000), None, None), n)];
            && ItemsOk(items)
            && IdealSubtotal(items, USD) - FinalTotal(items, USD, 0) as real == 0.5 * Quantities(items) as real
  {
    var t := Terms(1, 1, Some(50_000), None, None);
    var items := [Item(t, n)];
    assert items[..0] == [];
    assert DiscountedPrice(t, USD) == 0;
    assert ExactPrice(t, USD) == 0.5;
    assert Subtotal(items, USD) == Subtotal(items[..0], USD) + LineTotal(items[0], USD) == 0;
    assert IdealSubtotal(items, USD) == IdealSubtotal(items[..0], USD) + ExactPrice(t, USD) * n as real;
    assert Quantities(items) == Quantities(items[..0]) + n;
    RoundWhole(0, 100);
  }

  /** One unit of 61 cents and `n` of one cent, all at half price. */
  function Awkward(n: nat): seq<Item> {
    [Item(Terms(61, 61, Some(50_000), None, None), 1), Item(Terms(1, 1, Some(50_000), None, None), n)]
  }

  /** That bound is reached as well, by every number of units: the half cents are all lost, and then the
      USDT discount on 30 cents is two instead of one and a half. */
  lemma DiscountedTotalErrorIsReached(n: nat)
    ensures var items := Awkward(n);
            && ItemsOk(items) && Quantities(items) == n + 1
            && 0.95 * IdealSubtotal(items, USD) - FinalTotal(items, USD, USDT_DISCOUNT_PERCENT) as real ==
               0.475 * Quantities(items) as real + 0.5
  {
    var items := Awkward(n);
    var first, second := items[0], items[1];
    assert items[..1] == [first] && [first][..0] == [];
    assert DiscountedPrice(first.terms, USD) == 30 && DiscountedPrice(second.terms, USD) == 0;
    assert ExactPrice(first.terms, USD) == 30.5 && ExactPrice(second.terms, USD) == 0.5;
    assert Subtotal([first], USD) == Subtotal([], USD) + LineTotal(first, USD) == 30;
    assert Subtotal(items, USD) == Subtotal([first], USD) + LineTotal(second, USD) == 30;
    assert IdealSubtotal([first], USD) == IdealSubtotal([], USD) + IdealLine(first, USD) == 30.5;
    assert IdealSubtotal(items, USD) == 30.5 + 0.5 * n as real;
    assert Quantities([first]) == Quantities([]) + 1 && Quantities(items) == Quantities([first]) + n;
    assert DiscountOn(30, USDT_DISCOUNT_PERCENT) == 2;
  }

  // ---- totals do not depend on presentation ----

  lemma {:induction false} SubtotalOfBoth(a: seq<Item>, b: seq<Item>, c: Currency)
    ensures Subtotal(a + b, c) == Subtotal(a, c) + Subtotal(b, c)
  {
    if b == [] {
      assert a + b == a;
    } else {
      SubtotalOfBoth(a, b[..|b| - 1], c);
      assert (a + b)[..|a + b| - 1] == a + b[..|b| - 1];
    }
  }

  lemma SubtotalOfOne(i: Item, c: Currency)
    ensures Subtotal([i], c) == LineTotal(i, c)
  {
    assert [i][..0] == [];
    assert Subtotal([i], c) == Subtotal([i][..0], c) + LineTotal(i, c);
  }

  function Without(items: seq<Item>, k: nat): (rest: seq<Item>)
    requires k < |items|
    ensures |rest| == |items| - 1
  {
    items[..k] + items[k + 1..]
  }

  lemma TakeOneOut(items: seq<Item>, k: nat, c: Currency)
    requires k < |items|
    ensures Subtotal(items, c) == Subtotal(Without(items, k), c) + LineTotal(items[k], c)
    ensures multiset(items) == multiset(Without(items, k)) + multiset{items[k]}
  {
    hide LineTotal;
    var i := items[k];
    assert items == items[..k] + [i] + items[k + 1..];
    SubtotalOfBoth(items[..k] + [i], items[k + 1..], c);
    SubtotalOfBoth(items[..k], [i], c);
    SubtotalOfBoth(items[..k], items[k + 1..], c);
    SubtotalOfOne(i, c);
  }

  lemma SameRest<T>(a: multiset<T>, b: multiset<T>, x: T)
    requires a + multiset{x} == b + multiset{x}
    ensures a == b
  {
    assert a == a + multiset{x} - multiset{x};
  }

  lemma {:induction false} PermutationKeepsSubtotal(a: seq<Item>, b: seq<Item>, c: Currency)
    requires multiset(a) == multiset(b)
    ensures Subtotal(a, c) == Subtotal(b, c)
    decreases |a|
  {
    hide *;
    if a == [] {
      assert |multiset(b)| == 0;
      assert b == [];
    } else {
      var last := a[|a| - 1];
      assert last in multiset(b);
      var k :| 0 <= k < |b| && b[k] == last;
      TakeOneOut(a, |a| - 1, c);
      TakeOneOut(b, k, c);
      var a', b' := Without(a, |a| - 1), Without(b, k);
      SameRest(multiset(a'), multiset(b'), last);
      PermutationKeepsSubtotal(a', b', c);
    }
  }

  /** The order of the items does not matter. */
  lemma PermutationKeepsTotals(a: seq<Item>, b: seq<Item>, c: Currency, percent: int)
    requires multiset(a) == multiset(b)
    ensures Subtotal(a, c) == Subtotal(b, c) && FinalTotal(a, c, percent) == FinalTotal(b, c, percent)
  {
    PermutationKeepsSubtotal(a, b, c);
  }

  /** One line of quantity `m + n` costs what two lines of `m` and `n` cost. */
  lemma SplitLineKeepsTotals(before: seq<Item>, t: Terms, m: int, n: int, after: seq<Item>, c: Currency, percent: int)
    ensures var one := before + [Item(t, m + n)] + after;
            var two := before + [Item(t, m), Item(t, n)] + after;
            Subtotal(one, c) == Subtotal(two, c) && FinalTotal(one, c, percent) == FinalTotal(two, c, percent)
  {
    var p := DiscountedPrice(t, c);
    assert p * (m + n) == p * m + p * n;
    assert [Item(t, m), Item(t, n)] == [Item(t, m)] + [Item(t, n)];
    SubtotalOfBoth([Item(t, m)], [Item(t, n)], c);
    SubtotalOfOne(Item(t, m), c);
    SubtotalOfOne(Item(t, n), c);
    SubtotalOfOne(Item(t, m + n), c);
    SubtotalOfBoth(before, [Item(t, m + n)], c);
    SubtotalOfBoth(before, [Item(t, m), Item(t, n)], c);
    SubtotalOfBoth(before + [Item(t, m + n)], after, c);
    SubtotalOfBoth(before + [Item(t, m), Item(t, n)], after, c);
  }

  /** Placing one order as two changes the rounded order discount by at most one cent, either way. */
  lemma SplitOrderDiscount(a: seq<Item>, b: seq<Item>, c: Currency, percent: int)
    ensures var whole := DiscountOn(Subtotal(a + b, c), percent);
            var parts := DiscountOn(Subtotal(a, c), percent) + DiscountOn(Subtotal(b, c), percent);
            -1 <= whole - parts <= 1
  {
    SubtotalOfBoth(a, b, c);
    DiscountOfSum(Subtotal(a, c), Subtotal(b, c), percent);
  }

  lemma DiscountOfSum(x: int, y: int, percent: int)
    ensures -1 <= DiscountOn(x + y, percent) - (DiscountOn(x, percent) + DiscountOn(y, percent)) <= 1
  {
    var m, n := x * percent, y * percent;
    assert (x + y) * percent == m + n;
    HalfEvenSum(m, n, 100, RoundHalfEven(m, 100), RoundHalfEven(n, 100), RoundHalfEven(m + n, 100));
  }

  /** An order discount between 0 and 100 percent leaves a final total between zero and the subtotal. */
  lemma FinalInRange(subtotal: int, percent: int)
    requires subtotal >= 0 && 0 <= percent <= 100
    ensures 0 <= subtotal - DiscountOn(subtotal, percent) <= subtotal
  {
    ScaledOrder(0, percent, subtotal);
    ScaledOrder(percent, 100, subtotal);
    RoundMonotone(0, subtotal * percent, 100);
    RoundMonotone(subtotal * percent, subtotal * 100, 100);
    RoundWhole(0, 100);
    RoundWhole(subtotal, 100);
  }
}
