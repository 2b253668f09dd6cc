/** The two order-creating services as they run: item by item, accumulating subtotals and lines, and
    storing the order only when every item was accepted. */
module OrderCreation {
  import opened Wrappers
  import opened Money
  import opened Totals
  import opened Catalogue
  import opened Checkout
  import Orders

  class OrderTable {
    const db: Db
    var desk: Orders.Desk
    var items: map<string, seq<Line>>

    function State(): Shop
      reads this
    {
      Shop(db, desk, items)
    }

    constructor (db: Db)
      ensures State() == Shop(db, Orders.EMPTY, map[])
    {
      this.db := db;
      desk, items := Orders.EMPTY, map[];
    }

    /** The live service with a slug, if any. */
    method GetBySlug(slug: string) returns (found: Option<Id>)
      requires SlugsUnique(db)
      ensures found == ServiceNamed(db, slug)
    {
      if exists id :: id in db.services && IsNamed(db, slug, id) {
        var id: Id :| id in db.services && IsNamed(db, slug, id);
        return Some(id);
      }
      assert forall id :: IsNamed(db, slug, id) ==> id in db.services;
      return None;
    }

    method ResolveItem(item: CartItem) returns (r: Result<Line, OrderError>)
      requires SlugsUnique(db)
      ensures r == Resolved(db, item)
    {
      var found := GetBySlug(item.slug);
      if found.None? || !db.services[found.value].isActive { return Err(ServiceNotFound); }
      var id := found.value;
      if item.optionId !in db.options || db.options[item.optionId].serviceId != id { return Err(OptionMismatch); }
      return Ok(PricedLine(db, id, item));
    }

    /** The INSERT of the order and its items in one transaction: amounts that do not fit, dangling
        references and a taken number fail it, and then nothing is stored and nobody told. */
    method Insert(number: string, sale: Sale, announced: bool, now: int) returns (r: Result<Sale, OrderError>)
      modifies this
      ensures State() == WithSale(old(State()), number, Stored(db, sale), announced, now)
      ensures r == Numbered(old(State()), number, Stored(db, sale))
    {
      if !Storable(db, sale) { return Err(NotStorable); }
      if number in desk.orders { return Err(DuplicateNumber); }
      Orders.InsertedOnly(desk, number, DraftOf(sale), announced, now);
      desk := desk.(orders := desk.orders[number := Orders.Placed(DraftOf(sale), now)]);
      items := items[number := sale.lines];
      if announced {
        desk := desk.(outbox := desk.outbox + [Orders.NewOrder(number)]);
      }
      return Ok(sale);
    }

    method CreatePublic(number: string, cart: Cart, now: int) returns (r: Result<Sale, OrderError>)
      requires SlugsUnique(db)
      modifies this
      ensures State() == Checkout.After(old(State()), Buy(number, cart, now))
      ensures r == Numbered(old(State()), number, PublicSale(db, cart))
      ensures r.Ok? ==> DiscountedByMethod(r.value) && r.value.paymentMethod == cart.paymentMethod
    {
      PublicSaleIsByMethod(db, cart);
      hide DiscountedByMethod;
      NothingYet(db);
      hide ResolvedAll, SumOf, Resolved, SlugsUnique, Storable, ToCents, Hundredth, Times, Orders.Serve;
      if !CartOk(cart) { return Err(InvalidOrder); }
      if cart.items == [] { return Err(Empty); }
      var subtotalUsd, subtotalEur := 0, 0;
      var lines: seq<Line> := [];
      for i := 0 to |cart.items|
        invariant ResolvedAll(db, cart.items[..i]) == Ok(lines)
        invariant subtotalUsd == SumOf(lines, USD) && subtotalEur == SumOf(lines, EUR)
        invariant State() == old(State())
      {
        var resolved := ResolveItem(cart.items[i]);
        ResolvedOneMore(db, cart.items, i);
        if resolved.Err? {
          RefusedAtOnce(db, cart.items, i + 1);
          return Err(resolved.error);
        }
        var line := resolved.value;
        subtotalUsd := subtotalUsd + line.totalUsd;
        subtotalEur := subtotalEur + line.totalEur;
        SumOneMore(lines, line);
        lines := lines + [line];
      }
      assert cart.items[..|cart.items|] == cart.items;
      var percent := if cart.paymentMethod == Orders.UsdtTrc20 then USDT_DISCOUNT_PERCENT else 0;
      var factor := Hundredth(Decimal(percent, 0));
      var discountUsd := ToCents(Times(Decimal(subtotalUsd, 2), factor));
      var discountEur := ToCents(Times(Decimal(subtotalEur, 2), factor));
      var bill := Bill(subtotalUsd, discountUsd, percent, subtotalUsd - discountUsd, Some(subtotalEur - discountEur));
      var sale := Sale(cart.paymentMethod, cart.comment, lines, bill);
      r := Insert(number, sale, true, now);
    }

    method RecordItem(item: InternalItem) returns (r: Result<Line, OrderError>)
      ensures r == InternalLine(db, item)
    {
      var totalUsd, totalEur := item.unitUsd * item.quantity, item.unitEur * item.quantity;
      var snapshot := InternalSnapshot(db, item);
      if snapshot.Err? { return Err(snapshot.error); }
      return Ok(Line(item.serviceId, item.optionId, snapshot.value, item.quantity,
                     item.unitUsd, item.unitEur, totalUsd, totalEur));
    }

    method CreateInternal(number: string, payload: InternalOrder, now: int) returns (r: Result<Sale, OrderError>)
      modifies this
      ensures State() == Checkout.After(old(State()), BuyInternal(number, payload, now))
      ensures r == Numbered(old(State()), number, InternalSale(db, payload))
      ensures r.Ok? ==> RecordsAll(db, payload, r.value)
    {
      InternalSaleRecords(db, payload);
      hide RecordsAll;
      NothingYet(db);
      hide InternalLines, SumOf, InternalOk, InternalLine, Storable, ToCents, Hundredth, Times, Orders.Serve;
      if !InternalOk(payload) { return Err(InvalidOrder); }
      if payload.items == [] { return Err(Empty); }
      var subtotalUsd := 0;
      var lines: seq<Line> := [];
      for i := 0 to |payload.items|
        invariant InternalLines(db, payload.items[..i]) == Ok(lines)
        invariant subtotalUsd == SumOf(lines, USD)
        invariant State() == old(State())
      {
        var recorded := RecordItem(payload.items[i]);
        RecordedOneMore(db, payload.items, i);
        if recorded.Err? {
          InternalRefusedAtOnce(db, payload.items, i + 1);
          return Err(recorded.error);
        }
        var line := recorded.value;
        subtotalUsd := subtotalUsd + line.totalUsd;
        SumOneMore(lines, line);
        lines := lines + [line];
      }
      assert payload.items[..|payload.items|] == payload.items;
      var discountUsd := ToCents(Hundredth(Times(Decimal(subtotalUsd, 2), Decimal(payload.discountPercent, 0))));
      var bill := Bill(subtotalUsd, discountUsd, payload.discountPercent, subtotalUsd - discountUsd, None);
      var sale := Sale(payload.paymentMethod, payload.comment, lines, bill);
      r := Insert(number, sale, false, now);
    }
  }

  lemma NothingYet(db: Db)
    ensures ResolvedAll(db, []) == Ok([]) && InternalLines(db, []) == Ok([])
    ensures SumOf([], USD) == 0 && SumOf([], EUR) == 0
  {
  }

  lemma ResolvedOneMore(db: Db, items: seq<CartItem>, i: nat)
    requires i < |items|
    ensures ResolvedAll(db, items[..i + 1]) ==
            match (ResolvedAll(db, items[..i]), Resolved(db, items[i]))
            case (Err(e), _) => Err(e)
            case (_, Err(e)) => Err(e)
            case (Ok(lines), Ok(line)) => Ok(lines + [line])
  {
    hide Resolved;
    assert items[..i + 1][..i] == items[..i] && items[..i + 1][i] == items[i];
  }

  lemma RecordedOneMore(db: Db, items: seq<InternalItem>, i: nat)
    requires i < |items|
    ensures InternalLines(db, items[..i + 1]) ==
            match (InternalLines(db, items[..i]), InternalLine(db, items[i]))
            case (Err(e), _) => Err(e)
            case (_, Err(e)) => Err(e)
            case (Ok(lines), Ok(line)) => Ok(lines + [line])
  {
    hide InternalLine;
    assert items[..i + 1][..i] == items[..i] && items[..i + 1][i] == items[i];
  }

  lemma SumOneMore(lines: seq<Line>, line: Line)
    ensures SumOf(lines + [line], USD) == SumOf(lines, USD) + line.totalUsd
    ensures SumOf(lines + [line], EUR) == SumOf(lines, EUR) + line.totalEur
  {
    assert (lines + [line])[..|lines|] == lines;
  }

  /** A number can be stored once. */
  function Numbered(shop: Shop, number: string, r: Result<Sale, OrderError>): Result<Sale, OrderError> {
    if r.Ok? && number in shop.desk.orders then Err(DuplicateNumber) else r
  }

  /** The first refusal is the answer, whatever follows it. */
  lemma {:induction false} RefusedAtOnce(db: Db, items: seq<CartItem>, i: nat)
    requires i <= |items| && ResolvedAll(db, items[..i]).Err?
    ensures ResolvedAll(db, items) == ResolvedAll(db, items[..i])
  {
    if i == |items| {
      assert items[..i] == items;
    } else {
      assert items[..|items| - 1][..i] == items[..i];
      RefusedAtOnce(db, items[..|items| - 1], i);
    }
  }

  lemma {:induction false} InternalRefusedAtOnce(db: Db, items: seq<InternalItem>, i: nat)
    requires i <= |items| && InternalLines(db, items[..i]).Err?
    ensures InternalLines(db, items) == InternalLines(db, items[..i])
  {
    if i == |items| {
      assert items[..i] == items;
    } else {
      assert items[..|items| - 1][..i] == items[..i];
      InternalRefusedAtOnce(db, items[..|items| - 1], i);
    }
  }
}
