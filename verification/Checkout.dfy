/** Order creation: the public checkout, which prices from the live catalogue and freezes what it
    used, and the internal creation, which takes prices from its caller. */
module Checkout {
  import opened Wrappers
  import opened Text
  import opened Money
  import opened Totals
  import opened Catalogue
  import Orders

  // ---- what an order keeps ----

  /** The option's terms as the snapshot stores them: decimals as text, null as null. */
  datatype OptionSnapshot = OptionSnapshot(
    caption: string, priceUsd: string, priceEur: string,
    percent: Option<string>, amountUsd: Option<string>, amountEur: Option<string>)

  /** An internal order's snapshot says nothing of an option. */
  datatype Snapshot = Snapshot(slug: string, title: string, gameSlug: Option<string>, option: Option<OptionSnapshot>)

  datatype Line = Line(
    serviceId: Option<Id>, optionId: Option<Id>, snapshot: Snapshot, quantity: int,
    unitUsd: int, unitEur: int, totalUsd: int, totalEur: int)
  {
    function Unit(c: Currency): int {
      if c == USD then unitUsd else unitEur
    }

    function Total(c: Currency): int {
      if c == USD then totalUsd else totalEur
    }
  }

  datatype Sale = Sale(paymentMethod: Orders.Method, comment: Option<string>, lines: seq<Line>, bill: Bill)

  // ---- payloads ----

  datatype CartItem = CartItem(slug: string, optionId: Id, quantity: int)

  datatype Cart = Cart(paymentMethod: Orders.Method, comment: Option<string>, items: seq<CartItem>)

  datatype GivenSnapshot = GivenSnapshot(slug: string, title: string, gameSlug: Option<string>)

  datatype InternalItem = InternalItem(
    serviceId: Option<Id>, optionId: Option<Id>, given: Option<GivenSnapshot>, quantity: int, unitUsd: int, unitEur: int)

  datatype InternalOrder = InternalOrder(
    paymentMethod: Orders.Method, comment: Option<string>, discountPercent: int, items: seq<InternalItem>)

  datatype OrderError = 
    InvalidOrder | Empty | ServiceNotFound | OptionMismatch | NoSnapshotSource | NotStorable | DuplicateNumber

  // ---- the frozen snapshot ----

  function PrintOptional(v: Option<int>, places: nat): Option<string> {
    match v
    case None => None
    case Some(x) => Some(PrintFixed(x, places))
  }

  function ParseOptional(s: Option<string>, places: nat): Option<Option<int>> {
    match s
    case None => Some(None)
    case Some(text) =>
      match ParseFixed(text, places)
      case None => None
      case Some(x) => Some(Some(x))
  }

  /** Prices and amounts have two decimals, percentages three. */
  function Frozen(row: OptionRow): OptionSnapshot {
    OptionSnapshot(row.caption, PrintFixed(row.terms.priceUsd, 2), PrintFixed(row.terms.priceEur, 2),
                   PrintOptional(row.terms.percent, 3),
                   PrintOptional(row.terms.amountUsd, 2), PrintOptional(row.terms.amountEur, 2))
  }

  /** The terms read back from a stored snapshot. */
  function Thawed(s: OptionSnapshot): Option<Terms> {
    match (ParseFixed(s.priceUsd, 2), ParseFixed(s.priceEur, 2),
           ParseOptional(s.percent, 3), ParseOptional(s.amountUsd, 2), ParseOptional(s.amountEur, 2))
    case (Some(usd), Some(eur), Some(percent), Some(amountUsd), Some(amountEur)) =>
      Some(Terms(usd, eur, percent, amountUsd, amountEur))
    case _ => None
  }

  lemma OptionalRoundTrip(v: Option<int>, places: nat)
    requires places > 0
    ensures ParseOptional(PrintOptional(v, places), places) == Some(v)
  {
    if v.Some? { FixedRoundTrip(v.value, places); }
  }

  /** A snapshot keeps the terms it was made from. */
  lemma SnapshotRoundTrip(row: OptionRow)
    ensures Thawed(Frozen(row)) == Some(row.terms)
  {
    hide PrintFixed, ParseFixed;
    FixedRoundTrip(row.terms.priceUsd, 2);
    FixedRoundTrip(row.terms.priceEur, 2);
    OptionalRoundTrip(row.terms.percent, 3);
    OptionalRoundTrip(row.terms.amountUsd, 2);
    OptionalRoundTrip(row.terms.amountEur, 2);
  }

  // ---- pricing a cart ----

  /** The live service with a slug; live slugs are unique in a sound catalogue. */
  predicate IsNamed(db: Db, slug: string, id: Id) {
    LiveService(db.services, id) && db.services[id].slug == slug
  }

  ghost function ServiceNamed(db: Db, slug: string): Option<Id> {
    if exists id :: IsNamed(db, slug, id) then
      var id :| IsNamed(db, slug, id);
      Some(id)
    else None
  }

  function GameSlug(db: Db, gameId: Id): Option<string> {
    if LiveGame(db.games, gameId) then Some(db.games[gameId].slug) else None
  }

  function PricedLine(db: Db, serviceId: Id, item: CartItem): Line
    requires serviceId in db.services && item.optionId in db.options
  {
    var s, row := db.services[serviceId], db.options[item.optionId];
    var usd, eur := DiscountedPrice(row.terms, USD), DiscountedPrice(row.terms, EUR);
    Line(Some(serviceId), Some(item.optionId), Snapshot(s.slug, s.title, GameSlug(db, s.gameId), Some(Frozen(row))),
         item.quantity, usd, eur, usd * item.quantity, eur * item.quantity)
  }

  /** What one item of the request becomes, or why it is refused. */
  ghost function Resolved(db: Db, item: CartItem): Result<Line, OrderError> {
    match ServiceNamed(db, item.slug)
    case None => Err(ServiceNotFound)
    case Some(id) =>
      if !db.services[id].isActive then Err(ServiceNotFound)
      else if item.optionId !in db.options || db.options[item.optionId].serviceId != id then Err(OptionMismatch)
      else Ok(PricedLine(db, id, item))
  }

  /** The lines in request order, or the first refusal. */
  ghost function ResolvedAll(db: Db, items: seq<CartItem>): Result<seq<Line>, OrderError> {
    if items == [] then Ok([]) else
      match ResolvedAll(db, items[..|items| - 1])
      case Err(e) => Err(e)
      case Ok(lines) =>
        match Resolved(db, items[|items| - 1])
        case Err(e) => Err(e)
        case Ok(line) => Ok(lines + [line])
  }

  function SumOf(lines: seq<Line>, c: Currency): int {
    if lines == [] then 0 else SumOf(lines[..|lines| - 1], c) + lines[|lines| - 1].Total(c)
  }

  // ---- the bill ----

  /** The bill as it should be, rounded once. Only the public flow has a total in euro. */
  function BillFor(lines: seq<Line>, percent: int, inEuro: bool): Bill {
    var usd, eur := SumOf(lines, USD), SumOf(lines, EUR);
    Bill(usd, DiscountOn(usd, percent), percent, usd - DiscountOn(usd, percent),
         if inEuro then Some(eur - DiscountOn(eur, percent)) else None)
  }

  /** The public flow multiplies by a factor, the hundredth of the percentage. */
  function PublicDiscount(subtotal: int, percent: int): int {
    ToCents(Times(Decimal(subtotal, 2), Hundredth(Decimal(percent, 0))))
  }

  /** The internal flow divides the product by a hundred. */
  function InternalDiscount(subtotal: int, percent: int): int {
    ToCents(Hundredth(Times(Decimal(subtotal, 2), Decimal(percent, 0))))
  }

  function PublicBill(lines: seq<Line>, percent: int): Bill {
    var usd, eur := SumOf(lines, USD), SumOf(lines, EUR);
    var discountUsd, discountEur := PublicDiscount(usd, percent), PublicDiscount(eur, percent);
    Bill(usd, discountUsd, percent, usd - discountUsd, Some(eur - discountEur))
  }

  function InternalBill(lines: seq<Line>, percent: int): Bill {
    var usd := SumOf(lines, USD);
    var discount := InternalDiscount(usd, percent);
    Bill(usd, discount, percent, usd - discount, None)
  }

  lemma DiscountsAreOne(subtotal: int, percent: int)
    ensures PublicDiscount(subtotal, percent) == InternalDiscount(subtotal, percent) == DiscountOn(subtotal, percent)
  {
    ShareInCents(subtotal, percent);
  }

  /** Both flows arrive at the bill that rounds the order discount once. */
  lemma BillsAreOne(lines: seq<Line>, percent: int)
    ensures PublicBill(lines, percent) == BillFor(lines, percent, true)
    ensures InternalBill(lines, percent) == BillFor(lines, percent, false)
  {
    DiscountsAreOne(SumOf(lines, USD), percent);
    DiscountsAreOne(SumOf(lines, EUR), percent);
  }

  // ---- what the tables can store ----

  const MAX_INTEGER := 2_147_483_647

  predicate LineStorable(db: Db, line: Line) {
    && AmountFits(line.unitUsd) && AmountFits(line.unitEur) && AmountFits(line.totalUsd) && AmountFits(line.totalEur)
    && line.quantity <= MAX_INTEGER
    && (line.serviceId.Some? ==> line.serviceId.value in db.services)
    && (line.optionId.Some? ==> line.optionId.value in db.options)
  }

  predicate BillStorable(bill: Bill) {
    && AmountFits(bill.subtotalUsd) && AmountFits(bill.discountUsd) && AmountFits(bill.finalUsd)
    && (bill.finalEur.Some? ==> AmountFits(bill.finalEur.value))
  }

  /** Every money column holds ten digits, the quantity column 32 bits, and references are to rows; the
      INSERT of anything else fails. */
  predicate Storable(db: Db, s: Sale) {
    BillStorable(s.bill) && forall k :: 0 <= k < |s.lines| ==> LineStorable(db, s.lines[k])
  }

  function Stored(db: Db, s: Sale): Result<Sale, OrderError> {
    if Storable(db, s) then Ok(s) else Err(NotStorable)
  }

  // ---- the public flow ----

  function PercentFor(m: Orders.Method): int {
    if m == Orders.UsdtTrc20 then USDT_DISCOUNT_PERCENT else 0
  }

  predicate CartOk(cart: Cart) {
    && (cart.comment.Some? ==> |cart.comment.value| <= 2000)
    && forall k :: 0 <= k < |cart.items| ==>
         1 <= |cart.items[k].slug| <= 128 && 1 <= cart.items[k].quantity <= 100
  }

  ghost function PublicSale(db: Db, cart: Cart): Result<Sale, OrderError> {
    if !CartOk(cart) then Err(InvalidOrder)
    else if cart.items == [] then Err(Empty)
    else
      match ResolvedAll(db, cart.items)
      case Err(e) => Err(e)
      case Ok(lines) => Stored(db, Sale(cart.paymentMethod, cart.comment, lines, PublicBill(lines, PercentFor(cart.paymentMethod))))
  }

  // ---- the internal flow ----

  function InternalSnapshot(db: Db, item: InternalItem): Result<Snapshot, OrderError> {
    if item.serviceId.Some? && LiveService(db.services, item.serviceId.value) then
      var s := db.services[item.serviceId.value];
      Ok(Snapshot(s.slug, s.title, GameSlug(db, s.gameId), None))
    else if item.given.Some? then
      var given := item.given.value;
      Ok(Snapshot(given.slug, given.title, given.gameSlug, None))
    else Err(NoSnapshotSource)
  }

  function InternalLine(db: Db, item: InternalItem): Result<Line, OrderError> {
    match InternalSnapshot(db, item)
    case Err(e) => Err(e)
    case Ok(snapshot) =>
      Ok(Line(item.serviceId, item.optionId, snapshot, item.quantity, item.unitUsd, item.unitEur,
              item.unitUsd * item.quantity, item.unitEur * item.quantity))
  }

  function InternalLines(db: Db, items: seq<InternalItem>): Result<seq<Line>, OrderError> {
    if items == [] then Ok([]) else
      match InternalLines(db, items[..|items| - 1])
      case Err(e) => Err(e)
      case Ok(lines) =>
        match InternalLine(db, items[|items| - 1])
        case Err(e) => Err(e)
        case Ok(line) => Ok(lines + [line])
  }

  predicate InternalOk(p: InternalOrder) {
    && 0 <= p.discountPercent <= 100
    && forall k :: 0 <= k < |p.items| ==>
         p.items[k].quantity >= 1 && PriceFits(p.items[k].unitUsd) && PriceFits(p.items[k].unitEur)
  }

  function InternalSale(db: Db, p: InternalOrder): Result<Sale, OrderError> {
    if !InternalOk(p) then Err(InvalidOrder)
    else if p.items == [] then Err(Empty)
    else
      match InternalLines(db, p.items)
      case Err(e) => Err(e)
      case Ok(lines) => Stored(db, Sale(p.paymentMethod, p.comment, lines, InternalBill(lines, p.discountPercent)))
  }

  // ---- money is conserved ----

  ghost predicate LineOk(line: Line) {
    && line.quantity >= 1 && line.unitUsd >= 0 && line.unitEur >= 0
    && line.totalUsd == line.unitUsd * line.quantity && line.totalEur == line.unitEur * line.quantity
  }

  ghost predicate LinesOk(lines: seq<Line>) {
    forall k :: 0 <= k < |lines| ==> LineOk(lines[k])
  }

  /** Line totals are unit prices times quantities, the subtotal is their sum, discount and final
      total make up the subtotal exactly, and no total is negative or above its subtotal. */
  ghost predicate Conserved(s: Sale) {
    && LinesOk(s.lines)
    && s.bill.subtotalUsd == SumOf(s.lines, USD)
    && s.bill.discountUsd + s.bill.finalUsd == s.bill.subtotalUsd
    && 0 <= s.bill.finalUsd <= s.bill.subtotalUsd
    && (s.bill.finalEur.Some? ==> 0 <= s.bill.finalEur.value <= SumOf(s.lines, EUR))
  }

  /** The line's snapshot holds readable terms. */
  predicate HasTerms(line: Line) {
    line.snapshot.option.Some? && Thawed(line.snapshot.option.value).Some?
  }

  function TermsOf(line: Line): Terms
    requires HasTerms(line)
  {
    Thawed(line.snapshot.option.value).value
  }

  /** Pricing the line again from the text in its own snapshot gives its unit prices. */
  ghost predicate Repriced(line: Line) {
    && HasTerms(line) && TermsOk(TermsOf(line))
    && line.unitUsd == DiscountedPrice(TermsOf(line), USD) && line.unitEur == DiscountedPrice(TermsOf(line), EUR)
  }

  ghost predicate AllRepriced(lines: seq<Line>) {
    forall k :: 0 <= k < |lines| ==> Repriced(lines[k])
  }

  /** The items an order charges for, from its own snapshots. */
  ghost function Items(lines: seq<Line>): seq<Item>
    requires AllRepriced(lines)
  {
    seq(|lines|, k requires 0 <= k < |lines| => Item(TermsOf(lines[k]), lines[k].quantity))
  }

  /** The charge is within half a cent per unit of the exact total, or with the USDT discount within
      0.475 cents per unit and half a cent. */
  ghost predicate NearExact(charge: int, items: seq<Item>, c: Currency, percent: int) {
    var n := Quantities(items) as real;
    if percent == 5
    then Within(charge as real, 0.95 * IdealSubtotal(items, c), 0.475 * n + 0.5)
    else Within(charge as real, IdealSubtotal(items, c), 0.5 * n)
  }

  /** The order's charge, in each currency, is near the exact total of the terms frozen in it. */
  ghost predicate ChargedNearExact(s: Sale) {
    && AllRepriced(s.lines) && s.bill.finalEur.Some?
    && NearExact(s.bill.finalUsd, Items(s.lines), USD, s.bill.discountPercent)
    && NearExact(s.bill.finalEur.value, Items(s.lines), EUR, s.bill.discountPercent)
  }

  /** Five percent off, rounded half-even once in each currency, for USDT; for every other payment method the
      lines are charged as they are. */
  ghost predicate DiscountedByMethod(s: Sale) {
    var usd, eur, b := SumOf(s.lines, USD), SumOf(s.lines, EUR), s.bill;
    && b.subtotalUsd == usd && b.finalUsd == usd - b.discountUsd && b.finalEur.Some?
    && if s.paymentMethod == Orders.UsdtTrc20
       then b.discountPercent == 5 && IsHalfEven(usd * 5, 100, b.discountUsd) && IsHalfEven(eur * 5, 100, eur - b.finalEur.value)
       else b.discountPercent == 0 && b.discountUsd == 0 && b.finalUsd == usd && b.finalEur.value == eur
  }

  lemma PublicBillIsByMethod(m: Orders.Method, comment: Option<string>, lines: seq<Line>)
    ensures DiscountedByMethod(Sale(m, comment, lines, PublicBill(lines, PercentFor(m))))
  {
    hide PublicBill, SumOf, RoundHalfEven, IsHalfEven;
    BillsAreOne(lines, PercentFor(m));
    RoundWhole(0, 100);
  }

  /** The public flow discounts by the payment method, whatever the catalogue. */
  lemma PublicSaleIsByMethod(db: Db, cart: Cart)
    ensures PublicSale(db, cart).Ok? ==>
              var s := PublicSale(db, cart).value;
              DiscountedByMethod(s) && s.paymentMethod == cart.paymentMethod && s.comment == cart.comment
  {
    hide DiscountedByMethod, PublicBill, ResolvedAll, Storable, CartOk;
    if PublicSale(db, cart).Ok? {
      PublicBillIsByMethod(cart.paymentMethod, cart.comment, ResolvedAll(db, cart.items).value);
    }
  }

  /** The money adds up; and a public order, which has a total in euro, prices again as charged, has the
      discount of its payment method, and charges near the exact total of its frozen terms. */
  ghost predicate Faithful(s: Sale) {
    && Conserved(s)
    && (s.bill.finalEur.Some? ==>
          AllRepriced(s.lines) && DiscountedByMethod(s) && ChargedNearExact(s))
  }

  lemma {:induction false} SumIsNonNegative(lines: seq<Line>, c: Currency)
    requires LinesOk(lines)
    ensures SumOf(lines, c) >= 0
  {
    if lines != [] {
      var last := lines[|lines| - 1];
      SumIsNonNegative(lines[..|lines| - 1], c);
      assert LineOk(last);
      ScaledOrder(0, last.Unit(c), last.quantity);
    }
  }

  lemma BillIsConserved(m: Orders.Method, comment: Option<string>, lines: seq<Line>, percent: int, inEuro: bool)
    requires LinesOk(lines) && 0 <= percent <= 100
    ensures Conserved(Sale(m, comment, lines, BillFor(lines, percent, inEuro)))
  {
    hide DiscountOn, LinesOk;
    SumIsNonNegative(lines, USD);
    SumIsNonNegative(lines, EUR);
    FinalInRange(SumOf(lines, USD), percent);
    FinalInRange(SumOf(lines, EUR), percent);
  }

  lemma LineIsPriced(db: Db, serviceId: Id, item: CartItem)
    requires RowsOk(db.options) && serviceId in db.services && item.optionId in db.options && item.quantity >= 1
    ensures LineOk(PricedLine(db, serviceId, item)) && Repriced(PricedLine(db, serviceId, item))
  {
    hide DiscountedPrice, Thawed, Frozen;
    var t := db.options[item.optionId].terms;
    PriceInRange(t, USD);
    PriceInRange(t, EUR);
    SnapshotRoundTrip(db.options[item.optionId]);
  }

  lemma {:induction false} ResolvedLinesOk(db: Db, items: seq<CartItem>)
    requires RowsOk(db.options) && ResolvedAll(db, items).Ok?
    requires forall k :: 0 <= k < |items| ==> items[k].quantity >= 1
    ensures LinesOk(ResolvedAll(db, items).value) && AllRepriced(ResolvedAll(db, items).value)
  {
    hide LineOk, Repriced, PricedLine, RowsOk;
    if items != [] {
      var item := items[|items| - 1];
      ResolvedLinesOk(db, items[..|items| - 1]);
      LineIsPriced(db, ServiceNamed(db, item.slug).value, item);
    }
  }

  // ---- the charge against the exact amount ----

  lemma {:induction false} SumIsSubtotal(lines: seq<Line>, c: Currency)
    requires LinesOk(lines) && AllRepriced(lines)
    ensures SumOf(lines, c) == Subtotal(Items(lines), c) && ItemsOk(Items(lines))
  {
    hide Thawed, HasTerms, TermsOf, DiscountedPrice, TermsOk;
    if lines != [] {
      var n := |lines| - 1;
      SumIsSubtotal(lines[..n], c);
      assert LineOk(lines[n]) && Repriced(lines[n]);
      assert Items(lines)[..n] == Items(lines[..n]);
      assert Items(lines)[n] == Item(TermsOf(lines[n]), lines[n].quantity);
      assert lines[n].Total(c) == LineTotal(Items(lines)[n], c);
    }
  }

  lemma FinalIsNearExact(items: seq<Item>, c: Currency, percent: int)
    requires ItemsOk(items) && (percent == 0 || percent == USDT_DISCOUNT_PERCENT)
    ensures NearExact(FinalTotal(items, c, percent), items, c, percent)
  {
    hide Within, Quantities, IdealSubtotal, FinalTotal, ItemsOk;
    if percent == 0 { PlainTotalError(items, c); } else { DiscountedTotalError(items, c); }
  }

  lemma BillIsNearExact(lines: seq<Line>, percent: int)
    requires LinesOk(lines) && AllRepriced(lines) && (percent == 0 || percent == USDT_DISCOUNT_PERCENT)
    ensures var bill := PublicBill(lines, percent);
            && bill.finalEur.Some?
            && NearExact(bill.finalUsd, Items(lines), USD, percent)
            && NearExact(bill.finalEur.value, Items(lines), EUR, percent)
  {
    hide NearExact, DiscountOn, Subtotal, ItemsOk, PublicBill, Repriced, LinesOk, SumOf, Items, AllRepriced;
    BillsAreOne(lines, percent);
    SumIsSubtotal(lines, USD);
    SumIsSubtotal(lines, EUR);
    FinalIsNearExact(Items(lines), USD, percent);
    FinalIsNearExact(Items(lines), EUR, percent);
  }

  lemma SoundRows(db: Db)
    requires Sound(db)
    ensures RowsOk(db.options)
  {
  }

  /** A public order placed on a sound catalogue is faithful. */
  lemma PublicSaleIsFaithful(db: Db, cart: Cart)
    requires Sound(db)
    ensures PublicSale(db, cart).Ok? ==>
              Faithful(PublicSale(db, cart).value) && PublicSale(db, cart).value.bill.finalEur.Some?
  {
    if PublicSale(db, cart).Ok? {
      hide Sound, RowsOk, ResolvedAll, LinesOk, AllRepriced, Storable, Items, NearExact, Conserved, PublicBill;
      var lines, percent := ResolvedAll(db, cart.items).value, PercentFor(cart.paymentMethod);
      SoundRows(db);
      ResolvedLinesOk(db, cart.items);
      BillsAreOne(lines, percent);
      BillIsConserved(cart.paymentMethod, cart.comment, lines, percent, true);
      BillIsNearExact(lines, percent);
      PublicBillIsByMethod(cart.paymentMethod, cart.comment, lines);
    }
  }

  /** What a public order charges is near the exact total of the terms frozen in it. */
  lemma ChargeIsNearExact(db: Db, cart: Cart)
    requires Sound(db)
    ensures PublicSale(db, cart).Ok? ==>
              var s := PublicSale(db, cart).value;
              s.bill.discountPercent == (if cart.paymentMethod == Orders.UsdtTrc20 then 5 else 0) && ChargedNearExact(s)
  {
    if PublicSale(db, cart).Ok? {
      PublicSaleIsFaithful(db, cart);
      hide Sound, ResolvedAll, ChargedNearExact, Conserved, PublicBill, Storable;
    }
  }

  // ---- what an order says of what was bought ----

  /** The snapshot's texts read back as the columns they were taken from. */
  predicate Quotes(text: OptionSnapshot, row: OptionRow) {
    && text.caption == row.caption
    && ParseFixed(text.priceUsd, 2) == Some(row.terms.priceUsd) && ParseFixed(text.priceEur, 2) == Some(row.terms.priceEur)
    && ParseOptional(text.percent, 3) == Some(row.terms.percent)
    && ParseOptional(text.amountUsd, 2) == Some(row.terms.amountUsd)
    && ParseOptional(text.amountEur, 2) == Some(row.terms.amountEur)
  }

  /** The snapshot is of this service and its game. */
  predicate Portrays(db: Db, snapshot: Snapshot, serviceId: Id) {
    && serviceId in db.services
    && var s := db.services[serviceId];
       && snapshot.slug == s.slug && snapshot.title == s.title
       && snapshot.gameSlug == if LiveGame(db.games, s.gameId) then Some(db.games[s.gameId].slug) else None
  }

  /** The line sells this item: the quantity and option asked for, of the live, active service with the slug,
      with its snapshot, each unit price from the columns of its own currency. */
  ghost predicate Sells(db: Db, item: CartItem, line: Line) {
    && line.quantity == item.quantity && line.optionId == Some(item.optionId) && item.optionId in db.options
    && line.serviceId.Some? && line.serviceId.value == db.options[item.optionId].serviceId
    && LiveService(db.services, line.serviceId.value) && db.services[line.serviceId.value].isActive
    && line.snapshot.slug == item.slug && Portrays(db, line.snapshot, line.serviceId.value)
    && line.snapshot.option.Some? && Quotes(line.snapshot.option.value, db.options[item.optionId])
    && var t := db.options[item.optionId].terms;
       && PricedAs(line.unitUsd, t.priceUsd, t.percent, t.amountUsd)
       && PricedAs(line.unitEur, t.priceEur, t.percent, t.amountEur)
  }

  lemma FrozenQuotes(row: OptionRow)
    ensures Quotes(Frozen(row), row)
  {
    hide PrintFixed, ParseFixed;
    FixedRoundTrip(row.terms.priceUsd, 2);
    FixedRoundTrip(row.terms.priceEur, 2);
    OptionalRoundTrip(row.terms.percent, 3);
    OptionalRoundTrip(row.terms.amountUsd, 2);
    OptionalRoundTrip(row.terms.amountEur, 2);
  }

  lemma ResolvedSells(db: Db, item: CartItem)
    requires RowsOk(db.options) && Resolved(db, item).Ok?
    ensures Sells(db, item, Resolved(db, item).value)
  {
    hide DiscountedPrice, Frozen, Quotes, PricedAs;
    var row := db.options[item.optionId];
    FrozenQuotes(row);
    PriceIsPricedAs(row.terms, USD);
    PriceIsPricedAs(row.terms, EUR);
  }

  lemma {:induction false} AllResolvedSell(db: Db, items: seq<CartItem>)
    requires RowsOk(db.options) && ResolvedAll(db, items).Ok?
    ensures |ResolvedAll(db, items).value| == |items|
    ensures forall k :: 0 <= k < |items| ==> Sells(db, items[k], ResolvedAll(db, items).value[k])
  {
    hide Sells, Resolved, RowsOk;
    if items != [] {
      var n := |items| - 1;
      AllResolvedSell(db, items[..n]);
      ResolvedSells(db, items[n]);
      assert forall k :: 0 <= k < n ==> items[..n][k] == items[k];
    }
  }

  /** A public order sells what its cart asks for, item by item. */
  lemma PublicSaleSells(db: Db, cart: Cart)
    requires Sound(db)
    ensures PublicSale(db, cart).Ok? ==>
              var s := PublicSale(db, cart).value;
              |s.lines| == |cart.items| && forall k :: 0 <= k < |cart.items| ==> Sells(db, cart.items[k], s.lines[k])
  {
    if PublicSale(db, cart).Ok? {
      hide Sound, Sells, ResolvedAll, PublicBill, Storable;
      SoundRows(db);
      AllResolvedSell(db, cart.items);
    }
  }

  /** The line is the internal item as given: its own unit prices, quantity and references, and the snapshot
      of the live service it names, or else the one it brings. */
  predicate Records(db: Db, item: InternalItem, line: Line) {
    && line.unitUsd == item.unitUsd && line.unitEur == item.unitEur && line.quantity == item.quantity
    && line.totalUsd == item.unitUsd * item.quantity && line.totalEur == item.unitEur * item.quantity
    && line.serviceId == item.serviceId && line.optionId == item.optionId
    && line.snapshot.option == None
    && if item.serviceId.Some? && LiveService(db.services, item.serviceId.value)
       then Portrays(db, line.snapshot, item.serviceId.value)
       else item.given.Some? && line.snapshot.slug == item.given.value.slug
            && line.snapshot.title == item.given.value.title && line.snapshot.gameSlug == item.given.value.gameSlug
  }

  lemma {:induction false} InternalLinesRecord(db: Db, items: seq<InternalItem>)
    requires InternalLines(db, items).Ok?
    ensures |InternalLines(db, items).value| == |items|
    ensures forall k :: 0 <= k < |items| ==> Records(db, items[k], InternalLines(db, items).value[k])
  {
    if items != [] {
      var n := |items| - 1;
      InternalLinesRecord(db, items[..n]);
      assert forall k :: 0 <= k < n ==> items[..n][k] == items[k];
    }
  }

  /** An internal order records its items as given and takes the percentage given off, rounded once. */
  ghost predicate RecordsAll(db: Db, p: InternalOrder, s: Sale) {
    && s.paymentMethod == p.paymentMethod && s.comment == p.comment
    && |s.lines| == |p.items| && (forall k :: 0 <= k < |p.items| ==> Records(db, p.items[k], s.lines[k]))
    && s.bill.subtotalUsd == SumOf(s.lines, USD) && s.bill.discountPercent == p.discountPercent
    && IsHalfEven(s.bill.subtotalUsd * p.discountPercent, 100, s.bill.discountUsd)
    && s.bill.finalUsd == s.bill.subtotalUsd - s.bill.discountUsd && s.bill.finalEur == None
  }

  lemma InternalSaleRecords(db: Db, p: InternalOrder)
    ensures InternalSale(db, p).Ok? ==> RecordsAll(db, p, InternalSale(db, p).value)
  {
    if InternalSale(db, p).Ok? {
      hide InternalLines, SumOf, InternalBill, Records, Storable;
      InternalLinesRecord(db, p.items);
      BillsAreOne(InternalLines(db, p.items).value, p.discountPercent);
    }
  }

  /** There is a snapshot for the item. */
  predicate HasSnapshot(db: Db, item: InternalItem) {
    (item.serviceId.Some? && LiveService(db.services, item.serviceId.value)) || item.given.Some?
  }

  /** An internal item can be recorded: quantity, prices and line totals fit, what it refers to is there, and
      there is a snapshot to take or to keep. */
  predicate Recordable(db: Db, item: InternalItem) {
    && 1 <= item.quantity <= 2_147_483_647
    && 0 <= item.unitUsd <= 9_999_999_999 && 0 <= item.unitEur <= 9_999_999_999
    && item.unitUsd * item.quantity <= 9_999_999_999 && item.unitEur * item.quantity <= 9_999_999_999
    && (item.serviceId.Some? ==> item.serviceId.value in db.services)
    && (item.optionId.Some? ==> item.optionId.value in db.options)
    && HasSnapshot(db, item)
  }

  function GivenAmount(item: InternalItem): int {
    item.unitUsd * item.quantity
  }

  function GivenTotal(items: seq<InternalItem>): int {
    if items == [] then 0 else
      GivenTotal(items[..|items| - 1]) + GivenAmount(items[|items| - 1])
  }

  lemma InternalLineIff(db: Db, item: InternalItem)
    ensures InternalLine(db, item).Ok? <==> HasSnapshot(db, item)
    ensures InternalLine(db, item).Ok? ==> InternalLine(db, item).value.Total(USD) == GivenAmount(item)
  {
  }

  lemma InternalLinesLast(db: Db, items: seq<InternalItem>)
    requires items != []
    ensures var before, last := InternalLines(db, items[..|items| - 1]), InternalLine(db, items[|items| - 1]);
            && (InternalLines(db, items).Ok? <==> before.Ok? && last.Ok?)
            && (before.Ok? && last.Ok? ==>
                  && InternalLines(db, items) == Ok(before.value + [last.value])
                  && SumOf(before.value + [last.value], USD) == SumOf(before.value, USD) + last.value.Total(USD))
  {
    hide InternalLine;
    var before, last := InternalLines(db, items[..|items| - 1]), InternalLine(db, items[|items| - 1]);
    if before.Ok? && last.Ok? {
      assert (before.value + [last.value])[..|before.value|] == before.value;
    }
  }

  lemma GivenTotalLast(items: seq<InternalItem>)
    ensures GivenTotal(items) ==
            if items == [] then 0 else GivenTotal(items[..|items| - 1]) + GivenAmount(items[|items| - 1])
  {
  }

  lemma {:induction false} InternalLinesIff(db: Db, items: seq<InternalItem>)
    ensures InternalLines(db, items).Ok? <==> forall k :: 0 <= k < |items| ==> HasSnapshot(db, items[k])
    ensures InternalLines(db, items).Ok? ==> SumOf(InternalLines(db, items).value, USD) == GivenTotal(items)
  {
    if items == [] {
      assert InternalLines(db, items) == Ok([]);
    } else {
      hide InternalLines, InternalLine, HasSnapshot, GivenAmount, GivenTotal, SumOf;
      var n := |items| - 1;
      InternalLinesIff(db, items[..n]);
      InternalLinesLast(db, items);
      InternalLineIff(db, items[n]);
      GivenTotalLast(items);
      assert forall k :: 0 <= k < n ==> items[..n][k] == items[k];
    }
  }

  lemma RecordStorable(db: Db, item: InternalItem, line: Line)
    requires Records(db, item, line) && item.quantity >= 1 && PriceFits(item.unitUsd) && PriceFits(item.unitEur)
    ensures LineStorable(db, line) && HasSnapshot(db, item) <==> Recordable(db, item)
  {
    ScaledOrder(0, item.unitUsd, item.quantity);
    ScaledOrder(0, item.unitEur, item.quantity);
  }

  lemma InternalBillStorableIff(lines: seq<Line>, percent: int)
    requires LinesOk(lines) && 0 <= percent <= 100
    ensures BillStorable(InternalBill(lines, percent)) <==> SumOf(lines, USD) <= 9_999_999_999
  {
    hide InternalBill, LinesOk, SumOf, DiscountOn;
    BillsAreOne(lines, percent);
    SumIsNonNegative(lines, USD);
    FinalInRange(SumOf(lines, USD), percent);
  }

  lemma InternalStorableIff(db: Db, p: InternalOrder)
    requires InternalOk(p) && InternalLines(db, p.items).Ok?
    ensures var lines := InternalLines(db, p.items).value;
            Storable(db, Sale(p.paymentMethod, p.comment, lines, InternalBill(lines, p.discountPercent))) <==>
              GivenTotal(p.items) <= 9_999_999_999 && forall k :: 0 <= k < |p.items| ==> Recordable(db, p.items[k])
  {
    hide InternalLines, Recordable, LineStorable, BillStorable, InternalBill, LinesOk, Records, HasSnapshot, GivenTotal, SumOf;
    var lines := InternalLines(db, p.items).value;
    InternalLinesIff(db, p.items);
    InternalLinesRecord(db, p.items);
    InternalLinesOk(db, p.items);
    InternalBillStorableIff(lines, p.discountPercent);
    forall k | 0 <= k < |p.items|
      ensures LineStorable(db, lines[k]) <==> Recordable(db, p.items[k])
    {
      RecordStorable(db, p.items[k], lines[k]);
    }
  }

  /** An internal order is accepted exactly if it has items, a percentage from 0 to 100, nothing but recordable
      items, and a subtotal that fits. */
  lemma InternalAcceptedIff(db: Db, p: InternalOrder)
    ensures InternalSale(db, p).Ok? <==>
            && p.items != [] && 0 <= p.discountPercent <= 100
            && (forall k :: 0 <= k < |p.items| ==> Recordable(db, p.items[k]))
            && GivenTotal(p.items) <= 9_999_999_999
  {
    hide InternalLines, Storable, InternalBill, GivenTotal;
    InternalLinesIff(db, p.items);
    assert (forall k :: 0 <= k < |p.items| ==> Recordable(db, p.items[k])) ==>
             forall k :: 0 <= k < |p.items| ==> HasSnapshot(db, p.items[k]);
    if InternalOk(p) && InternalLines(db, p.items).Ok? { InternalStorableIff(db, p); }
  }

  /** The item names an active live service and one of its own options. */
  ghost predicate Available(db: Db, item: CartItem) {
    exists id :: IsNamed(db, item.slug, id) && db.services[id].isActive
                 && item.optionId in db.options && db.options[item.optionId].serviceId == id
  }

  lemma ResolvedIffAvailable(db: Db, item: CartItem)
    requires Sound(db)
    ensures Resolved(db, item).Ok? <==> Available(db, item)
  {
    if ServiceNamed(db, item.slug).Some? {
      var id := ServiceNamed(db, item.slug).value;
      assert IsNamed(db, item.slug, id);
      assert forall other :: IsNamed(db, item.slug, other) ==> other == id;
    }
  }

  lemma {:induction false} AllResolvedIffAvailable(db: Db, items: seq<CartItem>)
    requires Sound(db)
    ensures ResolvedAll(db, items).Ok? <==> forall k :: 0 <= k < |items| ==> Available(db, items[k])
  {
    hide Sound, Resolved, Available;
    if items != [] {
      AllResolvedIffAvailable(db, items[..|items| - 1]);
      ResolvedIffAvailable(db, items[|items| - 1]);
    }
  }

  /** What an item costs by the terms of the option it names. */
  function Amount(db: Db, item: CartItem, c: Currency): int {
    if item.optionId in db.options then DiscountedPrice(db.options[item.optionId].terms, c) * item.quantity else 0
  }

  function CartTotal(db: Db, items: seq<CartItem>, c: Currency): int {
    if items == [] then 0 else
      CartTotal(db, items[..|items| - 1], c) + Amount(db, items[|items| - 1], c)
  }

  /** Every item's amounts fit their columns. */
  predicate ItemsFit(db: Db, items: seq<CartItem>) {
    forall k :: 0 <= k < |items| ==>
      Amount(db, items[k], USD) <= 9_999_999_999 && Amount(db, items[k], EUR) <= 9_999_999_999
  }

  /** The cart's amounts stay within ten digits: every line in both currencies, the subtotal in dollars
      and the final total in euro. The subtotal in euro is not stored. */
  predicate Affordable(db: Db, cart: Cart) {
    && ItemsFit(db, cart.items)
    && CartTotal(db, cart.items, USD) <= 9_999_999_999
    && var eur := CartTotal(db, cart.items, EUR);
       eur - DiscountOn(eur, if cart.paymentMethod == Orders.UsdtTrc20 then 5 else 0) <= 9_999_999_999
  }

  ghost predicate LinesFollow(db: Db, items: seq<CartItem>, lines: seq<Line>) {
    && |lines| == |items|
    && forall k :: 0 <= k < |lines| ==>
         exists id :: id in db.services && items[k].optionId in db.options && lines[k] == PricedLine(db, id, items[k])
  }

  lemma ResolvedIsPriced(db: Db, item: CartItem)
    requires Resolved(db, item).Ok?
    ensures ServiceNamed(db, item.slug).Some? && ServiceNamed(db, item.slug).value in db.services
    ensures item.optionId in db.options
    ensures Resolved(db, item).value == PricedLine(db, ServiceNamed(db, item.slug).value, item)
  {
  }

  lemma {:induction false} ResolvedFollow(db: Db, items: seq<CartItem>)
    requires ResolvedAll(db, items).Ok?
    ensures LinesFollow(db, items, ResolvedAll(db, items).value)
    ensures SumOf(ResolvedAll(db, items).value, USD) == CartTotal(db, items, USD)
    ensures SumOf(ResolvedAll(db, items).value, EUR) == CartTotal(db, items, EUR)
  {
    hide PricedLine, Resolved, DiscountedPrice, Amount;
    if items != [] {
      var n := |items| - 1;
      ResolvedFollow(db, items[..n]);
      ResolvedIsPriced(db, items[n]);
      var lines := ResolvedAll(db, items).value;
      assert lines[..n] == ResolvedAll(db, items[..n]).value;
      var id := ServiceNamed(db, items[n].slug).value;
      LineAmounts(db, id, items[n]);
      assert lines[n] == PricedLine(db, id, items[n]);
      forall k | 0 <= k < |lines|
        ensures exists id :: id in db.services && items[k].optionId in db.options && lines[k] == PricedLine(db, id, items[k])
      {
        if k < n { assert items[..n][k] == items[k] && lines[..n][k] == lines[k]; }
      }
    }
  }

  lemma LineAmounts(db: Db, id: Id, item: CartItem)
    requires id in db.services && item.optionId in db.options
    ensures PricedLine(db, id, item).Total(USD) == Amount(db, item, USD)
    ensures PricedLine(db, id, item).Total(EUR) == Amount(db, item, EUR)
  {
  }

  lemma LineStorableIff(db: Db, id: Id, item: CartItem)
    requires RowsOk(db.options) && id in db.services && item.optionId in db.options && 1 <= item.quantity <= 100
    ensures LineStorable(db, PricedLine(db, id, item)) <==>
            Amount(db, item, USD) <= AMOUNT_LIMIT && Amount(db, item, EUR) <= AMOUNT_LIMIT
    ensures Amount(db, item, USD) >= 0 && Amount(db, item, EUR) >= 0
  {
    hide DiscountedPrice, Frozen;
    var t := db.options[item.optionId].terms;
    PriceInRange(t, USD);
    PriceInRange(t, EUR);
    ScaledOrder(0, DiscountedPrice(t, USD), item.quantity);
    ScaledOrder(0, DiscountedPrice(t, EUR), item.quantity);
  }

  lemma LinesStorableIff(db: Db, items: seq<CartItem>, lines: seq<Line>)
    requires RowsOk(db.options) && LinesFollow(db, items, lines)
    requires forall k :: 0 <= k < |items| ==> 1 <= items[k].quantity <= 100
    ensures (forall k :: 0 <= k < |lines| ==> LineStorable(db, lines[k])) <==> ItemsFit(db, items)
  {
    hide PricedLine, LineStorable, Amount;
    forall k | 0 <= k < |lines|
      ensures LineStorable(db, lines[k]) <==>
              Amount(db, items[k], USD) <= AMOUNT_LIMIT && Amount(db, items[k], EUR) <= AMOUNT_LIMIT
    {
      var id :| id in db.services && items[k].optionId in db.options && lines[k] == PricedLine(db, id, items[k]);
      LineStorableIff(db, id, items[k]);
    }
  }

  lemma BillStorableIff(lines: seq<Line>, percent: int)
    requires LinesOk(lines) && 0 <= percent <= 100
    ensures BillStorable(PublicBill(lines, percent)) <==>
            && SumOf(lines, USD) <= AMOUNT_LIMIT
            && SumOf(lines, EUR) - DiscountOn(SumOf(lines, EUR), percent) <= AMOUNT_LIMIT
  {
    hide PublicBill, LinesOk, SumOf, DiscountOn;
    BillsAreOne(lines, percent);
    SumIsNonNegative(lines, USD);
    SumIsNonNegative(lines, EUR);
    FinalInRange(SumOf(lines, USD), percent);
    FinalInRange(SumOf(lines, EUR), percent);
  }

  lemma StorableIffAffordable(db: Db, cart: Cart)
    requires Sound(db) && CartOk(cart) && ResolvedAll(db, cart.items).Ok?
    ensures var lines := ResolvedAll(db, cart.items).value;
            Storable(db, Sale(cart.paymentMethod, cart.comment, lines, PublicBill(lines, PercentFor(cart.paymentMethod))))
            <==> Affordable(db, cart)
  {
    hide Sound, RowsOk, LineStorable, BillStorable, ResolvedAll, PublicBill, LinesOk, LinesFollow, CartTotal, SumOf,
      AllRepriced, ItemsFit, DiscountOn;
    var lines := ResolvedAll(db, cart.items).value;
    SoundRows(db);
    ResolvedFollow(db, cart.items);
    ResolvedLinesOk(db, cart.items);
    LinesStorableIff(db, cart.items, lines);
    BillStorableIff(lines, PercentFor(cart.paymentMethod));
  }

  /** On a sound catalogue an order is accepted exactly if it is not empty, its slugs and quantities are in
      range, every item is available, and its amounts fit the order's columns. */
  lemma AcceptedIffAvailable(db: Db, cart: Cart)
    requires Sound(db)
    ensures PublicSale(db, cart).Ok? <==>
            && (cart.comment.Some? ==> |cart.comment.value| <= 2000) && cart.items != []
            && (forall k :: 0 <= k < |cart.items| ==>
                  1 <= |cart.items[k].slug| <= 128 && 1 <= cart.items[k].quantity <= 100 && Available(db, cart.items[k]))
            && Affordable(db, cart)
  {
    hide Sound, Available, Affordable, Storable, ResolvedAll, PublicBill;
    AllResolvedIffAvailable(db, cart.items);
    if CartOk(cart) && ResolvedAll(db, cart.items).Ok? { StorableIffAffordable(db, cart); }
  }

  /** The dearest price a payload admits, taken twice, is no order: the line has eleven digits. */
  lemma DearestTwiceIsRefused(db: Db, cart: Cart, k: nat)
    requires Sound(db) && k < |cart.items| && cart.items[k].quantity == 2 && cart.items[k].optionId in db.options
    requires db.options[cart.items[k].optionId].terms == Terms(AMOUNT_LIMIT, AMOUNT_LIMIT, None, None, None)
    ensures PublicSale(db, cart).Err?
  {
    hide Sound, Available, PublicSale;
    AcceptedIffAvailable(db, cart);
    assert Amount(db, cart.items[k], USD) == 2 * AMOUNT_LIMIT;
  }

  lemma {:induction false} InternalLinesOk(db: Db, items: seq<InternalItem>)
    requires InternalLines(db, items).Ok?
    requires forall k :: 0 <= k < |items| ==> items[k].quantity >= 1 && items[k].unitUsd >= 0 && items[k].unitEur >= 0
    ensures LinesOk(InternalLines(db, items).value)
  {
    if items != [] {
      InternalLinesOk(db, items[..|items| - 1]);
    }
  }

  lemma InternalSaleIsConserved(db: Db, p: InternalOrder)
    ensures InternalSale(db, p).Ok? ==>
              Conserved(InternalSale(db, p).value) && InternalSale(db, p).value.bill.finalEur.None?
  {
    if InternalSale(db, p).Err? { return; }
    InternalLinesOk(db, p.items);
    BillsAreOne(InternalLines(db, p.items).value, p.discountPercent);
    BillIsConserved(p.paymentMethod, p.comment, InternalLines(db, p.items).value, p.discountPercent, false);
  }

  lemma PublicDiscountIsCharged(db: Db, cart: Cart)
    ensures PublicSale(db, cart).Ok? ==>
              var b := PublicSale(db, cart).value.bill;
              b.discountUsd == PublicDiscount(b.subtotalUsd, b.discountPercent) && b.finalUsd == b.subtotalUsd - b.discountUsd
  {
    hide PublicDiscount, ResolvedAll, SumOf, Storable;
  }

  lemma InternalDiscountIsCharged(db: Db, p: InternalOrder)
    ensures InternalSale(db, p).Ok? ==>
              var b := InternalSale(db, p).value.bill;
              b.discountUsd == InternalDiscount(b.subtotalUsd, b.discountPercent) && b.finalUsd == b.subtotalUsd - b.discountUsd
  {
    hide InternalDiscount, InternalLines, SumOf, Storable;
  }

  /** Equal subtotals and percentages give equal discounts and final totals in either flow. */
  lemma FlowsAgree(db: Db, cart: Cart, p: InternalOrder)
    ensures PublicSale(db, cart).Ok? && InternalSale(db, p).Ok? ==>
              var a, b := PublicSale(db, cart).value.bill, InternalSale(db, p).value.bill;
              a.subtotalUsd == b.subtotalUsd && a.discountPercent == b.discountPercent ==>
                a.discountUsd == b.discountUsd && a.finalUsd == b.finalUsd
  {
    hide PublicSale, InternalSale;
    if PublicSale(db, cart).Ok? && InternalSale(db, p).Ok? {
      PublicDiscountIsCharged(db, cart);
      InternalDiscountIsCharged(db, p);
      DiscountsAreOne(PublicSale(db, cart).value.bill.subtotalUsd, PublicSale(db, cart).value.bill.discountPercent);
    }
  }

  // ---- orders stay as they were placed ----

  /** The catalogue, the order rows with their bills, and the item rows by order number. */
  datatype Shop = Shop(db: Db, desk: Orders.Desk, items: map<string, seq<Line>>)

  datatype Step =
    | Admin(write: Write)
    | Buy(number: string, cart: Cart, now: int)
    | BuyInternal(number: string, payload: InternalOrder, now: int)
    | Life(request: Orders.Request)

  predicate InShop(shop: Shop, number: string) {
    number in shop.desk.orders && number in shop.items
  }

  /** An order as it can be read from the tables. */
  function SaleOf(shop: Shop, number: string): Sale
    requires InShop(shop, number)
  {
    var order := shop.desk.orders[number];
    Sale(order.paymentMethod, order.comment, shop.items[number], order.bill)
  }

  function Unlinked(lines: seq<Line>, optionId: Id): seq<Line> {
    seq(|lines|, k requires 0 <= k < |lines| =>
        if lines[k].optionId == Some(optionId) then lines[k].(optionId := None) else lines[k])
  }

  function DraftOf(s: Sale): Orders.Draft {
    Orders.Draft(s.paymentMethod, s.bill, s.comment)
  }

  /** The order and its items are inserted together, unless the number is taken. The public flow announces
      the order, the internal one tells nobody. */
  function WithSale(shop: Shop, number: string, sale: Result<Sale, OrderError>, announced: bool, now: int): Shop {
    if sale.Err? || number in shop.desk.orders then shop else
      shop.(desk := Orders.Serve(shop.desk, Orders.PlaceOrder(number, DraftOf(sale.value), announced, now)),
            items := shop.items[number := sale.value.lines])
  }

  /** Deleting an option sets the reference to it to null in every item that has one. */
  ghost function After(shop: Shop, step: Step): Shop {
    match step
    case Admin(w) =>
      var items := if w.DeleteOption? && Apply(shop.db, w).Ok?
                   then map n | n in shop.items :: Unlinked(shop.items[n], w.id) else shop.items;
      shop.(db := Catalogue.After(shop.db, w), items := items)
    case Buy(number, cart, now) => WithSale(shop, number, PublicSale(shop.db, cart), true, now)
    case BuyInternal(number, payload, now) => WithSale(shop, number, InternalSale(shop.db, payload), false, now)
    case Life(r) => if r.PlaceOrder? then shop else shop.(desk := Orders.Serve(shop.desk, r))
  }

  ghost function Run(steps: seq<Step>): Shop {
    if steps == [] then Shop(EMPTY, Orders.EMPTY, map[]) else After(Run(steps[..|steps| - 1]), steps[|steps| - 1])
  }

  /** The same sale but for references to options that have gone. */
  ghost predicate SameMoney(a: Sale, b: Sale) {
    && a.paymentMethod == b.paymentMethod && a.bill == b.bill && |a.lines| == |b.lines|
    && forall k :: 0 <= k < |a.lines| ==> b.lines[k] == a.lines[k].(optionId := b.lines[k].optionId)
  }

  lemma {:induction false} SameSums(a: seq<Line>, b: seq<Line>, c: Currency)
    requires |a| == |b| && forall k :: 0 <= k < |a| ==> b[k] == a[k].(optionId := b[k].optionId)
    ensures SumOf(a, c) == SumOf(b, c)
  {
    if a != [] {
      SameSums(a[..|a| - 1], b[..|b| - 1], c);
    }
  }

  lemma SameMoneyIsFaithful(a: Sale, b: Sale)
    requires SameMoney(a, b) && Faithful(a)
    ensures Faithful(b)
  {
    hide Thawed, DiscountedPrice, TermsOk, NearExact, IsHalfEven;
    SameSums(a.lines, b.lines, USD);
    SameSums(a.lines, b.lines, EUR);
    forall k | 0 <= k < |b.lines|
      ensures LineOk(b.lines[k]) && (b.bill.finalEur.Some? ==> Repriced(b.lines[k]))
    {
      assert LineOk(a.lines[k]) && (a.bill.finalEur.Some? ==> Repriced(a.lines[k]));
      assert b.lines[k].snapshot == a.lines[k].snapshot;
    }
    if b.bill.finalEur.Some? {
      assert Items(b.lines) == Items(a.lines);
    }
  }

  /** None of the four writers touches the money columns or the payment method of an order. */
  lemma LifeKeepsMoney(d: Orders.Desk, r: Orders.Request, number: string)
    requires number in d.orders
    ensures number in Orders.Serve(d, r).orders
    ensures var before, after := d.orders[number], Orders.Serve(d, r).orders[number];
            after.bill == before.bill && after.paymentMethod == before.paymentMethod
  {
  }

  lemma StepKeepsMoney(shop: Shop, step: Step, number: string)
    requires InShop(shop, number)
    ensures InShop(After(shop, step), number) && SameMoney(SaleOf(shop, number), SaleOf(After(shop, step), number))
  {
    hide PublicSale, InternalSale, Orders.Serve;
    match step {
      case Life(r) => LifeKeepsMoney(shop.desk, r, number);
      case Buy(n, cart, now) =>
        if PublicSale(shop.db, cart).Ok? {
          var s := PublicSale(shop.db, cart).value;
          LifeKeepsMoney(shop.desk, Orders.PlaceOrder(n, DraftOf(s), true, now), number);
        }
      case BuyInternal(n, p, now) =>
        if InternalSale(shop.db, p).Ok? {
          var s := InternalSale(shop.db, p).value;
          LifeKeepsMoney(shop.desk, Orders.PlaceOrder(n, DraftOf(s), false, now), number);
        }
      case Admin(_) =>
    }
  }

  lemma NewSaleIsStored(shop: Shop, number: string, sale: Result<Sale, OrderError>, announced: bool, now: int)
    requires sale.Ok? && number !in shop.desk.orders
    ensures InShop(WithSale(shop, number, sale, announced, now), number)
    ensures SaleOf(WithSale(shop, number, sale, announced, now), number) == sale.value
  {
  }

  /** An order that was not there before was placed by one of the two flows just now. */
  lemma NewSaleIsFaithful(shop: Shop, step: Step, number: string)
    requires Sound(shop.db) && !InShop(shop, number) && InShop(After(shop, step), number)
    requires shop.items.Keys == shop.desk.orders.Keys
    ensures Faithful(SaleOf(After(shop, step), number))
  {
    hide PublicSale, InternalSale, Faithful, Conserved, AllRepriced, Sound;
    match step {
      case Buy(n, cart, now) =>
        PublicSaleIsFaithful(shop.db, cart);
        NewSaleIsStored(shop, n, PublicSale(shop.db, cart), true, now);
      case BuyInternal(n, p, now) =>
        InternalSaleIsConserved(shop.db, p);
        ConservedIsFaithful(InternalSale(shop.db, p).value);
        NewSaleIsStored(shop, n, InternalSale(shop.db, p), false, now);
      case _ =>
    }
  }

  lemma ConservedIsFaithful(s: Sale)
    requires Conserved(s) && s.bill.finalEur.None?
    ensures Faithful(s)
  {
  }

  lemma OrdersHaveItems(shop: Shop, step: Step)
    requires shop.items.Keys == shop.desk.orders.Keys
    ensures After(shop, step).items.Keys == After(shop, step).desk.orders.Keys
  {
    hide PublicSale, InternalSale;
  }

  /** In every run of catalogue writes, purchases through either flow and lifecycle requests, every order's
      money adds up, and every public order prices again from its own snapshots as it was charged, near the
      exact total. */
  lemma {:induction false} EverySaleIsFaithful(steps: seq<Step>, number: string)
    ensures Sound(Run(steps).db) && Run(steps).items.Keys == Run(steps).desk.orders.Keys
    ensures InShop(Run(steps), number) ==> Faithful(SaleOf(Run(steps), number))
  {
    hide After, Sound, Faithful, SaleOf;
    CatalogueIsSound(steps);
    if steps != [] {
      var before, step := Run(steps[..|steps| - 1]), steps[|steps| - 1];
      EverySaleIsFaithful(steps[..|steps| - 1], number);
      OrdersHaveItems(before, step);
      if InShop(before, number) {
        StepKeepsMoney(before, step, number);
        SameMoneyIsFaithful(SaleOf(before, number), SaleOf(Run(steps), number));
      } else if InShop(Run(steps), number) {
        NewSaleIsFaithful(before, step, number);
      }
    }
  }

  lemma {:induction false} CatalogueIsSound(steps: seq<Step>)
    ensures Sound(Run(steps).db)
  {
    hide Sound;
    if steps == [] {
      ReachableIsSound([]);
    } else {
      CatalogueIsSound(steps[..|steps| - 1]);
      if steps[|steps| - 1].Admin? {
        WriteKeepsSound(Run(steps[..|steps| - 1]).db, steps[|steps| - 1].write);
      }
    }
  }

  /** And nothing that happens later changes the money of an order once placed. */
  lemma {:induction false} MoneyIsFrozen(steps: seq<Step>, i: nat, number: string)
    requires i <= |steps| && InShop(Run(steps[..i]), number)
    ensures InShop(Run(steps), number) && SameMoney(SaleOf(Run(steps[..i]), number), SaleOf(Run(steps), number))
  {
    hide After, SaleOf, SameMoney;
    if i == |steps| {
      assert steps[..i] == steps;
      SameMoneyReflexive(SaleOf(Run(steps), number));
    } else {
      var n := |steps| - 1;
      assert steps[..n][..i] == steps[..i];
      MoneyIsFrozen(steps[..n], i, number);
      StepKeepsMoney(Run(steps[..n]), steps[n], number);
      SameMoneyTransitive(SaleOf(Run(steps[..i]), number), SaleOf(Run(steps[..n]), number), SaleOf(Run(steps), number));
    }
  }

  lemma SameMoneyReflexive(a: Sale)
    ensures SameMoney(a, a)
  {
  }

  lemma SameMoneyTransitive(a: Sale, b: Sale, c: Sale)
    requires SameMoney(a, b) && SameMoney(b, c)
    ensures SameMoney(a, c)
  {
    forall k | 0 <= k < |a.lines|
      ensures c.lines[k] == a.lines[k].(optionId := c.lines[k].optionId)
    {
      assert b.lines[k] == a.lines[k].(optionId := b.lines[k].optionId);
    }
  }
}
