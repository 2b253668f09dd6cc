/** The order lifecycle. Four writers change an order: administrators, the payment webhook, the
    customer's payment claim and the stale-order sweep. Requests are served one at a time. */
module Orders {
  import opened Wrappers
  import opened Text
  import Payments
  import Totals

  datatype Status =
    | Pending | Paid | AwaitingBooster | InProgress | BoosterCompleted
    | DeliveredToClient | Completed | Cancelled | Refunded

  datatype Method = PayPal | UsdtTrc20 | CardEcomTrade24

  /** The timestamp columns that a status can have. */
  datatype Stamp = PaidAt | AwaitingBoosterAt | BoosterCompletedAt | DeliveredToClientAt | CompletedAt | CancelledAt | RefundedAt

  /** A hosted checkout: the provider's name, its session and the page the customer is sent to. */
  datatype Session = Session(provider: string, sessionId: string, checkoutUrl: string)

  /** Instants are in seconds. `stamps` holds the timestamp columns that are not null. */
  datatype Order = Order(
    status: Status, paymentMethod: Method, bill: Totals.Bill, createdAt: int, stamps: map<Stamp, int>,
    claimedAt: Option<int>, gatewayUpdatedAt: Option<int>, session: Option<Session>,
    comment: Option<string>, notes: Option<string>)

  /** What an order is placed with. */
  datatype Draft = Draft(paymentMethod: Method, bill: Totals.Bill, comment: Option<string>)

  datatype Notice =
    | NewOrder(number: string)
    | StatusChanged(number: string, before: Status, after: Status)
    | PaymentClaimed(number: string)

  /** Orders by number, processed webhook events with the order they concerned, and notifications sent. */
  datatype Desk = Desk(orders: map<string, Order>, events: map<Payments.EventKey, Option<string>>, outbox: seq<Notice>)

  const EMPTY := Desk(map[], map[], [])
  const HOUR := 3600

  function Transitions(s: Status): set<Status> {
    match s
    case Pending => {Paid, Cancelled}
    case Paid => {AwaitingBooster, Cancelled, Refunded}
    case AwaitingBooster => {InProgress, Cancelled, Refunded}
    case InProgress => {BoosterCompleted, Cancelled, Refunded}
    case BoosterCompleted => {DeliveredToClient, Cancelled, Refunded}
    case DeliveredToClient => {Completed, Refunded}
    case Completed => {Refunded}
    case Cancelled => {}
    case Refunded => {}
  }

  datatype Error = NotFound | AlreadyInStatus | InvalidTransition | ManualPaymentOnly

  function AssertTransition(current: Status, target: Status): Option<Error> {
    if current == target then Some(AlreadyInStatus)
    else if target !in Transitions(current) then Some(InvalidTransition)
    else None
  }

  /** In progress has no column of its own. */
  function StampOf(s: Status): Option<Stamp> {
    match s
    case Paid => Some(PaidAt)
    case AwaitingBooster => Some(AwaitingBoosterAt)
    case BoosterCompleted => Some(BoosterCompletedAt)
    case DeliveredToClient => Some(DeliveredToClientAt)
    case Completed => Some(CompletedAt)
    case Cancelled => Some(CancelledAt)
    case Refunded => Some(RefundedAt)
    case _ => None
  }

  function Entered(o: Order, target: Status, now: int): Order {
    match StampOf(target)
    case Some(stamp) => o.(status := target, stamps := o.stamps[stamp := now])
    case None => o.(status := target)
  }

  // ---- requests ----

  datatype Request =
    | PlaceOrder(number: string, draft: Draft, announced: bool, now: int)
    | OpenSession(number: string, session: Session, now: int)
    | ChangeStatus(number: string, target: Status, now: int)
    | EditNotes(number: string, comment: Option<string>, notes: Option<string>, now: int)
    | ClaimPayment(number: string, now: int)
    | Webhook(event: Payments.WebhookEvent, now: int)
    | Sweep(hours: nat, now: int)

  predicate ManualPayment(m: Method) {
    m == PayPal || m == UsdtTrc20
  }

  predicate IsStale(o: Order, hours: nat, now: int) {
    o.status == Pending && o.createdAt < now - hours * HOUR
  }

  function AutoCancelNote(hours: nat): string {
    "\n[Auto-cancelled: pending > " + Digits(hours) + "h]"
  }

  function Coalesced(notes: Option<string>): string {
    if notes.Some? then notes.value else ""
  }

  function Swept(o: Order, hours: nat, now: int): Order {
    if IsStale(o, hours, now)
    then Entered(o, Cancelled, now).(notes := Some(Coalesced(o.notes) + AutoCancelNote(hours)))
    else o
  }

  predicate AcceptsClaim(o: Order) {
    ManualPayment(o.paymentMethod) && o.claimedAt == None && o.status == Pending
  }

  predicate PaidBy(o: Order, event: Payments.WebhookEvent) {
    event.status == Payments.Paid && o.status == Pending
  }

  function WebhookPaid(o: Order, now: int): Order {
    Entered(o, Paid, now).(gatewayUpdatedAt := Some(now))
  }

  /** What a request does to the order with a given number; `known` says that the webhook event has
      been processed before. */
  function Effect(o: Order, number: string, r: Request, known: bool): Order {
    match r
    case PlaceOrder(_, _, _, _) => o
    case OpenSession(n, session, now) =>
      if n == number && o.paymentMethod == CardEcomTrade24
      then o.(session := Some(session), gatewayUpdatedAt := Some(now)) else o
    case ChangeStatus(n, target, now) =>
      if n == number && AssertTransition(o.status, target) == None then Entered(o, target, now) else o
    case EditNotes(n, comment, notes, _) =>
      if n == number
      then o.(comment := if comment.Some? then comment else o.comment, notes := if notes.Some? then notes else o.notes)
      else o
    case ClaimPayment(n, now) =>
      if n == number && AcceptsClaim(o) then o.(claimedAt := Some(now)) else o
    case Webhook(event, now) =>
      if !known && event.orderRef == Some(number) && PaidBy(o, event) then WebhookPaid(o, now) else o
    case Sweep(hours, now) => Swept(o, hours, now)
  }

  function Placed(draft: Draft, now: int): Order {
    Order(Pending, draft.paymentMethod, draft.bill, now, map[], None, None, None, draft.comment, None)
  }

  function Known(d: Desk, r: Request): bool {
    r.Webhook? && r.event.key in d.events
  }

  function OrdersAfter(d: Desk, r: Request): map<string, Order> {
    var changed := map n | n in d.orders :: Effect(d.orders[n], n, r, Known(d, r));
    if r.PlaceOrder? && r.number !in d.orders then changed[r.number := Placed(r.draft, r.now)] else changed
  }

  /** The order an event refers to, if there is one. */
  function OrderOf(d: Desk, event: Payments.WebhookEvent): Option<string> {
    if event.orderRef.Some? && event.orderRef.value in d.orders then event.orderRef else None
  }

  function Notices(d: Desk, r: Request): seq<Notice> {
    match r
    case PlaceOrder(n, _, announced, _) => if announced && n !in d.orders then [NewOrder(n)] else []
    case ChangeStatus(n, target, _) =>
      if n in d.orders && AssertTransition(d.orders[n].status, target) == None
      then [StatusChanged(n, d.orders[n].status, target)] else []
    case ClaimPayment(n, _) => if n in d.orders && AcceptsClaim(d.orders[n]) then [PaymentClaimed(n)] else []
    case Webhook(event, _) =>
      if !Known(d, r) && OrderOf(d, event).Some? && PaidBy(d.orders[OrderOf(d, event).value], event)
      then [StatusChanged(OrderOf(d, event).value, Pending, Paid)] else []
    case _ => []
  }

  function Serve(d: Desk, r: Request): Desk {
    Desk(OrdersAfter(d, r),
         if r.Webhook? && !Known(d, r) then d.events[r.event.key := OrderOf(d, r.event)] else d.events,
         d.outbox + Notices(d, r))
  }

  function ServeAll(rs: seq<Request>): Desk {
    if rs == [] then EMPTY else Serve(ServeAll(rs[..|rs| - 1]), rs[|rs| - 1])
  }

  /** Placing an order under a free number adds that row only. */
  lemma InsertedOnly(d: Desk, number: string, draft: Draft, announced: bool, now: int)
    requires number !in d.orders
    ensures Serve(d, PlaceOrder(number, draft, announced, now)) ==
            Desk(d.orders[number := Placed(draft, now)], d.events, d.outbox + if announced then [NewOrder(number)] else [])
  {
    assert (map n | n in d.orders :: Effect(d.orders[n], n, PlaceOrder(number, draft, announced, now), false)) == d.orders;
  }

  /** A clock that never goes back. */
  ghost predicate Clocked(rs: seq<Request>) {
    forall i, j :: 0 <= i < j < |rs| ==> rs[i].now <= rs[j].now
  }

  // ---- one order over its life ----

  /** Position in the pipeline: no transition keeps or lowers it. */
  function Rank(s: Status): nat {
    match s
    case Pending => 0
    case Paid => 1
    case AwaitingBooster => 2
    case InProgress => 3
    case BoosterCompleted => 4
    case DeliveredToClient => 5
    case Completed => 6
    case Cancelled => 7
    case Refunded => 7
  }

  /** From a stage to the next one; to cancelled until the booster has completed; to refunded from paid to
      completed. Nothing leads out of cancelled and refunded. */
  predicate MayMove(from: Status, target: Status) {
    match target
    case Cancelled => Rank(from) <= Rank(BoosterCompleted)
    case Refunded => Rank(Paid) <= Rank(from) <= Rank(Completed)
    case _ => Rank(target) == Rank(from) + 1
  }

  /** The table is exactly this: every edge and no other. */
  lemma TableIsExact(from: Status, target: Status)
    ensures target in Transitions(from) <==> MayMove(from, target)
    ensures AssertTransition(from, target) ==
            if from == target then Some(AlreadyInStatus) else if MayMove(from, target) then None else Some(InvalidTransition)
  {
  }

  /** The columns a status outside the two terminal ones has set. */
  function Earned(s: Status): set<Stamp> {
    match s
    case Pending => {}
    case Paid => {PaidAt}
    case AwaitingBooster => {PaidAt, AwaitingBoosterAt}
    case InProgress => {PaidAt, AwaitingBoosterAt}
    case BoosterCompleted => {PaidAt, AwaitingBoosterAt, BoosterCompletedAt}
    case DeliveredToClient => {PaidAt, AwaitingBoosterAt, BoosterCompletedAt, DeliveredToClientAt}
    case _ => {PaidAt, AwaitingBoosterAt, BoosterCompletedAt, DeliveredToClientAt, CompletedAt}
  }

  /** Exactly the columns earned on the way are set; a terminal status adds its own to those of the
      status it was entered from. */
  ghost predicate StampsFit(s: Status, stamps: set<Stamp>) {
    if s == Cancelled || s == Refunded then
      exists from :: s in Transitions(from) && stamps == Earned(from) + {StampOf(s).value}
    else
      stamps == Earned(s)
  }

  function StampRank(stamp: Stamp): nat {
    match stamp
    case PaidAt => 0
    case AwaitingBoosterAt => 1
    case BoosterCompletedAt => 2
    case DeliveredToClientAt => 3
    case CompletedAt => 4
    case CancelledAt => 5
    case RefundedAt => 5
  }

  ghost predicate StampsOrdered(stamps: map<Stamp, int>) {
    forall f, g :: f in stamps && g in stamps && StampRank(f) < StampRank(g) ==> stamps[f] <= stamps[g]
  }

  ghost predicate OrderOk(o: Order, clock: int) {
    && o.createdAt <= clock
    && StampsFit(o.status, o.stamps.Keys)
    && StampsOrdered(o.stamps)
    && (forall f :: f in o.stamps ==> o.createdAt <= o.stamps[f] <= clock)
    && (o.claimedAt.Some? ==> ManualPayment(o.paymentMethod) && o.createdAt <= o.claimedAt.value <= clock)
  }

  /** `later` is the same order at a later time: nothing recorded has been lost or rewritten, and
      the status has only moved forward. */
  ghost predicate Since(o: Order, later: Order) {
    && later.paymentMethod == o.paymentMethod && later.bill == o.bill && later.createdAt == o.createdAt
    && Rank(o.status) <= Rank(later.status)
    && (Rank(o.status) == Rank(later.status) ==> later.status == o.status && later.stamps == o.stamps)
    && (forall f :: f in o.stamps ==> f in later.stamps && later.stamps[f] == o.stamps[f])
    && (o.claimedAt.Some? ==> later.claimedAt == o.claimedAt)
  }

  ghost function NewStamps(target: Status): set<Stamp> {
    match StampOf(target)
    case Some(stamp) => {stamp}
    case None => {}
  }

  /** Along a transition the new column comes after all that are set, and the result fits again. */
  lemma TransitionFits(from: Status, target: Status)
    requires target in Transitions(from)
    ensures StampsFit(from, Earned(from)) && StampsFit(target, Earned(from) + NewStamps(target))
    ensures forall f, g :: f in Earned(from) && g in NewStamps(target) ==> StampRank(f) < StampRank(g)
    ensures Rank(from) < Rank(target)
  {
    if target == Cancelled || target == Refunded {
      assert Earned(from) + NewStamps(target) == Earned(from) + {StampOf(target).value};
    } else {
      assert Earned(from) + NewStamps(target) == Earned(target);
    }
  }

  lemma StampingKeepsOrder(stamps: map<Stamp, int>, stamp: Stamp, now: int)
    requires StampsOrdered(stamps)
    requires forall f :: f in stamps ==> StampRank(f) < StampRank(stamp) && stamps[f] <= now
    ensures StampsOrdered(stamps[stamp := now])
    ensures stamp !in stamps && stamps[stamp := now].Keys == stamps.Keys + {stamp}
  {
  }

  lemma EnteringKeepsOk(o: Order, target: Status, now: int)
    requires OrderOk(o, now) && target in Transitions(o.status)
    ensures OrderOk(Entered(o, target, now), now) && Since(o, Entered(o, target, now))
  {
    hide Since;
    EnteringMovesOn(o, target, now);
    TransitionFits(o.status, target);
    assert o.stamps.Keys == Earned(o.status);
    hide Earned, StampsFit, Transitions, Rank, StampRank, StampsOrdered;
    match StampOf(target) {
      case Some(stamp) =>
        assert forall f :: f in o.stamps ==> f in Earned(o.status) && stamp in NewStamps(target);
        StampingKeepsOrder(o.stamps, stamp, now);
      case None =>
        assert o.stamps.Keys == Earned(o.status) + NewStamps(target);
    }
  }

  lemma EnteringMovesOn(o: Order, target: Status, now: int)
    requires OrderOk(o, now) && target in Transitions(o.status)
    ensures Since(o, Entered(o, target, now))
  {
    TransitionFits(o.status, target);
    assert o.stamps.Keys == Earned(o.status);
    hide Earned, StampsFit, Transitions, Rank, StampRank, StampsOrdered, OrderOk;
    match StampOf(target) {
      case Some(stamp) => assert forall f :: f in o.stamps ==> f in Earned(o.status) && stamp in NewStamps(target);
      case None =>
    }
  }

  lemma EffectKeepsOk(o: Order, number: string, r: Request, known: bool)
    requires OrderOk(o, r.now)
    ensures OrderOk(Effect(o, number, r, known), r.now) && Since(o, Effect(o, number, r, known))
    ensures Effect(o, number, r, known).status == o.status || Effect(o, number, r, known).status in Transitions(o.status)
  {
    hide Earned, StampsFit, StampsOrdered, AutoCancelNote, Entered, Rank;
    match r {
      case ChangeStatus(_, target, now) =>
        if target in Transitions(o.status) {
          EnteringKeepsOk(o, target, now);
          EntersTarget(o, target, now);
        }
      case Webhook(_, now) =>
        if o.status == Pending {
          EnteringKeepsOk(o, Paid, now);
          EntersTarget(o, Paid, now);
        }
      case Sweep(_, now) =>
        if o.status == Pending {
          EnteringKeepsOk(o, Cancelled, now);
          EntersTarget(o, Cancelled, now);
        }
      case _ =>
    }
  }

  lemma EntersTarget(o: Order, target: Status, now: int)
    ensures Entered(o, target, now).status == target
  {
  }

  lemma OkLater(o: Order, clock: int, later: int)
    requires OrderOk(o, clock) && clock <= later
    ensures OrderOk(o, later)
  {
  }

  /** In every serialised run every order satisfies the lifecycle's invariant at every moment. */
  lemma {:induction false} EveryOrderIsOk(rs: seq<Request>, number: string)
    requires Clocked(rs) && number in ServeAll(rs).orders
    ensures OrderOk(ServeAll(rs).orders[number], rs[|rs| - 1].now)
  {
    var before, r := rs[..|rs| - 1], rs[|rs| - 1];
    if number in ServeAll(before).orders {
      EveryOrderIsOk(before, number);
      OkLater(ServeAll(before).orders[number], before[|before| - 1].now, r.now);
      EffectKeepsOk(ServeAll(before).orders[number], number, r, Known(ServeAll(before), r));
    }
  }

  lemma StampsTell(s: Status, stamps: set<Stamp>)
    requires StampsFit(s, stamps)
    ensures s == Completed ==>
              {PaidAt, AwaitingBoosterAt, BoosterCompletedAt, DeliveredToClientAt, CompletedAt} == stamps
    ensures s == Cancelled ==> CancelledAt in stamps && {DeliveredToClientAt, CompletedAt, RefundedAt} !! stamps
    ensures s == Refunded ==> {PaidAt, RefundedAt} <= stamps && CancelledAt !in stamps
  {
    if s == Cancelled || s == Refunded {
      var from :| s in Transitions(from) && stamps == Earned(from) + {StampOf(s).value};
      assert from != Cancelled && from != Refunded;
    }
  }

  /** What the invariant says of the statuses that end a life, in terms of the columns. */
  lemma ReachableStamps(rs: seq<Request>, number: string)
    requires Clocked(rs) && number in ServeAll(rs).orders
    ensures var o := ServeAll(rs).orders[number];
            && (o.status == Completed ==>
                  {PaidAt, AwaitingBoosterAt, BoosterCompletedAt, DeliveredToClientAt, CompletedAt} == o.stamps.Keys)
            && (o.status == Cancelled ==>
                  CancelledAt in o.stamps && {DeliveredToClientAt, CompletedAt, RefundedAt} !! o.stamps.Keys)
            && (o.status == Refunded ==> {PaidAt, RefundedAt} <= o.stamps.Keys && CancelledAt !in o.stamps)
            && (o.claimedAt.Some? ==> ManualPayment(o.paymentMethod))
            && StampsOrdered(o.stamps)
  {
    EveryOrderIsOk(rs, number);
    hide ServeAll, Clocked, StampsFit, StampsOrdered;
    StampsTell(ServeAll(rs).orders[number].status, ServeAll(rs).orders[number].stamps.Keys);
  }

  // ---- histories ----

  lemma SinceTransitive(a: Order, b: Order, c: Order)
    requires Since(a, b) && Since(b, c)
    ensures Since(a, c)
  {
  }

  /** An order stays in the table, and everything recorded on it stays as it was: a set timestamp or
      claim time is never rewritten. */
  lemma {:induction false} HistoryOnlyGrows(rs: seq<Request>, i: nat, number: string)
    requires Clocked(rs) && i <= |rs| && number in ServeAll(rs[..i]).orders
    ensures number in ServeAll(rs).orders && Since(ServeAll(rs[..i]).orders[number], ServeAll(rs).orders[number])
  {
    if i == |rs| {
      assert rs[..i] == rs;
    } else {
      var before, r := rs[..|rs| - 1], rs[|rs| - 1];
      assert before[..i] == rs[..i];
      HistoryOnlyGrows(before, i, number);
      var o := ServeAll(before).orders[number];
      EveryOrderIsOk(before, number);
      OkLater(o, before[|before| - 1].now, r.now);
      EffectKeepsOk(o, number, r, Known(ServeAll(before), r));
      SinceTransitive(ServeAll(rs[..i]).orders[number], o, ServeAll(rs).orders[number]);
    }
  }

  /** No status is entered twice: an order seen in the same status at two moments was in it throughout. */
  lemma NoStatusTwice(rs: seq<Request>, i: nat, j: nat, k: nat, number: string)
    requires Clocked(rs) && i <= j <= k <= |rs| && number in ServeAll(rs[..i]).orders
    ensures number in ServeAll(rs[..j]).orders && number in ServeAll(rs[..k]).orders
    ensures ServeAll(rs[..i]).orders[number].status == ServeAll(rs[..k]).orders[number].status ==>
              ServeAll(rs[..j]).orders[number].status == ServeAll(rs[..i]).orders[number].status
  {
    assert rs[..j][..i] == rs[..i] && rs[..k][..j] == rs[..j];
    HistoryOnlyGrows(rs[..j], i, number);
    HistoryOnlyGrows(rs[..k], j, number);
  }

  /** How often the order's status has changed in the run. */
  function Changes(rs: seq<Request>, number: string): nat {
    if rs == [] then 0 else
      var before := ServeAll(rs[..|rs| - 1]).orders;
      Changes(rs[..|rs| - 1], number) +
      if number in before && number in ServeAll(rs).orders && ServeAll(rs).orders[number].status != before[number].status
      then 1 else 0
  }

  /** Never more than seven times, and never more than its place in the pipeline allows. */
  lemma {:induction false} AtMostSevenChanges(rs: seq<Request>, number: string)
    requires Clocked(rs)
    ensures Changes(rs, number) <= if number in ServeAll(rs).orders then Rank(ServeAll(rs).orders[number].status) else 0
    ensures Changes(rs, number) <= 7
  {
    if rs != [] {
      var before := rs[..|rs| - 1];
      hide Serve, ServeAll, Clocked;
      ClockBefore(rs, 0);
      AtMostSevenChanges(before, number);
      if number in ServeAll(before).orders {
        HistoryOnlyGrows(rs, |rs| - 1, number);
      }
    }
  }

  /** Each change is one of the table. */
  lemma ChangesFollowTable(rs: seq<Request>, number: string)
    requires Clocked(rs) && rs != [] && number in ServeAll(rs[..|rs| - 1]).orders
    ensures number in ServeAll(rs).orders
    ensures var before, after := ServeAll(rs[..|rs| - 1]).orders[number].status, ServeAll(rs).orders[number].status;
            after == before || after in Transitions(before)
  {
    var before, r := rs[..|rs| - 1], rs[|rs| - 1];
    EveryOrderIsOk(before, number);
    OkLater(ServeAll(before).orders[number], before[|before| - 1].now, r.now);
    EffectKeepsOk(ServeAll(before).orders[number], number, r, Known(ServeAll(before), r));
  }

  // ---- the sweep ----

  ghost function PendingOrders(orders: map<string, Order>): set<string> {
    set n | n in orders && orders[n].status == Pending
  }

  /** The row count the sweep reports. */
  function StaleCount(orders: map<string, Order>, hours: nat, now: int): nat {
    |set n | n in orders && IsStale(orders[n], hours, now)|
  }

  /** Pending, and placed before the cutoff. */
  predicate Overdue(o: Order, hours: nat, now: int) {
    o.status == Pending && o.createdAt < now - 3600 * hours
  }

  /** An overdue order is cancelled now, with a line added to its notes; any other is left alone. */
  function SweptRow(o: Order, hours: nat, now: int): Order {
    if !Overdue(o, hours, now) then o else
      var notes := if o.notes.Some? then o.notes.value else "";
      o.(status := Cancelled, stamps := o.stamps[CancelledAt := now],
         notes := Some(notes + ("\n[Auto-cancelled: pending > " + Digits(hours) + "h]")))
  }

  lemma SweptIsSweptRow(o: Order, hours: nat, now: int)
    ensures Swept(o, hours, now) == SweptRow(o, hours, now) && (IsStale(o, hours, now) <==> Overdue(o, hours, now))
  {
  }

  lemma SweepIsRows(d: Desk, hours: nat, now: int)
    ensures OrdersAfter(d, Sweep(hours, now)) == map n | n in d.orders :: SweptRow(d.orders[n], hours, now)
  {
    forall n | n in d.orders
      ensures Swept(d.orders[n], hours, now) == SweptRow(d.orders[n], hours, now)
    {
      SweptIsSweptRow(d.orders[n], hours, now);
    }
    hide SweptRow, Swept;
  }

  lemma SweepTouchesStaleOnly(d: Desk, hours: nat, now: int)
    ensures var after := Serve(d, Sweep(hours, now));
            && after.orders.Keys == d.orders.Keys
            && (forall n :: n in d.orders ==> after.orders[n] == Swept(d.orders[n], hours, now))
            && (forall n :: n in after.orders ==> !IsStale(after.orders[n], hours, now))
  {
  }

  /** A sweep cancels the pending orders older than its cutoff and touches no other; it reports the
      drop in pending orders, and finds nothing when repeated at the same instant. */
  lemma SweepIsExact(d: Desk, hours: nat, now: int)
    ensures var after := Serve(d, Sweep(hours, now));
            && after.orders.Keys == d.orders.Keys
            && (forall n :: n in d.orders ==> after.orders[n] == SweptRow(d.orders[n], hours, now))
            && (forall n :: n in after.orders ==> !Overdue(after.orders[n], hours, now))
            && StaleCount(d.orders, hours, now) == |PendingOrders(d.orders)| - |PendingOrders(after.orders)|
            && StaleCount(after.orders, hours, now) == 0
            && Serve(after, Sweep(hours, now)) == after
  {
    SweepTouchesStaleOnly(d, hours, now);
    var after := Serve(d, Sweep(hours, now));
    forall o: Order
      ensures Swept(o, hours, now) == SweptRow(o, hours, now) && (IsStale(o, hours, now) <==> Overdue(o, hours, now))
    {
      SweptIsSweptRow(o, hours, now);
    }
    hide AutoCancelNote, Transitions, Effect, Swept, SweptRow, IsStale, Overdue;
    SweepDropsPending(d.orders, after.orders, hours, now);
    SweepTouchesStaleOnly(after, hours, now);
    assert (set n | n in after.orders && IsStale(after.orders[n], hours, now)) == {};
    assert Serve(after, Sweep(hours, now)).orders == after.orders;
  }

  lemma SweepDropsPending(orders: map<string, Order>, after: map<string, Order>, hours: nat, now: int)
    requires after.Keys == orders.Keys && forall n :: n in orders ==> after[n] == Swept(orders[n], hours, now)
    ensures StaleCount(orders, hours, now) == |PendingOrders(orders)| - |PendingOrders(after)|
  {
    var stale := set n | n in orders && IsStale(orders[n], hours, now);
    assert PendingOrders(orders) == PendingOrders(after) + stale;
    assert PendingOrders(after) !! stale;
  }

  lemma ServedLast(rs: seq<Request>)
    requires rs != []
    ensures ServeAll(rs) == Serve(ServeAll(rs[..|rs| - 1]), rs[|rs| - 1])
  {
  }

  lemma ClockBefore(rs: seq<Request>, i: nat)
    requires Clocked(rs) && i < |rs|
    ensures Clocked(rs[..|rs| - 1]) && rs[i].now <= rs[|rs| - 1].now
  {
  }

  /** An order that is pending after a request was so before, and was placed when it was. */
  lemma StaysPending(d: Desk, r: Request, number: string)
    requires number in d.orders && number in Serve(d, r).orders && Serve(d, r).orders[number].status == Pending
    ensures d.orders[number].status == Pending && Serve(d, r).orders[number].createdAt == d.orders[number].createdAt
  {
    hide AutoCancelNote, Notices;
  }

  lemma NewlyPlaced(d: Desk, r: Request, number: string)
    requires number !in d.orders && number in Serve(d, r).orders
    ensures Serve(d, r).orders[number].createdAt == r.now
  {
    hide AutoCancelNote, Notices, Effect;
  }

  /** After a sweep with horizon `hours`, a pending order was created no earlier than that horizon
      before the sweep, however the run goes on. */
  lemma {:induction false} PendingAfterSweep(rs: seq<Request>, i: nat, hours: nat, number: string)
    requires Clocked(rs) && i < |rs| && rs[i].Sweep? && rs[i].hours == hours
    requires number in ServeAll(rs).orders && ServeAll(rs).orders[number].status == Pending
    ensures ServeAll(rs).orders[number].createdAt >= rs[i].now - hours * HOUR
  {
    hide Serve, ServeAll, Transitions, Since, Clocked;
    var before, r := rs[..|rs| - 1], rs[|rs| - 1];
    ServedLast(rs);
    ClockBefore(rs, i);
    if number in ServeAll(before).orders {
      StaysPending(ServeAll(before), r, number);
      if i < |rs| - 1 {
        PendingAfterSweep(before, i, hours, number);
      } else {
        SweepTouchesStaleOnly(ServeAll(before), hours, r.now);
      }
    } else {
      NewlyPlaced(ServeAll(before), r, number);
    }
  }

  predicate IsSweep(rs: seq<Request>, i: int, hours: nat) {
    0 <= i < |rs| && rs[i].Sweep? && rs[i].hours == hours
  }

  /** Up to the instant `seen` each sweep is followed within `gap` by another one or by `seen`. */
  ghost predicate SweptEvery(rs: seq<Request>, hours: nat, gap: nat, seen: int) {
    forall i :: IsSweep(rs, i, hours) ==>
      seen - rs[i].now <= gap || exists j :: i < j && IsSweep(rs, j, hours) && rs[j].now - rs[i].now <= gap
  }

  lemma {:induction false} LastSweepIsNear(rs: seq<Request>, i: nat, hours: nat, gap: nat, seen: int) returns (last: nat)
    requires SweptEvery(rs, hours, gap, seen) && IsSweep(rs, i, hours)
    ensures IsSweep(rs, last, hours) && seen - rs[last].now <= gap
    decreases |rs| - i
  {
    last := i;
    if seen - rs[i].now > gap {
      var j :| i < j && IsSweep(rs, j, hours) && rs[j].now - rs[i].now <= gap;
      last := LastSweepIsNear(rs, j, hours, gap, seen);
    }
  }

  /** With consecutive sweeps at most `gap` apart, a pending order seen at any instant after the first
      sweep is no older than the horizon plus the gap. */
  lemma PendingOrdersAreYoung(rs: seq<Request>, first: nat, hours: nat, gap: nat, seen: int, number: string)
    requires Clocked(rs) && number in ServeAll(rs).orders && ServeAll(rs).orders[number].status == Pending
    requires IsSweep(rs, first, hours) && SweptEvery(rs, hours, gap, seen)
    ensures seen - ServeAll(rs).orders[number].createdAt <= hours * HOUR + gap
  {
    hide ServeAll, Clocked;
    var i := LastSweepIsNear(rs, first, hours, gap, seen);
    PendingAfterSweep(rs, i, hours, number);
  }

  /** The request at position `i` is a sweep that cancels the order. */
  ghost predicate SweepsAway(rs: seq<Request>, i: nat, number: string)
    requires i < |rs|
  {
    && rs[i].Sweep? && number in ServeAll(rs[..i]).orders
    && IsStale(ServeAll(rs[..i]).orders[number], rs[i].hours, rs[i].now)
  }

  /** An order gets its auto-cancel note from one sweep at most. */
  lemma AtMostOneAutoCancel(rs: seq<Request>, i: nat, j: nat, number: string)
    requires Clocked(rs) && i < |rs| && j < |rs|
    requires SweepsAway(rs, i, number) && SweepsAway(rs, j, number)
    ensures i == j
  {
    if i < j { SweptOnce(rs, i, j, number); }
    if j < i { SweptOnce(rs, j, i, number); }
  }

  lemma SweptOnce(rs: seq<Request>, i: nat, j: nat, number: string)
    requires Clocked(rs) && i < j < |rs| && SweepsAway(rs, i, number)
    ensures !SweepsAway(rs, j, number)
  {
    assert rs[..i + 1][..i] == rs[..i] && rs[..j][..i + 1] == rs[..i + 1];
    SweepIsExact(ServeAll(rs[..i]), rs[i].hours, rs[i].now);
    assert ServeAll(rs[..i + 1]).orders[number].status == Cancelled;
    HistoryOnlyGrows(rs[..j], i + 1, number);
  }
}
