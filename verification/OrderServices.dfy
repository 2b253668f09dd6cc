/** The order service, the public claim endpoint and the webhook receiver as one object over the
    order tables: fields are assigned step by step, and each method is proved to leave what
    `Orders.Serve` says, with the answer its caller gets. */
module OrderServices {
  import opened Wrappers
  import opened Orders
  import Payments

  // ---- what the requests do, read off the tables ----

  /** This row is what its request made it; every other row stays. */
  predicate OnlyRow(before: map<string, Order>, after: map<string, Order>, number: string, row: Order) {
    after == before[number := row]
  }

  /** A claim is for orders paid by hand that are pending and not claimed. */
  predicate Claimable(o: Order) {
    (o.paymentMethod == PayPal || o.paymentMethod == UsdtTrc20) && o.status == Pending && o.claimedAt == None
  }

  /** The payload says that this order has been paid for. */
  predicate ReportsPaid(payload: map<string, Payments.Json>, number: string) {
    && "order_id" in payload && Payments.Truthy(payload["order_id"]) && Payments.Printed(payload["order_id"]) == number
    && "status" in payload
    && Payments.Lower(Payments.Printed(payload["status"])) in {"paid", "succeeded", "success", "completed"}
  }

  function EventKeyOf(payload: map<string, Payments.Json>): Payments.EventKey
    requires "session_id" in payload
  {
    var status := if "status" in payload then Payments.Printed(payload["status"]) else "";
    Payments.EventKey("ecomtrade24", Payments.Printed(payload["session_id"]) + ":" + Payments.Lower(status))
  }

  /** A new delivery pays the pending order it names if its status is one of the four paying words, and is
      recorded; nothing else changes, and a delivery seen before changes nothing. */
  ghost predicate PaidAsReported(before: Desk, payload: map<string, Payments.Json>, now: int, after: Desk)
    requires "session_id" in payload
  {
    var new' := EventKeyOf(payload) !in before.events;
    && after.orders.Keys == before.orders.Keys
    && after.events.Keys == before.events.Keys + {EventKeyOf(payload)}
    && (forall n :: n in before.orders ==>
          after.orders[n] ==
          if new' && ReportsPaid(payload, n) && before.orders[n].status == Pending
          then before.orders[n].(status := Paid, stamps := before.orders[n].stamps[PaidAt := now], gatewayUpdatedAt := Some(now))
          else before.orders[n])
    && (forall n :: n in before.orders && new' && ReportsPaid(payload, n) && before.orders[n].status == Pending ==>
          after.outbox == before.outbox + [StatusChanged(n, Pending, Paid)])
    && ((forall n :: n in before.orders ==> after.orders[n] == before.orders[n]) ==> after.outbox == before.outbox)
  }

  lemma StatusWords(text: string)
    ensures Payments.StatusOf(text) == Payments.Paid <==> text in {"paid", "succeeded", "success", "completed"}
  {
  }

  lemma DeliveryPays(before: Desk, payload: map<string, Payments.Json>, now: int)
    requires Payments.ParseWebhookEvent(payload).Ok?
    ensures "session_id" in payload
    ensures PaidAsReported(before, payload, now, Serve(before, Webhook(Payments.ParseWebhookEvent(payload).value, now)))
  {
    var event := Payments.ParseWebhookEvent(payload).value;
    var empty: string := "";
    assert Payments.Lower(empty) == empty;
    StatusWords(Payments.StatusText(payload));
    assert event.key == EventKeyOf(payload);
    assert forall n :: (event.status == Payments.Paid && event.orderRef == Some(n)) <==> ReportsPaid(payload, n);
    hide Payments.ParseWebhookEvent, ReportsPaid, EventKeyOf, Payments.StatusText;
  }

  class OrderDesk {
    var orders: map<string, Order>
    var events: map<Payments.EventKey, Option<string>>
    var outbox: seq<Notice>

    function State(): Desk
      reads this
    {
      Desk(orders, events, outbox)
    }

    constructor ()
      ensures State() == EMPTY
    {
      orders, events, outbox := map[], map[], [];
    }

    method Save(number: string, order: Order)
      requires number in orders
      modifies this`orders
      ensures orders == old(orders)[number := order]
    {
      orders := orders[number := order];
    }

    method Insert(number: string, draft: Draft, announced: bool, now: int) returns (inserted: bool)
      modifies this
      ensures inserted <==> number !in old(orders)
      ensures State() == Serve(old(State()), PlaceOrder(number, draft, announced, now))
      ensures inserted ==>
                && OnlyRow(old(orders), orders, number,
                           Order(Pending, draft.paymentMethod, draft.bill, now, map[], None, None, None, draft.comment, None))
                && outbox == old(outbox) + if announced then [NewOrder(number)] else []
      ensures !inserted ==> State() == old(State())
    {
      if number in orders {
        Untouched(old(State()), PlaceOrder(number, draft, announced, now));
        return false;
      }
      InsertedOnly(State(), number, draft, announced, now);
      orders := orders[number := Placed(draft, now)];
      if announced {
        outbox := outbox + [NewOrder(number)];
      }
      return true;
    }

    method StoreSession(number: string, session: Session, now: int)
      modifies this
      ensures State() == Serve(old(State()), OpenSession(number, session, now))
      ensures if number in old(orders) && old(orders)[number].paymentMethod == CardEcomTrade24
              then OnlyRow(old(orders), orders, number,
                           old(orders)[number].(session := Some(session), gatewayUpdatedAt := Some(now)))
              else orders == old(orders)
    {
      if number in orders && orders[number].paymentMethod == CardEcomTrade24 {
        var order := orders[number];
        order := order.(session := Some(session));
        order := order.(gatewayUpdatedAt := Some(now));
        Save(number, order);
        OnlyOne(old(State()), OpenSession(number, session, now), number);
      } else {
        Untouched(old(State()), OpenSession(number, session, now));
      }
    }

    method ChangeOrderStatus(number: string, target: Status, now: int) returns (error: Option<Error>)
      modifies this
      ensures State() == Serve(old(State()), ChangeStatus(number, target, now))
      ensures error == if number !in old(orders) then Some(NotFound)
                       else if old(orders)[number].status == target then Some(AlreadyInStatus)
                       else if MayMove(old(orders)[number].status, target) then None
                       else Some(InvalidTransition)
      ensures error.Some? ==> State() == old(State())
      ensures error.None? ==>
                && OnlyRow(old(orders), orders, number, Entered(old(orders)[number], target, now))
                && outbox == old(outbox) + [StatusChanged(number, old(orders)[number].status, target)]
    {
      if number !in orders {
        Untouched(old(State()), ChangeStatus(number, target, now));
        return Some(NotFound);
      }
      var order := orders[number];
      var before := order.status;
      TableIsExact(before, target);
      error := AssertTransition(before, target);
      if error.Some? {
        Untouched(old(State()), ChangeStatus(number, target, now));
        return;
      }
      order := order.(status := target);
      var stamp := StampOf(target);
      if stamp.Some? {
        order := order.(stamps := order.stamps[stamp.value := now]);
      }
      Save(number, order);
      outbox := outbox + [StatusChanged(number, before, target)];
      OnlyOne(old(State()), ChangeStatus(number, target, now), number);
    }

    method UpdateNotes(number: string, comment: Option<string>, notes: Option<string>, now: int) returns (error: Option<Error>)
      modifies this
      ensures State() == Serve(old(State()), EditNotes(number, comment, notes, now))
      ensures number in old(orders) ==>
                var row := old(orders)[number];
                OnlyRow(old(orders), orders, number,
                        row.(comment := if comment.Some? then comment else row.comment,
                             notes := if notes.Some? then notes else row.notes))
      ensures error == if number in old(orders) then None else Some(NotFound)
    {
      if number !in orders {
        Untouched(old(State()), EditNotes(number, comment, notes, now));
        return Some(NotFound);
      }
      var order := orders[number];
      if comment.Some? {
        order := order.(comment := comment);
      }
      if notes.Some? {
        order := order.(notes := notes);
      }
      Save(number, order);
      OnlyOne(old(State()), EditNotes(number, comment, notes, now), number);
      return None;
    }

    /** Claiming again, or claiming an order that has left pending, answers with what is stored. */
    method Claim(number: string, now: int) returns (r: Result<Option<int>, Error>)
      modifies this
      ensures State() == Serve(old(State()), ClaimPayment(number, now))
      ensures r == if number !in old(orders) then Err(NotFound)
                   else if old(orders)[number].paymentMethod == CardEcomTrade24 then Err(ManualPaymentOnly)
                   else Ok(orders[number].claimedAt)
      ensures if number in old(orders) && Claimable(old(orders)[number])
              then
                && r == Ok(Some(now)) && outbox == old(outbox) + [PaymentClaimed(number)]
                && OnlyRow(old(orders), orders, number, old(orders)[number].(claimedAt := Some(now)))
              else State() == old(State())
    {
      if number !in orders {
        Untouched(old(State()), ClaimPayment(number, now));
        return Err(NotFound);
      }
      var order := orders[number];
      if !ManualPayment(order.paymentMethod) {
        Untouched(old(State()), ClaimPayment(number, now));
        return Err(ManualPaymentOnly);
      }
      if order.claimedAt.Some? || order.status != Pending {
        Untouched(old(State()), ClaimPayment(number, now));
        return Ok(order.claimedAt);
      }
      order := order.(claimedAt := Some(now));
      Save(number, order);
      outbox := outbox + [PaymentClaimed(number)];
      OnlyOne(old(State()), ClaimPayment(number, now), number);
      return Ok(order.claimedAt);
    }

    /** One UPDATE over the rows that match; the answer is its row count. */
    method CancelStalePending(hours: nat, now: int) returns (cancelled: nat)
      modifies this
      ensures State() == Serve(old(State()), Sweep(hours, now))
      ensures cancelled == |set n | n in old(orders) && Overdue(old(orders)[n], hours, now)|
      ensures orders.Keys == old(orders).Keys
      ensures forall n :: n in old(orders) ==> orders[n] == SweptRow(old(orders)[n], hours, now)
    {
      hide Effect, OrdersAfter;
      var cutoff := now - hours * HOUR;
      var note := AutoCancelNote(hours);
      var matched := set n | n in orders && orders[n].status == Pending && orders[n].createdAt < cutoff;
      cancelled := |matched|;
      assert matched == set n | n in orders && Overdue(orders[n], hours, now);
      orders := map n | n in orders ::
        if n in matched
        then orders[n].(status := Cancelled, stamps := orders[n].stamps[CancelledAt := now],
                        notes := Some(Coalesced(orders[n].notes) + note))
        else orders[n];
      SweepIsRows(old(State()), hours, now);
      assert orders == map n | n in old(orders) :: SweptRow(old(orders)[n], hours, now);
    }

    /** A delivery seen before is acknowledged and ignored; otherwise the order's payment, if this is
        one, and the event row are stored together. */
    method EcomTrade24Webhook(payload: map<string, Payments.Json>, now: int) returns (r: Result<bool, string>)
      modifies this
      ensures var parsed := Payments.ParseWebhookEvent(payload);
              if parsed.Err? then r == Err(parsed.error) && State() == old(State())
              else r == Ok(parsed.value.key !in old(events)) && State() == Serve(old(State()), Webhook(parsed.value, now))
      ensures r.Ok? <==> "event" in payload && "session_id" in payload
      ensures r.Ok? ==> PaidAsReported(old(State()), payload, now, State())
    {
      if Payments.ParseWebhookEvent(payload).Ok? { DeliveryPays(State(), payload, now); }
      hide PaidAsReported;
      var parsed := Payments.ParseWebhookEvent(payload);
      if parsed.Err? { return Err(parsed.error); }
      var event := parsed.value;
      if event.key in events {
        Untouched(old(State()), Webhook(event, now));
        return Ok(false);
      }
      var number: Option<string> := None;
      if event.orderRef.Some? && event.orderRef.value in orders {
        number := event.orderRef;
      }
      if number.Some? && event.status == Payments.Paid && orders[number.value].status == Pending {
        var order := orders[number.value];
        order := order.(status := Paid);
        order := order.(stamps := order.stamps[PaidAt := now]);
        order := order.(gatewayUpdatedAt := Some(now));
        Save(number.value, order);
        outbox := outbox + [StatusChanged(number.value, Pending, Paid)];
        OnlyOne(old(State()), Webhook(event, now), number.value);
      } else {
        Untouched(old(State()), Webhook(event, now));
      }
      events := events[event.key := number];
      return Ok(true);
    }
  }

  /** A request with no effect on any order leaves the order table as it is. */
  lemma Untouched(d: Desk, r: Request)
    requires r.PlaceOrder? ==> r.number in d.orders
    requires forall n :: n in d.orders ==> Effect(d.orders[n], n, r, Known(d, r)) == d.orders[n]
    ensures OrdersAfter(d, r) == d.orders
  {
  }

  /** A request with an effect on one order changes that row only. */
  lemma OnlyOne(d: Desk, r: Request, number: string)
    requires !r.PlaceOrder? && number in d.orders
    requires forall n :: n in d.orders && n != number ==> Effect(d.orders[n], n, r, Known(d, r)) == d.orders[n]
    ensures OrdersAfter(d, r) == d.orders[number := Effect(d.orders[number], number, r, Known(d, r))]
  {
  }
}
