/** Webhook deliveries. Served one at a time they may be repeated freely; split into a read and a
    commit, and interleaved with each other and with every other writer, each event takes effect at
    most once because its row and the order update share one transaction. */
module Webhooks {
  import opened Wrappers
  import opened Orders
  import Payments
  import Totals

  // ---- serial runs ----

  /** The event has been delivered somewhere in the run. */
  predicate Delivered(rs: seq<Request>, key: Payments.EventKey) {
    exists i :: 0 <= i < |rs| && rs[i].Webhook? && rs[i].event.key == key
  }

  /** The run without its repeated deliveries. */
  function Deduplicated(rs: seq<Request>): seq<Request> {
    if rs == [] then [] else
      var before, r := rs[..|rs| - 1], rs[|rs| - 1];
      if r.Webhook? && Delivered(before, r.event.key) then Deduplicated(before) else Deduplicated(before) + [r]
  }

  lemma {:induction false} DeliveredIsStored(rs: seq<Request>, key: Payments.EventKey)
    ensures key in ServeAll(rs).events <==> Delivered(rs, key)
  {
    if rs != [] {
      var before, r := rs[..|rs| - 1], rs[|rs| - 1];
      DeliveredIsStored(before, key);
      if Delivered(before, key) {
        var i :| 0 <= i < |before| && before[i].Webhook? && before[i].event.key == key;
        assert rs[i] == before[i];
      }
      if Delivered(rs, key) {
        var i :| 0 <= i < |rs| && rs[i].Webhook? && rs[i].event.key == key;
        assert i < |before| ==> before[i] == rs[i];
      }
    }
  }

  lemma RepeatChangesNothing(d: Desk, r: Request)
    requires r.Webhook? && r.event.key in d.events
    ensures Serve(d, r) == d
  {
    assert OrdersAfter(d, r) == d.orders;
  }

  /** Whatever else happens between deliveries, a run and the run without its repetitions end with
      the same orders, the same stored events and the same notifications. */
  lemma {:induction false} RepeatsDoNotMatter(rs: seq<Request>)
    ensures ServeAll(Deduplicated(rs)) == ServeAll(rs)
  {
    if rs != [] {
      var before, r := rs[..|rs| - 1], rs[|rs| - 1];
      RepeatsDoNotMatter(before);
      if r.Webhook? && Delivered(before, r.event.key) {
        DeliveredIsStored(before, r.event.key);
        RepeatChangesNothing(ServeAll(before), r);
      } else {
        assert (Deduplicated(before) + [r])[..|Deduplicated(before)|] == Deduplicated(before);
      }
    }
  }

  // ---- interleaved deliveries ----

  type Id = int

  /** A delivery between its reads and its commit: the event, the order it found, and whether it saw
      that order pending and so will pay it. */
  datatype Staged = Staged(event: Payments.WebhookEvent, number: Option<string>, pays: bool, now: int)

  datatype World = World(desk: Desk, staged: map<Id, Staged>)

  datatype Step =
    | Read(id: Id, event: Payments.WebhookEvent, now: int)
    | Commit(id: Id)
    | Crash(id: Id)
    | Other(request: Request)

  const START := World(EMPTY, map[])

  function AfterRead(w: World, id: Id, event: Payments.WebhookEvent, now: int): World {
    if id in w.staged || event.key in w.desk.events then w else
      var number := OrderOf(w.desk, event);
      var pays := number.Some? && PaidBy(w.desk.orders[number.value], event);
      w.(staged := w.staged[id := Staged(event, number, pays, now)])
  }

  /** The transaction stores the event row and the columns it assigned; if another delivery stored the
      row first, the unique key fails the whole transaction and nothing is stored or sent. */
  function Committed(d: Desk, s: Staged): Desk {
    if s.event.key in d.events then d else
      var pays := s.pays && s.number.Some? && s.number.value in d.orders;
      Desk(if pays then d.orders[s.number.value := WebhookPaid(d.orders[s.number.value], s.now)] else d.orders,
           d.events[s.event.key := s.number],
           if pays then d.outbox + [StatusChanged(s.number.value, Pending, Paid)] else d.outbox)
  }

  function After(w: World, step: Step): World {
    match step
    case Read(id, event, now) => AfterRead(w, id, event, now)
    case Commit(id) => if id in w.staged then World(Committed(w.desk, w.staged[id]), w.staged - {id}) else w
    case Crash(id) => w.(staged := w.staged - {id})
    case Other(r) => if r.Webhook? then w else w.(desk := Serve(w.desk, r))
  }

  function Run(steps: seq<Step>): World {
    if steps == [] then START else After(Run(steps[..|steps| - 1]), steps[|steps| - 1])
  }

  lemma {:induction false} EventsStay(steps: seq<Step>, i: nat, key: Payments.EventKey)
    requires i <= |steps| && key in Run(steps[..i]).desk.events
    ensures key in Run(steps).desk.events
  {
    if i == |steps| {
      assert steps[..i] == steps;
    } else {
      assert steps[..|steps| - 1][..i] == steps[..i];
      EventsStay(steps[..|steps| - 1], i, key);
    }
  }

  /** The step at position `i` is a commit of the event that changes the orders, the stored events or
      the notifications. */
  ghost predicate TakesEffect(steps: seq<Step>, i: nat, key: Payments.EventKey)
    requires i < |steps|
  {
    && steps[i].Commit? && steps[i].id in Run(steps[..i]).staged
    && Run(steps[..i]).staged[steps[i].id].event.key == key
    && Run(steps[..i + 1]).desk != Run(steps[..i]).desk
  }

  lemma TakingEffectOnce(steps: seq<Step>, i: nat, j: nat, key: Payments.EventKey)
    requires i < j < |steps| && TakesEffect(steps, i, key)
    ensures !TakesEffect(steps, j, key)
  {
    assert steps[..i + 1][..i] == steps[..i] && steps[..j][..i + 1] == steps[..i + 1];
    assert steps[..j + 1][..j] == steps[..j];
    assert key in Run(steps[..i + 1]).desk.events;
    EventsStay(steps[..j], i + 1, key);
  }

  /** In every interleaving each event takes effect at most once. */
  lemma AtMostOnce(steps: seq<Step>, i: nat, j: nat, key: Payments.EventKey)
    requires i < |steps| && j < |steps| && TakesEffect(steps, i, key) && TakesEffect(steps, j, key)
    ensures i == j
  {
    if i < j { TakingEffectOnce(steps, i, j, key); }
    if j < i { TakingEffectOnce(steps, j, i, key); }
  }

  /** And a stored event did take effect, at the one step that stored it. */
  lemma {:induction false} StoredTookEffect(steps: seq<Step>, key: Payments.EventKey) returns (i: nat)
    requires key in Run(steps).desk.events
    ensures i < |steps| && TakesEffect(steps, i, key)
  {
    var n := |steps| - 1;
    assert steps[..n + 1] == steps;
    if key in Run(steps[..n]).desk.events {
      i := StoredTookEffect(steps[..n], key);
      assert steps[..n][..i] == steps[..i] && steps[..n][..i + 1] == steps[..i + 1];
    } else {
      i := n;
    }
  }

  lemma EffectStores(steps: seq<Step>, i: nat, key: Payments.EventKey)
    requires i < |steps| && TakesEffect(steps, i, key)
    ensures key in Run(steps).desk.events
  {
    assert steps[..i + 1][..i] == steps[..i];
    EventsStay(steps, i + 1, key);
  }

  /** Exactly the stored events took effect, each at exactly one step. */
  lemma ExactlyOnce(steps: seq<Step>, key: Payments.EventKey)
    ensures key in Run(steps).desk.events <==> exists i: nat :: i < |steps| && TakesEffect(steps, i, key)
    ensures forall i: nat, j: nat ::
              i < |steps| && j < |steps| && TakesEffect(steps, i, key) && TakesEffect(steps, j, key) ==> i == j
  {
    hide Run, TakesEffect;
    if key in Run(steps).desk.events {
      var i := StoredTookEffect(steps, key);
    }
    if i: nat :| i < |steps| && TakesEffect(steps, i, key) {
      EffectStores(steps, i, key);
    }
    forall i: nat, j: nat | i < |steps| && j < |steps| && TakesEffect(steps, i, key) && TakesEffect(steps, j, key)
      ensures i == j
    {
      AtMostOnce(steps, i, j, key);
    }
  }

  /** A read followed at once by its commit is the serial request. */
  lemma SplitIsSerial(w: World, id: Id, event: Payments.WebhookEvent, now: int)
    requires id !in w.staged
    ensures After(After(w, Read(id, event, now)), Commit(id)) == w.(desk := Serve(w.desk, Webhook(event, now)))
  {
    var r := Webhook(event, now);
    if event.key in w.desk.events {
      RepeatChangesNothing(w.desk, r);
    } else {
      var number := OrderOf(w.desk, event);
      if number.Some? && PaidBy(w.desk.orders[number.value], event) {
        assert OrdersAfter(w.desk, r) == w.desk.orders[number.value := WebhookPaid(w.desk.orders[number.value], now)];
      } else {
        assert OrdersAfter(w.desk, r) == w.desk.orders;
      }
      assert w.staged[id := Staged(event, number, number.Some? && PaidBy(w.desk.orders[number.value], event), now)] - {id}
             == w.staged;
    }
  }

  lemma RunOne(steps: seq<Step>, step: Step)
    ensures Run(steps + [step]) == After(Run(steps), step)
  {
    assert (steps + [step])[..|steps|] == steps;
  }

  /** A serial run, every delivery split into a read and the commit straight after it. */
  function Split(rs: seq<Request>): seq<Step> {
    if rs == [] then [] else
      var r := rs[|rs| - 1];
      Split(rs[..|rs| - 1]) + if r.Webhook? then [Read(0, r.event, r.now)] + [Commit(0)] else [Other(r)]
  }

  /** Such a run ends as the serial one: the interleaved machine refines to the serial requests. */
  lemma {:induction false} SplitRunIsSerial(rs: seq<Request>)
    ensures Run(Split(rs)) == World(ServeAll(rs), map[])
  {
    hide Run, After, Serve;
    if rs == [] {
      EmptyRun();
    } else {
      var before, r := rs[..|rs| - 1], rs[|rs| - 1];
      SplitRunIsSerial(before);
      if r.Webhook? {
        RunOne(Split(before), Read(0, r.event, r.now));
        RunOne(Split(before) + [Read(0, r.event, r.now)], Commit(0));
        assert Split(before) + [Read(0, r.event, r.now)] + [Commit(0)] == Split(rs);
        SplitIsSerial(World(ServeAll(before), map[]), 0, r.event, r.now);
      } else {
        RunOne(Split(before), Other(r));
        OtherIsServed(World(ServeAll(before), map[]), r);
      }
    }
  }

  lemma EmptyRun()
    ensures Run([]) == World(ServeAll([]), map[])
  {
  }

  lemma OtherIsServed(w: World, r: Request)
    requires !r.Webhook?
    ensures After(w, Other(r)) == w.(desk := Serve(w.desk, r))
  {
  }

  /** The order row is not locked between read and commit, so a payment follows the transition table
      exactly when the order is still pending at the commit. */
  lemma PaymentFollowsTable(w: World, id: Id)
    requires id in w.staged && w.staged[id].pays && w.staged[id].event.key !in w.desk.events
    requires w.staged[id].number.Some? && w.staged[id].number.value in w.desk.orders
    ensures var n := w.staged[id].number.value;
            After(w, Commit(id)).desk.orders[n].status in Transitions(w.desk.orders[n].status)
            <==> w.desk.orders[n].status == Pending
  {
  }

  function CardPayment(status: string): Payments.WebhookEvent {
    Payments.WebhookEvent(Payments.EventKey("ecomtrade24", "s:" + status), "payment.session", Some("NB-1"), Payments.Paid)
  }

  const TEN_DOLLARS := Draft(CardEcomTrade24, Totals.Bill(1000, 0, 0, 1000, None), None)

  function BothReading(a: Payments.WebhookEvent, b: Payments.WebhookEvent): seq<Step> {
    [] + [Other(PlaceOrder("NB-1", TEN_DOLLARS, true, 0))] + [Read(1, a, 1)] + [Read(2, b, 2)]
  }

  lemma BothReadPending(a: Payments.WebhookEvent, b: Payments.WebhookEvent)
    requires a.orderRef == Some("NB-1") && b.orderRef == Some("NB-1")
    requires a.status == Payments.Paid && b.status == Payments.Paid
    ensures Run(BothReading(a, b)) ==
            World(Desk(map["NB-1" := Placed(TEN_DOLLARS, 0)], map[], [NewOrder("NB-1")]),
                  map[1 := Staged(a, Some("NB-1"), true, 1), 2 := Staged(b, Some("NB-1"), true, 2)])
  {
    var desk := Desk(map["NB-1" := Placed(TEN_DOLLARS, 0)], map[], [NewOrder("NB-1")]);
    RunOne([], Other(PlaceOrder("NB-1", TEN_DOLLARS, true, 0)));
    assert Serve(EMPTY, PlaceOrder("NB-1", TEN_DOLLARS, true, 0)) == desk;
    RunOne([] + [Other(PlaceOrder("NB-1", TEN_DOLLARS, true, 0))], Read(1, a, 1));
    hide Run, Serve;
    RunOne([] + [Other(PlaceOrder("NB-1", TEN_DOLLARS, true, 0))] + [Read(1, a, 1)], Read(2, b, 2));
  }

  /** Two events of one session, `paid` and `success`, delivered together: both read the order
      pending, both pay it, the second overwrites the payment time and a second notification goes out. */
  lemma TwoEventsPayOneOrder()
    ensures var w := Run(BothReading(CardPayment("paid"), CardPayment("success")) + [Commit(1)] + [Commit(2)]);
            && "NB-1" in w.desk.orders && w.desk.orders["NB-1"].stamps == map[PaidAt := 2]
            && w.desk.outbox == [NewOrder("NB-1"), StatusChanged("NB-1", Pending, Paid), StatusChanged("NB-1", Pending, Paid)]
  {
    var a, b := CardPayment("paid"), CardPayment("success");
    assert a.key.eventId[2] != b.key.eventId[2];
    hide Run, Serve, Transitions;
    BothReadPending(a, b);
    RunOne(BothReading(a, b), Commit(1));
    RunOne(BothReading(a, b) + [Commit(1)], Commit(2));
    var w4 := Run(BothReading(a, b) + [Commit(1)]);
    assert w4.staged == map[2 := Staged(b, Some("NB-1"), true, 2)];
    assert w4.desk.orders == map["NB-1" := WebhookPaid(Placed(TEN_DOLLARS, 0), 1)];
    assert w4.desk.events == map[a.key := Some("NB-1")];
  }
}
