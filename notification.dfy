// `notification_order_update(event)`: which customer notifications an
// order-update event produces, from the order's current status. The order
// details and the customer's address record are lookups outside this
// model and come in as parameters; the event queue is the `EventTable`
// the `picked_up` branch may add a rescheduled event to.
module OrderNotification {
  import opened Wrappers
  import opened OrderEnums
  import Json
  import Events
  import opened NotificationClient

  /** An item of the order details: its number, status and cancel reason. */
  datatype ItemView = ItemView(itemNr: string, statusCode: string, cancelReasonCode: Option<string>)

  /** What the handler reads of `GetDetails(order_nr)`. */
  datatype OrderView = OrderView(statusCode: string, statusPayment: string, estimatedDeliveryAt: Option<int>,
                                 items: seq<ItemView>)

  /** The customer's code and e-mail from the address service. */
  datatype Customer = Customer(customerCode: string, email: string)

  /** What the handler does: nothing (the event is stale), or the
      notifications built and, in the `picked_up` case, the time of the
      event it queued instead. */
  datatype Plan = Skip | Plan(notifications: seq<Notification>, requeueAt: Option<int>)

  const DaySeconds := 86400
  const StaleMinutes := 30
  const PartialDelay := 30
  const PartialShipment := "partial_shipment"
  const NoOrder := "no order found"
  const NoEta := "unsupported operand type(s) for -: 'NoneType' and 'datetime.datetime'"
  const MissingOrderNrKey := "KeyError: 'order_nr'"

  const PaymentFailedReason := "payment failed"
  const UnforeseenReason := "unforeseen circumstances"
  const CustomerCancellation := "customer cancellation"
  const AllOutOfStock := "all items are out of stock"

  /** `timedelta(seconds=d).seconds`: the seconds part once whole days are
      split off, never negative. */
  function SecondsPart(d: int): (s: int)
    ensures 0 <= s < DaySeconds
  {
    d % DaySeconds
  }

  /** `(utcnow() - schedule_at).seconds // 60 > 30`. */
  predicate IsStale(now: int, scheduleAt: int)
  {
    SecondsPart(now - scheduleAt) / 60 > StaleMinutes
  }

  /** `divmod((eta - utcnow()).seconds, 60)[0] + 1`, in minutes. */
  function EtaMinutes(eta: int, now: int): int
  {
    SecondsPart(eta - now) / 60 + 1
  }

  function PushLink(nr: string): string
  {
    "noon://now.noon.com/en-ae/account/orders/" + nr
  }

  /** `event['data'].get(key)`: the value of the last member with that key,
      `None` when there is none or it is null. */
  function DataGet(d: Json.Object, key: string): Option<string>
  {
    if d == [] then None
    else if d[|d| - 1].0 == key then d[|d| - 1].1
    else DataGet(d[..|d| - 1], key)
  }

  predicate HasKey(d: Json.Object, key: string)
  {
    exists i :: 0 <= i < |d| && d[i].0 == key
  }

  /** The numbers of the items whose status is `cancelled`. */
  function CancelledItems(items: seq<ItemView>): (r: seq<string>)
    ensures |r| <= |items|
  {
    if items == [] then []
    else CancelledItems(items[..|items| - 1]) +
         (if items[|items| - 1].statusCode == Cancelled then [items[|items| - 1].itemNr] else [])
  }

  /** `all(item.cancel_reason_code == CUSTOMER_CANCELATION ...)`; true for
      an order without items. */
  predicate AllCustomerCancelled(items: seq<ItemView>)
  {
    forall i :: 0 <= i < |items| ==> items[i].cancelReasonCode == Some(CustomerCancelation)
  }

  function FailReason(o: OrderView): string
  {
    if o.statusPayment == Failed then PaymentFailedReason else UnforeseenReason
  }

  function CancelReason(o: OrderView): string
  {
    if AllCustomerCancelled(o.items) then CustomerCancellation else AllOutOfStock
  }

  /** A notification of this handler: every payload starts with
      `order_nr`, a string, and no later member has that key, so the key
      always renders. */
  function N(template: string, c: Channel, to: seq<(string, string)>, nr: string, rest: Payload): (n: Notification)
    requires forall i :: 0 <= i < |rest| ==> rest[i].0 != "order_nr"
    ensures n.templateName == template && n.channelCode == ChannelValue(c) && n.policyName == DefaultPolicy
    ensures n.payload == [("order_nr", Str(nr))] + rest && n.to == to
    ensures n.idempotencyKey == template + "-" + ChannelValue(c) + "-" + nr
  {
    var p := [("order_nr", Str(nr))] + rest;
    NoKeyAfter([("order_nr", Str(nr))], rest, "order_nr");
    Make(None, template, ChannelValue(c), p, to, None).value
  }

  /** Appending members without `key` keeps `payload[key]`. */
  lemma {:induction false} NoKeyAfter(p: Payload, rest: Payload, key: string)
    requires forall i :: 0 <= i < |rest| ==> rest[i].0 != key
    ensures Get(p + rest, key) == Get(p, key)
  {
    if rest == [] {
      assert p + rest == p;
    } else {
      var init := rest[..|rest| - 1];
      assert (p + rest)[|p + rest| - 1] == rest[|rest| - 1];
      assert (p + rest)[..|p + rest| - 1] == p + init;
      NoKeyAfter(p, init, key);
    }
  }

  /** The notifications for order `nr` in its current state, and the time
      of the rescheduled event in the `picked_up` case. `partialAt` is the
      schedule of the order's `partial_shipment` event, if there is one. */
  function Decide(info: Option<string>, nr: string, o: OrderView, eta: int, who: Customer,
                  partialAt: Option<int>, now: int, isTesting: bool): Plan
  {
    var push := [("recipient", who.customerCode)];
    var mail := [("recipient", who.email)];
    var link := ("deeplink", Str(PushLink(nr)));
    if info == Some(PartialShipment) then
      Plan([N("order_partial", Push, push, nr, [("cancel_reason", Str("out of stock")), link]),
            N("order_partial", Email, mail, nr, [("cancelled_items", ItemList(CancelledItems(o.items)))])], None)
    else if o.statusCode == Confirmed then
      Plan([N("order_confirmed", Push, push, nr, [("eta", Num(eta)), link])], None)
    else if o.statusCode == Delivered then
      Plan([N("order_delivered", Push, push, nr, [link]), N("order_delivered", Email, mail, nr, [])], None)
    else if o.statusCode == Undelivered then
      Plan([N("order_undelivered", Push, push, nr, [link]), N("order_undelivered", Email, mail, nr, [])], None)
    else if o.statusCode == Failed then
      Plan([N("order_failed", Push, push, nr, [("fail_reason", Str(FailReason(o))), link])], None)
    else if o.statusCode == Cancelled then
      var reason := CancelReason(o);
      var pushed := [N("order_cancelled", Push, push, nr, [("cancel_reason", Str(reason)), link])];
      Plan(pushed + (if reason == CustomerCancellation
                     then [N("order_cancelled", Email, mail, nr, [("cancel_reason", Str(reason))])] else []), None)
    else if o.statusCode == PickedUp then
      if partialAt.Some? && partialAt.value + PartialDelay >= now && !isTesting then
        Plan([], Some(partialAt.value + PartialDelay))
      else
        Plan([N("order_picked_up", Push, push, nr, [("eta", Num(eta)), link])], None)
    else Plan([], None)
  }

  /** `notification_order_update(event)` up to the send: stale events are
      skipped, a missing `order_nr`, order or estimate raises. */
  function PlanFor(e: Events.Event, view: Option<OrderView>, who: Customer, partialAt: Option<int>,
                   now: int, isTesting: bool): Result<Plan>
  {
    if IsStale(now, e.scheduleAt) then Success(Skip)
    else if !HasKey(e.data, "order_nr") then Failure(MissingOrderNrKey)
    else
      var nr := DataGet(e.data, "order_nr");
      if nr.None? || view.None? then Failure(NoOrder)
      else if view.value.estimatedDeliveryAt.None? then Failure(NoEta)
      else
        var eta := EtaMinutes(view.value.estimatedDeliveryAt.value, now);
        Success(Decide(DataGet(e.data, "info"), nr.value, view.value, eta, who, partialAt, now, isTesting))
  }

  /** The data of the `partial_shipment` event as the lookup compares it:
      as a JSON value, so member order does not matter. */
  predicate IsPartialData(d: Json.Object, nr: string)
  {
    |d| == 2 && ("order_nr", Some(nr)) in d && ("info", Some(PartialShipment)) in d
  }

  /** `SELECT schedule_at ... LIMIT 1` over the stored events. */
  function PartialAt(rows: seq<Events.EventRow>, nr: string): Option<int>
  {
    if rows == [] then None
    else
      var r := rows[0];
      var d := Json.Loads(r.data);
      if r.actionCode == Events.Name(Events.NotificationOrderUpdate) && d.Some? && IsPartialData(d.value, nr)
      then Some(r.scheduleAt)
      else PartialAt(rows[1..], nr)
  }

  /** The (template, channel) pairs of a list of notifications. */
  function Kinds(ns: seq<Notification>): (r: seq<(string, string)>)
    ensures |r| == |ns|
    ensures forall k :: 0 <= k < |ns| ==> r[k] == (ns[k].templateName, ns[k].channelCode)
  {
    seq(|ns|, k requires 0 <= k < |ns| => (ns[k].templateName, ns[k].channelCode))
  }

  /** What reaches the notification service: nothing for a skipped event
      or an empty list, otherwise the list. */
  function Sent(p: Plan, tenant: string): Option<NotificationList>
  {
    if p.Skip? || p.notifications == [] then None else Some(NotificationList(tenant, p.notifications))
  }

  /** The handler: the event table gains the rescheduled event when the
      plan has one, and the list that is sent is returned. */
  method NotificationOrderUpdate(table: Events.EventTable, e: Events.Event, view: Option<OrderView>, who: Customer,
                                 tenant: string, now: int, isTesting: bool)
    returns (r: Result<Option<NotificationList>>)
    requires table.Valid()
    modifies table
    ensures table.Valid()
    ensures var partialAt := PartialAt(old(table.rows), DataGet(e.data, "order_nr").GetOr(""));
      match PlanFor(e, view, who, partialAt, now, isTesting)
      case Failure(err) => r == Failure(err) && table.rows == old(table.rows)
      case Success(p) =>
        r == Success(Sent(p, tenant)) &&
        table.rows == old(table.rows) +
          (if p.Plan? && p.requeueAt.Some?
           then [Events.RowOf(Events.NewEvent(Events.NotificationOrderUpdate, [("order_nr", DataGet(e.data, "order_nr"))],
                                              p.requeueAt), |old(table.rows)| + 1, now)]
           else [])
  {
    var partialAt := PartialAt(table.rows, DataGet(e.data, "order_nr").GetOr(""));
    var plan := PlanFor(e, view, who, partialAt, now, isTesting);
    if plan.Failure? {
      return Failure(plan.error);
    }
    var p := plan.value;
    if p.Plan? && p.requeueAt.Some? {
      var _ := table.CreateEvent(Events.NewEvent(Events.NotificationOrderUpdate, [("order_nr", DataGet(e.data, "order_nr"))],
                                                 p.requeueAt), now);
    }
    return Success(Sent(p, tenant));
  }

  // ---------------------------------------------------------------------
  // What the handler promises

  /** The age test reads `timedelta.seconds`, which drops whole days: an
      event a day older is judged the same, so one scheduled a day and
      five minutes ago is not skipped. */
  lemma StaleIgnoresDays(now: int, scheduleAt: int)
    ensures IsStale(now + DaySeconds, scheduleAt) == IsStale(now, scheduleAt)
    ensures !IsStale(scheduleAt + DaySeconds + 300, scheduleAt)
    ensures IsStale(scheduleAt + 31 * 60, scheduleAt) && !IsStale(scheduleAt + 31 * 60 - 1, scheduleAt)
  {
    assert (now + DaySeconds - scheduleAt) % DaySeconds == (now - scheduleAt) % DaySeconds;
  }

  /** The partial-shipment event overrides the status: an `order_partial`
      push, then an `order_partial` e-mail listing the cancelled items. */
  lemma PartialShipmentFirst(nr: string, o: OrderView, eta: int, who: Customer, partialAt: Option<int>, now: int, isTesting: bool)
    ensures var p := Decide(Some(PartialShipment), nr, o, eta, who, partialAt, now, isTesting);
      p.Plan? && p.requeueAt.None? &&
      Kinds(p.notifications) == [("order_partial", "push"), ("order_partial", "email")] &&
      p.notifications[1].payload == [("order_nr", Str(nr)), ("cancelled_items", ItemList(CancelledItems(o.items)))]
  {
  }

  /** The templates and channels by status: `confirmed` one push,
      `delivered` and `undelivered` a push and an e-mail, `failed` one
      push; statuses the handler does not know give nothing. */
  lemma TemplatesByStatus(info: Option<string>, nr: string, o: OrderView, eta: int, who: Customer,
                          partialAt: Option<int>, now: int, isTesting: bool)
    requires info != Some(PartialShipment)
    ensures var p := Decide(info, nr, o, eta, who, partialAt, now, isTesting);
      p.Plan? &&
      (o.statusCode == Confirmed ==> Kinds(p.notifications) == [("order_confirmed", "push")]) &&
      (o.statusCode == Delivered ==>
         Kinds(p.notifications) == [("order_delivered", "push"), ("order_delivered", "email")]) &&
      (o.statusCode == Undelivered ==>
         Kinds(p.notifications) == [("order_undelivered", "push"), ("order_undelivered", "email")]) &&
      (o.statusCode == Failed ==> Kinds(p.notifications) == [("order_failed", "push")]) &&
      (o.statusCode !in {Confirmed, Delivered, Undelivered, Failed, Cancelled, PickedUp} ==>
         (p.notifications == [] && p.requeueAt.None?))
  {
  }

  /** A failed order's reason is `payment failed` exactly when its payment
      status is failed. */
  lemma FailReasonIff(o: OrderView)
    ensures FailReason(o) == PaymentFailedReason <==> o.statusPayment == Failed
    ensures FailReason(o) != PaymentFailedReason ==> FailReason(o) == UnforeseenReason
  {
  }

  /** A cancelled order is reported as a customer cancellation exactly when
      every item was cancelled by the customer, and only then is an e-mail
      added to the push. */
  lemma CancelledIff(info: Option<string>, nr: string, o: OrderView, eta: int, who: Customer,
                     partialAt: Option<int>, now: int, isTesting: bool)
    requires info != Some(PartialShipment) && o.statusCode == Cancelled
    ensures CancelReason(o) == CustomerCancellation <==> AllCustomerCancelled(o.items)
    ensures var p := Decide(info, nr, o, eta, who, partialAt, now, isTesting);
      p.Plan? && p.requeueAt.None? &&
      Kinds(p.notifications) == (if AllCustomerCancelled(o.items)
                                 then [("order_cancelled", "push"), ("order_cancelled", "email")]
                                 else [("order_cancelled", "push")])
  {
  }

  /** A picked-up order whose partial-shipment event is less than 30
      seconds old (outside tests) is put back in the queue for that event
      plus 30 seconds and sends nothing; otherwise one `order_picked_up`
      push goes out. */
  lemma PickedUpIff(info: Option<string>, nr: string, o: OrderView, eta: int, who: Customer,
                    partialAt: Option<int>, now: int, isTesting: bool)
    requires info != Some(PartialShipment) && o.statusCode == PickedUp
    ensures var p := Decide(info, nr, o, eta, who, partialAt, now, isTesting);
      var held := partialAt.Some? && partialAt.value + 30 >= now && !isTesting;
      p.Plan? &&
      (held ==> (p.notifications == [] && p.requeueAt == Some(partialAt.value + 30))) &&
      (!held ==> (p.requeueAt.None? && Kinds(p.notifications) == [("order_picked_up", "push")]))
  {
  }

  /** Every notification of the handler is keyed by template, channel and
      order number, so a second run for the same order and status produces
      the same keys. */
  lemma KeysNameTheOrder(info: Option<string>, nr: string, o: OrderView, eta: int, who: Customer,
                         partialAt: Option<int>, now: int, isTesting: bool)
    ensures var p := Decide(info, nr, o, eta, who, partialAt, now, isTesting);
      p.Plan? &&
      forall k :: 0 <= k < |p.notifications| ==>
        (p.notifications[k].idempotencyKey ==
         p.notifications[k].templateName + "-" + p.notifications[k].channelCode + "-" + nr)
  {
  }

  /** Nothing is sent for a stale event, and nothing when the list is
      empty; otherwise exactly the list is sent. */
  lemma SentIff(p: Plan, tenant: string)
    ensures Sent(p, tenant).None? <==> p.Skip? || p.notifications == []
    ensures Sent(p, tenant).Some? ==> Sent(p, tenant).value.notifications == p.notifications
  {
  }

  /** A stale event is skipped before anything is read. */
  lemma StaleSkipped(e: Events.Event, view: Option<OrderView>, who: Customer, partialAt: Option<int>, now: int, isTesting: bool)
    requires IsStale(now, e.scheduleAt)
    ensures PlanFor(e, view, who, partialAt, now, isTesting) == Success(Skip)
  {
  }
}
