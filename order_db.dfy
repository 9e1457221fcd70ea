// The order service's database: sales orders and their items, the status
// and ETA history, payment subscriptions, sessions and their items, the
// session-to-order links, the `status` table and the event queue; plus the
// calls made to the payment gateway and to the credit ledger, which are
// outside it. `Db` is a snapshot of all of it; `OrderDb` holds it in
// fields that the operations update in place. Every domain call runs in one
// transaction: when it raises, nothing it wrote survives.
module OrderStore {
  import opened Wrappers
  import opened OrderEnums
  import opened OrderRow
  import Invoice
  import OrderRules
  import Json
  import Events

  /** A `sales_order_history_event` row's unique key. */
  datatype HistoryKey = HistoryKey(idSalesOrder: nat, eventType: string, value: string)

  /** An `order_eta_history` row. */
  datatype EtaRow = EtaRow(idSalesOrder: nat, estimatedDeliveryAt: Option<int>)

  /** A `session` row, keyed by its session code; a NULL `is_active` is
      false. */
  datatype SessionRow = SessionRow(
    userType: string,
    userId: string,
    countryCode: string,
    paymentMethodCode: Option<string>,
    paymentToken: Option<string>,
    isCvvRequired: bool,
    creditCardBin: Option<string>,
    creditCardMask: Option<string>,
    ccType: Option<string>,
    creditAmount: int,
    addressKey: Option<string>,
    customerUphoneCode: Option<string>,
    isActive: bool)

  /** A `session_item` row. */
  datatype SessionItem = SessionItem(idPartner: nat, sku: string, price: int, qty: int)

  /** A `session_order` row, keyed by its order number. */
  datatype SessionOrder = SessionOrder(sessionCode: string, isActive: bool)

  /** A request to the payment gateway. */
  datatype GatewayCall =
    | Capture(orderNr: string, amount: int)
    | Reverse(orderNr: string)
    | Refund(orderNr: string, amount: int)
    | CreateIntent(orderNr: string, amount: int, addressCode: string, addressVersion: string)

  /** A request to the credit ledger (`MakeTransactionRequest`). */
  datatype Transaction = Transaction(refType: string, refCode: string, customerCode: string, description: string, value: int)

  datatype Db = Db(
    orders: map<string, Order>,
    items: map<string, seq<Item>>,
    history: map<HistoryKey, int>,
    eta: seq<EtaRow>,
    subscriptions: map<(string, string), string>,
    sessions: map<string, SessionRow>,
    sessionItems: map<string, seq<SessionItem>>,
    sessionOrders: map<string, SessionOrder>,
    statusCodes: set<string>,
    events: seq<Events.EventRow>,
    gatewayCalls: seq<GatewayCall>,
    ledgerCalls: seq<Transaction>)

  function ItemsOf(db: Db, nr: string): seq<Item>
  {
    if nr in db.items then db.items[nr] else []
  }

  /** The `{'order_nr': nr}` payload most events carry. */
  function OrderData(nr: string): Json.Object
  {
    [("order_nr", Some(nr))]
  }

  function OrderEvent(code: Events.ActionCode, nr: string): Events.NewEvent
  {
    Events.NewEvent(code, OrderData(nr), None)
  }

  /** `create_events(es)` on the snapshot. */
  function Enqueued(db: Db, es: seq<Events.NewEvent>, now: int): Db
  {
    db.(events := db.events + Events.RowsOf(es, |db.events| + 1, now))
  }

  // ---------------------------------------------------------------------
  // modify_order

  /** The modifier: a dict, or a function of the loaded order. */
  datatype Modifier = Dict(patch: Patch) | Callable(fn: Order -> Patch)

  function PatchFor(m: Modifier, o: Order): Patch
  {
    match m
    case Dict(p) => p
    case Callable(f) => f(o)
  }

  /** The order as `GetDetails(..., formatted=False)` loads it: the row with
      its invoice recomputed in memory. */
  function Loaded(row: Order, items: seq<Item>): Order
  {
    Invoice.ApplyInvoice(row, Invoice.GetInvoiceInfo(row, items))
  }

  /** The status, payer and invoice `modify_order` derives after merging
      the patch into order `o`. */
  function Derived(o: Order, items: seq<Item>): Order
  {
    var s := o.(statusOrder := OrderRules.GetOrderStatus(o));
    var p := s.(payerCode := OrderRules.GetOrderPayerCode(s));
    Invoice.ApplyInvoice(p, Invoice.GetInvoiceInfo(p, items))
  }

  /** INSERT IGNORE under the unique key: an existing key keeps its row. */
  function InsertIgnore(h: map<HistoryKey, int>, k: HistoryKey, now: int): map<HistoryKey, int>
  {
    if k in h then h else h[k := now]
  }

  /** The status and logistics history rows for order `o`. */
  function Recorded(h: map<HistoryKey, int>, o: Order, now: int): map<HistoryKey, int>
  {
    InsertIgnore(InsertIgnore(h, HistoryKey(o.idSalesOrder, HistoryOrderStatus, o.statusOrder), now),
                 HistoryKey(o.idSalesOrder, HistoryLogistics, o.statusLogistics), now)
  }

  const Day := 86400

  function InvoiceEvent(nr: string, now: int): Events.NewEvent
  {
    Events.NewEvent(Events.GenerateInvoice, OrderData(nr), Some(now + Day))
  }

  const NegativeCollect := "order_collect_from_customer cannot go negative"
  const NoOrder := "no order found"

  /** `after_payment_related_update(order_nr)`: recompute the invoice from
      the stored row, refuse a negative amount to collect, store five
      invoice columns and the collected-from-customer formula. */
  function AfterPaymentSpec(db: Db, nr: string): Result<Db>
  {
    if nr !in db.orders then Failure(NoOrder)
    else
      var row := db.orders[nr];
      var inv := Invoice.GetInvoiceInfo(Loaded(row, ItemsOf(db, nr)), ItemsOf(db, nr));
      if inv.collectFromCustomer < 0 then Failure(NegativeCollect)
      else
        var o := row.(subtotal := inv.subtotal, total := inv.total, collectFromCustomer := inv.collectFromCustomer,
                      paymentAmount := inv.paymentAmount, deliveryFee := inv.deliveryFee);
        Success(db.(orders := db.orders[nr := o.(collectedFromCustomer := Invoice.CollectedFromCustomer(o))]))
  }

  /** The loaded order with the modifier merged in, before anything is
      derived from it. */
  function Patched(db: Db, nr: string, m: Modifier): Order
    requires nr in db.orders
  {
    var loaded := Loaded(db.orders[nr], ItemsOf(db, nr));
    ApplyPatch(loaded, PatchFor(m, loaded))
  }

  /** The order `modify_order` stores: status, then payer, then invoice
      derived from the patched order. */
  function Modified(db: Db, nr: string, m: Modifier): Order
    requires nr in db.orders
  {
    Derived(Patched(db, nr, m), ItemsOf(db, nr))
  }

  /** The writes of `modify_order` before the payment update, for the
      derived order `o` whose patched estimate was `eta`: the order row,
      the history rows, the ETA row when the estimate changed and the
      invoice event when the order has just been delivered. */
  function Stored(db: Db, nr: string, o: Order, eta: Option<int>, now: int): Db
    requires nr in db.orders
  {
    var row := db.orders[nr];
    db.(orders := db.orders[nr := o],
        history := Recorded(db.history, o, now),
        eta := db.eta + (if eta != row.estimatedDeliveryAt then [EtaRow(o.idSalesOrder, eta)] else []),
        events := db.events + (if o.statusOrder != row.statusOrder && o.statusOrder == Delivered
                               then Events.RowsOf([InvoiceEvent(nr, now)], |db.events| + 1, now) else []))
  }

  /** `modify_order(order_nr, modifier, trigger_payment_update=trigger)`:
      the new snapshot and the order it returns. */
  function ModifyOrderSpec(db: Db, nr: string, m: Modifier, now: int, trigger: bool): Result<(Db, Order)>
  {
    if nr !in db.orders then Failure(NoOrder)
    else
      var o := Modified(db, nr, m);
      var db1 := Stored(db, nr, o, Patched(db, nr, m).estimatedDeliveryAt, now);
      if !trigger then Success((db1, o))
      else
        var db2 :- AfterPaymentSpec(db1, nr);
        Success((db2, o))
  }

  // ---------------------------------------------------------------------
  // Sessions and subscriptions touched by the order side

  predicate IsCartOf(s: SessionRow, customer: string, country: string)
  {
    s.userType == "customer" && s.userId == customer && s.countryCode == country
  }

  /** `deactivate_session(CUSTOMER, customer)` in `country`. */
  function Deactivate(sessions: map<string, SessionRow>, customer: string, country: string): (r: map<string, SessionRow>)
    ensures r.Keys == sessions.Keys
  {
    map c | c in sessions :: if IsCartOf(sessions[c], customer, country) then sessions[c].(isActive := false) else sessions[c]
  }

  /** `activate_session(code)`. */
  function Activate(sessions: map<string, SessionRow>, code: string): map<string, SessionRow>
  {
    if code in sessions then sessions[code := sessions[code].(isActive := true)] else sessions
  }

  /** The customer's active cart in `country` has a `session_item` row
      (whatever its quantity). */
  predicate CartHasItems(db: Db, customer: string, country: string)
  {
    exists c :: c in db.sessions && db.sessions[c].isActive && IsCartOf(db.sessions[c], customer, country) &&
      c in db.sessionItems && db.sessionItems[c] != []
  }

  /** `reactivate(order, session_code)`. */
  function ReactivateSpec(db: Db, nr: string, o: Order, code: string, country: string): Db
  {
    if CartHasItems(db, o.customerCode, country) then db
    else db.(sessions := Activate(Deactivate(db.sessions, o.customerCode, country), code),
             sessionOrders := if nr in db.sessionOrders
                              then db.sessionOrders[nr := db.sessionOrders[nr].(isActive := false)]
                              else db.sessionOrders)
  }

  /** `reactivate_order_session(order_nr)`. */
  function ReactivateOrderSessionSpec(db: Db, nr: string, country: string): Result<Db>
  {
    if nr !in db.orders then Failure(NoOrder)
    else if nr in db.sessionOrders && db.sessionOrders[nr].isActive
    then Success(ReactivateSpec(db, nr, db.orders[nr], db.sessionOrders[nr].sessionCode, country))
    else Success(db)
  }

  /** `delete_subscription_id(order_nr)`: `payment_token = NULL` matches no
      row. */
  function DeleteSubscriptionSpec(db: Db, nr: string): Result<Db>
  {
    if nr !in db.orders then Failure("order not found")
    else
      var o := db.orders[nr];
      if o.paymentToken.None? then Success(db)
      else Success(db.(subscriptions := db.subscriptions - {(o.addressKey, o.paymentToken.value)}))
  }

  // ---------------------------------------------------------------------
  // cancel_order and eta_order_update

  const CannotCancel := "cannot cancel the order now. it is already shipped"

  /** Every item stamped with the cancel time and reason. */
  function StampAll(items: seq<Item>, reason: string, now: int): (r: seq<Item>)
    ensures |r| == |items|
  {
    seq(|items|, i requires 0 <= i < |items| => items[i].(canceledAt := Some(now), cancelReasonCode := Some(reason)))
  }

  function CancelOrderSpec(db: Db, nr: string, reason: string, now: int): Result<Db>
  {
    if nr !in db.orders then Failure(NoOrder)
    else if !OrderRules.IsCancelable(db.orders[nr]) then Failure(CannotCancel)
    else
      var db1 := db.(items := db.items[nr := StampAll(ItemsOf(db, nr), reason, now)]);
      var r :- ModifyOrderSpec(db1, nr, Dict(SetPayerAndStatus(PayerNone, Cancelled)), now, true);
      Success(Enqueued(r.0, [OrderEvent(Events.SettlePayment, nr), OrderEvent(Events.NotificationOrderUpdate, nr)], now))
  }

  const EtaShift := 900

  /** The modifier `eta_order_update` passes: both estimates 15 minutes
      from now. */
  function EtaPatch(now: int): Patch
  {
    NoChange.(estimatedDeliveryAt := Some(Some(now + EtaShift)), originalEstimatedDeliveryAt := Some(Some(now + EtaShift)))
  }

  /** `eta_order_update(order)`: `1.5 + 0.3 * n <= 2` holds for n <= 1 items
      only, so orders of two or more items get the new estimate. */
  function EtaOrderUpdateSpec(db: Db, nr: string, itemCount: nat, now: int): Result<Db>
  {
    if itemCount <= 1 then Success(db)
    else
      var r :- ModifyOrderSpec(db, nr, Callable(_ => EtaPatch(now)), now, false);
      Success(r.0)
  }

  // ---------------------------------------------------------------------
  // The database object

  class OrderDb {
    var orders: map<string, Order>
    var items: map<string, seq<Item>>
    var history: map<HistoryKey, int>
    var eta: seq<EtaRow>
    var subscriptions: map<(string, string), string>
    var sessions: map<string, SessionRow>
    var sessionItems: map<string, seq<SessionItem>>
    var sessionOrders: map<string, SessionOrder>
    var statusCodes: set<string>
    var gatewayCalls: seq<GatewayCall>
    var ledgerCalls: seq<Transaction>
    const events: Events.EventTable

    ghost predicate Valid()
      reads this, events
    {
      events.Valid()
    }

    function Snap(): Db
      reads this, events
    {
      Db(orders, items, history, eta, subscriptions, sessions, sessionItems, sessionOrders,
         statusCodes, events.rows, gatewayCalls, ledgerCalls)
    }

    constructor (statusCodes: set<string>)
      ensures Valid() && fresh(events)
      ensures Snap() == Db(map[], map[], map[], [], map[], map[], map[], map[], statusCodes, [], [], [])
    {
      orders := map[];
      items := map[];
      history := map[];
      eta := [];
      subscriptions := map[];
      sessions := map[];
      sessionItems := map[];
      sessionOrders := map[];
      this.statusCodes := statusCodes;
      gatewayCalls := [];
      ledgerCalls := [];
      events := new Events.EventTable();
    }

    /** The transaction's rollback: every table back to `saved`. */
    method Restore(saved: Db)
      requires Events.ValidRows(saved.events)
      modifies this, events
      ensures Valid() && Snap() == saved
    {
      events.Restore(saved.events);
      orders, items, history, eta := saved.orders, saved.items, saved.history, saved.eta;
      subscriptions, sessions, sessionItems, sessionOrders := saved.subscriptions, saved.sessions, saved.sessionItems, saved.sessionOrders;
      statusCodes, gatewayCalls, ledgerCalls := saved.statusCodes, saved.gatewayCalls, saved.ledgerCalls;
    }

    /** `create_events(es)`. */
    method AddEvents(es: seq<Events.NewEvent>, now: int)
      requires Valid()
      requires forall k :: 0 <= k < |es| ==> Json.DistinctKeys(es[k].data)
      modifies events
      ensures Valid() && Snap() == Enqueued(old(Snap()), es, now)
    {
      events.CreateEvents(es, now);
    }

    /** `after_payment_related_update(order_nr)`. */
    method AfterPaymentRelatedUpdate(nr: string) returns (r: Result<()>)
      requires Valid()
      modifies this
      ensures Valid()
      ensures match AfterPaymentSpec(old(Snap()), nr)
              case Failure(e) => r == Failure(e) && Snap() == old(Snap())
              case Success(db) => r == Success(()) && Snap() == db
    {
      if nr !in orders {
        return Failure(NoOrder);
      }
      var its := if nr in items then items[nr] else [];
      var row := orders[nr];
      var inv := Invoice.GetInvoiceInfo(Loaded(row, its), its);
      if inv.collectFromCustomer < 0 {
        return Failure(NegativeCollect);
      }
      var o := row.(subtotal := inv.subtotal, total := inv.total, collectFromCustomer := inv.collectFromCustomer,
                    paymentAmount := inv.paymentAmount, deliveryFee := inv.deliveryFee);
      orders := orders[nr := o.(collectedFromCustomer := Invoice.CollectedFromCustomer(o))];
      return Success(());
    }

    /** The writes `modify_order` makes before the payment update. */
    method Write(nr: string, o: Order, newEta: Option<int>, now: int)
      requires Valid() && nr in orders
      modifies this, events
      ensures Valid() && Snap() == Stored(old(Snap()), nr, o, newEta, now)
    {
      var row := orders[nr];
      LogEta(if newEta != row.estimatedDeliveryAt then [EtaRow(o.idSalesOrder, newEta)] else []);
      RecordHistory(o, now);
      QueueInvoice(nr, o.statusOrder != row.statusOrder && o.statusOrder == Delivered, now);
      StoreOrder(nr, o);
    }

    /** The `GENERATE_INVOICE` event, due a day later, of an order that has
        just been delivered. */
    method QueueInvoice(nr: string, delivered: bool, now: int)
      requires events.Valid()
      modifies events
      ensures events.Valid()
      ensures events.rows == old(events.rows) +
        (if delivered then Events.RowsOf([InvoiceEvent(nr, now)], |old(events.rows)| + 1, now) else [])
    {
      if delivered {
        Events.RowsOfOne(InvoiceEvent(nr, now), |events.rows| + 1, now);
        var _ := events.CreateEvent(InvoiceEvent(nr, now), now);
      } else {
        assert events.rows == old(events.rows) + [];
      }
    }

    /** `insert_one(OrderEtaHistory, ...)` for each row. */
    method LogEta(rows: seq<EtaRow>)
      modifies this
      ensures Snap() == old(Snap()).(eta := old(eta) + rows)
    {
      eta := eta + rows;
    }

    /** The status and logistics history rows, insert-ignored. */
    method RecordHistory(o: Order, now: int)
      modifies this
      ensures Snap() == old(Snap()).(history := Recorded(old(history), o, now))
    {
      history := InsertIgnore(history, HistoryKey(o.idSalesOrder, HistoryOrderStatus, o.statusOrder), now);
      history := InsertIgnore(history, HistoryKey(o.idSalesOrder, HistoryLogistics, o.statusLogistics), now);
    }

    /** The `sales_order` row written back. */
    method StoreOrder(nr: string, o: Order)
      modifies this
      ensures Snap() == old(Snap()).(orders := old(orders)[nr := o])
    {
      orders := orders[nr := o];
    }

    /** `modify_order(order_nr, modifier, trigger_payment_update=trigger)`. */
    method ModifyOrder(nr: string, m: Modifier, now: int, trigger: bool) returns (r: Result<Order>)
      requires Valid()
      modifies this, events
      ensures Valid()
      ensures match ModifyOrderSpec(old(Snap()), nr, m, now, trigger)
              case Failure(e) => r == Failure(e) && Snap() == old(Snap())
              case Success(res) => r == Success(res.1) && Snap() == res.0
    {
      if nr !in orders {
        return Failure(NoOrder);
      }
      var saved := Snap();
      var patched := Patched(saved, nr, m);
      var o := Derived(patched, ItemsOf(saved, nr));
      Write(nr, o, patched.estimatedDeliveryAt, now);
      if trigger {
        var a := AfterPaymentRelatedUpdate(nr);
        if a.Failure? {
          Restore(saved);
          return Failure(a.error);
        }
      }
      return Success(o);
    }

    /** `delete_subscription_id(order_nr)`. */
    method DeleteSubscription(nr: string) returns (r: Result<()>)
      requires Valid()
      modifies this
      ensures Valid()
      ensures match DeleteSubscriptionSpec(old(Snap()), nr)
              case Failure(e) => r == Failure(e) && Snap() == old(Snap())
              case Success(db) => r == Success(()) && Snap() == db
    {
      if nr !in orders {
        return Failure("order not found");
      }
      var o := orders[nr];
      if o.paymentToken.Some? {
        subscriptions := subscriptions - {(o.addressKey, o.paymentToken.value)};
      }
      return Success(());
    }

    /** `reactivate_order_session(order_nr)` in the request's country. */
    method ReactivateOrderSession(nr: string, country: string) returns (r: Result<()>)
      requires Valid()
      modifies this
      ensures Valid()
      ensures match ReactivateOrderSessionSpec(old(Snap()), nr, country)
              case Failure(e) => r == Failure(e) && Snap() == old(Snap())
              case Success(db) => r == Success(()) && Snap() == db
    {
      if nr !in orders {
        return Failure(NoOrder);
      }
      if !(nr in sessionOrders && sessionOrders[nr].isActive) {
        return Success(());
      }
      var o := orders[nr];
      var code := sessionOrders[nr].sessionCode;
      if CartHasItems(Snap(), o.customerCode, country) {
        return Success(());
      }
      sessions := Activate(Deactivate(sessions, o.customerCode, country), code);
      sessionOrders := sessionOrders[nr := sessionOrders[nr].(isActive := false)];
      return Success(());
    }

    /** `cancel_order(order_nr, reason_code)`. */
    method CancelOrder(nr: string, reason: string, now: int) returns (r: Result<()>)
      requires Valid()
      modifies this, events
      ensures Valid()
      ensures match CancelOrderSpec(old(Snap()), nr, reason, now)
              case Failure(e) => r == Failure(e) && Snap() == old(Snap())
              case Success(db) => r == Success(()) && Snap() == db
    {
      if nr !in orders {
        return Failure(NoOrder);
      }
      if !OrderRules.IsCancelable(orders[nr]) {
        return Failure(CannotCancel);
      }
      var saved := Snap();
      ghost var db1 := saved.(items := saved.items[nr := StampAll(ItemsOf(saved, nr), reason, now)]);
      items := items[nr := StampAll(ItemsOf(saved, nr), reason, now)];
      assert Snap() == db1;
      var m := ModifyOrder(nr, Dict(SetPayerAndStatus(PayerNone, Cancelled)), now, true);
      if m.Failure? {
        // payer `none` leaves nothing to collect, so the payment update
        // after the cancel cannot refuse it
        assert false;
      }
      AddEvents([OrderEvent(Events.SettlePayment, nr), OrderEvent(Events.NotificationOrderUpdate, nr)], now);
      return Success(());
    }

    /** `eta_order_update(order)` for an order with `itemCount` item rows. */
    method EtaOrderUpdate(nr: string, itemCount: nat, now: int) returns (r: Result<()>)
      requires Valid()
      modifies this, events
      ensures Valid()
      ensures match EtaOrderUpdateSpec(old(Snap()), nr, itemCount, now)
              case Failure(e) => r == Failure(e) && Snap() == old(Snap())
              case Success(db) => r == Success(()) && Snap() == db
    {
      if itemCount <= 1 {
        return Success(());
      }
      var m := ModifyOrder(nr, Callable(_ => EtaPatch(now)), now, false);
      if m.Failure? {
        return Failure(m.error);
      }
      return Success(());
    }
  }
}
