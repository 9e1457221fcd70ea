// What `modify_order` and `cancel_order` promise about the database.
module OrderFacts {
  import opened Wrappers
  import opened OrderEnums
  import opened OrderRow
  import Invoice
  import OrderRules
  import Events
  import opened OrderStore

  /** The order `modify_order` stores is its own derivation: loading it
      recomputes the same invoice, and re-deriving status, payer and
      invoice changes nothing. */
  lemma DerivedFixpoint(p: Order, items: seq<Item>)
    ensures var o := Derived(p, items);
      Loaded(o, items) == o && Derived(o, items) == o
  {
    var s := p.(statusOrder := OrderRules.GetOrderStatus(p));
    OrderRules.GetOrderStatusIdempotent(p);
    var q := s.(payerCode := OrderRules.GetOrderPayerCode(s));
    Invoice.InvoiceIdempotent(q, items);
  }

  /** A second `modify_order` with an empty modifier right after the first
      rewrites the same row and adds no history, ETA row or event. */
  lemma ModifyOrderIdempotent(db: Db, nr: string, m: Modifier, now: int, later: int)
    requires ModifyOrderSpec(db, nr, m, now, false).Success?
    ensures var (db1, o) := ModifyOrderSpec(db, nr, m, now, false).value;
      ModifyOrderSpec(db1, nr, Dict(NoChange), later, false) == Success((db1, o))
  {
    var its := ItemsOf(db, nr);
    var o := Modified(db, nr, m);
    DerivedFixpoint(Patched(db, nr, m), its);
    var db1 := Stored(db, nr, o, Patched(db, nr, m).estimatedDeliveryAt, now);
    assert ItemsOf(db1, nr) == its;
    assert Patched(db1, nr, Dict(NoChange)) == o;
    assert Modified(db1, nr, Dict(NoChange)) == o;
    assert Recorded(db1.history, o, later) == db1.history;
    assert db1.orders[nr := o] == db1.orders;
    assert db1.eta + [] == db1.eta && db1.events + [] == db1.events;
    assert Stored(db1, nr, o, o.estimatedDeliveryAt, later) == db1;
  }

  /** `modify_order` fails exactly when the order is missing, or when the
      payment update is asked for and the amount to collect of the derived
      order is negative; a failure leaves the snapshot to the caller. */
  lemma ModifyOrderFailsIff(db: Db, nr: string, m: Modifier, now: int, trigger: bool)
    ensures ModifyOrderSpec(db, nr, m, now, trigger).Failure? <==>
      nr !in db.orders || (trigger && Modified(db, nr, m).collectFromCustomer < 0)
  {
    if nr in db.orders {
      var o := Modified(db, nr, m);
      DerivedFixpoint(Patched(db, nr, m), ItemsOf(db, nr));
      var db1 := Stored(db, nr, o, Patched(db, nr, m).estimatedDeliveryAt, now);
      assert ItemsOf(db1, nr) == ItemsOf(db, nr);
      Invoice.InvoiceIdempotent(o, ItemsOf(db, nr));
    }
  }

  /** On success only the modified order's row changes among the tables
      `modify_order` writes rows of; items, subscriptions, sessions, the
      status table and the outside calls are untouched. */
  lemma ModifyOrderFrame(db: Db, nr: string, m: Modifier, now: int, trigger: bool)
    requires ModifyOrderSpec(db, nr, m, now, trigger).Success?
    ensures var db1 := ModifyOrderSpec(db, nr, m, now, trigger).value.0;
      nr in db1.orders && db1.orders.Keys == db.orders.Keys &&
      (forall k :: k in db.orders && k != nr ==> db1.orders[k] == db.orders[k]) &&
      db1.(orders := db.orders, history := db.history, eta := db.eta, events := db.events) == db
  {
    var o := Modified(db, nr, m);
    var db1 := Stored(db, nr, o, Patched(db, nr, m).estimatedDeliveryAt, now);
    assert db1.(orders := db.orders, history := db.history, eta := db.eta, events := db.events) == db;
    if trigger {
      AfterPaymentFrame(db1, nr);
    }
  }

  /** Both history keys of the stored order are present, and earlier
      history keeps its timestamps. */
  lemma ModifyOrderHistory(db: Db, nr: string, m: Modifier, now: int, trigger: bool)
    requires ModifyOrderSpec(db, nr, m, now, trigger).Success?
    ensures var (db1, o) := ModifyOrderSpec(db, nr, m, now, trigger).value;
      HistoryKey(o.idSalesOrder, HistoryOrderStatus, o.statusOrder) in db1.history &&
      HistoryKey(o.idSalesOrder, HistoryLogistics, o.statusLogistics) in db1.history &&
      (forall k :: k in db.history ==> k in db1.history && db1.history[k] == db.history[k])
  {
    var o := Modified(db, nr, m);
    var db1 := Stored(db, nr, o, Patched(db, nr, m).estimatedDeliveryAt, now);
    RecordedKeeps(db.history, o, now);
    assert db1.history == Recorded(db.history, o, now);
    if trigger {
      AfterPaymentFrame(db1, nr);
    }
  }

  /** The history inserts add both keys of `o` and keep every earlier row. */
  lemma RecordedKeeps(h: map<HistoryKey, int>, o: Order, now: int)
    ensures var r := Recorded(h, o, now);
      HistoryKey(o.idSalesOrder, HistoryOrderStatus, o.statusOrder) in r &&
      HistoryKey(o.idSalesOrder, HistoryLogistics, o.statusLogistics) in r &&
      (forall k :: k in h ==> k in r && r[k] == h[k])
  {
  }

  /** The payment update rewrites the order's row and nothing else. */
  lemma AfterPaymentFrame(db: Db, nr: string)
    requires AfterPaymentSpec(db, nr).Success?
    ensures var d := AfterPaymentSpec(db, nr).value;
      nr in d.orders && d.orders.Keys == db.orders.Keys && d.(orders := db.orders) == db &&
      (forall k :: k in db.orders && k != nr ==> d.orders[k] == db.orders[k])
  {
  }

  /** The stored row is the derived order; with the payment update it also
      carries the collected-from-customer formula, and nothing else of it
      differs. */
  lemma ModifyOrderStores(db: Db, nr: string, m: Modifier, now: int, trigger: bool)
    requires ModifyOrderSpec(db, nr, m, now, trigger).Success?
    ensures var (db1, o) := ModifyOrderSpec(db, nr, m, now, trigger).value;
      o == Modified(db, nr, m) &&
      o.statusOrder == OrderRules.GetOrderStatus(o) && o.payerCode == OrderRules.GetOrderPayerCode(o) &&
      db1.orders[nr] == (if trigger then o.(collectedFromCustomer := Invoice.CollectedFromCustomer(o)) else o)
  {
    var its := ItemsOf(db, nr);
    var o := Modified(db, nr, m);
    DerivedFixpoint(Patched(db, nr, m), its);
    assert Derived(o, its) == o;
    var db1 := Stored(db, nr, o, Patched(db, nr, m).estimatedDeliveryAt, now);
    assert ItemsOf(db1, nr) == its;
    Invoice.InvoiceIdempotent(o, its);
  }

  /** The invoice event is queued exactly when the status newly becomes
      `delivered`, one day after `now`; an ETA row is written exactly when
      the estimate changed. */
  lemma ModifyOrderQueues(db: Db, nr: string, m: Modifier, now: int)
    requires nr in db.orders
    ensures var (db1, o) := ModifyOrderSpec(db, nr, m, now, false).value;
      var delivered := o.statusOrder == Delivered && db.orders[nr].statusOrder != Delivered;
      (delivered ==> |db1.events| == |db.events| + 1 && db1.events[|db.events|].actionCode == Events.Name(Events.GenerateInvoice)
                     && db1.events[|db.events|].scheduleAt == now + Day) &&
      (!delivered ==> db1.events == db.events) &&
      var eta := Patched(db, nr, m).estimatedDeliveryAt;
      (eta != db.orders[nr].estimatedDeliveryAt <==> |db1.eta| == |db.eta| + 1) &&
      (eta != db.orders[nr].estimatedDeliveryAt ==> db1.eta[|db.eta|] == EtaRow(o.idSalesOrder, eta))
  {
  }

  /** Two events queued: their rows close the queue, in order. */
  lemma EnqueuedPair(db: Db, a: Events.NewEvent, b: Events.NewEvent, now: int)
    ensures var db1 := Enqueued(db, [a, b], now);
      |db1.events| == |db.events| + 2 && db1.events[..|db.events|] == db.events &&
      db1.events[|db.events|] == Events.RowOf(a, |db.events| + 1, now) &&
      db1.events[|db.events| + 1] == Events.RowOf(b, |db.events| + 2, now)
  {
    var rows := Events.RowsOf([a, b], |db.events| + 1, now);
    assert rows[0] == Events.RowOf(a, |db.events| + 1, now);
    assert rows[1] == Events.RowOf(b, |db.events| + 2, now);
  }

  /** Cancelling through `modify_order`: payer `none` and status
      `cancelled` cannot fail, and leave nothing to collect. */
  lemma CancelModify(db: Db, nr: string, now: int)
    requires nr in db.orders
    ensures var r := ModifyOrderSpec(db, nr, Dict(SetPayerAndStatus(PayerNone, Cancelled)), now, true);
      r.Success? && ItemsOf(r.value.0, nr) == ItemsOf(db, nr) &&
      var o := r.value.0.orders[nr];
      o.statusOrder == Cancelled && o.payerCode == PayerNone && o.collectFromCustomer == 0
  {
    var m := Dict(SetPayerAndStatus(PayerNone, Cancelled));
    var o := Modified(db, nr, m);
    assert o.statusOrder == Cancelled && o.payerCode == PayerNone;
    ModifyOrderFailsIff(db, nr, m, now, true);
    ModifyOrderStores(db, nr, m, now, true);
  }

  /** The two steps of a `cancel_order` that goes ahead: the items are
      stamped, then `modify_order` cancels the order. */
  lemma CancelOrderSteps(db: Db, nr: string, reason: string, now: int) returns (db1: Db)
    requires nr in db.orders && OrderRules.IsCancelable(db.orders[nr])
    ensures CancelOrderSpec(db, nr, reason, now) ==
      Success(Enqueued(db1, [OrderEvent(Events.SettlePayment, nr), OrderEvent(Events.NotificationOrderUpdate, nr)], now))
    ensures nr in db1.orders && ItemsOf(db1, nr) == StampAll(ItemsOf(db, nr), reason, now)
    ensures var o := db1.orders[nr];
      o.statusOrder == Cancelled && o.payerCode == PayerNone && o.collectFromCustomer == 0
  {
    var db0 := db.(items := db.items[nr := StampAll(ItemsOf(db, nr), reason, now)]);
    assert ItemsOf(db0, nr) == StampAll(ItemsOf(db, nr), reason, now);
    CancelModify(db0, nr, now);
    db1 := ModifyOrderSpec(db0, nr, Dict(SetPayerAndStatus(PayerNone, Cancelled)), now, true).value.0;
  }

  /** `cancel_order` fails exactly when the order is missing or no longer
      cancelable. */
  lemma CancelOrderFailsIff(db: Db, nr: string, reason: string, now: int)
    ensures CancelOrderSpec(db, nr, reason, now).Failure? <==>
      nr !in db.orders || !OrderRules.IsCancelable(db.orders[nr])
  {
    if nr in db.orders && OrderRules.IsCancelable(db.orders[nr]) {
      var db1 := CancelOrderSteps(db, nr, reason, now);
    }
  }

  /** A successful `cancel_order` leaves the order cancelled with payer
      `none` and nothing to collect, every item cancelled with the reason,
      and the settle and notification events queued. */
  lemma CancelOrderOutcome(db: Db, nr: string, reason: string, now: int)
    requires CancelOrderSpec(db, nr, reason, now).Success?
    ensures var d := CancelOrderSpec(db, nr, reason, now).value;
      nr in d.orders &&
      var o := d.orders[nr];
      o.statusOrder == Cancelled && o.payerCode == PayerNone && o.collectFromCustomer == 0 &&
      |ItemsOf(d, nr)| == |ItemsOf(db, nr)| &&
      (forall i :: 0 <= i < |ItemsOf(d, nr)| ==>
        ItemsOf(d, nr)[i].canceledAt == Some(now) && ItemsOf(d, nr)[i].cancelReasonCode == Some(reason)) &&
      |d.events| >= 2 &&
      d.events[|d.events| - 2].actionCode == Events.Name(Events.SettlePayment) &&
      d.events[|d.events| - 1].actionCode == Events.Name(Events.NotificationOrderUpdate)
  {
    var db1 := CancelOrderSteps(db, nr, reason, now);
    CancelledQueued(db, db1, nr, reason, now);
  }

  /** A cancelled order is no longer cancelable: cancelling it again is
      refused, whatever the reason and time. */
  lemma CancelTwiceFails(db: Db, nr: string, reason: string, now: int, reason2: string, now2: int)
    requires CancelOrderSpec(db, nr, reason, now).Success?
    ensures CancelOrderSpec(CancelOrderSpec(db, nr, reason, now).value, nr, reason2, now2) == Failure(CannotCancel)
  {
    CancelOrderOutcome(db, nr, reason, now);
  }

  /** The queue appends of `cancel_order` keep what the cancel stored. */
  lemma CancelledQueued(db: Db, db1: Db, nr: string, reason: string, now: int)
    requires nr in db1.orders && ItemsOf(db1, nr) == StampAll(ItemsOf(db, nr), reason, now)
    ensures var d := Enqueued(db1, [OrderEvent(Events.SettlePayment, nr), OrderEvent(Events.NotificationOrderUpdate, nr)], now);
      d.orders == db1.orders &&
      |ItemsOf(d, nr)| == |ItemsOf(db, nr)| &&
      (forall i :: 0 <= i < |ItemsOf(d, nr)| ==>
        ItemsOf(d, nr)[i].canceledAt == Some(now) && ItemsOf(d, nr)[i].cancelReasonCode == Some(reason)) &&
      |d.events| >= 2 &&
      d.events[|d.events| - 2].actionCode == Events.Name(Events.SettlePayment) &&
      d.events[|d.events| - 1].actionCode == Events.Name(Events.NotificationOrderUpdate)
  {
    EnqueuedPair(db1, OrderEvent(Events.SettlePayment, nr), OrderEvent(Events.NotificationOrderUpdate, nr), now);
  }

  /** The steps around `modify_order` that never touch `sales_order`
      rows or the event queue beyond their own appends. */
  lemma SideStepsKeepOrders(db: Db, nr: string, es: seq<Events.NewEvent>, country: string, now: int)
    ensures Enqueued(db, es, now).orders == db.orders
    ensures Enqueued(db, es, now).subscriptions == db.subscriptions
    ensures DeleteSubscriptionSpec(db, nr).Success? ==>
      DeleteSubscriptionSpec(db, nr).value.orders == db.orders && DeleteSubscriptionSpec(db, nr).value.events == db.events
    ensures ReactivateOrderSessionSpec(db, nr, country).Success? ==>
      var d := ReactivateOrderSessionSpec(db, nr, country).value;
      d.orders == db.orders && d.events == db.events && d.subscriptions == db.subscriptions
    ensures ReactivateOrderSessionSpec(db, nr, country).Failure? <==> nr !in db.orders
    ensures DeleteSubscriptionSpec(db, nr).Failure? <==> nr !in db.orders
  {
  }

  /** A modifier that leaves the payment status alone keeps the stored
      payment status. */
  lemma ModifyKeepsPaymentStatus(db: Db, nr: string, m: Modifier, now: int, trigger: bool)
    requires ModifyOrderSpec(db, nr, m, now, trigger).Success?
    requires PatchFor(m, Loaded(db.orders[nr], ItemsOf(db, nr))).statusPayment.None?
    ensures ModifyOrderSpec(db, nr, m, now, trigger).value.0.orders[nr].statusPayment == db.orders[nr].statusPayment
  {
    ModifyOrderStores(db, nr, m, now, trigger);
  }
}
