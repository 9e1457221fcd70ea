// `PaymentStatus`: the status machine over `sales_order.status_code_payment`
// keyed by `order_nr`. Its handlers `pending_to_done`, `pending_to_canceled`
// and `pending_to_failed` do nothing; its hooks `after_failed`,
// `after_canceled` and `after_done` update the order through
// `modify_order`, queue events and restore the customer's cart. The
// request context contributes the `wallet_issue` flag and the country.
module PaymentStatus {
  import opened Wrappers
  import opened OrderEnums
  import opened OrderRow
  import Json
  import Events
  import StatusMachine
  import Text
  import opened OrderStore
  import OrderRules
  import Invoice
  import OrderFacts

  const Table := "sales_order"

  /** The attribute names of the class, as `dir` lists them (sorted; the
      dunder names carry no `_to_` and are left out). The handlers are
      `new_to_new` and `pending_to_canceled`, `pending_to_done`,
      `pending_to_failed`. */
  const Names: seq<string> := [
    "KEY", "PK", "TABLE", "after_canceled", "after_done", "after_failed", "assert_state",
    "get_state", "get_transitions", "is_allowed", StatusMachine.TxName("new", "new"),
    StatusMachine.TxName(Pending, "canceled"), StatusMachine.TxName(Pending, "done"),
    StatusMachine.TxName(Pending, "failed"), "status_check_enabled", "transition", "update_state"]

  /** The payment status column of the order (NULL for a missing row). */
  function Column(db: Db, nr: string): Option<string>
  {
    if nr in db.orders && db.orders[nr].statusPayment != "" then Some(db.orders[nr].statusPayment) else None
  }

  /** The request context the hooks read. */
  datatype Ctx = Ctx(walletIssue: bool, country: string)

  /** `after_failed` and `after_canceled`: payer `none` and order status
      `failed`, the subscription deleted unless the wallet was at fault,
      the events queued, then the order's cart restored. */
  function AfterFailureSpec(db: Db, nr: string, es: seq<Events.NewEvent>, ctx: Ctx, now: int): Result<Db>
  {
    var r :- ModifyOrderSpec(db, nr, Dict(SetPayerAndStatus(PayerNone, Failed)), now, true);
    var db2 :- if ctx.walletIssue then Success(r.0) else DeleteSubscriptionSpec(r.0, nr);
    ReactivateOrderSessionSpec(Enqueued(db2, es, now), nr, ctx.country)
  }

  function FailedEvents(nr: string): seq<Events.NewEvent>
  {
    [OrderEvent(Events.SettlePayment, nr), OrderEvent(Events.NotificationOrderUpdate, nr)]
  }

  function CanceledEvents(nr: string): seq<Events.NewEvent>
  {
    [OrderEvent(Events.SettlePayment, nr)]
  }

  /** The DEFAULT_PAYMENT_UPDATE payload: the payment method to remember. */
  function DefaultPaymentEvent(o: Order): Events.NewEvent
  {
    Events.NewEvent(Events.DefaultPaymentUpdate,
      [("customer_code", Some(o.customerCode)), ("country_code", Some(o.countryCode)),
       ("payment_method_code", Some(o.paymentMethodCode)), ("credit_card_mask", o.creditCardMask),
       ("payment_token", o.paymentToken)],
      None)
  }

  lemma DefaultPaymentKeysDistinct(o: Order)
    ensures Json.DistinctKeys(DefaultPaymentEvent(o).data)
  {
    var d := DefaultPaymentEvent(o).data;
    assert |d[0].0| == 13 && |d[1].0| == 12 && |d[2].0| == 19 && |d[3].0| == 16 && |d[4].0| == 13;
    assert d[0].0[0] == 'c' && d[4].0[0] == 'p';
    assert d[4..][1..] == [];
    assert Json.DistinctKeys(d[4..]);
    assert d[3..][1..] == d[4..];
    assert Json.DistinctKeys(d[3..]);
    assert d[2..][1..] == d[3..];
    assert Json.DistinctKeys(d[2..]);
    assert d[1..][1..] == d[2..];
    assert Json.DistinctKeys(d[1..]);
  }

  function DoneEvents(o: Order, nr: string): seq<Events.NewEvent>
  {
    [OrderEvent(Events.NotificationOrderUpdate, nr)] + (if IsPrepaid(o.paymentMethodCode) then [DefaultPaymentEvent(o)] else [])
  }

  /** `after_done`: order status `confirmed` without the payment update,
      the notification (and for a prepaid method the default-payment
      update) queued, then the delivery estimate refreshed. */
  function AfterDoneSpec(db: Db, nr: string, now: int): Result<Db>
  {
    var r :- ModifyOrderSpec(db, nr, Dict(SetStatus(Confirmed)), now, false);
    NotifyDoneSpec(r.0, nr, r.1, now)
  }

  /** What `after_done` does once the order `o` is confirmed. */
  function NotifyDoneSpec(db: Db, nr: string, o: Order, now: int): Result<Db>
  {
    var db2 := Enqueued(db, DoneEvents(o, nr), now);
    EtaOrderUpdateSpec(db2, nr, |ItemsOf(db2, nr)|, now)
  }

  /** The `after_{to}` hook, when the class has one. */
  function AfterSpec(db: Db, nr: string, to: string, ctx: Ctx, now: int): Result<Db>
  {
    if to == "failed" then AfterFailureSpec(db, nr, FailedEvents(nr), ctx, now)
    else if to == "canceled" then AfterFailureSpec(db, nr, CanceledEvents(nr), ctx, now)
    else if to == "done" then AfterDoneSpec(db, nr, now)
    else Success(db)
  }

  /** `update_state`: the payment status column alone is overwritten. */
  function SetColumn(db: Db, nr: string, to: string): Db
  {
    if nr in db.orders then db.(orders := db.orders[nr := db.orders[nr].(statusPayment := to)]) else db
  }

  /** `PaymentStatus(order_nr, ctx).transition(to, ...)`: the new database
      and the value returned. */
  function TransitionSpec(db: Db, nr: string, to: string, flags: StatusMachine.Flags, ctx: Ctx, now: int): Result<(Db, Option<bool>)>
  {
    var step :- StatusMachine.Decide(Column(db, nr), to, Names, db.statusCodes, StatusMachine.Returns, flags, Table, nr);
    if step != StatusMachine.Moved then Success((db, StatusMachine.Returned(step)))
    else
      var db2 :- AfterSpec(SetColumn(db, nr, to), nr, to, ctx, now);
      Success((db2, Some(true)))
  }

  // ---------------------------------------------------------------------
  // The methods

  method AfterFailure(db: OrderDb, nr: string, es: seq<Events.NewEvent>, ctx: Ctx, now: int) returns (r: Result<()>)
    requires db.Valid()
    requires forall k :: 0 <= k < |es| ==> Json.DistinctKeys(es[k].data)
    modifies db, db.events
    ensures db.Valid()
    ensures match AfterFailureSpec(old(db.Snap()), nr, es, ctx, now)
            case Failure(e) => r == Failure(e) && db.Snap() == old(db.Snap())
            case Success(d) => r == Success(()) && db.Snap() == d
  {
    var saved := db.Snap();
    var m := db.ModifyOrder(nr, Dict(SetPayerAndStatus(PayerNone, Failed)), now, true);
    if m.Failure? {
      return Failure(m.error);
    }
    if !ctx.walletIssue {
      var d := db.DeleteSubscription(nr);
      if d.Failure? {
        db.Restore(saved);
        return Failure(d.error);
      }
    }
    db.AddEvents(es, now);
    var a := db.ReactivateOrderSession(nr, ctx.country);
    if a.Failure? {
      db.Restore(saved);
      return Failure(a.error);
    }
    return Success(());
  }

  method AfterDone(db: OrderDb, nr: string, now: int) returns (r: Result<()>)
    requires db.Valid()
    modifies db, db.events
    ensures db.Valid()
    ensures match AfterDoneSpec(old(db.Snap()), nr, now)
            case Failure(e) => r == Failure(e) && db.Snap() == old(db.Snap())
            case Success(d) => r == Success(()) && db.Snap() == d
  {
    var saved := db.Snap();
    var m := db.ModifyOrder(nr, Dict(SetStatus(Confirmed)), now, false);
    if m.Failure? {
      return Failure(m.error);
    }
    r := NotifyDone(db, nr, m.value, now);
    if r.Failure? {
      db.Restore(saved);
    }
  }

  method NotifyDone(db: OrderDb, nr: string, o: Order, now: int) returns (r: Result<()>)
    requires db.Valid()
    modifies db, db.events
    ensures db.Valid()
    ensures match NotifyDoneSpec(old(db.Snap()), nr, o, now)
            case Failure(e) => r == Failure(e) && db.Snap() == old(db.Snap())
            case Success(d) => r == Success(()) && db.Snap() == d
  {
    var saved := db.Snap();
    DefaultPaymentKeysDistinct(o);
    assert forall k :: 0 <= k < |DoneEvents(o, nr)| ==> Json.DistinctKeys(DoneEvents(o, nr)[k].data);
    db.AddEvents(DoneEvents(o, nr), now);
    r := db.EtaOrderUpdate(nr, |ItemsOf(db.Snap(), nr)|, now);
    if r.Failure? {
      db.Restore(saved);
    }
  }

  /** `update_state(from, to)`. */
  method UpdateState(db: OrderDb, nr: string, to: string)
    requires db.Valid()
    modifies db
    ensures db.Valid() && db.Snap() == SetColumn(old(db.Snap()), nr, to)
  {
    if nr in db.orders {
      db.orders := db.orders[nr := db.orders[nr].(statusPayment := to)];
    }
  }

  /** The `after_<status>` hook of the target status, if it has one. */
  method After(db: OrderDb, nr: string, to: string, ctx: Ctx, now: int) returns (r: Result<()>)
    requires db.Valid()
    modifies db, db.events
    ensures db.Valid()
    ensures match AfterSpec(old(db.Snap()), nr, to, ctx, now)
            case Failure(e) => r == Failure(e) && db.Snap() == old(db.Snap())
            case Success(d) => r == Success(()) && db.Snap() == d
  {
    if to == "failed" {
      r := AfterFailure(db, nr, FailedEvents(nr), ctx, now);
    } else if to == "canceled" {
      r := AfterFailure(db, nr, CanceledEvents(nr), ctx, now);
    } else if to == "done" {
      r := AfterDone(db, nr, now);
    } else {
      r := Success(());
    }
  }

  method Transition(db: OrderDb, nr: string, to: string, flags: StatusMachine.Flags, ctx: Ctx, now: int)
    returns (r: Result<Option<bool>>)
    requires db.Valid()
    modifies db, db.events
    ensures db.Valid()
    ensures match TransitionSpec(old(db.Snap()), nr, to, flags, ctx, now)
            case Failure(e) => r == Failure(e) && db.Snap() == old(db.Snap())
            case Success(res) => r == Success(res.1) && db.Snap() == res.0
  {
    var col := Column(db.Snap(), nr);
    var step := StatusMachine.Decide(col, to, Names, db.statusCodes, StatusMachine.Returns, flags, Table, nr);
    if step.Failure? {
      return Failure(step.error);
    }
    if step.value != StatusMachine.Moved {
      return Success(StatusMachine.Returned(step.value));
    }
    var saved := db.Snap();
    UpdateState(db, nr, to);
    var a := After(db, nr, to, ctx, now);
    if a.Failure? {
      db.Restore(saved);
      return Failure(a.error);
    }
    return Success(Some(true));
  }

  // ---------------------------------------------------------------------
  // What the table and the hooks promise

  /** No attribute name starts with the first letter of `from`, so none
      is a handler from it. */
  lemma {:induction false} NoHandlersFrom(names: seq<string>, from: string)
    requires from != []
    requires forall k :: 0 <= k < |names| ==> names[k] == [] || names[k][0] != from[0]
    ensures StatusMachine.GetTransitions(names, from) == []
  {
    if names != [] {
      NoHandlersFrom(names[1..], from);
      assert (from + StatusMachine.Sep)[0] == from[0];
    }
  }

  lemma FirstLetters()
    ensures forall k :: 0 <= k < |Names| ==>
      (Names[k] != [] && (Names[k][0] == 'p' <==> 11 <= k < 14) &&
       Names[k][0] != 'd' && Names[k][0] != 'f' && Names[k][0] != 'c')
  {
  }

  /** From `pending` the legal targets are `canceled`, `done` and `failed`;
      nothing is legal from `done`, `failed`, `canceled` or `cancelled`. */
  lemma TransitionTable()
    ensures StatusMachine.GetTransitions(Names, Pending) == ["canceled", "done", "failed"]
    ensures StatusMachine.GetTransitions(Names, Done) == []
    ensures StatusMachine.GetTransitions(Names, Failed) == []
    ensures StatusMachine.GetTransitions(Names, "canceled") == []
    ensures StatusMachine.GetTransitions(Names, Cancelled) == []
  {
    FirstLetters();
    NoHandlersFrom(Names, Done);
    NoHandlersFrom(Names, Failed);
    NoHandlersFrom(Names, "canceled");
    NoHandlersFrom(Names, Cancelled);
    assert Names == Names[..11] + Names[11..14] + Names[14..];
    NoHandlersFrom(Names[..11], Pending);
    NoHandlersFrom(Names[14..], Pending);
    StatusMachine.TransitionsAppend(Names[..11] + Names[11..14], Names[14..], Pending);
    StatusMachine.TransitionsAppend(Names[..11], Names[11..14], Pending);
    PendingHandlers();
  }

  lemma PendingHandlers()
    ensures StatusMachine.GetTransitions(Names[11..14], Pending) == ["canceled", "done", "failed"]
  {
    var p := Pending + StatusMachine.Sep;
    assert Names[11..14] == [p + "canceled", p + "done", p + "failed"];
    assert Names[11..14][1..] == [p + "done", p + "failed"];
    assert Names[11..14][2..] == [p + "failed"];
    var ns := Names[11..14];
    forall x | x in ["canceled", "done", "failed"]
      ensures Text.IsPrefix(p, p + x) && StatusMachine.RemoveAll(p + x, p) == x
    {
      assert (p + x)[..|p|] == p;
      StatusMachine.RemovePrefix(p, x);
    }
    assert ns[2..][1..] == [];
    assert StatusMachine.GetTransitions(ns[2..], Pending) == ["failed"];
    assert StatusMachine.GetTransitions(ns[1..], Pending) == ["done", "failed"];
  }

  /** No handler name from `pending` repeats its prefix. */
  lemma PendingPlain()
    ensures StatusMachine.PlainHandlers(Names, Pending)
  {
    FirstLetters();
    var p := Pending + StatusMachine.Sep;
    forall k | 0 <= k < |Names| && Text.IsPrefix(p, Names[k])
      ensures !StatusMachine.Occurs(p, Names[k][|p|..])
    {
      assert Names[k][0] == 'p';
      assert |Names[k][|p|..]| < |p|;
    }
  }

  /** `transition('cancelled')` from `pending` finds no handler: the
      handler is spelled `canceled`. Unless `ignore_not_allowed` is given it
      fails and nothing changes. */
  lemma CancelledIsRefused(db: Db, nr: string, flags: StatusMachine.Flags, ctx: Ctx, now: int)
    requires nr in db.orders && db.orders[nr].statusPayment == Pending && !flags.ignoreNotAllowed
    ensures !StatusMachine.IsAllowed(Names, Pending, Cancelled)
    ensures TransitionSpec(db, nr, Cancelled, flags, ctx, now) == Failure("not allowed transition pending_to_cancelled")
  {
    CancelledMissing();
    assert StatusMachine.TxName(Pending, Cancelled) == "pending_to_cancelled";
  }

  lemma CancelledMissing()
    ensures !StatusMachine.IsAllowed(Names, Pending, Cancelled)
  {
    TransitionTable();
    PendingPlain();
    StatusMachine.AllowedIffListed(Names, Pending, Cancelled);
  }

  /** The `modify_order` that marks the order failed succeeds and keeps the
      payment token and the address. */
  lemma FailedModify(db: Db, nr: string, now: int) returns (db1: Db)
    requires nr in db.orders
    ensures ModifyOrderSpec(db, nr, Dict(SetPayerAndStatus(PayerNone, Failed)), now, true) == Success((db1, Modified(db, nr, Dict(SetPayerAndStatus(PayerNone, Failed)))))
    ensures nr in db1.orders && db1.orders[nr].paymentToken == db.orders[nr].paymentToken && db1.orders[nr].addressKey == db.orders[nr].addressKey
  {
    var m := Dict(SetPayerAndStatus(PayerNone, Failed));
    OrderFacts.ModifyOrderFailsIff(db, nr, m, now, true);
    OrderFacts.ModifyOrderStores(db, nr, m, now, true);
    OrderFacts.ModifyOrderFrame(db, nr, m, now, true);
    db1 := ModifyOrderSpec(db, nr, m, now, true).value.0;
  }

  /** The writes of `after_failed` and `after_canceled` step by step: the
      order row from `modify_order`, the subscriptions after the deletion,
      the events appended after those. */
  lemma AfterFailureSteps(db: Db, nr: string, es: seq<Events.NewEvent>, ctx: Ctx, now: int)
      returns (db1: Db, db2: Db)
    requires nr in db.orders
    ensures ModifyOrderSpec(db, nr, Dict(SetPayerAndStatus(PayerNone, Failed)), now, true) == Success((db1, Modified(db, nr, Dict(SetPayerAndStatus(PayerNone, Failed)))))
    ensures nr in db1.orders && db1.orders[nr].paymentToken == db.orders[nr].paymentToken && db1.orders[nr].addressKey == db.orders[nr].addressKey
    ensures db2.orders == db1.orders
    ensures ctx.walletIssue ==> db2.subscriptions == db1.subscriptions
    ensures !ctx.walletIssue ==> db2 == DeleteSubscriptionSpec(db1, nr).value
    ensures AfterFailureSpec(db, nr, es, ctx, now).Success?
    ensures var d := AfterFailureSpec(db, nr, es, ctx, now).value;
      d.orders == db1.orders && d.subscriptions == db2.subscriptions &&
      d.events == db2.events + Events.RowsOf(es, |db2.events| + 1, now)
  {
    db1 := FailedModify(db, nr, now);
    OrderFacts.SideStepsKeepOrders(db1, nr, es, ctx.country, now);
    db2 := if ctx.walletIssue then db1 else DeleteSubscriptionSpec(db1, nr).value;
    var db3 := Enqueued(db2, es, now);
    OrderFacts.SideStepsKeepOrders(db3, nr, es, ctx.country, now);
    assert AfterFailureSpec(db, nr, es, ctx, now) == ReactivateOrderSessionSpec(db3, nr, ctx.country);
  }

  /** `after_failed` and `after_canceled` fail only for a missing order.
      Afterwards the order is `failed` with payer `none` and nothing to
      collect, whatever its status was, and the payment status is kept. */
  lemma AfterFailureOutcome(db: Db, nr: string, es: seq<Events.NewEvent>, ctx: Ctx, now: int)
    ensures AfterFailureSpec(db, nr, es, ctx, now).Failure? <==> nr !in db.orders
    ensures AfterFailureSpec(db, nr, es, ctx, now).Success? ==>
      var d := AfterFailureSpec(db, nr, es, ctx, now).value;
      nr in d.orders &&
      var o := d.orders[nr];
      o.statusOrder == Failed && o.payerCode == PayerNone && o.collectFromCustomer == 0 &&
      o.statusPayment == db.orders[nr].statusPayment
  {
    var m := Dict(SetPayerAndStatus(PayerNone, Failed));
    OrderFacts.ModifyOrderFailsIff(db, nr, m, now, true);
    if nr in db.orders {
      var db1, db2 := AfterFailureSteps(db, nr, es, ctx, now);
      var o := Modified(db, nr, m);
      assert o.statusOrder == Failed && o.payerCode == PayerNone;
      Invoice.PayerNoneOwesNothing(o, ItemsOf(db, nr));
      OrderFacts.ModifyOrderStores(db, nr, m, now, true);
      OrderFacts.ModifyKeepsPaymentStatus(db, nr, m, now, true);
    }
  }

  /** The events of `after_failed` and `after_canceled` close the queue,
      and the subscription is gone unless the wallet was at fault, when
      the subscriptions are untouched. */
  lemma AfterFailureQueues(db: Db, nr: string, es: seq<Events.NewEvent>, ctx: Ctx, now: int)
    requires nr in db.orders
    ensures AfterFailureSpec(db, nr, es, ctx, now).Success?
    ensures var d := AfterFailureSpec(db, nr, es, ctx, now).value;
      |d.events| >= |es| && d.events[|d.events| - |es|..] == Events.RowsOf(es, |d.events| - |es| + 1, now) &&
      (ctx.walletIssue ==> d.subscriptions == db.subscriptions) &&
      (!ctx.walletIssue && db.orders[nr].paymentToken.Some? ==>
        (db.orders[nr].addressKey, db.orders[nr].paymentToken.value) !in d.subscriptions)
  {
    var db1, db2 := AfterFailureSteps(db, nr, es, ctx, now);
    var m := Dict(SetPayerAndStatus(PayerNone, Failed));
    OrderFacts.ModifyOrderFrame(db, nr, m, now, true);
    var d := AfterFailureSpec(db, nr, es, ctx, now).value;
    assert d.events[|d.events| - |es|..] == Events.RowsOf(es, |db2.events| + 1, now);
  }

  /** Confirmation of a fresh paid order: with payment `done`, no
      logistics progress and oms not shipped, `after_done` leaves the order
      `confirmed`, keeps the payment status, and queues the notification
      first. */
  lemma AfterDoneConfirms(db: Db, nr: string, now: int)
    requires nr in db.orders
    requires db.orders[nr].statusPayment == Done
    requires !OrderRules.IsLogisticsProgress(db.orders[nr].statusLogistics) && db.orders[nr].statusOms != Shipped
    ensures ModifyOrderSpec(db, nr, Dict(SetStatus(Confirmed)), now, false).Success?
    ensures var r := ModifyOrderSpec(db, nr, Dict(SetStatus(Confirmed)), now, false).value;
      r.1.statusOrder == Confirmed && r.1.statusPayment == Done &&
      DoneEvents(r.1, nr)[0] == OrderEvent(Events.NotificationOrderUpdate, nr) &&
      (|DoneEvents(r.1, nr)| == 2 <==> IsPrepaid(r.1.paymentMethodCode))
  {
  }

  /** A successful move leaves the payment status column at the target,
      whatever the hooks did to the rest of the order. */
  lemma MovedSetsColumn(db: Db, nr: string, to: string, flags: StatusMachine.Flags, ctx: Ctx, now: int)
    requires TransitionSpec(db, nr, to, flags, ctx, now).Success?
    requires TransitionSpec(db, nr, to, flags, ctx, now).value.1 == Some(true)
    ensures nr in db.orders
    ensures var d := TransitionSpec(db, nr, to, flags, ctx, now).value.0;
      nr in d.orders && d.orders[nr].statusPayment == to
  {
    var step := StatusMachine.Decide(Column(db, nr), to, Names, db.statusCodes, StatusMachine.Returns, flags, Table, nr);
    assert step == Success(StatusMachine.Moved);
    var db1 := SetColumn(db, nr, to);
    assert TransitionSpec(db, nr, to, flags, ctx, now) == Success((AfterSpec(db1, nr, to, ctx, now).value, Some(true)));
    AfterKeepsColumn(db1, nr, to, ctx, now);
  }

  lemma AfterKeepsColumn(db: Db, nr: string, to: string, ctx: Ctx, now: int)
    requires nr in db.orders && AfterSpec(db, nr, to, ctx, now).Success?
    ensures nr in AfterSpec(db, nr, to, ctx, now).value.orders
    ensures AfterSpec(db, nr, to, ctx, now).value.orders[nr].statusPayment == db.orders[nr].statusPayment
  {
    if to == "failed" {
      assert AfterSpec(db, nr, to, ctx, now) == AfterFailureSpec(db, nr, FailedEvents(nr), ctx, now);
      FailureKeepsColumn(db, nr, FailedEvents(nr), ctx, now);
    } else if to == "canceled" {
      assert AfterSpec(db, nr, to, ctx, now) == AfterFailureSpec(db, nr, CanceledEvents(nr), ctx, now);
      FailureKeepsColumn(db, nr, CanceledEvents(nr), ctx, now);
    } else if to == "done" {
      assert AfterSpec(db, nr, to, ctx, now) == AfterDoneSpec(db, nr, now);
      AfterDoneKeepsColumn(db, nr, now);
    }
  }

  lemma FailureKeepsColumn(db: Db, nr: string, es: seq<Events.NewEvent>, ctx: Ctx, now: int)
    requires AfterFailureSpec(db, nr, es, ctx, now).Success?
    ensures nr in db.orders && nr in AfterFailureSpec(db, nr, es, ctx, now).value.orders
    ensures AfterFailureSpec(db, nr, es, ctx, now).value.orders[nr].statusPayment == db.orders[nr].statusPayment
  {
    AfterFailureOutcome(db, nr, es, ctx, now);
  }

  lemma AfterDoneKeepsColumn(db: Db, nr: string, now: int)
    requires AfterDoneSpec(db, nr, now).Success?
    ensures nr in db.orders && nr in AfterDoneSpec(db, nr, now).value.orders
    ensures AfterDoneSpec(db, nr, now).value.orders[nr].statusPayment == db.orders[nr].statusPayment
  {
    var m := Dict(SetStatus(Confirmed));
    OrderFacts.ModifyKeepsPaymentStatus(db, nr, m, now, false);
    OrderFacts.ModifyOrderFrame(db, nr, m, now, false);
    var r := ModifyOrderSpec(db, nr, m, now, false).value;
    var db2 := Enqueued(r.0, DoneEvents(r.1, nr), now);
    OrderFacts.SideStepsKeepOrders(r.0, nr, DoneEvents(r.1, nr), "", now);
    if |ItemsOf(db2, nr)| > 1 {
      OrderFacts.ModifyKeepsPaymentStatus(db2, nr, Callable(_ => EtaPatch(now)), now, false);
    }
  }
}
