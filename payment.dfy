// The payment side of an order: the gateway's report copied onto the order
// (`update_payment_info`), capture and refund requests within their
// bounds, the reaction to a changed payment (`payment_updated`), the
// capture of the payment amount, the reconciliation `settle_payment` and
// the creation of the payment intent. The gateway is an oracle: the report
// it gives on each read, and the intent token it issues, are parameters.
module Payment {
  import opened Wrappers
  import opened OrderEnums
  import opened OrderRow
  import opened OrderStore
  import Invoice
  import Text
  import StatusMachine
  import PaymentStatus
  import Credit
  import OrderFacts

  /** `get_transaction_status`: amounts in cents. */
  datatype Report = Report(
    authorized: int,
    captured: int,
    reversed: int,
    refunded: int,
    status: string,
    isCcPayment: bool,
    subscriptionId: Option<string>,
    json: string)

  const InvalidAmount := "invalid amount"
  const OverAuthorized := "amount cannot be greater than authorized + captured"
  const PaymentFailed := "payment_failed"
  const TooManyParts := "too many values to unpack (expected 2)"
  const TooFewParts := "not enough values to unpack (expected 2, got 1)"

  /** `transition` called without keyword arguments. */
  const NoFlags := StatusMachine.Flags(false, false, false)

  /** `GetDetails(order_nr).execute(internal=True)`: the row with its
      invoice recomputed; a missing order fails the "no order found"
      assertion. */
  function Details(db: Db, nr: string): (r: Result<Order>)
    ensures r.Success? <==> nr in db.orders
  {
    if nr !in db.orders then Failure(NoOrder) else Success(Loaded(db.orders[nr], ItemsOf(db, nr)))
  }

  /** The payment columns `update_payment_info` takes from a report. */
  function ReportPatch(g: Report): Patch
  {
    NoChange.(paymentAuthorized := Some(g.authorized - g.reversed - g.captured),
              paymentCaptured := Some(g.captured),
              paymentRefunded := Some(-g.refunded),
              prepaidPaymentInfo := Some(g.json),
              isCreditCardUsed := Some(g.isCcPayment),
              subscriptionId := if g.subscriptionId.Some? && g.subscriptionId.value != "" then g.subscriptionId else None)
  }

  /** The gateway is consulted only for a prepaid order that has an intent
      token. */
  predicate Consults(o: Order)
  {
    IsPrepaid(o.paymentMethodCode) && o.paymentIntentToken.Some? && o.paymentIntentToken.value != ""
  }

  /** `update_payment_info(order_nr)` with the gateway's report `g` (None
      when the gateway returns nothing): the new database and the status
      returned. */
  function UpdatePaymentInfoSpec(db: Db, nr: string, g: Option<Report>, now: int): (r: Result<(Db, Option<string>)>)
    ensures r.Success? ==> nr in db.orders && nr in r.value.0.orders
  {
    var o :- Details(db, nr);
    if !Consults(o) || g.None? then Success((db, None))
    else
      var m :- ModifyOrderSpec(db, nr, Dict(ReportPatch(g.value)), now, true);
      OrderFacts.ModifyOrderFrame(db, nr, Dict(ReportPatch(g.value)), now, true);
      Success((m.0, Some(g.value.status)))
  }

  /** The gateway request `payment_capture` makes. */
  function CaptureCall(nr: string, amount: int): GatewayCall
  {
    if amount == 0 then Reverse(nr) else Capture(nr, amount)
  }

  /** `payment_capture(order_nr, amount)`, `g` being the report read
      afterwards. */
  function PaymentCaptureSpec(db: Db, nr: string, amount: int, g: Option<Report>, now: int): Result<Db>
  {
    if amount < 0 then Failure(InvalidAmount)
    else if nr !in db.orders then Failure(Credit.NoRow)
    else if amount > db.orders[nr].paymentCaptured + db.orders[nr].paymentAuthorized then Failure(OverAuthorized)
    else
      var r :- UpdatePaymentInfoSpec(db.(gatewayCalls := db.gatewayCalls + [CaptureCall(nr, amount)]), nr, g, now);
      Success(r.0)
  }

  /** `payment_refund` asks the gateway only for a total refund between
      what is already refunded and what was captured. */
  predicate RefundAllowed(o: Order, amount: int)
  {
    -o.paymentRefunded <= amount <= o.paymentCaptured
  }

  /** `payment_refund(order_nr, amount)`, `g` being the report read
      afterwards. */
  function PaymentRefundSpec(db: Db, nr: string, amount: int, g: Option<Report>, now: int): Result<Db>
  {
    if amount < 0 then Failure(InvalidAmount)
    else if nr !in db.orders then Failure(Credit.NoRow)
    else
      var calls := if RefundAllowed(db.orders[nr], amount) then [Refund(nr, amount)] else [];
      var r :- UpdatePaymentInfoSpec(db.(gatewayCalls := db.gatewayCalls + calls), nr, g, now);
      Success(r.0)
  }

  /** `PaymentStatus(order_nr, ctx).transition(to)`, its return value
      dropped. */
  function MoveSpec(db: Db, nr: string, to: string, ctx: PaymentStatus.Ctx, now: int): Result<Db>
  {
    var r :- PaymentStatus.TransitionSpec(db, nr, to, NoFlags, ctx, now);
    Success(r.0)
  }

  /** The payment is covered once a positive payment amount is within what
      is authorized plus captured. */
  predicate Covered(o: Order)
  {
    o.paymentAmount > 0 && o.paymentAuthorized + o.paymentCaptured >= o.paymentAmount
  }

  /** What `payment_updated` does once the report is stored and the row
      `o` re-read, `st` being the gateway's status. */
  function ReactSpec(db: Db, nr: string, o: Order, st: Option<string>, country: string, now: int): Result<Db>
  {
    if o.statusPayment != Pending then Success(db)
    else if st == Some(PaymentFailed) then MoveSpec(db, nr, Failed, PaymentStatus.Ctx(false, country), now)
    else if Covered(o) then MoveSpec(db, nr, Done, PaymentStatus.Ctx(false, country), now)
    else Success(db)
  }

  /** `payment_updated(order_nr)` with the gateway's report `g`. */
  function PaymentUpdatedSpec(db: Db, nr: string, g: Option<Report>, country: string, now: int): Result<Db>
  {
    var r :- UpdatePaymentInfoSpec(db, nr, g, now);
    ReactSpec(r.0, nr, r.0.orders[nr], r.1, country, now)
  }

  /** `capture_payment_amount(event)`: `g1` is read after the capture and
      `g2` by the `payment_updated` that follows. */
  function CapturePaymentAmountSpec(db: Db, nr: string, g1: Option<Report>, g2: Option<Report>, country: string, now: int): Result<Db>
  {
    var o :- Details(db, nr);
    if !IsPrepaid(o.paymentMethodCode) || o.paymentAmount == 0 then Success(db)
    else if o.paymentAuthorized >= o.paymentAmount >= o.paymentCaptured then
      var d :- PaymentCaptureSpec(db, nr, o.paymentAmount, g1, now);
      PaymentUpdatedSpec(d, nr, g2, country, now)
    else Success(db)
  }

  // ---------------------------------------------------------------------
  // settle_payment

  function Min(a: int, b: int): int
  {
    if a <= b then a else b
  }

  /** The total refund `settle_payment` asks for when `diff` was collected
      too much, or None when nothing captured is left to refund. The
      refunded column is stored negated (`-refunded_amount`), so what was
      refunded so far is `-refundedCol`. */
  function RefundTarget(captured: int, refundedCol: int, diff: int): Option<int>
  {
    var refunded := -refundedCol;
    var left := captured - refunded;
    if left > 0 then Some(refunded + Min(left, diff)) else None
  }

  /** The same computation as the code writes it: the refunded amount is
      added to what was captured, and subtracted from the target. */
  function RefundTargetAsWritten(captured: int, refundedCol: int, diff: int): Option<int>
  {
    var refundedAmount := -refundedCol;
    var prepaid := captured + refundedAmount;
    if prepaid > 0 then Some(Min(-refundedAmount + Min(prepaid, diff), captured)) else None
  }

  /** A method returning `r` took the snapshot from `before` to `after`
      as `spec` says: on failure it returned the error and left nothing
      changed, on success it returned unit and the snapshot is `spec`'s. */
  predicate Reflects(r: Result<()>, before: Db, after: Db, spec: Result<Db>)
  {
    match spec
    case Failure(e) => r == Failure(e) && after == before
    case Success(d) => r == Success(()) && after == d
  }

  /** The columns of an order that `settle_payment` reads. */
  datatype Amounts = Amounts(collect: int, collected: int, authorized: int, captured: int, refundedCol: int, credit: int)

  function AmountsOf(o: Order): Amounts
  {
    Amounts(o.collectFromCustomer, o.collectedFromCustomer, o.paymentAuthorized, o.paymentCaptured,
            o.paymentRefunded, o.creditCaptured)
  }

  /** The one action `settle_payment` takes for the columns it read; a
      capture carries the credit value it falls back to when the gateway
      refuses it. */
  datatype SettleStep =
    | Settled
    | CaptureMore(amount: int, fallback: int)
    | CreditBack(value: int)
    | RefundFirst(target: int)

  /** Nothing when the amounts agree; collected too little: capture more
      while the authorization covers more than is captured, else take the
      difference from credit; collected too much: refund while something
      captured is left (the rest going to credit afterwards), else give the
      difference back as credit. */
  function StepOf(a: Amounts): SettleStep
  {
    if a.collect == a.collected then Settled
    else if a.collect > a.collected then
      var diff := a.collect - a.collected;
      if a.authorized > a.captured then CaptureMore(Min(a.authorized, a.captured + diff), a.credit - diff)
      else CreditBack(a.credit - diff)
    else
      var diff := a.collected - a.collect;
      match RefundTarget(a.captured, a.refundedCol, diff)
      case None => CreditBack(a.credit + diff)
      case Some(t) => RefundFirst(t)
  }

  /** The decision as the code writes it: a refund is asked for while the
      captured amount plus the amount refunded is positive, and the target
      is `RefundTargetAsWritten`. */
  function StepOfAsWritten(a: Amounts): SettleStep
  {
    if a.collect < a.collected then
      match RefundTargetAsWritten(a.captured, a.refundedCol, a.collected - a.collect)
      case None => CreditBack(a.credit + (a.collected - a.collect))
      case Some(t) => RefundFirst(t)
    else StepOf(a)
  }

  /** How the gateway answers the capture or refund `settle_payment` sends.
      `PermanentError` is one of the errors `ignore_http_permanent_payment_error`
      swallows (a permanent failure, or a capture or reversal from a status
      that no longer allows it): the request was sent and no report is read
      back. */
  datatype GatewayOutcome = Accepted | PermanentError

  /** The effect of settle step `s` on the snapshot. */
  function StepSpec(db: Db, nr: string, s: SettleStep, gw: GatewayOutcome, g: Option<Report>, reply: Credit.LedgerReply, mp: string, now: int): Result<Db>
  {
    match s
    case Settled => Success(db)
    case CaptureMore(x, v) => SettleCaptureSpec(db, nr, x, v, gw, g, reply, mp, now)
    case CreditBack(v) => CreditSpec(db, nr, v, reply, mp, now)
    case RefundFirst(t) => RefundThenRemainderSpec(db, nr, t, gw, g, reply, mp, now)
  }

  /** `payment_capture` whose request the gateway refuses: the checks made
      before the request still fail the call; otherwise the request is
      recorded and nothing is read back. */
  function CaptureRefusedSpec(db: Db, nr: string, amount: int): Result<Db>
  {
    if amount < 0 then Failure(InvalidAmount)
    else if nr !in db.orders then Failure(Credit.NoRow)
    else if amount > db.orders[nr].paymentCaptured + db.orders[nr].paymentAuthorized then Failure(OverAuthorized)
    else Success(db.(gatewayCalls := db.gatewayCalls + [CaptureCall(nr, amount)]))
  }

  /** The capture branch: a refused capture falls through to the credit
      capture of `fallback`. */
  function SettleCaptureSpec(db: Db, nr: string, x: int, fallback: int, gw: GatewayOutcome, g: Option<Report>, reply: Credit.LedgerReply, mp: string, now: int): Result<Db>
  {
    match gw
    case Accepted => PaymentCaptureSpec(db, nr, x, g, now)
    case PermanentError =>
      var d :- CaptureRefusedSpec(db, nr, x);
      CreditSpec(d, nr, fallback, reply, mp, now)
  }

  /** `payment_refund` inside `ignore_http_permanent_payment_error`: a
      refused refund request is recorded and nothing is read back; a refund
      that sends no request, or a failed check, is as without the guard. */
  function RefundAttemptSpec(db: Db, nr: string, t: int, gw: GatewayOutcome, g: Option<Report>, now: int): Result<Db>
  {
    if gw.PermanentError? && t >= 0 && nr in db.orders && RefundAllowed(db.orders[nr], t) then
      Success(db.(gatewayCalls := db.gatewayCalls + [Refund(nr, t)]))
    else PaymentRefundSpec(db, nr, t, g, now)
  }

  function RefundThenRemainderSpec(db: Db, nr: string, t: int, gw: GatewayOutcome, g: Option<Report>, reply: Credit.LedgerReply, mp: string, now: int): Result<Db>
  {
    var d :- RefundAttemptSpec(db, nr, t, gw, g, now);
    RemainderSpec(d, nr, reply, mp, now)
  }

  /** `credit.capture(order_nr, amount)`, the balance dropped. */
  function CreditSpec(db: Db, nr: string, amount: int, reply: Credit.LedgerReply, mp: string, now: int): Result<Db>
  {
    var r :- Credit.CaptureSpec(db, nr, amount, reply, mp, now);
    Success(r.0)
  }

  /** After a refund the order is read again and what is still collected
      too much goes to credit. */
  function RemainderSpec(db: Db, nr: string, reply: Credit.LedgerReply, mp: string, now: int): Result<Db>
  {
    var o :- Details(db, nr);
    LeftoverSpec(db, nr, o.collectedFromCustomer - o.collectFromCustomer, o.creditCaptured, reply, mp, now)
  }

  /** `diff` is what is still collected too much, `credit` the credit
      captured so far. */
  function LeftoverSpec(db: Db, nr: string, diff: int, credit: int, reply: Credit.LedgerReply, mp: string, now: int): Result<Db>
  {
    if diff == 0 then Success(db) else CreditSpec(db, nr, credit + diff, reply, mp, now)
  }

  /** `settle_payment(order_nr)`: `g0` is the report read first, `gw` the
      gateway's answer to a capture or refund and `g` the report read
      after it. */
  function SettlePaymentSpec(db: Db, nr: string, g0: Option<Report>, gw: GatewayOutcome, g: Option<Report>, reply: Credit.LedgerReply, mp: string, now: int): Result<Db>
  {
    var r :- UpdatePaymentInfoSpec(db, nr, g0, now);
    var o :- Details(r.0, nr);
    StepSpec(r.0, nr, StepOf(AmountsOf(o)), gw, g, reply, mp, now)
  }

  // ---------------------------------------------------------------------
  // payment_order_create

  /** `set_payment_intent_token(order_nr, token)`: a direct UPDATE. */
  function SetIntentToken(db: Db, nr: string, token: string): Db
  {
    if nr in db.orders then db.(orders := db.orders[nr := db.orders[nr].(paymentIntentToken := Some(token))]) else db
  }

  /** The intent request for a prepaid order, with `address_key` split into
      its code and version. */
  function IntentSpec(db: Db, nr: string, o: Order, token: string): Result<Db>
  {
    var parts := Text.Split(o.addressKey, '-');
    if |parts| < 2 then Failure(TooFewParts)
    else if |parts| > 2 then Failure(TooManyParts)
    else
      var db1 := db.(gatewayCalls := db.gatewayCalls + [CreateIntent(nr, o.paymentAmount, parts[0], parts[1])]);
      Success(SetIntentToken(db1, nr, token))
  }

  /** `payment_order_create` after the credit step, `ok` being its
      outcome. */
  function ChargeSpec(db: Db, nr: string, o: Order, ok: bool, token: string, country: string, now: int): Result<Db>
  {
    if !ok then MoveSpec(db, nr, Failed, PaymentStatus.Ctx(true, country), now)
    else if IsPrepaid(o.paymentMethodCode) then IntentSpec(db, nr, o, token)
    else MoveSpec(db, nr, Done, PaymentStatus.Ctx(false, country), now)
  }

  /** The credit step of `payment_order_create`: credit is captured only
      when the order uses some. */
  function CreditStepSpec(db: Db, nr: string, o: Order, reply: Credit.LedgerReply, mp: string, now: int): Result<(Db, bool)>
  {
    if o.creditAmount == 0 then Success((db, true))
    else Credit.CaptureCreditAmountSpec(db, nr, reply, mp, now)
  }

  /** `payment_order_create(event)` for the event's order. */
  function PaymentOrderCreateSpec(db: Db, nr: string, reply: Credit.LedgerReply, token: string, mp: string, country: string, now: int): Result<Db>
  {
    var o :- Details(db, nr);
    if o.collectFromCustomer == 0 || o.statusPayment != Pending then Success(db)
    else
      var c :- CreditStepSpec(db, nr, o, reply, mp, now);
      ChargeSpec(c.0, nr, o, c.1, token, country, now)
  }

  // ---------------------------------------------------------------------
  // The methods

  method GetDetails(db: OrderDb, nr: string) returns (r: Result<Order>)
    ensures r == Details(db.Snap(), nr)
  {
    if nr !in db.orders {
      return Failure(NoOrder);
    }
    var its := if nr in db.items then db.items[nr] else [];
    return Success(Loaded(db.orders[nr], its));
  }

  /** `update_payment_info(order_nr)`. */
  method UpdatePaymentInfo(db: OrderDb, nr: string, g: Option<Report>, now: int) returns (r: Result<Option<string>>)
    requires db.Valid()
    modifies db, db.events
    ensures db.Valid()
    ensures match UpdatePaymentInfoSpec(old(db.Snap()), nr, g, now)
            case Failure(e) => r == Failure(e) && db.Snap() == old(db.Snap())
            case Success(res) => r == Success(res.1) && db.Snap() == res.0
  {
    var o := GetDetails(db, nr);
    if o.Failure? {
      return Failure(o.error);
    }
    if !Consults(o.value) || g.None? {
      return Success(None);
    }
    var m := db.ModifyOrder(nr, Dict(ReportPatch(g.value)), now, true);
    if m.Failure? {
      return Failure(m.error);
    }
    return Success(Some(g.value.status));
  }

  /** `payment_capture(order_nr, amount)`. */
  method PaymentCapture(db: OrderDb, nr: string, amount: int, g: Option<Report>, now: int) returns (r: Result<()>)
    requires db.Valid()
    modifies db, db.events
    ensures db.Valid()
    ensures Reflects(r, old(db.Snap()), db.Snap(), PaymentCaptureSpec(old(db.Snap()), nr, amount, g, now))
  {
    if amount < 0 {
      return Failure(InvalidAmount);
    }
    if nr !in db.orders {
      return Failure(Credit.NoRow);
    }
    if amount > db.orders[nr].paymentCaptured + db.orders[nr].paymentAuthorized {
      return Failure(OverAuthorized);
    }
    var saved := db.Snap();
    db.gatewayCalls := db.gatewayCalls + [CaptureCall(nr, amount)];
    var u := UpdatePaymentInfo(db, nr, g, now);
    if u.Failure? {
      db.Restore(saved);
      return Failure(u.error);
    }
    return Success(());
  }

  /** `payment_refund(order_nr, amount)`. */
  method PaymentRefund(db: OrderDb, nr: string, amount: int, g: Option<Report>, now: int) returns (r: Result<()>)
    requires db.Valid()
    modifies db, db.events
    ensures db.Valid()
    ensures Reflects(r, old(db.Snap()), db.Snap(), PaymentRefundSpec(old(db.Snap()), nr, amount, g, now))
  {
    if amount < 0 {
      return Failure(InvalidAmount);
    }
    if nr !in db.orders {
      return Failure(Credit.NoRow);
    }
    var saved := db.Snap();
    if RefundAllowed(db.orders[nr], amount) {
      db.gatewayCalls := db.gatewayCalls + [Refund(nr, amount)];
    } else {
      assert db.gatewayCalls == saved.gatewayCalls + [];
    }
    var u := UpdatePaymentInfo(db, nr, g, now);
    if u.Failure? {
      db.Restore(saved);
      return Failure(u.error);
    }
    return Success(());
  }

  /** `PaymentStatus(order_nr, ctx).transition(to)`. */
  method Move(db: OrderDb, nr: string, to: string, ctx: PaymentStatus.Ctx, now: int) returns (r: Result<()>)
    requires db.Valid()
    modifies db, db.events
    ensures db.Valid()
    ensures Reflects(r, old(db.Snap()), db.Snap(), MoveSpec(old(db.Snap()), nr, to, ctx, now))
  {
    var t := PaymentStatus.Transition(db, nr, to, NoFlags, ctx, now);
    if t.Failure? {
      return Failure(t.error);
    }
    return Success(());
  }

  /** The part of `payment_updated` after the report is stored. */
  method React(db: OrderDb, nr: string, o: Order, st: Option<string>, country: string, now: int) returns (r: Result<()>)
    requires db.Valid()
    modifies db, db.events
    ensures db.Valid()
    ensures Reflects(r, old(db.Snap()), db.Snap(), ReactSpec(old(db.Snap()), nr, o, st, country, now))
  {
    if o.statusPayment != Pending {
      return Success(());
    }
    if st == Some(PaymentFailed) {
      r := Move(db, nr, Failed, PaymentStatus.Ctx(false, country), now);
    } else if Covered(o) {
      r := Move(db, nr, Done, PaymentStatus.Ctx(false, country), now);
    } else {
      r := Success(());
    }
  }

  /** `payment_updated(order_nr)`. */
  method PaymentUpdated(db: OrderDb, nr: string, g: Option<Report>, country: string, now: int) returns (r: Result<()>)
    requires db.Valid()
    modifies db, db.events
    ensures db.Valid()
    ensures Reflects(r, old(db.Snap()), db.Snap(), PaymentUpdatedSpec(old(db.Snap()), nr, g, country, now))
  {
    var saved := db.Snap();
    var u := UpdatePaymentInfo(db, nr, g, now);
    if u.Failure? {
      return Failure(u.error);
    }
    r := React(db, nr, db.orders[nr], u.value, country, now);
    if r.Failure? {
      db.Restore(saved);
    }
  }

  /** `capture_payment_amount(event)`. */
  method CapturePaymentAmount(db: OrderDb, nr: string, g1: Option<Report>, g2: Option<Report>, country: string, now: int)
    returns (r: Result<()>)
    requires db.Valid()
    modifies db, db.events
    ensures db.Valid()
    ensures Reflects(r, old(db.Snap()), db.Snap(), CapturePaymentAmountSpec(old(db.Snap()), nr, g1, g2, country, now))
  {
    var o := GetDetails(db, nr);
    if o.Failure? {
      return Failure(o.error);
    }
    var amount := o.value.paymentAmount;
    if !IsPrepaid(o.value.paymentMethodCode) || amount == 0 {
      return Success(());
    }
    if !(o.value.paymentAuthorized >= amount >= o.value.paymentCaptured) {
      return Success(());
    }
    var saved := db.Snap();
    r := PaymentCapture(db, nr, amount, g1, now);
    if r.Failure? {
      return;
    }
    r := PaymentUpdated(db, nr, g2, country, now);
    if r.Failure? {
      db.Restore(saved);
    }
  }

  /** `credit.capture(order_nr, amount)`. */
  method CreditCapture(db: OrderDb, nr: string, amount: int, reply: Credit.LedgerReply, mp: string, now: int) returns (r: Result<()>)
    requires db.Valid()
    modifies db, db.events
    ensures db.Valid()
    ensures Reflects(r, old(db.Snap()), db.Snap(), CreditSpec(old(db.Snap()), nr, amount, reply, mp, now))
  {
    var c := Credit.Capture(db, nr, amount, reply, mp, now);
    if c.Failure? {
      return Failure(c.error);
    }
    return Success(());
  }

  /** What is left over after a refund goes to credit. */
  method Remainder(db: OrderDb, nr: string, reply: Credit.LedgerReply, mp: string, now: int) returns (r: Result<()>)
    requires db.Valid()
    modifies db, db.events
    ensures db.Valid()
    ensures Reflects(r, old(db.Snap()), db.Snap(), RemainderSpec(old(db.Snap()), nr, reply, mp, now))
  {
    var o := GetDetails(db, nr);
    if o.Failure? {
      return Failure(o.error);
    }
    assert RemainderSpec(db.Snap(), nr, reply, mp, now) ==
      LeftoverSpec(db.Snap(), nr, o.value.collectedFromCustomer - o.value.collectFromCustomer, o.value.creditCaptured, reply, mp, now);
    r := Leftover(db, nr, o.value.collectedFromCustomer - o.value.collectFromCustomer, o.value.creditCaptured, reply, mp, now);
  }

  method Leftover(db: OrderDb, nr: string, diff: int, credit: int, reply: Credit.LedgerReply, mp: string, now: int) returns (r: Result<()>)
    requires db.Valid()
    modifies db, db.events
    ensures db.Valid()
    ensures Reflects(r, old(db.Snap()), db.Snap(), LeftoverSpec(old(db.Snap()), nr, diff, credit, reply, mp, now))
  {
    if diff == 0 {
      return Success(());
    }
    assert LeftoverSpec(db.Snap(), nr, diff, credit, reply, mp, now) == CreditSpec(db.Snap(), nr, credit + diff, reply, mp, now);
    r := CreditCapture(db, nr, credit + diff, reply, mp, now);
  }

  /** A capture the gateway refuses: the request is recorded. */
  method CaptureRefused(db: OrderDb, nr: string, amount: int) returns (r: Result<()>)
    requires db.Valid()
    modifies db
    ensures db.Valid()
    ensures Reflects(r, old(db.Snap()), db.Snap(), CaptureRefusedSpec(old(db.Snap()), nr, amount))
  {
    if amount < 0 {
      return Failure(InvalidAmount);
    }
    if nr !in db.orders {
      return Failure(Credit.NoRow);
    }
    if amount > db.orders[nr].paymentCaptured + db.orders[nr].paymentAuthorized {
      return Failure(OverAuthorized);
    }
    db.gatewayCalls := db.gatewayCalls + [CaptureCall(nr, amount)];
    return Success(());
  }

  /** The capture branch of `settle_payment`. */
  method SettleCapture(db: OrderDb, nr: string, x: int, fallback: int, gw: GatewayOutcome, g: Option<Report>,
                       reply: Credit.LedgerReply, mp: string, now: int)
    returns (r: Result<()>)
    requires db.Valid()
    modifies db, db.events
    ensures db.Valid()
    ensures Reflects(r, old(db.Snap()), db.Snap(), SettleCaptureSpec(old(db.Snap()), nr, x, fallback, gw, g, reply, mp, now))
  {
    if gw.Accepted? {
      r := PaymentCapture(db, nr, x, g, now);
      return;
    }
    var saved := db.Snap();
    r := CaptureRefused(db, nr, x);
    if r.Failure? {
      return;
    }
    r := CreditCapture(db, nr, fallback, reply, mp, now);
    if r.Failure? {
      db.Restore(saved);
    }
  }

  /** `payment_refund` inside `ignore_http_permanent_payment_error`. */
  method RefundAttempt(db: OrderDb, nr: string, t: int, gw: GatewayOutcome, g: Option<Report>, now: int) returns (r: Result<()>)
    requires db.Valid()
    modifies db, db.events
    ensures db.Valid()
    ensures Reflects(r, old(db.Snap()), db.Snap(), RefundAttemptSpec(old(db.Snap()), nr, t, gw, g, now))
  {
    if gw.PermanentError? && t >= 0 && nr in db.orders && RefundAllowed(db.orders[nr], t) {
      db.gatewayCalls := db.gatewayCalls + [Refund(nr, t)];
      return Success(());
    }
    r := PaymentRefund(db, nr, t, g, now);
  }

  method RefundThenRemainder(db: OrderDb, nr: string, t: int, gw: GatewayOutcome, g: Option<Report>, reply: Credit.LedgerReply, mp: string, now: int)
    returns (r: Result<()>)
    requires db.Valid()
    modifies db, db.events
    ensures db.Valid()
    ensures Reflects(r, old(db.Snap()), db.Snap(), RefundThenRemainderSpec(old(db.Snap()), nr, t, gw, g, reply, mp, now))
  {
    var saved := db.Snap();
    r := RefundAttempt(db, nr, t, gw, g, now);
    if r.Failure? {
      return;
    }
    r := Remainder(db, nr, reply, mp, now);
    if r.Failure? {
      db.Restore(saved);
    }
  }

  /** `settle_payment`'s action once the report is stored. */
  method Settle(db: OrderDb, nr: string, s: SettleStep, gw: GatewayOutcome, g: Option<Report>, reply: Credit.LedgerReply, mp: string, now: int)
    returns (r: Result<()>)
    requires db.Valid()
    modifies db, db.events
    ensures db.Valid()
    ensures Reflects(r, old(db.Snap()), db.Snap(), StepSpec(old(db.Snap()), nr, s, gw, g, reply, mp, now))
  {
    match s
    case Settled =>
      r := Success(());
    case CaptureMore(x, v) =>
      r := SettleCapture(db, nr, x, v, gw, g, reply, mp, now);
    case CreditBack(v) =>
      r := CreditCapture(db, nr, v, reply, mp, now);
    case RefundFirst(t) =>
      r := RefundThenRemainder(db, nr, t, gw, g, reply, mp, now);
  }

  /** `settle_payment(order_nr)`. */
  method SettlePayment(db: OrderDb, nr: string, g0: Option<Report>, gw: GatewayOutcome, g: Option<Report>,
                       reply: Credit.LedgerReply, mp: string, now: int)
    returns (r: Result<()>)
    requires db.Valid()
    modifies db, db.events
    ensures db.Valid()
    ensures Reflects(r, old(db.Snap()), db.Snap(), SettlePaymentSpec(old(db.Snap()), nr, g0, gw, g, reply, mp, now))
  {
    var saved := db.Snap();
    var u := UpdatePaymentInfo(db, nr, g0, now);
    if u.Failure? {
      return Failure(u.error);
    }
    var o := GetDetails(db, nr);
    r := Settle(db, nr, StepOf(AmountsOf(o.value)), gw, g, reply, mp, now);
    if r.Failure? {
      db.Restore(saved);
    }
  }

  /** The payment intent for a prepaid order. */
  method Intent(db: OrderDb, nr: string, o: Order, token: string) returns (r: Result<()>)
    requires db.Valid()
    modifies db
    ensures db.Valid()
    ensures Reflects(r, old(db.Snap()), db.Snap(), IntentSpec(old(db.Snap()), nr, o, token))
  {
    var parts := Text.Split(o.addressKey, '-');
    if |parts| < 2 {
      return Failure(TooFewParts);
    }
    if |parts| > 2 {
      return Failure(TooManyParts);
    }
    db.gatewayCalls := db.gatewayCalls + [CreateIntent(nr, o.paymentAmount, parts[0], parts[1])];
    if nr in db.orders {
      db.orders := db.orders[nr := db.orders[nr].(paymentIntentToken := Some(token))];
    }
    return Success(());
  }

  /** `payment_order_create` after the credit step. */
  method Charge(db: OrderDb, nr: string, o: Order, ok: bool, token: string, country: string, now: int) returns (r: Result<()>)
    requires db.Valid()
    modifies db, db.events
    ensures db.Valid()
    ensures Reflects(r, old(db.Snap()), db.Snap(), ChargeSpec(old(db.Snap()), nr, o, ok, token, country, now))
  {
    if !ok {
      r := Move(db, nr, Failed, PaymentStatus.Ctx(true, country), now);
    } else if IsPrepaid(o.paymentMethodCode) {
      r := Intent(db, nr, o, token);
    } else {
      r := Move(db, nr, Done, PaymentStatus.Ctx(false, country), now);
    }
  }

  /** `payment_order_create(event)`. */
  method PaymentOrderCreate(db: OrderDb, nr: string, reply: Credit.LedgerReply, token: string, mp: string, country: string, now: int)
    returns (r: Result<()>)
    requires db.Valid()
    modifies db, db.events
    ensures db.Valid()
    ensures Reflects(r, old(db.Snap()), db.Snap(), PaymentOrderCreateSpec(old(db.Snap()), nr, reply, token, mp, country, now))
  {
    var o := GetDetails(db, nr);
    if o.Failure? {
      return Failure(o.error);
    }
    if o.value.collectFromCustomer == 0 || o.value.statusPayment != Pending {
      return Success(());
    }
    var saved := db.Snap();
    var ok := true;
    if o.value.creditAmount != 0 {
      var c := Credit.CaptureCreditAmount(db, nr, reply, mp, now);
      if c.Failure? {
        return Failure(c.error);
      }
      ok := c.value;
    }
    r := Charge(db, nr, o.value, ok, token, country, now);
    if r.Failure? {
      db.Restore(saved);
    }
  }
}
