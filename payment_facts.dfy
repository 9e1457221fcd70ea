// What the payment operations promise: the settle decision and its bounds,
// the capture and refund guards and the gateway request each sends, the
// columns `update_payment_info` copies from the gateway's report, what
// `payment_updated` does to the payment status, and the guards of
// `payment_order_create`.
module PaymentFacts {
  import opened Wrappers
  import opened OrderEnums
  import opened OrderRow
  import opened OrderStore
  import Invoice
  import Text
  import PaymentStatus
  import Credit
  import OrderFacts
  import opened Payment

  // ---------------------------------------------------------------------
  // settle_payment's decision

  /** Nothing is done exactly when the amount to collect is the amount
      collected. */
  lemma SettledIff(a: Amounts)
    ensures StepOf(a) == Settled <==> a.collect == a.collected
  {
  }

  /** Collected too little while the authorization covers more than is
      captured: the capture asked for is more than is captured, never more
      than is authorized, and short of the captured amount plus the
      shortfall only when the authorization runs out; if the gateway
      refuses it, the shortfall is taken from credit exactly as when
      nothing more is authorized. */
  lemma UnderCaptures(a: Amounts)
    requires a.collect > a.collected && a.authorized > a.captured
    ensures StepOf(a).CaptureMore?
    ensures var x := StepOf(a).amount;
      a.captured < x <= a.authorized && x <= a.captured + (a.collect - a.collected) &&
      (x == a.authorized || x == a.captured + (a.collect - a.collected))
    ensures CreditBack(StepOf(a).fallback) == StepOf(a.(authorized := a.captured))
  {
  }

  /** A capture the gateway refuses still records the request, leaves the
      order's columns as they were, and goes on to the credit capture. */
  lemma RefusedCaptureFallsBack(db: Db, nr: string, x: int, v: int, g: Option<Report>, reply: Credit.LedgerReply, mp: string, now: int)
    requires nr in db.orders && 0 <= x <= db.orders[nr].paymentCaptured + db.orders[nr].paymentAuthorized
    ensures var d := db.(gatewayCalls := db.gatewayCalls + [CaptureCall(nr, x)]);
      CaptureRefusedSpec(db, nr, x) == Success(d) &&
      SettleCaptureSpec(db, nr, x, v, PermanentError, g, reply, mp, now) == CreditSpec(d, nr, v, reply, mp, now)
  {
  }

  /** A refund the gateway refuses records the request and changes no
      row, so the surplus read back afterwards is the whole surplus. */
  lemma RefusedRefundKeepsOrder(db: Db, nr: string, t: int, g: Option<Report>, reply: Credit.LedgerReply, mp: string, now: int)
    requires nr in db.orders && t >= 0 && RefundAllowed(db.orders[nr], t)
    ensures var d := db.(gatewayCalls := db.gatewayCalls + [Refund(nr, t)]);
      RefundAttemptSpec(db, nr, t, PermanentError, g, now) == Success(d) &&
      Details(d, nr) == Details(db, nr) &&
      RefundThenRemainderSpec(db, nr, t, PermanentError, g, reply, mp, now) == RemainderSpec(d, nr, reply, mp, now)
  {
  }

  /** Collected too little with nothing more authorized: the shortfall is
      taken from the credit captured. */
  lemma UnderCredits(a: Amounts)
    requires a.collect > a.collected && a.authorized <= a.captured
    ensures StepOf(a) == CreditBack(a.credit - (a.collect - a.collected))
  {
  }

  /** Collected too much: a refund is asked for exactly when more was
      captured than is refunded; otherwise the whole surplus goes back as
      credit. */
  lemma OverRefundsIff(a: Amounts)
    requires a.collect < a.collected
    ensures StepOf(a).RefundFirst? <==> a.captured + a.refundedCol > 0
    ensures !StepOf(a).RefundFirst? ==> StepOf(a) == CreditBack(a.credit + (a.collected - a.collect))
    ensures StepOf(a).RefundFirst? ==> Some(StepOf(a).target) == RefundTarget(a.captured, a.refundedCol, a.collected - a.collect)
  {
  }

  /** The total refund asked for lies between what is already refunded and
      what was captured, and adds to the refunds the surplus or, when less
      is left, all that is left. */
  lemma RefundTargetBounds(captured: int, refundedCol: int, diff: int)
    requires diff > 0
    ensures RefundTarget(captured, refundedCol, diff).Some? <==> captured + refundedCol > 0
    ensures RefundTarget(captured, refundedCol, diff).Some? ==>
      var t := RefundTarget(captured, refundedCol, diff).value;
      -refundedCol < t <= captured &&
      t + refundedCol == Min(captured + refundedCol, diff)
  {
  }

  /** So `payment_refund` sends the refund the settlement asks for: the
      order's columns allow it. */
  lemma RefundTargetAllowed(o: Order, diff: int)
    requires diff > 0 && RefundTarget(o.paymentCaptured, o.paymentRefunded, diff).Some?
    ensures RefundAllowed(o, RefundTarget(o.paymentCaptured, o.paymentRefunded, diff).value)
  {
  }

  /** Nothing refunded yet: the code as written asks for the same refund. */
  lemma RefundAsWrittenAgrees(captured: int, diff: int)
    requires diff > 0
    ensures RefundTargetAsWritten(captured, 0, diff) == RefundTarget(captured, 0, diff)
  {
  }

  /** After a partial refund the code as written asks for a negative
      refund, which `payment_refund`'s assertion rejects whatever the
      gateway would answer, so the settlement fails: 100 captured, 30
      refunded and 20 collected too much give -10 instead of 50; 50
      captured, all 50 refunded and 20 collected too much give -30,
      where nothing is left to refund and the surplus should go to credit. */
  lemma RefundAsWrittenGoesNegative(db: Db, nr: string, collect: int, authorized: int, credit: int, gw: GatewayOutcome,
                                    g: Option<Report>, reply: Credit.LedgerReply, mp: string, now: int)
    ensures RefundTargetAsWritten(100, -30, 20) == Some(-10)
    ensures RefundTarget(100, -30, 20) == Some(50)
    ensures var a := Amounts(collect, collect + 20, authorized, 100, -30, credit);
      StepOfAsWritten(a) == RefundFirst(-10) && StepOf(a) == RefundFirst(50) &&
      StepSpec(db, nr, StepOfAsWritten(a), gw, g, reply, mp, now) == Failure(InvalidAmount)
    ensures var a := Amounts(collect, collect + 20, authorized, 50, -50, credit);
      StepOfAsWritten(a) == RefundFirst(-30) && StepOf(a) == CreditBack(credit + 20) &&
      StepSpec(db, nr, StepOfAsWritten(a), gw, g, reply, mp, now) == Failure(InvalidAmount)
  {
  }

  /** The decision as written and the corrected one differ only where a
      refund has already been made. */
  lemma StepAsWrittenAgrees(a: Amounts)
    requires a.refundedCol == 0
    ensures StepOfAsWritten(a) == StepOf(a)
  {
  }

  // ---------------------------------------------------------------------
  // update_payment_info

  /** `update_payment_info` rewrites at most the order's row, its history,
      ETA rows and events: the order set, the other rows, the gateway and
      ledger requests, subscriptions and sessions are kept. */
  lemma UpdatePaymentInfoFrame(db: Db, nr: string, g: Option<Report>, now: int)
    requires UpdatePaymentInfoSpec(db, nr, g, now).Success?
    ensures var d := UpdatePaymentInfoSpec(db, nr, g, now).value.0;
      nr in d.orders && d.orders.Keys == db.orders.Keys &&
      (forall k :: k in db.orders && k != nr ==> d.orders[k] == db.orders[k]) &&
      d.gatewayCalls == db.gatewayCalls && d.ledgerCalls == db.ledgerCalls &&
      d.subscriptions == db.subscriptions && d.sessions == db.sessions && d.items == db.items
  {
    var o := Details(db, nr).value;
    if Consults(o) && g.Some? {
      var m := Dict(ReportPatch(g.value));
      var d := ModifyOrderSpec(db, nr, m, now, true).value.0;
      assert UpdatePaymentInfoSpec(db, nr, g, now).value.0 == d;
      OrderFacts.ModifyOrderFrame(db, nr, m, now, true);
      assert d.(orders := db.orders, history := db.history, eta := db.eta, events := db.events).gatewayCalls == d.gatewayCalls;
    }
  }

  /** Without a report to read (not prepaid, no intent token, or nothing
      returned) `update_payment_info` changes nothing and returns None; with
      one it returns the report's status and stores the authorized amount
      net of reversals and captures, the captured amount, and the refunded
      amount negated. */
  lemma UpdatePaymentInfoColumns(db: Db, nr: string, g: Option<Report>, now: int)
    requires nr in db.orders
    requires UpdatePaymentInfoSpec(db, nr, g, now).Success?
    ensures var u := UpdatePaymentInfoSpec(db, nr, g, now).value;
      var o := Loaded(db.orders[nr], ItemsOf(db, nr));
      (!Consults(o) || g.None? ==> u == (db, None)) &&
      (Consults(o) && g.Some? ==>
        u.1 == Some(g.value.status) &&
        var row := u.0.orders[nr];
        row.paymentAuthorized == g.value.authorized - g.value.reversed - g.value.captured &&
        row.paymentCaptured == g.value.captured &&
        row.paymentRefunded == -g.value.refunded &&
        row.isCreditCardUsed == g.value.isCcPayment &&
        row.collectedFromCustomer == Invoice.CollectedFromCustomer(row.(collectedFromCustomer := 0)))
  {
    var o := Loaded(db.orders[nr], ItemsOf(db, nr));
    if Consults(o) && g.Some? {
      var m := Dict(ReportPatch(g.value));
      OrderFacts.ModifyOrderStores(db, nr, m, now, true);
    }
  }

  // ---------------------------------------------------------------------
  // payment_capture and payment_refund

  /** `payment_capture` refuses a negative amount, and an amount above what
      is captured plus authorized. */
  lemma CaptureRefuses(db: Db, nr: string, amount: int, g: Option<Report>, now: int)
    ensures amount < 0 ==> PaymentCaptureSpec(db, nr, amount, g, now) == Failure(InvalidAmount)
    ensures amount >= 0 && nr in db.orders && amount > db.orders[nr].paymentCaptured + db.orders[nr].paymentAuthorized ==>
      PaymentCaptureSpec(db, nr, amount, g, now) == Failure(OverAuthorized)
  {
  }

  /** A capture that goes through sent one gateway request: a reverse for
      amount 0, a capture of the amount otherwise. */
  lemma CaptureSends(db: Db, nr: string, amount: int, g: Option<Report>, now: int)
    requires PaymentCaptureSpec(db, nr, amount, g, now).Success?
    ensures 0 <= amount && nr in db.orders && amount <= db.orders[nr].paymentCaptured + db.orders[nr].paymentAuthorized
    ensures var d := PaymentCaptureSpec(db, nr, amount, g, now).value;
      d.gatewayCalls == db.gatewayCalls + [CaptureCall(nr, amount)] &&
      (d.gatewayCalls[|db.gatewayCalls|] == Reverse(nr) <==> amount == 0)
  {
    var db1 := db.(gatewayCalls := db.gatewayCalls + [CaptureCall(nr, amount)]);
    UpdatePaymentInfoFrame(db1, nr, g, now);
  }

  /** A refund that goes through asked the gateway for the refund exactly
      when it lies between what is refunded and what is captured. */
  lemma RefundSendsIff(db: Db, nr: string, amount: int, g: Option<Report>, now: int)
    requires PaymentRefundSpec(db, nr, amount, g, now).Success?
    ensures 0 <= amount && nr in db.orders
    ensures var d := PaymentRefundSpec(db, nr, amount, g, now).value;
      (RefundAllowed(db.orders[nr], amount) ==> d.gatewayCalls == db.gatewayCalls + [Refund(nr, amount)]) &&
      (!RefundAllowed(db.orders[nr], amount) ==> d.gatewayCalls == db.gatewayCalls)
  {
    var calls := if RefundAllowed(db.orders[nr], amount) then [Refund(nr, amount)] else [];
    var db1 := db.(gatewayCalls := db.gatewayCalls + calls);
    UpdatePaymentInfoFrame(db1, nr, g, now);
    assert db.gatewayCalls + [] == db.gatewayCalls;
  }

  // ---------------------------------------------------------------------
  // payment_updated

  /** A payment status transition that goes through without flags has
      moved the payment status column to its target. */
  lemma MoveSetsColumn(db: Db, nr: string, to: string, ctx: PaymentStatus.Ctx, now: int)
    requires MoveSpec(db, nr, to, ctx, now).Success?
    ensures nr in MoveSpec(db, nr, to, ctx, now).value.orders
    ensures MoveSpec(db, nr, to, ctx, now).value.orders[nr].statusPayment == to
  {
    var col := PaymentStatus.Column(db, nr);
    var step := StatusMachine.Decide(col, to, PaymentStatus.Names, db.statusCodes, StatusMachine.Returns, NoFlags, PaymentStatus.Table, nr);
    assert step.Success?;
    assert step.value == StatusMachine.Moved;
    PaymentStatus.MovedSetsColumn(db, nr, to, NoFlags, ctx, now);
  }

  /** `payment_updated` acts only while the payment is pending: a gateway
      status `payment_failed` makes it failed, and otherwise it becomes done
      exactly when the payment amount is positive and covered by what is
      authorized plus captured. */
  lemma PaymentUpdatedOutcome(db: Db, nr: string, g: Option<Report>, country: string, now: int)
    requires PaymentUpdatedSpec(db, nr, g, country, now).Success?
    ensures UpdatePaymentInfoSpec(db, nr, g, now).Success?
    ensures var u := UpdatePaymentInfoSpec(db, nr, g, now).value;
      var o := u.0.orders[nr];
      var d := PaymentUpdatedSpec(db, nr, g, country, now).value;
      nr in d.orders &&
      (o.statusPayment != Pending ==> d == u.0) &&
      (o.statusPayment == Pending && u.1 == Some(PaymentFailed) ==> d.orders[nr].statusPayment == Failed) &&
      (o.statusPayment == Pending && u.1 != Some(PaymentFailed) ==>
        (d.orders[nr].statusPayment == Done <==> Covered(o)))
  {
    var u := UpdatePaymentInfoSpec(db, nr, g, now).value;
    var o := u.0.orders[nr];
    if o.statusPayment == Pending {
      if u.1 == Some(PaymentFailed) {
        MoveSetsColumn(u.0, nr, Failed, PaymentStatus.Ctx(false, country), now);
      } else if Covered(o) {
        MoveSetsColumn(u.0, nr, Done, PaymentStatus.Ctx(false, country), now);
      }
    }
  }

  /** `capture_payment_amount` leaves everything as it was for an order
      that is not prepaid, has nothing to pay, or whose payment amount is
      not between what is captured and what is authorized. */
  lemma CapturePaymentAmountSkips(db: Db, nr: string, g1: Option<Report>, g2: Option<Report>, country: string, now: int)
    requires nr in db.orders
    ensures var o := Loaded(db.orders[nr], ItemsOf(db, nr));
      (!IsPrepaid(o.paymentMethodCode) || o.paymentAmount == 0 ||
       !(o.paymentAuthorized >= o.paymentAmount >= o.paymentCaptured)) ==>
      CapturePaymentAmountSpec(db, nr, g1, g2, country, now) == Success(db)
  {
  }

  /** Otherwise it captures the payment amount, which is positive, so the
      gateway is asked for a capture and not a reverse. */
  lemma CapturePaymentAmountCaptures(db: Db, nr: string, g1: Option<Report>, now: int)
    requires nr in db.orders
    requires var o := Loaded(db.orders[nr], ItemsOf(db, nr));
      IsPrepaid(o.paymentMethodCode) && o.paymentAmount != 0 &&
      o.paymentAuthorized >= o.paymentAmount >= o.paymentCaptured
    requires PaymentCaptureSpec(db, nr, Loaded(db.orders[nr], ItemsOf(db, nr)).paymentAmount, g1, now).Success?
    ensures var o := Loaded(db.orders[nr], ItemsOf(db, nr));
      o.paymentAmount > 0 &&
      PaymentCaptureSpec(db, nr, o.paymentAmount, g1, now).value.gatewayCalls ==
        db.gatewayCalls + [Capture(nr, o.paymentAmount)]
  {
    var o := Loaded(db.orders[nr], ItemsOf(db, nr));
    CaptureSends(db, nr, o.paymentAmount, g1, now);
  }

  // ---------------------------------------------------------------------
  // payment_order_create

  /** `payment_order_create` leaves everything as it was when there is
      nothing to collect or the payment is no longer pending. */
  lemma OrderCreateSkips(db: Db, nr: string, reply: Credit.LedgerReply, token: string, mp: string, country: string, now: int)
    requires nr in db.orders
    ensures var o := Loaded(db.orders[nr], ItemsOf(db, nr));
      (o.collectFromCustomer == 0 || o.statusPayment != Pending) ==>
      PaymentOrderCreateSpec(db, nr, reply, token, mp, country, now) == Success(db)
  {
  }

  /** For a prepaid order without credit, the intent is requested exactly
      when the address key splits into a code and a version; the request
      carries the payment amount and the token is stored on the order. */
  lemma OrderCreateIntent(db: Db, nr: string, reply: Credit.LedgerReply, token: string, mp: string, country: string, now: int)
    requires nr in db.orders
    requires var o := Loaded(db.orders[nr], ItemsOf(db, nr));
      o.collectFromCustomer != 0 && o.statusPayment == Pending && o.creditAmount == 0 && IsPrepaid(o.paymentMethodCode)
    ensures var o := Loaded(db.orders[nr], ItemsOf(db, nr));
      var parts := Text.Split(o.addressKey, '-');
      var r := PaymentOrderCreateSpec(db, nr, reply, token, mp, country, now);
      (r.Success? <==> |parts| == 2) &&
      (r.Success? ==>
        r.value.gatewayCalls == db.gatewayCalls + [CreateIntent(nr, o.paymentAmount, parts[0], parts[1])] &&
        nr in r.value.orders && r.value.orders[nr].paymentIntentToken == Some(token))
  {
  }
}
