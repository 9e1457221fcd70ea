// The credit-ledger side of an order: a transaction request built from the
// order row, sent to the ledger, and the ledger's `ref_balance` written
// back through `modify_order`. The ledger is an oracle whose reply is a
// parameter; the marketplace code `mp` is the deployment's MP_CODE setting.
module Credit {
  import opened Wrappers
  import opened OrderEnums
  import opened OrderRow
  import opened OrderStore
  import Util
  import OrderFacts

  /** The ledger's reply to `make_transaction`. */
  datatype LedgerReply = LedgerReply(status: string, balance: Util.Dec, refBalance: int)

  const Ok := "ok"
  const CaptureFailed := "failed to capture credit amount"
  const NotPending := "invalid order status for credit capturing"
  const NoCredit := "no credit amount to be captured"
  /** What subscripting the `None` of a missing row raises. */
  const NoRow := "'NoneType' object is not subscriptable"

  const CreditFor := " - Credit for order number: "
  const WithdrawnFor := " - Withdrawn for order number: "

  function RefTypeOrder(mp: string): string
  {
    mp + "_order"
  }

  function RefTypeGoodwill(mp: string): string
  {
    mp + "_goodwill"
  }

  function Description(mp: string, nr: string, amount: int): string
  {
    mp + (if amount > 0 then CreditFor else WithdrawnFor) + nr
  }

  /** `_make_transaction_payload(order_nr, amount, goodwill)`. */
  function PayloadSpec(db: Db, nr: string, amount: int, goodwill: bool, mp: string): Result<Transaction>
  {
    if nr !in db.orders then Failure(NoRow)
    else
      Success(Transaction(if goodwill then RefTypeGoodwill(mp) else RefTypeOrder(mp), nr,
                          db.orders[nr].customerCode, Description(mp, nr, amount), amount))
  }

  /** The ledger request is sent, then the reply must be `ok`, then the
      column `p` names is patched through `modify_order`. */
  function BookSpec(db: Db, nr: string, t: Transaction, reply: LedgerReply, p: Patch, now: int): Result<Db>
  {
    var db1 := db.(ledgerCalls := db.ledgerCalls + [t]);
    if reply.status != Ok then Failure(CaptureFailed)
    else
      var r :- ModifyOrderSpec(db1, nr, Dict(p), now, true);
      Success(r.0)
  }

  function CapturedPatch(refBalance: int): Patch
  {
    NoChange.(creditCaptured := Some(refBalance))
  }

  function IssuedCapturedPatch(refBalance: int): Patch
  {
    NoChange.(issuedCreditCaptured := Some(refBalance))
  }

  /** `capture(order_nr, amount)`: the new database and the balance the
      ledger returned. */
  function CaptureSpec(db: Db, nr: string, amount: int, reply: LedgerReply, mp: string, now: int): Result<(Db, Util.Dec)>
  {
    var t :- PayloadSpec(db, nr, amount, false, mp);
    var d :- BookSpec(db, nr, t, reply, CapturedPatch(reply.refBalance), now);
    Success((d, reply.balance))
  }

  /** `decimal_round(balance) > 0`. */
  predicate RoundsPositive(balance: Util.Dec)
  {
    Util.DecimalRound(Some(balance), false).value.Amount? &&
    Util.DecimalRound(Some(balance), false).value.cents > 0
  }

  /** `capture_credit_amount(order_nr)`: the new database and whether the
      remaining balance is positive. */
  function CaptureCreditAmountSpec(db: Db, nr: string, reply: LedgerReply, mp: string, now: int): Result<(Db, bool)>
  {
    if nr !in db.orders then Failure(NoRow)
    else if db.orders[nr].statusPayment != Pending then Failure(NotPending)
    else if db.orders[nr].creditAmount == 0 then Failure(NoCredit)
    else
      var r :- CaptureSpec(db, nr, db.orders[nr].creditAmount, reply, mp, now);
      Success((r.0, RoundsPositive(r.1)))
  }

  /** `capture_issued_credits(event)` for the event's order. */
  function CaptureIssuedCreditsSpec(db: Db, nr: string, reply: LedgerReply, mp: string, now: int): Result<Db>
  {
    if nr !in db.orders then Failure(NoRow)
    else
      var t :- PayloadSpec(db, nr, db.orders[nr].issuedCredit, true, mp);
      BookSpec(db, nr, t, reply, IssuedCapturedPatch(reply.refBalance), now)
  }

  /** `set_issued_credits(order_nr, amount)`. */
  function SetIssuedCreditsSpec(db: Db, nr: string, amount: int, now: int): Result<Db>
  {
    var r :- ModifyOrderSpec(db, nr, Dict(NoChange.(issuedCredit := Some(amount))), now, true);
    Success(r.0)
  }

  // ---------------------------------------------------------------------
  // The methods

  method Book(db: OrderDb, nr: string, t: Transaction, reply: LedgerReply, p: Patch, now: int) returns (r: Result<()>)
    requires db.Valid()
    modifies db, db.events
    ensures db.Valid()
    ensures match BookSpec(old(db.Snap()), nr, t, reply, p, now)
            case Failure(e) => r == Failure(e) && db.Snap() == old(db.Snap())
            case Success(d) => r == Success(()) && db.Snap() == d
  {
    var saved := db.Snap();
    db.ledgerCalls := db.ledgerCalls + [t];
    if reply.status != Ok {
      db.Restore(saved);
      return Failure(CaptureFailed);
    }
    var m := db.ModifyOrder(nr, Dict(p), now, true);
    if m.Failure? {
      db.Restore(saved);
      return Failure(m.error);
    }
    return Success(());
  }

  method Payload(db: OrderDb, nr: string, amount: int, goodwill: bool, mp: string) returns (r: Result<Transaction>)
    ensures r == PayloadSpec(db.Snap(), nr, amount, goodwill, mp)
  {
    if nr !in db.orders {
      return Failure(NoRow);
    }
    return Success(Transaction(if goodwill then RefTypeGoodwill(mp) else RefTypeOrder(mp), nr,
                               db.orders[nr].customerCode, Description(mp, nr, amount), amount));
  }

  /** `capture(order_nr, amount)`. */
  method Capture(db: OrderDb, nr: string, amount: int, reply: LedgerReply, mp: string, now: int) returns (r: Result<Util.Dec>)
    requires db.Valid()
    modifies db, db.events
    ensures db.Valid()
    ensures match CaptureSpec(old(db.Snap()), nr, amount, reply, mp, now)
            case Failure(e) => r == Failure(e) && db.Snap() == old(db.Snap())
            case Success(res) => r == Success(res.1) && db.Snap() == res.0
  {
    var t := Payload(db, nr, amount, false, mp);
    if t.Failure? {
      return Failure(t.error);
    }
    var b := Book(db, nr, t.value, reply, CapturedPatch(reply.refBalance), now);
    if b.Failure? {
      return Failure(b.error);
    }
    return Success(reply.balance);
  }

  /** `capture_credit_amount(order_nr)`. */
  method CaptureCreditAmount(db: OrderDb, nr: string, reply: LedgerReply, mp: string, now: int) returns (r: Result<bool>)
    requires db.Valid()
    modifies db, db.events
    ensures db.Valid()
    ensures match CaptureCreditAmountSpec(old(db.Snap()), nr, reply, mp, now)
            case Failure(e) => r == Failure(e) && db.Snap() == old(db.Snap())
            case Success(res) => r == Success(res.1) && db.Snap() == res.0
  {
    if nr !in db.orders {
      return Failure(NoRow);
    }
    if db.orders[nr].statusPayment != Pending {
      return Failure(NotPending);
    }
    if db.orders[nr].creditAmount == 0 {
      return Failure(NoCredit);
    }
    var b := Capture(db, nr, db.orders[nr].creditAmount, reply, mp, now);
    if b.Failure? {
      return Failure(b.error);
    }
    return Success(RoundsPositive(b.value));
  }

  /** `capture_issued_credits(event)`. */
  method CaptureIssuedCredits(db: OrderDb, nr: string, reply: LedgerReply, mp: string, now: int) returns (r: Result<()>)
    requires db.Valid()
    modifies db, db.events
    ensures db.Valid()
    ensures match CaptureIssuedCreditsSpec(old(db.Snap()), nr, reply, mp, now)
            case Failure(e) => r == Failure(e) && db.Snap() == old(db.Snap())
            case Success(d) => r == Success(()) && db.Snap() == d
  {
    if nr !in db.orders {
      return Failure(NoRow);
    }
    var t := Payload(db, nr, db.orders[nr].issuedCredit, true, mp);
    r := Book(db, nr, t.value, reply, IssuedCapturedPatch(reply.refBalance), now);
  }

  /** `set_issued_credits(order_nr, amount)`. */
  method SetIssuedCredits(db: OrderDb, nr: string, amount: int, now: int) returns (r: Result<()>)
    requires db.Valid()
    modifies db, db.events
    ensures db.Valid()
    ensures match SetIssuedCreditsSpec(old(db.Snap()), nr, amount, now)
            case Failure(e) => r == Failure(e) && db.Snap() == old(db.Snap())
            case Success(d) => r == Success(()) && db.Snap() == d
  {
    var m := db.ModifyOrder(nr, Dict(NoChange.(issuedCredit := Some(amount))), now, true);
    if m.Failure? {
      return Failure(m.error);
    }
    return Success(());
  }

  // ---------------------------------------------------------------------
  // What the ledger side promises

  /** A description names its order and whether the amount was credited:
      two descriptions agree exactly when both agree. */
  lemma DescriptionInjective(mp: string, nr1: string, a1: int, nr2: string, a2: int)
    ensures Description(mp, nr1, a1) == Description(mp, nr2, a2) <==> nr1 == nr2 && (a1 > 0 <==> a2 > 0)
  {
    var p1 := mp + (if a1 > 0 then CreditFor else WithdrawnFor);
    var p2 := mp + (if a2 > 0 then CreditFor else WithdrawnFor);
    if Description(mp, nr1, a1) == Description(mp, nr2, a2) {
      assert Description(mp, nr1, a1)[|mp| + 3] == p1[|mp| + 3];
      assert Description(mp, nr2, a2)[|mp| + 3] == p2[|mp| + 3];
      assert (a1 > 0 <==> a2 > 0);
      assert |p1| == |p2|;
      assert nr1 == Description(mp, nr1, a1)[|p1|..];
      assert nr2 == Description(mp, nr2, a2)[|p2|..];
    }
  }

  /** Goodwill and order transactions carry distinct reference types. */
  lemma RefTypesDistinct(mp: string)
    ensures RefTypeOrder(mp) != RefTypeGoodwill(mp)
  {
    assert RefTypeOrder(mp)[|mp| + 1] == 'o';
    assert RefTypeGoodwill(mp)[|mp| + 1] == 'g';
  }

  /** The request `capture` sends: an order transaction for the amount,
      booked against the order's customer. */
  lemma PayloadFacts(db: Db, nr: string, amount: int, goodwill: bool, mp: string)
    ensures PayloadSpec(db, nr, amount, goodwill, mp).Success? <==> nr in db.orders
    ensures PayloadSpec(db, nr, amount, goodwill, mp).Success? ==>
      var t := PayloadSpec(db, nr, amount, goodwill, mp).value;
      t.value == amount && t.refCode == nr && t.customerCode == db.orders[nr].customerCode &&
      (t.refType == RefTypeGoodwill(mp) <==> goodwill) &&
      (t.description == Description(mp, nr, 1) <==> amount > 0)
  {
    RefTypesDistinct(mp);
    DescriptionInjective(mp, nr, amount, nr, 1);
  }

  /** `capture` fails exactly when the order is missing, the ledger did not
      answer `ok`, or the payment update refuses the order; on success the
      request is the last ledger call and the order's credit captured is the
      returned `ref_balance`. */
  lemma CaptureOutcome(db: Db, nr: string, amount: int, reply: LedgerReply, mp: string, now: int)
    ensures CaptureSpec(db, nr, amount, reply, mp, now).Failure? <==>
      nr !in db.orders || reply.status != Ok ||
      Modified(db, nr, Dict(CapturedPatch(reply.refBalance))).collectFromCustomer < 0
    ensures CaptureSpec(db, nr, amount, reply, mp, now).Success? ==>
      var d := CaptureSpec(db, nr, amount, reply, mp, now).value.0;
      d.ledgerCalls == db.ledgerCalls + [PayloadSpec(db, nr, amount, false, mp).value] &&
      nr in d.orders && d.orders[nr].creditCaptured == reply.refBalance &&
      d.gatewayCalls == db.gatewayCalls
  {
    if nr in db.orders {
      var t := PayloadSpec(db, nr, amount, false, mp).value;
      var db1 := db.(ledgerCalls := db.ledgerCalls + [t]);
      BookFacts(db, nr, t, reply, CapturedPatch(reply.refBalance), now);
      assert Modified(db1, nr, Dict(CapturedPatch(reply.refBalance))) == Modified(db, nr, Dict(CapturedPatch(reply.refBalance)));
    }
  }

  /** What booking a ledger reply does to the order row. */
  lemma BookFacts(db: Db, nr: string, t: Transaction, reply: LedgerReply, p: Patch, now: int)
    requires nr in db.orders
    ensures var db1 := db.(ledgerCalls := db.ledgerCalls + [t]);
      BookSpec(db, nr, t, reply, p, now).Failure? <==>
        reply.status != Ok || Modified(db1, nr, Dict(p)).collectFromCustomer < 0
    ensures BookSpec(db, nr, t, reply, p, now).Success? ==>
      var d := BookSpec(db, nr, t, reply, p, now).value;
      d.ledgerCalls == db.ledgerCalls + [t] && d.gatewayCalls == db.gatewayCalls && nr in d.orders &&
      (p.creditCaptured.Some? ==> d.orders[nr].creditCaptured == p.creditCaptured.value) &&
      (p.issuedCreditCaptured.Some? ==> d.orders[nr].issuedCreditCaptured == p.issuedCreditCaptured.value)
  {
    var db1 := db.(ledgerCalls := db.ledgerCalls + [t]);
    if reply.status == Ok {
      OrderFacts.ModifyOrderFailsIff(db1, nr, Dict(p), now, true);
      if ModifyOrderSpec(db1, nr, Dict(p), now, true).Success? {
        OrderFacts.ModifyOrderStores(db1, nr, Dict(p), now, true);
        OrderFacts.ModifyOrderFrame(db1, nr, Dict(p), now, true);
      }
    }
  }

  /** Half-up rounding to cents leaves a positive amount exactly when the
      balance is at least half a cent. */
  lemma RoundsPositiveIff(b: Util.Dec)
    ensures RoundsPositive(b) <==>
      if b.exp <= 2 then b.units > 0 else 2 * b.units >= Util.Pow10(b.exp - 2)
  {
    if b.exp > 2 {
      DivHalfUpPositive(b.units, Util.Pow10(b.exp - 2));
    } else {
      ScalePositive(b.units, Util.Pow10(2 - b.exp));
    }
  }

  lemma DivHalfUpPositive(u: int, d: int)
    requires d >= 1
    ensures Util.DivHalfUp(u, d) > 0 <==> 2 * u >= d
  {
    QuotientFacts(Util.Abs(u), d);
  }

  lemma QuotientFacts(a: int, d: int)
    requires a >= 0 && d >= 1
    ensures a / d >= 0 && a % d >= 0
    ensures a < d ==> a / d == 0 && a % d == a
    ensures a >= d ==> a / d >= 1
  {
  }

  lemma ScalePositive(u: int, k: int)
    requires k >= 1
    ensures u * k > 0 <==> u > 0
  {
    if u > 0 {
      assert u * k >= u;
    } else {
      assert u * k <= 0;
    }
  }

  /** `capture_credit_amount` refuses orders whose payment is not pending
      and orders without credit, and otherwise reports whether the ledger's
      balance rounds to a positive amount. */
  lemma CaptureCreditAmountOutcome(db: Db, nr: string, reply: LedgerReply, mp: string, now: int)
    requires nr in db.orders
    ensures db.orders[nr].statusPayment != Pending ==> CaptureCreditAmountSpec(db, nr, reply, mp, now) == Failure(NotPending)
    ensures db.orders[nr].statusPayment == Pending && db.orders[nr].creditAmount == 0 ==>
      CaptureCreditAmountSpec(db, nr, reply, mp, now) == Failure(NoCredit)
    ensures CaptureCreditAmountSpec(db, nr, reply, mp, now).Success? ==>
      db.orders[nr].statusPayment == Pending && db.orders[nr].creditAmount != 0 &&
      (CaptureCreditAmountSpec(db, nr, reply, mp, now).value.1 <==>
        if reply.balance.exp <= 2 then reply.balance.units > 0 else 2 * reply.balance.units >= Util.Pow10(reply.balance.exp - 2))
  {
    RoundsPositiveIff(reply.balance);
  }

  /** `capture_issued_credits` books a goodwill transaction for the issued
      credit and records the returned balance as issued credit captured. */
  lemma CaptureIssuedCreditsOutcome(db: Db, nr: string, reply: LedgerReply, mp: string, now: int)
    requires CaptureIssuedCreditsSpec(db, nr, reply, mp, now).Success?
    ensures nr in db.orders && reply.status == Ok
    ensures var d := CaptureIssuedCreditsSpec(db, nr, reply, mp, now).value;
      |d.ledgerCalls| == |db.ledgerCalls| + 1 &&
      d.ledgerCalls[|db.ledgerCalls|].refType == RefTypeGoodwill(mp) &&
      d.ledgerCalls[|db.ledgerCalls|].value == db.orders[nr].issuedCredit &&
      nr in d.orders && d.orders[nr].issuedCreditCaptured == reply.refBalance
  {
    var t := PayloadSpec(db, nr, db.orders[nr].issuedCredit, true, mp).value;
    BookFacts(db, nr, t, reply, IssuedCapturedPatch(reply.refBalance), now);
  }

  /** `set_issued_credits` stores the amount as the order's issued credit. */
  lemma SetIssuedCreditsStores(db: Db, nr: string, amount: int, now: int)
    requires SetIssuedCreditsSpec(db, nr, amount, now).Success?
    ensures nr in db.orders
    ensures var d := SetIssuedCreditsSpec(db, nr, amount, now).value;
      nr in d.orders && d.orders[nr].issuedCredit == amount && d.ledgerCalls == db.ledgerCalls
  {
    OrderFacts.ModifyOrderStores(db, nr, Dict(NoChange.(issuedCredit := Some(amount))), now, true);
    OrderFacts.ModifyOrderFrame(db, nr, Dict(NoChange.(issuedCredit := Some(amount))), now, true);
  }
}
