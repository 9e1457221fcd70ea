// The customer-service commands that write to an order: issuing goodwill
// credit, adjusting what the marketplace owes for a delivered order, and
// cancelling with a reason from the internal list; plus the ETA label
// helper. The `cs_order_adjustment` table is `AdjustmentTable`; the order
// side is `OrderStore.OrderDb`. Each command is one transaction: when it
// raises, neither table keeps a write.
module CustomerService {
  import opened Wrappers
  import opened OrderEnums
  import opened OrderRow
  import opened OrderStore
  import Events
  import Credit
  import OrderFacts
  import OrderRules
  import Text

  const TwoDays := 2 * Day
  const SevenDays := 7 * Day

  /** A NUMERIC(13,2) amount in cents as `str(Decimal)` prints it. */
  function Cents(c: int): (s: string)
    ensures |s| >= 4 && s[|s| - 3] == '.'
  {
    var a := if c < 0 then -c else c;
    var tail := [Text.DigitChar(a % 100 / 10), Text.DigitChar(a % 10)];
    (if c < 0 then "-" else "") + Text.NatToString(a / 100) + "." + tail
  }

  // ---------------------------------------------------------------------
  // IssueCredit

  const NotPositive := "ensure this value is greater than 0"
  const TooOldForCredit := "Order too old to issue credits"
  const LessThanIssued := "cannot issue less credits than already issued"

  function TooHigh(total: int): string
  {
    "Credit amount too high - subtotal: " + Cents(total)
  }

  /** `amount <= total * 1.25` on cents. */
  predicate WithinCreditCap(amount: int, total: int)
  {
    4 * amount <= 5 * total
  }

  /** The checks of `IssueCredit`, in source order, on the order row
      `GetDetails` loads (none when the order is missing): the message of
      the first that fails. */
  function CreditRefusal(row: Option<Order>, amount: int, now: int): Option<string>
  {
    if amount <= 0 then Some(NotPositive)
    else if row.None? then Some(NoOrder)
    else
      var o := row.value;
      if !(now < o.placedAt + TwoDays) then Some(TooOldForCredit)
      else if !(o.issuedCredit <= amount) then Some(LessThanIssued)
      else if !WithinCreditCap(amount, o.initialOrderTotal) then Some(TooHigh(o.initialOrderTotal))
      else None
  }

  function RowOf(db: Db, nr: string): Option<Order>
  {
    if nr in db.orders then Some(db.orders[nr]) else None
  }

  /** `IssueCredit(order_nr, amount).execute()`: the checks, then
      `set_issued_credits` and the `CAPTURE_ISSUED_CREDITS` event. */
  function IssueCreditSpec(db: Db, nr: string, amount: int, now: int): Result<Db>
  {
    match CreditRefusal(RowOf(db, nr), amount, now)
    case Some(e) => Failure(e)
    case None =>
      var d :- Credit.SetIssuedCreditsSpec(db, nr, amount, now);
      Success(Enqueued(d, [OrderEvent(Events.CaptureIssuedCredits, nr)], now))
  }

  method IssueCredit(db: OrderDb, nr: string, amount: int, now: int) returns (r: Result<()>)
    requires db.Valid()
    modifies db, db.events
    ensures db.Valid()
    ensures match IssueCreditSpec(old(db.Snap()), nr, amount, now)
            case Failure(e) => r == Failure(e) && db.Snap() == old(db.Snap())
            case Success(d) => r == Success(()) && db.Snap() == d
  {
    var refusal := CreditRefusal(if nr in db.orders then Some(db.orders[nr]) else None, amount, now);
    if refusal.Some? {
      return Failure(refusal.value);
    }
    r := Credit.SetIssuedCredits(db, nr, amount, now);
    if r.Failure? {
      return;
    }
    db.AddEvents([OrderEvent(Events.CaptureIssuedCredits, nr)], now);
  }

  // ---------------------------------------------------------------------
  // The adjustment table

  datatype AdjustmentType = ItemLevel | OrderLevel

  /** A `cs_adjustment_reason` row. */
  datatype AdjustmentReason = AdjustmentReason(reasonCode: string, title: string, payerCode: string, kind: AdjustmentType)

  /** A `cs_order_adjustment` row (its surrogate key left out). */
  datatype Adjustment = Adjustment(orderNr: string, reasonCode: string, itemNr: string,
                                   comment: Option<string>, userCode: string, amount: int)

  /** Row `r` holds the unique key `(order_nr, item_nr)` of `a`. */
  predicate SameItem(r: Adjustment, a: Adjustment)
  {
    r.orderNr == a.orderNr && r.itemNr == a.itemNr
  }

  /** Row `r` holds the unique key `(order_nr, adjustment_reason_code)`
      of `a`. */
  predicate SameReason(r: Adjustment, a: Adjustment)
  {
    r.orderNr == a.orderNr && r.reasonCode == a.reasonCode
  }

  predicate Clash(r: Adjustment, a: Adjustment)
  {
    SameItem(r, a) || SameReason(r, a)
  }

  /** Both unique constraints of the table hold. */
  predicate Unique(rows: seq<Adjustment>)
  {
    forall i, j :: 0 <= i < j < |rows| ==> !Clash(rows[i], rows[j])
  }

  /** The first row holding `a`'s item key (or its reason key). */
  function FirstWith(rows: seq<Adjustment>, a: Adjustment, byItem: bool): (k: Option<nat>)
    ensures k.Some? ==> k.value < |rows| && (if byItem then SameItem(rows[k.value], a) else SameReason(rows[k.value], a))
    ensures k.None? ==> forall i :: 0 <= i < |rows| ==> !(if byItem then SameItem(rows[i], a) else SameReason(rows[i], a))
  {
    if rows == [] then None
    else if (if byItem then SameItem(rows[0], a) else SameReason(rows[0], a)) then Some(0)
    else
      var k := FirstWith(rows[1..], a, byItem);
      if k.Some? then Some(k.value + 1) else None
  }

  /** The row `INSERT ... ON DUPLICATE KEY UPDATE` updates: the unique
      keys are tried in the order the table declares them. */
  function ConflictRow(rows: seq<Adjustment>, a: Adjustment): Option<nat>
  {
    var k := FirstWith(rows, a, true);
    if k.Some? then k else FirstWith(rows, a, false)
  }

  /** The update columns of the two upserts: the item branch rewrites the
      reason, the order branch the item number. */
  function Merge(r: Adjustment, a: Adjustment, itemLevel: bool): Adjustment
  {
    var m := r.(comment := a.comment, amount := a.amount, userCode := a.userCode);
    if itemLevel then m.(reasonCode := a.reasonCode) else m.(itemNr := a.itemNr)
  }

  const DuplicateEntry := "Duplicate entry for key"

  /** `sqlutil.upsert` of one row. An update that makes the row clash
      with another one is refused by the other unique index. */
  function UpsertSpec(rows: seq<Adjustment>, a: Adjustment, itemLevel: bool): Result<seq<Adjustment>>
  {
    match ConflictRow(rows, a)
    case None => Success(rows + [a])
    case Some(k) =>
      if k >= |rows| then Success(rows)
      else
        var m := Merge(rows[k], a, itemLevel);
        if exists j :: 0 <= j < |rows| && j != k && Clash(rows[j], m) then Failure(DuplicateEntry)
        else Success(rows[k := m])
  }

  /** `SELECT SUM(amount) ... WHERE order_nr = :order_nr`. */
  function Net(rows: seq<Adjustment>, nr: string): int
  {
    if rows == [] then 0
    else Net(rows[..|rows| - 1], nr) + (if rows[|rows| - 1].orderNr == nr then rows[|rows| - 1].amount else 0)
  }

  class AdjustmentTable {
    var rows: seq<Adjustment>

    constructor ()
      ensures rows == []
    {
      rows := [];
    }

    method Upsert(a: Adjustment, itemLevel: bool) returns (r: Result<()>)
      modifies this
      ensures match UpsertSpec(old(rows), a, itemLevel)
              case Failure(e) => r == Failure(e) && rows == old(rows)
              case Success(t) => r == Success(()) && rows == t
    {
      var k := ConflictRow(rows, a);
      if k.None? {
        rows := rows + [a];
        return Success(());
      }
      if k.value >= |rows| {
        return Success(());
      }
      var m := Merge(rows[k.value], a, itemLevel);
      if exists j :: 0 <= j < |rows| && j != k.value && Clash(rows[j], m) {
        return Failure(DuplicateEntry);
      }
      rows := rows[k.value := m];
      return Success(());
    }
  }

  // ---------------------------------------------------------------------
  // AddAdjustment

  /** The command's fields; `item_nr` may be absent. */
  datatype AdjustmentRequest = AdjustmentRequest(reasonCode: string, orderNr: string, itemNr: Option<string>,
                                                 comment: Option<string>, userCode: string)

  const InvalidReason := "Invalid reason"
  const NotDelivered := "You can only add adjustments when order is delivered"
  const TooOldToAdjust := "Order is older than 7 days, cannot do adjustment"
  const NoItemNr := "Item number cannot be null for reason code: item"
  const CanceledItem := "cannot add adjustment for canceled item"
  const InvalidAmount := "Invalid adjustment amount"
  const ItemNrNotNull := "item_nr should be null for adjustment_type != \"item\""
  const FeeAlreadyZero := "Delivery Fee charged was already 0. cannot refund"
  /** What reading the never-set `adjustment['amount']` raises. */
  const NoAmount := "KeyError: 'amount'"
  const ShippingFeeRefund := "shipping_fee_refund"

  function InvalidItem(itemNr: string): string
  {
    "Invalid item number: " + itemNr
  }

  /** The reason map built from the reason rows: a later row with the same
      code replaces an earlier one. */
  function LookupReason(reasons: seq<AdjustmentReason>, code: string): (r: Option<AdjustmentReason>)
    ensures r.Some? ==> r.value in reasons && r.value.reasonCode == code
    ensures r.None? <==> forall i :: 0 <= i < |reasons| ==> reasons[i].reasonCode != code
  {
    if reasons == [] then None
    else if reasons[|reasons| - 1].reasonCode == code then Some(reasons[|reasons| - 1])
    else LookupReason(reasons[..|reasons| - 1], code)
  }

  /** The item the search loop leaves in `item_ref`: the last one with
      that item number. */
  function LastWith(items: seq<Item>, itemNr: string): Option<Item>
  {
    if items == [] then None
    else if items[|items| - 1].itemNr == itemNr then Some(items[|items| - 1])
    else LastWith(items[..|items| - 1], itemNr)
  }

  /** The formatted item's `cancel_reason` is set exactly when its
      `cancel_reason_code` is truthy. */
  predicate IsCanceled(it: Item)
  {
    it.cancelReasonCode.Some? && it.cancelReasonCode.value != ""
  }

  /** The delivery fee `GetDetails` reports: the invoice recomputed from
      the stored row. */
  function FeeCharged(db: Db, nr: string): int
    requires nr in db.orders
  {
    Loaded(db.orders[nr], ItemsOf(db, nr)).deliveryFee
  }

  /** The checks of `AddAdjustment`, in source order, up to the row to
      upsert and whether it is an item adjustment. */
  function Validated(db: Db, reasons: seq<AdjustmentReason>, q: AdjustmentRequest, now: int): Result<(Adjustment, bool)>
  {
    var item := if q.itemNr.Some? then q.itemNr.value else "";
    var reason := LookupReason(reasons, q.reasonCode);
    if reason.None? then Failure(InvalidReason)
    else if q.orderNr !in db.orders then Failure(NoOrder)
    else
      var o := db.orders[q.orderNr];
      if o.statusOrder != Delivered then Failure(NotDelivered)
      else if !(now < o.placedAt + SevenDays) then Failure(TooOldToAdjust)
      else if reason.value.kind == ItemLevel then
        if item == "" then Failure(NoItemNr)
        else
          match LastWith(ItemsOf(db, q.orderNr), item)
          case None => Failure(InvalidItem(item))
          case Some(it) =>
            if IsCanceled(it) then Failure(CanceledItem)
            else if !(-it.price < 0) then Failure(InvalidAmount)
            else Success((Adjustment(q.orderNr, q.reasonCode, item, q.comment, q.userCode, -it.price), true))
      else if item != "" then Failure(ItemNrNotNull)
      else if q.reasonCode != ShippingFeeRefund then Failure(NoAmount)
      else if !(FeeCharged(db, q.orderNr) > 0) then Failure(FeeAlreadyZero)
      else Success((Adjustment(q.orderNr, q.reasonCode, "", q.comment, q.userCode, -FeeCharged(db, q.orderNr)), false))
  }

  function NetPatch(net: int): Patch
  {
    NoChange.(mpAdjustment := Some(net))
  }

  /** `AddAdjustment(...).execute()`: validate, upsert, write the net
      adjustment through `modify_order`, and queue `SETTLE_PAYMENT` for a
      terminal order. */
  function AddAdjustmentSpec(db: Db, rows: seq<Adjustment>, reasons: seq<AdjustmentReason>, q: AdjustmentRequest, now: int)
    : Result<(Db, seq<Adjustment>)>
  {
    var v :- Validated(db, reasons, q, now);
    var rows1 :- UpsertSpec(rows, v.0, v.1);
    var m :- ModifyOrderSpec(db, q.orderNr, Dict(NetPatch(Net(rows1, q.orderNr))), now, true);
    var d := if IsOrderTerminal(db.orders[q.orderNr].statusOrder)
             then Enqueued(m.0, [OrderEvent(Events.SettlePayment, q.orderNr)], now) else m.0;
    Success((d, rows1))
  }

  /** The loop over `order_details.items` that picks the item to adjust. */
  method FindItem(items: seq<Item>, itemNr: string) returns (ref: Option<Item>)
    ensures ref == LastWith(items, itemNr)
  {
    ref := None;
    var i := 0;
    while i < |items|
      invariant 0 <= i <= |items|
      invariant ref == LastWith(items[..i], itemNr)
    {
      assert items[..i + 1][..i] == items[..i];
      if items[i].itemNr == itemNr {
        ref := Some(items[i]);
      }
      i := i + 1;
    }
    assert items[..|items|] == items;
  }

  method Validate(db: OrderDb, reasons: seq<AdjustmentReason>, q: AdjustmentRequest, now: int) returns (v: Result<(Adjustment, bool)>)
    ensures v == Validated(db.Snap(), reasons, q, now)
  {
    var item := if q.itemNr.Some? then q.itemNr.value else "";
    var reason := LookupReason(reasons, q.reasonCode);
    if reason.None? {
      return Failure(InvalidReason);
    }
    if q.orderNr !in db.orders {
      return Failure(NoOrder);
    }
    var o := db.orders[q.orderNr];
    if o.statusOrder != Delivered {
      return Failure(NotDelivered);
    }
    if !(now < o.placedAt + SevenDays) {
      return Failure(TooOldToAdjust);
    }
    if reason.value.kind == ItemLevel {
      if item == "" {
        return Failure(NoItemNr);
      }
      var ref := FindItem(ItemsOf(db.Snap(), q.orderNr), item);
      if ref.None? {
        return Failure(InvalidItem(item));
      }
      if IsCanceled(ref.value) {
        return Failure(CanceledItem);
      }
      if !(-ref.value.price < 0) {
        return Failure(InvalidAmount);
      }
      return Success((Adjustment(q.orderNr, q.reasonCode, item, q.comment, q.userCode, -ref.value.price), true));
    }
    if item != "" {
      return Failure(ItemNrNotNull);
    }
    if q.reasonCode != ShippingFeeRefund {
      return Failure(NoAmount);
    }
    var fee := FeeCharged(db.Snap(), q.orderNr);
    if !(fee > 0) {
      return Failure(FeeAlreadyZero);
    }
    return Success((Adjustment(q.orderNr, q.reasonCode, "", q.comment, q.userCode, -fee), false));
  }

  method AddAdjustment(db: OrderDb, table: AdjustmentTable, reasons: seq<AdjustmentReason>, q: AdjustmentRequest, now: int)
    returns (r: Result<()>)
    requires db.Valid()
    modifies db, db.events, table
    ensures db.Valid()
    ensures match AddAdjustmentSpec(old(db.Snap()), old(table.rows), reasons, q, now)
            case Failure(e) => r == Failure(e) && db.Snap() == old(db.Snap()) && table.rows == old(table.rows)
            case Success(res) => r == Success(()) && db.Snap() == res.0 && table.rows == res.1
  {
    ghost var s0 := db.Snap();
    var v := Validate(db, reasons, q, now);
    if v.Failure? {
      return Failure(v.error);
    }
    var saved := table.rows;
    var u := table.Upsert(v.value.0, v.value.1);
    if u.Failure? {
      return Failure(u.error);
    }
    assert UpsertSpec(saved, v.value.0, v.value.1) == Success(table.rows);
    var terminal := IsOrderTerminal(db.orders[q.orderNr].statusOrder);
    ghost var spec := ModifyOrderSpec(s0, q.orderNr, Dict(NetPatch(Net(table.rows, q.orderNr))), now, true);
    var m := db.ModifyOrder(q.orderNr, Dict(NetPatch(Net(table.rows, q.orderNr))), now, true);
    if m.Failure? {
      table.rows := saved;
      return Failure(m.error);
    }
    assert spec.Success? && db.Snap() == spec.value.0;
    if terminal {
      db.AddEvents([OrderEvent(Events.SettlePayment, q.orderNr)], now);
    }
    return Success(());
  }

  // ---------------------------------------------------------------------
  // CancelOrder

  /** A row of `get_cancel_reasons()`: internal, order-level reasons. */
  datatype CancelReason = CancelReason(code: string, reason: string)

  const InvalidCancelReason := "Invalid cancel reason code"

  predicate Listed(reasons: seq<CancelReason>, code: Option<string>)
  {
    exists i :: 0 <= i < |reasons| && code == Some(reasons[i].code)
  }

  /** `CancelOrder(order_nr, reason_code).execute()`. */
  function CsCancelOrderSpec(db: Db, reasons: seq<CancelReason>, nr: string, code: Option<string>, now: int): Result<Db>
  {
    if !Listed(reasons, code) then Failure(InvalidCancelReason)
    else CancelOrderSpec(db, nr, code.value, now)
  }

  method CancelOrder(db: OrderDb, reasons: seq<CancelReason>, nr: string, code: Option<string>, now: int) returns (r: Result<()>)
    requires db.Valid()
    modifies db, db.events
    ensures db.Valid()
    ensures match CsCancelOrderSpec(old(db.Snap()), reasons, nr, code, now)
            case Failure(e) => r == Failure(e) && db.Snap() == old(db.Snap())
            case Success(d) => r == Success(()) && db.Snap() == d
  {
    var found := false;
    var i := 0;
    while i < |reasons| && !found
      invariant 0 <= i <= |reasons|
      invariant found <==> exists k :: 0 <= k < i && code == Some(reasons[k].code)
    {
      found := code == Some(reasons[i].code);
      i := i + 1;
    }
    if !found {
      return Failure(InvalidCancelReason);
    }
    r := db.CancelOrder(nr, code.value, now);
  }

  // ---------------------------------------------------------------------
  // eta_code_to_name

  predicate IsLetter(c: char)
  {
    'a' <= c <= 'z' || 'A' <= c <= 'Z'
  }

  function Upper(c: char): char
  {
    if 'a' <= c <= 'z' then (c as int - 32) as char else c
  }

  function Lower(c: char): char
  {
    if 'A' <= c <= 'Z' then (c as int + 32) as char else c
  }

  /** `str.title()` after a cased character (`afterLetter`) or not. */
  function TitleFrom(s: string, afterLetter: bool): string
  {
    if s == [] then []
    else if IsLetter(s[0]) then [if afterLetter then Lower(s[0]) else Upper(s[0])] + TitleFrom(s[1..], true)
    else [s[0]] + TitleFrom(s[1..], false)
  }

  function Title(s: string): string
  {
    TitleFrom(s, false)
  }

  function EtaCodeToName(code: string): string
  {
    Title(Text.ReplaceAll(Text.ReplaceAll(code, "estimated_", ""), "_", " "))
  }

  /** A word starts at `i`: a letter after a non-letter or at the start. */
  predicate WordStart(s: string, i: int)
    requires 0 <= i < |s|
  {
    IsLetter(s[i]) && (i == 0 || !IsLetter(s[i - 1]))
  }

  // ---------------------------------------------------------------------
  // What the commands promise

  /** `IssueCredit` goes through exactly when the amount is positive, the
      order exists, was placed less than two days ago, the amount is at
      least the credit already issued and at most 1.25 times the initial
      order total, and `modify_order` accepts the new issued credit. */
  lemma IssueCreditIff(db: Db, nr: string, amount: int, now: int)
    ensures IssueCreditSpec(db, nr, amount, now).Success? <==>
      amount > 0 && nr in db.orders && now < db.orders[nr].placedAt + 2 * 86400 &&
      db.orders[nr].issuedCredit <= amount && 4 * amount <= 5 * db.orders[nr].initialOrderTotal &&
      Modified(db, nr, Dict(NoChange.(issuedCredit := Some(amount)))).collectFromCustomer >= 0
  {
    if nr in db.orders {
      OrderFacts.ModifyOrderFailsIff(db, nr, Dict(NoChange.(issuedCredit := Some(amount))), now, true);
    }
  }

  /** A successful `IssueCredit` is `set_issued_credits` followed by
      the queued event. */
  lemma IssueCreditSteps(db: Db, nr: string, amount: int, now: int)
    requires IssueCreditSpec(db, nr, amount, now).Success?
    ensures Credit.SetIssuedCreditsSpec(db, nr, amount, now).Success?
    ensures IssueCreditSpec(db, nr, amount, now) ==
      Success(Enqueued(Credit.SetIssuedCreditsSpec(db, nr, amount, now).value, [OrderEvent(Events.CaptureIssuedCredits, nr)], now))
  {
  }

  /** One queued event closes the queue and changes no other table. */
  lemma EnqueuedOne(db: Db, e: Events.NewEvent, now: int)
    ensures var d := Enqueued(db, [e], now);
      d.orders == db.orders && d.ledgerCalls == db.ledgerCalls &&
      |d.events| == |db.events| + 1 && d.events[|db.events|] == Events.RowOf(e, |db.events| + 1, now)
  {
    Events.RowsOfOne(e, |db.events| + 1, now);
  }

  /** A successful `IssueCredit` stores the amount as the order's issued
      credit, books nothing on the ledger yet, and queues
      `CAPTURE_ISSUED_CREDITS` for the order last. */
  lemma IssueCreditOutcome(db: Db, nr: string, amount: int, now: int)
    requires IssueCreditSpec(db, nr, amount, now).Success?
    ensures var d := IssueCreditSpec(db, nr, amount, now).value;
      nr in d.orders && d.orders[nr].issuedCredit == amount && d.ledgerCalls == db.ledgerCalls &&
      |d.events| > 0 && d.events[|d.events| - 1] == Events.RowOf(OrderEvent(Events.CaptureIssuedCredits, nr), |d.events|, now)
  {
    IssueCreditSteps(db, nr, amount, now);
    Credit.SetIssuedCreditsStores(db, nr, amount, now);
    var d1 := Credit.SetIssuedCreditsSpec(db, nr, amount, now).value;
    EnqueuedOne(d1, OrderEvent(Events.CaptureIssuedCredits, nr), now);
  }

  /** Issued credit only grows: once `IssueCredit` has stored `amount`, a
      smaller amount is refused. */
  lemma IssuedCreditNeverLowered(db: Db, nr: string, amount: int, smaller: int, now: int, later: int)
    requires IssueCreditSpec(db, nr, amount, now).Success?
    requires smaller < amount
    ensures IssueCreditSpec(IssueCreditSpec(db, nr, amount, now).value, nr, smaller, later).Failure?
  {
    IssueCreditOutcome(db, nr, amount, now);
    BelowIssuedRefused(IssueCreditSpec(db, nr, amount, now).value, nr, smaller, later);
  }

  /** An amount below the credit already issued is refused. */
  lemma BelowIssuedRefused(d: Db, nr: string, smaller: int, later: int)
    requires nr in d.orders && smaller < d.orders[nr].issuedCredit
    ensures IssueCreditSpec(d, nr, smaller, later).Failure?
  {
    assert CreditRefusal(RowOf(d, nr), smaller, later).Some?;
  }

  /** The reason map: the reason found is the last row with that code. */
  lemma LookupReasonIsLast(reasons: seq<AdjustmentReason>, code: string, i: int)
    requires 0 <= i < |reasons| && reasons[i].reasonCode == code
    requires forall j :: i < j < |reasons| ==> reasons[j].reasonCode != code
    ensures LookupReason(reasons, code) == Some(reasons[i])
  {
    if i < |reasons| - 1 {
      LookupReasonIsLast(reasons[..|reasons| - 1], code, i);
    }
  }

  /** The search loop's item is the last item with that number, and there
      is one exactly when some item has it. */
  lemma {:induction false} LastWithFacts(items: seq<Item>, itemNr: string)
    ensures LastWith(items, itemNr).None? <==> forall i :: 0 <= i < |items| ==> items[i].itemNr != itemNr
    ensures LastWith(items, itemNr).Some? ==>
      exists i :: 0 <= i < |items| && items[i] == LastWith(items, itemNr).value && items[i].itemNr == itemNr &&
        forall j :: i < j < |items| ==> items[j].itemNr != itemNr
  {
    if items != [] {
      var init := items[..|items| - 1];
      LastWithFacts(init, itemNr);
      if items[|items| - 1].itemNr != itemNr && LastWith(init, itemNr).Some? {
        var i :| 0 <= i < |init| && init[i] == LastWith(init, itemNr).value && init[i].itemNr == itemNr &&
          forall j :: i < j < |init| ==> init[j].itemNr != itemNr;
        assert items[i] == init[i];
      }
    }
  }

  /** What an accepted adjustment request satisfies: a known reason, a
      delivered order placed less than seven days ago; an item adjustment
      names an existing, non-cancelled item and takes minus its price; an
      order adjustment has no item number, is a shipping-fee refund and
      takes minus the positive delivery fee. The amount is negative. */
  lemma ValidatedFacts(db: Db, reasons: seq<AdjustmentReason>, q: AdjustmentRequest, now: int)
    requires Validated(db, reasons, q, now).Success?
    ensures var (a, itemLevel) := Validated(db, reasons, q, now).value;
      var reason := LookupReason(reasons, q.reasonCode);
      reason.Some? && q.orderNr in db.orders &&
      db.orders[q.orderNr].statusOrder == Delivered && now < db.orders[q.orderNr].placedAt + 7 * 86400 &&
      a.orderNr == q.orderNr && a.reasonCode == q.reasonCode && a.comment == q.comment && a.userCode == q.userCode &&
      a.amount < 0 &&
      (itemLevel <==> reason.value.kind == ItemLevel) &&
      (itemLevel ==> (q.itemNr == Some(a.itemNr) && a.itemNr != "" &&
        var it := LastWith(ItemsOf(db, q.orderNr), a.itemNr);
        it.Some? && !IsCanceled(it.value) && a.amount == -it.value.price)) &&
      (!itemLevel ==> ((q.itemNr.None? || q.itemNr == Some("")) && a.itemNr == "" &&
        q.reasonCode == ShippingFeeRefund && a.amount == -FeeCharged(db, q.orderNr)))
  {
  }

  /** An order adjustment for any reason but the shipping-fee refund is
      refused: no other order-level reason sets an amount. */
  lemma OrderLevelOnlyShippingFee(db: Db, reasons: seq<AdjustmentReason>, q: AdjustmentRequest, now: int)
    requires LookupReason(reasons, q.reasonCode).Some? && LookupReason(reasons, q.reasonCode).value.kind == OrderLevel
    requires q.reasonCode != ShippingFeeRefund
    ensures Validated(db, reasons, q, now).Failure?
  {
  }

  /** `Net` of rows with one more row. */
  lemma NetAppend(rows: seq<Adjustment>, a: Adjustment, nr: string)
    ensures Net(rows + [a], nr) == Net(rows, nr) + (if a.orderNr == nr then a.amount else 0)
  {
    assert (rows + [a])[..|rows|] == rows;
  }

  /** `Net` after one row is replaced by a row of the same order. */
  lemma {:induction false} NetUpdate(rows: seq<Adjustment>, k: int, m: Adjustment, nr: string)
    requires 0 <= k < |rows| && m.orderNr == rows[k].orderNr
    ensures Net(rows[k := m], nr) == Net(rows, nr) + (if m.orderNr == nr then m.amount - rows[k].amount else 0)
  {
    var n := |rows| - 1;
    if k == n {
      assert rows[k := m][..n] == rows[..n];
    } else {
      assert rows[k := m][..n] == rows[..n][k := m];
      NetUpdate(rows[..n], k, m, nr);
    }
  }

  /** The upsert keeps both unique constraints: an insert has no clashing
      row, an update that would clash is refused. */
  lemma UpsertKeepsUnique(rows: seq<Adjustment>, a: Adjustment, itemLevel: bool)
    requires Unique(rows)
    requires UpsertSpec(rows, a, itemLevel).Success?
    ensures Unique(UpsertSpec(rows, a, itemLevel).value)
  {
    var t := UpsertSpec(rows, a, itemLevel).value;
    match ConflictRow(rows, a)
    case None =>
      assert FirstWith(rows, a, true).None? && FirstWith(rows, a, false).None?;
      forall i, j | 0 <= i < j < |t|
        ensures !Clash(t[i], t[j])
      {
        if j == |rows| {
          assert t[j] == a;
          assert !SameItem(rows[i], a) && !SameReason(rows[i], a);
        } else {
          assert t[i] == rows[i] && t[j] == rows[j];
        }
      }
    case Some(k) =>
  }

  /** After an upsert that goes through, the row for the request's key
      carries its amount, comment and user: an item adjustment's row keeps
      the item key it was found by, or the reason key; an order
      adjustment's row holds its reason. At most one row is added, and
      rows of other orders are untouched. */
  lemma UpsertRecords(rows: seq<Adjustment>, a: Adjustment, itemLevel: bool)
    requires UpsertSpec(rows, a, itemLevel).Success?
    ensures var t := UpsertSpec(rows, a, itemLevel).value;
      (|t| == |rows| || t == rows + [a]) &&
      (exists k :: 0 <= k < |t| && t[k].orderNr == a.orderNr && t[k].amount == a.amount &&
        t[k].comment == a.comment && t[k].userCode == a.userCode &&
        (SameItem(t[k], a) || SameReason(t[k], a))) &&
      (forall i :: 0 <= i < |rows| && rows[i].orderNr != a.orderNr ==> i < |t| && t[i] == rows[i])
  {
    var t := UpsertSpec(rows, a, itemLevel).value;
    match ConflictRow(rows, a)
    case None =>
      assert t[|rows|] == a;
    case Some(k) =>
      assert t[k] == Merge(rows[k], a, itemLevel);
  }

  /** The upsert changes the order's net adjustment by the new amount, less
      the amount of the row it replaced. */
  lemma UpsertNet(rows: seq<Adjustment>, a: Adjustment, itemLevel: bool)
    requires UpsertSpec(rows, a, itemLevel).Success?
    ensures var t := UpsertSpec(rows, a, itemLevel).value;
      match ConflictRow(rows, a)
      case None => Net(t, a.orderNr) == Net(rows, a.orderNr) + a.amount
      case Some(k) => k < |rows| && Net(t, a.orderNr) == Net(rows, a.orderNr) - rows[k].amount + a.amount
  {
    match ConflictRow(rows, a)
    case None =>
      NetAppend(rows, a, a.orderNr);
    case Some(k) =>
      NetUpdate(rows, k, Merge(rows[k], a, itemLevel), a.orderNr);
  }

  /** In a unique table two clashing rows are the same row. */
  lemma UniqueKeyAt(rows: seq<Adjustment>, i: int, j: int)
    requires Unique(rows) && 0 <= i < |rows| && 0 <= j < |rows|
    requires Clash(rows[i], rows[j])
    ensures i == j
  {
  }

  /** Adjusting an already adjusted item again, for another item reason
      that the order does not use yet, keeps the one row of that item and
      its amount, and moves the row to the new reason; the net adjustment
      does not change. */
  lemma ReadjustItemKeepsAmount(rows: seq<Adjustment>, k: int, a: Adjustment)
    requires Unique(rows) && 0 <= k < |rows|
    requires SameItem(rows[k], a) && rows[k].amount == a.amount
    requires forall j :: 0 <= j < |rows| ==> !SameReason(rows[j], a)
    ensures var t := rows[k := rows[k].(comment := a.comment, userCode := a.userCode, reasonCode := a.reasonCode)];
      UpsertSpec(rows, a, true) == Success(t) && |t| == |rows| && Net(t, a.orderNr) == Net(rows, a.orderNr)
  {
    var fk := FirstWith(rows, a, true);
    UniqueKeyAt(rows, fk.value, k);
    var m := Merge(rows[k], a, true);
    forall j | 0 <= j < |rows| && j != k
      ensures !Clash(rows[j], m)
    {
      if j < k {
        assert !Clash(rows[j], rows[k]);
      } else {
        assert !Clash(rows[k], rows[j]);
      }
    }
    NetUpdate(rows, k, m, a.orderNr);
  }

  /** A second item of the order adjusted for a reason the order already
      has on another item does not get a row of its own: the reason's row
      takes the new amount and keeps the first item's number. */
  lemma SameReasonOverwritesOtherItem(rows: seq<Adjustment>, k: int, a: Adjustment)
    requires Unique(rows) && 0 <= k < |rows|
    requires SameReason(rows[k], a) && rows[k].itemNr != a.itemNr
    requires forall j :: 0 <= j < |rows| ==> !SameItem(rows[j], a)
    ensures var t := rows[k := rows[k].(comment := a.comment, amount := a.amount, userCode := a.userCode)];
      UpsertSpec(rows, a, true) == Success(t) && |t| == |rows| && t[k].itemNr != a.itemNr
  {
    assert FirstWith(rows, a, true).None?;
    var fk := FirstWith(rows, a, false);
    UniqueKeyAt(rows, fk.value, k);
    var m := Merge(rows[k], a, true);
    assert m == rows[k].(comment := a.comment, amount := a.amount, userCode := a.userCode);
    forall j | 0 <= j < |rows| && j != k
      ensures !Clash(rows[j], m)
    {
      if j < k {
        assert !Clash(rows[j], rows[k]);
      } else {
        assert !Clash(rows[k], rows[j]);
      }
    }
  }

  /** A successful `AddAdjustment` leaves the table unique, writes the
      order's net adjustment (the sum of its rows) to
      `order_mp_adjustment`, and queues `SETTLE_PAYMENT` for the order
      last. */
  lemma AddAdjustmentOutcome(db: Db, rows: seq<Adjustment>, reasons: seq<AdjustmentReason>, q: AdjustmentRequest, now: int)
    requires Unique(rows)
    requires AddAdjustmentSpec(db, rows, reasons, q, now).Success?
    ensures var (d, t) := AddAdjustmentSpec(db, rows, reasons, q, now).value;
      Unique(t) && q.orderNr in d.orders && d.orders[q.orderNr].mpAdjustment == Net(t, q.orderNr) &&
      |d.events| > 0 && d.events[|d.events| - 1] == Events.RowOf(OrderEvent(Events.SettlePayment, q.orderNr), |d.events|, now)
  {
    var v := Validated(db, reasons, q, now).value;
    ValidatedFacts(db, reasons, q, now);
    UpsertKeepsUnique(rows, v.0, v.1);
    var t := UpsertSpec(rows, v.0, v.1).value;
    var p := Dict(NetPatch(Net(t, q.orderNr)));
    var m := ModifyOrderSpec(db, q.orderNr, p, now, true).value;
    assert AddAdjustmentSpec(db, rows, reasons, q, now).value ==
      (Enqueued(m.0, [OrderEvent(Events.SettlePayment, q.orderNr)], now), t);
    NetStoredAndQueued(db, q.orderNr, t, now);
  }

  /** Writing the net adjustment stores it, and the settle event is queued
      after it. */
  lemma NetStoredAndQueued(db: Db, nr: string, t: seq<Adjustment>, now: int)
    requires ModifyOrderSpec(db, nr, Dict(NetPatch(Net(t, nr))), now, true).Success?
    ensures var m := ModifyOrderSpec(db, nr, Dict(NetPatch(Net(t, nr))), now, true).value;
      var d := Enqueued(m.0, [OrderEvent(Events.SettlePayment, nr)], now);
      nr in d.orders && d.orders[nr].mpAdjustment == Net(t, nr) &&
      |d.events| > 0 && d.events[|d.events| - 1] == Events.RowOf(OrderEvent(Events.SettlePayment, nr), |d.events|, now)
  {
    var p := Dict(NetPatch(Net(t, nr)));
    var m := ModifyOrderSpec(db, nr, p, now, true).value;
    NetStored(db, nr, Net(t, nr), now);
    EnqueuedOne(m.0, OrderEvent(Events.SettlePayment, nr), now);
  }

  lemma NetStored(db: Db, nr: string, net: int, now: int)
    requires ModifyOrderSpec(db, nr, Dict(NetPatch(net)), now, true).Success?
    ensures var m := ModifyOrderSpec(db, nr, Dict(NetPatch(net)), now, true).value;
      nr in m.0.orders && m.0.orders[nr].mpAdjustment == net
  {
    OrderFacts.ModifyOrderStores(db, nr, Dict(NetPatch(net)), now, true);
  }

  /** `CancelOrder` refuses a reason code that is not in the list, and
      with a listed one is `cancel_order` itself. */
  lemma CsCancelOrderIff(db: Db, reasons: seq<CancelReason>, nr: string, code: Option<string>, now: int)
    ensures !Listed(reasons, code) ==> CsCancelOrderSpec(db, reasons, nr, code, now) == Failure(InvalidCancelReason)
    ensures Listed(reasons, code) ==> code.Some? && CsCancelOrderSpec(db, reasons, nr, code, now) == CancelOrderSpec(db, nr, code.value, now)
    ensures CsCancelOrderSpec(db, reasons, nr, code, now).Success? <==>
      Listed(reasons, code) && nr in db.orders && OrderRules.IsCancelable(db.orders[nr])
  {
    if Listed(reasons, code) {
      OrderFacts.CancelOrderFailsIff(db, nr, code.value, now);
    }
  }

  /** Replacing a one-character pattern by a one-character string maps the
      text character by character. */
  lemma {:induction false} ReplaceCharMaps(s: string, p: char, q: char)
    ensures var r := Text.ReplaceAll(s, [p], [q]);
      |r| == |s| && forall i :: 0 <= i < |s| ==> r[i] == (if s[i] == p then q else s[i])
  {
    if |s| >= 1 {
      ReplaceCharMaps(s[1..], p, q);
    }
  }

  /** Title casing keeps the length, leaves non-letters alone, upper-cases
      the first letter of each word and lower-cases the others. */
  lemma {:induction false} TitleFromFacts(s: string, afterLetter: bool)
    ensures var r := TitleFrom(s, afterLetter);
      |r| == |s| &&
      (forall i :: 0 <= i < |s| && !IsLetter(s[i]) ==> r[i] == s[i]) &&
      (forall i :: 0 <= i < |s| && IsLetter(s[i]) ==>
        r[i] == (if (if i == 0 then afterLetter else IsLetter(s[i - 1])) then Lower(s[i]) else Upper(s[i])))
  {
    if s != [] {
      TitleFromFacts(s[1..], IsLetter(s[0]));
      var r := TitleFrom(s, afterLetter);
      var r1 := TitleFrom(s[1..], IsLetter(s[0]));
      assert r[1..] == r1;
      forall i | 1 <= i < |s|
        ensures s[1..][i - 1] == s[i] && r[i] == r1[i - 1]
      {
      }
    }
  }

  /** Changing the case of a letter gives a letter of that case. */
  lemma CaseFacts(c: char)
    requires IsLetter(c)
    ensures 'A' <= Upper(c) <= 'Z' && 'a' <= Lower(c) <= 'z'
  {
  }

  /** `eta_code_to_name` leaves no underscore, keeps the length of the
      code with `estimated_` removed, and starts every word with a capital
      letter followed by small letters. */
  lemma EtaCodeToNameFacts(code: string)
    ensures var stripped := Text.ReplaceAll(code, "estimated_", "");
      var r := EtaCodeToName(code);
      |r| == |stripped| &&
      (forall i :: 0 <= i < |r| ==> r[i] != '_') &&
      (forall i :: 0 <= i < |r| && WordStart(r, i) ==> 'A' <= r[i] <= 'Z') &&
      (forall i :: 0 < i < |r| && IsLetter(r[i]) && !WordStart(r, i) ==> 'a' <= r[i] <= 'z')
  {
    var stripped := Text.ReplaceAll(code, "estimated_", "");
    var spaced := Text.ReplaceAll(stripped, "_", " ");
    ReplaceCharMaps(stripped, '_', ' ');
    TitleFromFacts(spaced, false);
    var r := Title(spaced);
    forall i | 0 <= i < |r|
      ensures IsLetter(r[i]) <==> IsLetter(spaced[i])
      ensures r[i] != '_'
      ensures IsLetter(spaced[i]) && (i == 0 || !IsLetter(spaced[i - 1])) ==> 'A' <= r[i] <= 'Z'
      ensures IsLetter(spaced[i]) && i > 0 && IsLetter(spaced[i - 1]) ==> 'a' <= r[i] <= 'z'
    {
      assert spaced[i] == (if stripped[i] == '_' then ' ' else stripped[i]);
      assert spaced[i] != '_';
      assert r[i] == TitleFrom(spaced, false)[i];
      if IsLetter(spaced[i]) {
        CaseFacts(spaced[i]);
        assert r == TitleFrom(spaced, false);
        assert TitleFrom(spaced, false)[i] == (if (if i == 0 then false else IsLetter(spaced[i - 1])) then Lower(spaced[i]) else Upper(spaced[i]));
      } else {
        assert r[i] == spaced[i];
      }
    }
  }
}
