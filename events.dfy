// The durable event queue of the order service (`boilerplate_event`): rows
// with an action code, a JSON payload, a due time and a processed flag.
// Inserting appends a row with the next autoincrement id; reading selects
// due, unprocessed rows of one action code; "deleting" only flips the flag.
// The clock is the parameter `now`.
module Events {
  import opened Wrappers
  import Json

  datatype ActionCode =
    | PaymentOrderCreate
    | PaymentOrderCapture
    | SettlePayment
    | CaptureIssuedCredits
    | OrderShipmentCreated
    | OrderReadyForPickup
    | CancelOrderWithNoShipments
    | LogisticsOrderUpdate
    | GenerateInvoice
    | NotificationOrderUpdate
    | DefaultPaymentUpdate

  /** The enum member's `name`, which is what the table stores. */
  function Name(a: ActionCode): string
  {
    match a
    case PaymentOrderCreate => "PAYMENT_ORDER_CREATE"
    case PaymentOrderCapture => "PAYMENT_ORDER_CAPTURE"
    case SettlePayment => "SETTLE_PAYMENT"
    case CaptureIssuedCredits => "CAPTURE_ISSUED_CREDITS"
    case OrderShipmentCreated => "ORDER_SHIPMENT_CREATED"
    case OrderReadyForPickup => "ORDER_READY_FOR_PICKUP"
    case CancelOrderWithNoShipments => "CANCEL_ORDER_WITH_NO_SHIPMENTS"
    case LogisticsOrderUpdate => "LOGISTICS_ORDER_UPDATE"
    case GenerateInvoice => "GENERATE_INVOICE"
    case NotificationOrderUpdate => "NOTIFICATION_ORDER_UPDATE"
    case DefaultPaymentUpdate => "DEFAULT_PAYMENT_UPDATE"
  }

  /** `ActionCode[name]`: the member with that name, if any. */
  function FromName(s: string): (r: Option<ActionCode>)
    ensures r.Some? ==> Name(r.value) == s
  {
    if s == "PAYMENT_ORDER_CREATE" then Some(PaymentOrderCreate)
    else if s == "PAYMENT_ORDER_CAPTURE" then Some(PaymentOrderCapture)
    else if s == "SETTLE_PAYMENT" then Some(SettlePayment)
    else if s == "CAPTURE_ISSUED_CREDITS" then Some(CaptureIssuedCredits)
    else if s == "ORDER_SHIPMENT_CREATED" then Some(OrderShipmentCreated)
    else if s == "ORDER_READY_FOR_PICKUP" then Some(OrderReadyForPickup)
    else if s == "CANCEL_ORDER_WITH_NO_SHIPMENTS" then Some(CancelOrderWithNoShipments)
    else if s == "LOGISTICS_ORDER_UPDATE" then Some(LogisticsOrderUpdate)
    else if s == "GENERATE_INVOICE" then Some(GenerateInvoice)
    else if s == "NOTIFICATION_ORDER_UPDATE" then Some(NotificationOrderUpdate)
    else if s == "DEFAULT_PAYMENT_UPDATE" then Some(DefaultPaymentUpdate)
    else None
  }

  /** Every member is found again under its own name, so names are distinct. */
  lemma FromNameName(a: ActionCode)
    ensures FromName(Name(a)) == Some(a)
  {
    if a.PaymentOrderCreate? || a.PaymentOrderCapture? || a.SettlePayment? || a.CaptureIssuedCredits? || a.OrderShipmentCreated? {
      FromNameNameFirst(a);
    } else if a.OrderReadyForPickup? || a.CancelOrderWithNoShipments? || a.LogisticsOrderUpdate? {
      FromNameNameMiddle(a);
    } else {
      FromNameNameLast(a);
    }
  }

  lemma FromNameNameFirst(a: ActionCode)
    requires a.PaymentOrderCreate? || a.PaymentOrderCapture? || a.SettlePayment? || a.CaptureIssuedCredits? || a.OrderShipmentCreated?
    ensures FromName(Name(a)) == Some(a)
  {
    match a
    case PaymentOrderCreate =>
    case PaymentOrderCapture =>
    case SettlePayment =>
    case CaptureIssuedCredits =>
    case OrderShipmentCreated =>
      assert Name(a)[21] == 'D';
  }

  lemma FromNameNameMiddle(a: ActionCode)
    requires a.OrderReadyForPickup? || a.CancelOrderWithNoShipments? || a.LogisticsOrderUpdate?
    ensures FromName(Name(a)) == Some(a)
  {
    match a
    case OrderReadyForPickup =>
      assert Name(a)[21] == 'P';
    case CancelOrderWithNoShipments =>
    case LogisticsOrderUpdate =>
      assert Name(a)[21] == 'E';
  }

  lemma FromNameNameLast(a: ActionCode)
    requires a.GenerateInvoice? || a.NotificationOrderUpdate? || a.DefaultPaymentUpdate?
    ensures FromName(Name(a)) == Some(a)
  {
    match a
    case GenerateInvoice =>
    case NotificationOrderUpdate =>
    case DefaultPaymentUpdate =>
      assert Name(a) != "LOGISTICS_ORDER_UPDATE" by { assert Name(a)[14] == 'T'; }
  }

  lemma NameInjective(a: ActionCode, b: ActionCode)
    requires Name(a) == Name(b)
    ensures a == b
  {
    FromNameName(a);
    FromNameName(b);
  }

  /** An event to insert: `BoilerplateEvent(action_code, data, schedule_at)`. */
  datatype NewEvent = NewEvent(actionCode: ActionCode, data: Json.Object, scheduleAt: Option<int>)

  /** A stored row; `data` is the JSON text. */
  datatype EventRow = EventRow(id: nat, actionCode: string, data: string, scheduleAt: int, isProcessed: bool)

  /** A row as `get_events` hands it out, with `data` parsed back. */
  datatype Event = Event(id: nat, actionCode: string, data: Json.Object, scheduleAt: int, isProcessed: bool)

  /** The default batch size of `get_events`. */
  const DefaultBatch: nat := 3

  /** The row an insert of `e` produces with id `id` at time `now`: the
      schedule defaults to the current time, the flag to unprocessed. */
  function RowOf(e: NewEvent, id: nat, now: int): (r: EventRow)
    ensures r.id == id && !r.isProcessed && r.actionCode == Name(e.actionCode)
    ensures r.scheduleAt == (if e.scheduleAt.Some? then e.scheduleAt.value else now)
  {
    EventRow(id, Name(e.actionCode), Json.Dumps(e.data), e.scheduleAt.GetOr(now), false)
  }

  /** The rows a batch insert of `es` produces, ids counting up from `first`. */
  function RowsOf(es: seq<NewEvent>, first: nat, now: int): (r: seq<EventRow>)
    ensures |r| == |es|
  {
    seq(|es|, j requires 0 <= j < |es| => RowOf(es[j], first + j, now))
  }

  /** A batch of one is the single insert. */
  lemma RowsOfOne(e: NewEvent, id: nat, now: int)
    ensures RowsOf([e], id, now) == [RowOf(e, id, now)]
  {
    assert RowsOf([e], id, now)[0] == RowOf(e, id, now);
  }

  predicate Due(r: EventRow, code: string, now: int)
  {
    r.actionCode == code && r.scheduleAt <= now && !r.isProcessed
  }

  /** The rows `get_events` selects: the due rows of `code`, at most
      `limit` of them, taken in id order. */
  function Selected(rows: seq<EventRow>, code: string, now: int, limit: nat): (r: seq<EventRow>)
    ensures |r| <= limit
  {
    if rows == [] then []
    else
      var s := Selected(rows[..|rows| - 1], code, now, limit);
      if |s| < limit && Due(rows[|rows| - 1], code, now) then s + [rows[|rows| - 1]] else s
  }

  /** `UPDATE ... SET is_processed = 1 WHERE id = :id`. */
  function MarkProcessed(rows: seq<EventRow>, id: int): (r: seq<EventRow>)
    ensures |r| == |rows|
  {
    seq(|rows|, i requires 0 <= i < |rows| => if rows[i].id == id then rows[i].(isProcessed := true) else rows[i])
  }

  function Decode(r: EventRow): Event
    requires Json.Loads(r.data).Some?
  {
    Event(r.id, r.actionCode, Json.Loads(r.data).value, r.scheduleAt, r.isProcessed)
  }

  /** Ids are the autoincrement sequence 1, 2, ... and every payload is
      JSON that `json.loads` accepts. */
  ghost predicate ValidRows(rows: seq<EventRow>)
  {
    forall i :: 0 <= i < |rows| ==> rows[i].id == i + 1 && Json.Loads(rows[i].data).Some?
  }

  /** What `get_events(code, limit)` returns at time `now`. */
  function Batch(rows: seq<EventRow>, code: string, now: int, limit: nat): (evs: seq<Event>)
    requires ValidRows(rows)
    ensures |evs| == |Selected(rows, code, now, limit)|
  {
    var sel := Selected(rows, code, now, limit);
    SelectedAreDue(rows, code, now, limit);
    SelectedParse(rows, sel);
    seq(|sel|, k requires 0 <= k < |sel| => Decode(sel[k]))
  }

  lemma SelectedParse(rows: seq<EventRow>, sel: seq<EventRow>)
    requires ValidRows(rows)
    requires forall r :: r in sel ==> r in rows
    ensures forall k :: 0 <= k < |sel| ==> Json.Loads(sel[k].data).Some?
  {
    forall k | 0 <= k < |sel|
      ensures Json.Loads(sel[k].data).Some?
    {
      assert sel[k] in rows;
      var i :| 0 <= i < |rows| && rows[i] == sel[k];
    }
  }

  /** The scan of `get_events`' SELECT: due rows of `code` in id order,
      stopping at `limit`. */
  method SelectDue(all: seq<EventRow>, code: string, now: int, limit: nat) returns (sel: seq<EventRow>)
    ensures sel == Selected(all, code, now, limit)
  {
    sel := [];
    var i := 0;
    while i < |all|
      invariant 0 <= i <= |all|
      invariant sel == Selected(all[..i], code, now, limit)
    {
      assert all[..i + 1][..i] == all[..i];
      if |sel| < limit && Due(all[i], code, now) {
        sel := sel + [all[i]];
      }
      i := i + 1;
    }
    assert all[..i] == all;
  }

  /** `json.loads` applied to every selected payload. */
  method DecodeAll(sel: seq<EventRow>) returns (evs: seq<Event>)
    requires forall k :: 0 <= k < |sel| ==> Json.Loads(sel[k].data).Some?
    ensures |evs| == |sel|
    ensures forall k :: 0 <= k < |sel| ==> evs[k] == Decode(sel[k])
  {
    evs := [];
    for k := 0 to |sel|
      invariant |evs| == k
      invariant forall j :: 0 <= j < k ==> evs[j] == Decode(sel[j])
    {
      evs := evs + [Decode(sel[k])];
    }
  }

  class EventTable {
    var rows: seq<EventRow>

    ghost predicate Valid()
      reads this
    {
      ValidRows(rows)
    }

    constructor()
      ensures Valid() && rows == []
    {
      rows := [];
    }

    /** `create_event`: insert one row and return the inserted values. */
    method CreateEvent(e: NewEvent, now: int) returns (inserted: EventRow)
      requires Valid() && Json.DistinctKeys(e.data)
      modifies this
      ensures Valid()
      ensures inserted == RowOf(e, |old(rows)| + 1, now)
      ensures rows == old(rows) + [inserted]
    {
      inserted := RowOf(e, |rows| + 1, now);
      CreatedPayloadRoundTrip(e, |rows| + 1, now);
      rows := rows + [inserted];
    }

    /** `create_events`: one row per event, in list order. */
    method CreateEvents(es: seq<NewEvent>, now: int)
      requires Valid()
      requires forall k :: 0 <= k < |es| ==> Json.DistinctKeys(es[k].data)
      modifies this
      ensures Valid()
      ensures rows == old(rows) + RowsOf(es, |old(rows)| + 1, now)
    {
      var toInsert := BuildRows(es, |rows| + 1, now);
      AppendValid(rows, toInsert);
      rows := rows + toInsert;
    }

    /** A rolled-back transaction: the rows as they were when it began. */
    method Restore(saved: seq<EventRow>)
      requires ValidRows(saved)
      modifies this
      ensures Valid() && rows == saved
    {
      rows := saved;
    }

    /** `get_events`: the selected rows with their payloads parsed. */
    method GetEvents(code: ActionCode, now: int, limit: nat) returns (evs: seq<Event>)
      requires Valid()
      ensures evs == Batch(rows, Name(code), now, limit)
    {
      var sel := SelectDue(rows, Name(code), now, limit);
      SelectedAreDue(rows, Name(code), now, limit);
      SelectedParse(rows, sel);
      evs := DecodeAll(sel);
    }

    /** `delete_event`: a falsy id does nothing; otherwise the row with that
        id, if any, is marked processed and kept. */
    method DeleteEvent(id: int)
      requires Valid()
      modifies this
      ensures Valid()
      ensures rows == MarkProcessed(old(rows), id)
    {
      if id == 0 {
        assert rows == MarkProcessed(rows, id);
        return;
      }
      if 1 <= id <= |rows| {
        rows := rows[id - 1 := rows[id - 1].(isProcessed := true)];
      } else {
        assert rows == MarkProcessed(rows, id);
      }
    }
  }

  /** The row list `create_events` hands to the batch insert. */
  method BuildRows(es: seq<NewEvent>, first: nat, now: int) returns (toInsert: seq<EventRow>)
    requires forall k :: 0 <= k < |es| ==> Json.DistinctKeys(es[k].data)
    ensures toInsert == RowsOf(es, first, now)
    ensures forall j :: 0 <= j < |toInsert| ==> toInsert[j].id == first + j && Json.Loads(toInsert[j].data).Some?
  {
    toInsert := [];
    for k := 0 to |es|
      invariant |toInsert| == k
      invariant forall j :: 0 <= j < k ==> toInsert[j] == RowOf(es[j], first + j, now)
    {
      toInsert := toInsert + [RowOf(es[k], first + k, now)];
    }
    RowsOfParse(es, first, now);
  }

  /** The rows of a batch insert carry consecutive ids and payloads that
      parse back. */
  lemma RowsOfParse(es: seq<NewEvent>, first: nat, now: int)
    requires forall k :: 0 <= k < |es| ==> Json.DistinctKeys(es[k].data)
    ensures forall j :: 0 <= j < |es| ==>
      RowsOf(es, first, now)[j].id == first + j && Json.Loads(RowsOf(es, first, now)[j].data).Some?
  {
    forall j | 0 <= j < |es|
      ensures Json.Loads(RowsOf(es, first, now)[j].data).Some?
    {
      assert RowsOf(es, first, now)[j].data == Json.Dumps(es[j].data);
      Json.LoadsDumps(es[j].data);
    }
  }

  lemma AppendValid(rows: seq<EventRow>, more: seq<EventRow>)
    requires ValidRows(rows)
    requires forall j :: 0 <= j < |more| ==> more[j].id == |rows| + 1 + j && Json.Loads(more[j].data).Some?
    ensures ValidRows(rows + more)
  {
  }

  // ---------------------------------------------------------------------
  // What `get_events` hands out.

  /** Every selected row is a row of the table that is due for `code`. */
  lemma {:induction false} SelectedAreDue(rows: seq<EventRow>, code: string, now: int, limit: nat)
    ensures forall r :: r in Selected(rows, code, now, limit) ==> r in rows && Due(r, code, now)
  {
    if rows != [] {
      SelectedAreDue(rows[..|rows| - 1], code, now, limit);
    }
  }

  /** A batch smaller than the limit holds every due row of `code`. */
  lemma {:induction false} SelectedComplete(rows: seq<EventRow>, code: string, now: int, limit: nat)
    requires |Selected(rows, code, now, limit)| < limit
    ensures forall r :: r in rows && Due(r, code, now) ==> r in Selected(rows, code, now, limit)
  {
    if rows != [] {
      var front := rows[..|rows| - 1];
      assert |Selected(front, code, now, limit)| <= |Selected(rows, code, now, limit)|;
      SelectedComplete(front, code, now, limit);
      assert rows == front + [rows[|rows| - 1]];
    }
  }

  /** Once an id is marked processed it is never selected again, whatever
      the clock or the batch size. */
  lemma NeverSelectedAgain(rows: seq<EventRow>, id: int, code: string, now: int, limit: nat)
    ensures forall r :: r in Selected(MarkProcessed(rows, id), code, now, limit) ==> r.id != id
  {
    SelectedAreDue(MarkProcessed(rows, id), code, now, limit);
  }

  /** Marking touches only the flag of the rows carrying that id. */
  lemma MarkProcessedFrame(rows: seq<EventRow>, id: int, i: int)
    requires 0 <= i < |rows|
    ensures MarkProcessed(rows, id)[i].isProcessed == (rows[i].isProcessed || rows[i].id == id)
    ensures MarkProcessed(rows, id)[i].(isProcessed := rows[i].isProcessed) == rows[i]
  {
  }

  /** What `create_event` stores is read back as the payload given. */
  lemma CreatedPayloadRoundTrip(e: NewEvent, id: nat, now: int)
    requires Json.DistinctKeys(e.data)
    ensures Json.Loads(RowOf(e, id, now).data).Some?
    ensures Decode(RowOf(e, id, now)).data == e.data
  {
    Json.LoadsDumps(e.data);
  }
}
