// The invoice derivation `get_invoice_info`: a fold over the order's items
// into subtotal, delivery fee, amount to collect, payment and cash amounts,
// and the collected-from-customer formula of `after_payment_related_update`.
// Every amount is in cents, where `decimal_round` to two places is the
// identity (Util.RoundCentsIdentity).
module Invoice {
  import opened OrderEnums
  import opened Wrappers
  import opened OrderRow

  datatype InvoiceInfo = InvoiceInfo(
    deliveryFee: int,
    subtotal: int,
    total: int,
    mpAdjustment: int,
    creditAmount: int,
    paymentAmount: int,
    collectFromCustomer: int,
    paymentCashAmount: int)

  /** The sum of the prices of the items without `canceled_at`. */
  function ActiveSubtotal(items: seq<Item>): int
  {
    if items == [] then 0
    else ActiveSubtotal(items[..|items| - 1]) + (if IsActive(items[|items| - 1]) then items[|items| - 1].price else 0)
  }

  predicate AnyCanceled(items: seq<Item>)
  {
    exists i :: 0 <= i < |items| && !IsActive(items[i])
  }

  function Max(a: int, b: int): int
  {
    if a >= b then a else b
  }

  /** `get_invoice_info(order)` for an order with these items. */
  function GetInvoiceInfo(o: Order, items: seq<Item>): InvoiceInfo
  {
    var subtotal := if o.payerCode == PayerNone then 0 else ActiveSubtotal(items);
    var fee := if o.payerCode == PayerNone || AnyCanceled(items) then 0 else o.deliveryFee;
    var collect := if o.payerCode == PayerCustomer then subtotal + fee + o.mpAdjustment else 0;
    var payment := Max(collect + o.creditAmount, 0);
    InvoiceInfo(fee, subtotal, collect, o.mpAdjustment, o.creditAmount, payment, collect,
                if o.paymentMethodCode == Cod then payment else 0)
  }

  /** `order.update(invoice_info)`: the invoice keys that are order columns
      (the cash amount is not one). */
  function ApplyInvoice(o: Order, inv: InvoiceInfo): Order
  {
    o.(deliveryFee := inv.deliveryFee, subtotal := inv.subtotal, total := inv.total,
       mpAdjustment := inv.mpAdjustment, creditAmount := inv.creditAmount,
       paymentAmount := inv.paymentAmount, collectFromCustomer := inv.collectFromCustomer)
  }

  /** The SQL expression for `order_collected_from_customer`. */
  function CollectedFromCustomer(o: Order): int
  {
    o.paymentCashCollected + o.paymentCaptured + o.paymentRefunded - o.creditCaptured
  }

  // ---------------------------------------------------------------------
  // What the invoice promises.

  /** With payer `none` nothing is owed, whatever the items or adjustment. */
  lemma PayerNoneOwesNothing(o: Order, items: seq<Item>)
    requires o.payerCode == PayerNone
    ensures var inv := GetInvoiceInfo(o, items);
      inv.subtotal == 0 && inv.deliveryFee == 0 && inv.collectFromCustomer == 0 && inv.total == 0
      && inv.paymentAmount == Max(o.creditAmount, 0)
  {
  }

  /** Summing by recursion is summing the active prices one by one. */
  lemma {:induction false} ActiveSubtotalSplit(a: seq<Item>, b: seq<Item>)
    ensures ActiveSubtotal(a + b) == ActiveSubtotal(a) + ActiveSubtotal(b)
    decreases |b|
  {
    if b != [] {
      var ab := a + b;
      assert ab[..|ab| - 1] == a + b[..|b| - 1];
      assert ab[|ab| - 1] == b[|b| - 1];
      ActiveSubtotalSplit(a, b[..|b| - 1]);
    } else {
      assert a + b == a;
    }
  }

  /** The subtotal of a customer-paid order is its active items' prices;
      any canceled item waives the delivery fee; and the amount to collect
      and the total are subtotal + fee + adjustment. */
  lemma CustomerInvoice(o: Order, items: seq<Item>)
    requires o.payerCode == PayerCustomer
    ensures var inv := GetInvoiceInfo(o, items);
      inv.subtotal == ActiveSubtotal(items) &&
      (inv.deliveryFee == 0 <== AnyCanceled(items)) &&
      (!AnyCanceled(items) ==> inv.deliveryFee == o.deliveryFee) &&
      inv.collectFromCustomer == inv.total == inv.subtotal + inv.deliveryFee + o.mpAdjustment
  {
  }

  /** The payment amount is `max(collect + credit, 0)`, never negative; the
      cash amount equals it for cash on delivery and is 0 otherwise. */
  lemma PaymentAmounts(o: Order, items: seq<Item>)
    ensures var inv := GetInvoiceInfo(o, items);
      inv.paymentAmount >= 0 &&
      inv.paymentAmount >= inv.collectFromCustomer + o.creditAmount &&
      (inv.paymentAmount == 0 || inv.paymentAmount == inv.collectFromCustomer + o.creditAmount) &&
      (o.paymentMethodCode == Cod ==> inv.paymentCashAmount == inv.paymentAmount) &&
      (o.paymentMethodCode != Cod ==> inv.paymentCashAmount == 0)
  {
  }

  /** Applying the invoice and computing it again gives the same invoice:
      the waived delivery fee stays waived and nothing else moves. */
  lemma InvoiceIdempotent(o: Order, items: seq<Item>)
    ensures GetInvoiceInfo(ApplyInvoice(o, GetInvoiceInfo(o, items)), items) == GetInvoiceInfo(o, items)
  {
  }

  /** Only the invoice columns change when an invoice is applied. */
  lemma ApplyInvoiceFrame(o: Order, items: seq<Item>)
    ensures var r := ApplyInvoice(o, GetInvoiceInfo(o, items));
      r.(deliveryFee := o.deliveryFee, subtotal := o.subtotal, total := o.total,
         paymentAmount := o.paymentAmount, collectFromCustomer := o.collectFromCustomer) == o
  {
  }

  /** Canceling one more item of non-negative price never raises the
      subtotal. */
  lemma {:induction false} CancelLowersSubtotal(items: seq<Item>, i: int, at: int)
    requires 0 <= i < |items| && items[i].price >= 0
    ensures ActiveSubtotal(items[i := items[i].(canceledAt := Some(at))]) <= ActiveSubtotal(items)
  {
    var c := items[i := items[i].(canceledAt := Some(at))];
    assert items == items[..i] + [items[i]] + items[i + 1..];
    assert c == items[..i] + [c[i]] + items[i + 1..];
    ActiveSubtotalSplit(items[..i] + [items[i]], items[i + 1..]);
    ActiveSubtotalSplit(items[..i], [items[i]]);
    ActiveSubtotalSplit(items[..i] + [c[i]], items[i + 1..]);
    ActiveSubtotalSplit(items[..i], [c[i]]);
    assert [items[i]][..0] == [] && [c[i]][..0] == [];
  }
}
