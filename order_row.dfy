// A `sales_order` row and its `sales_order_item` rows, with money in
// integer cents (every money column is NUMERIC(13,2)), and the patches
// `modify_order` merges into a row. A NULL status column is the empty
// string, which Python treats as falsy just like None.
module OrderRow {
  import opened Wrappers

  datatype Order = Order(
    idSalesOrder: nat,
    orderNr: string,
    customerCode: string,
    countryCode: string,
    paymentMethodCode: string,
    paymentToken: Option<string>,
    subscriptionId: Option<string>,
    paymentIntentToken: Option<string>,
    creditCardMask: Option<string>,
    addressKey: string,
    initialOrderTotal: int,
    subtotal: int,
    deliveryFee: int,
    total: int,
    estimatedDeliveryAt: Option<int>,
    originalEstimatedDeliveryAt: Option<int>,
    creditAmount: int,
    payerCode: string,
    creditCaptured: int,
    paymentAmount: int,
    paymentAuthorized: int,
    paymentCaptured: int,
    paymentRefunded: int,
    paymentCashCollected: int,
    mpAdjustment: int,
    isCreditCardUsed: bool,
    prepaidPaymentInfo: Option<string>,
    issuedCredit: int,
    issuedCreditCaptured: int,
    collectFromCustomer: int,
    collectedFromCustomer: int,
    statusPayment: string,
    statusOms: string,
    statusLogistics: string,
    statusOrder: string,
    placedAt: int)

  datatype Item = Item(
    itemNr: string,
    idPartner: nat,
    sku: string,
    price: int,
    canceledAt: Option<int>,
    cancelReasonCode: Option<string>)

  /** The keys a `modify_order` modifier dict may carry, each `None` when
      absent. Only `SalesOrder` columns can be named here: a key that is
      not a column is dropped before the write. */
  datatype Patch = Patch(
    statusOrder: Option<string>,
    payerCode: Option<string>,
    statusPayment: Option<string>,
    statusOms: Option<string>,
    statusLogistics: Option<string>,
    estimatedDeliveryAt: Option<Option<int>>,
    originalEstimatedDeliveryAt: Option<Option<int>>,
    creditCaptured: Option<int>,
    issuedCredit: Option<int>,
    issuedCreditCaptured: Option<int>,
    mpAdjustment: Option<int>,
    paymentAuthorized: Option<int>,
    paymentCaptured: Option<int>,
    paymentRefunded: Option<int>,
    subscriptionId: Option<string>,
    prepaidPaymentInfo: Option<string>,
    isCreditCardUsed: Option<bool>)

  /** The empty dict `{}`. */
  const NoChange := Patch(None, None, None, None, None, None, None, None, None, None, None, None, None, None, None, None, None)

  function Pick<T>(p: Option<T>, v: T): T
  {
    if p.Some? then p.value else v
  }

  /** `order.update(patch)`. */
  function ApplyPatch(o: Order, p: Patch): (r: Order)
    ensures p == NoChange ==> r == o
  {
    o.(statusOrder := Pick(p.statusOrder, o.statusOrder),
       payerCode := Pick(p.payerCode, o.payerCode),
       statusPayment := Pick(p.statusPayment, o.statusPayment),
       statusOms := Pick(p.statusOms, o.statusOms),
       statusLogistics := Pick(p.statusLogistics, o.statusLogistics),
       estimatedDeliveryAt := Pick(p.estimatedDeliveryAt, o.estimatedDeliveryAt),
       originalEstimatedDeliveryAt := Pick(p.originalEstimatedDeliveryAt, o.originalEstimatedDeliveryAt),
       creditCaptured := Pick(p.creditCaptured, o.creditCaptured),
       issuedCredit := Pick(p.issuedCredit, o.issuedCredit),
       issuedCreditCaptured := Pick(p.issuedCreditCaptured, o.issuedCreditCaptured),
       mpAdjustment := Pick(p.mpAdjustment, o.mpAdjustment),
       paymentAuthorized := Pick(p.paymentAuthorized, o.paymentAuthorized),
       paymentCaptured := Pick(p.paymentCaptured, o.paymentCaptured),
       paymentRefunded := Pick(p.paymentRefunded, o.paymentRefunded),
       subscriptionId := if p.subscriptionId.Some? then p.subscriptionId else o.subscriptionId,
       prepaidPaymentInfo := if p.prepaidPaymentInfo.Some? then p.prepaidPaymentInfo else o.prepaidPaymentInfo,
       isCreditCardUsed := Pick(p.isCreditCardUsed, o.isCreditCardUsed))
  }

  /** The patch carries a new value for the order status column. */
  function SetStatus(s: string): Patch
  {
    NoChange.(statusOrder := Some(s))
  }

  function SetPayerAndStatus(payer: string, s: string): Patch
  {
    NoChange.(payerCode := Some(payer), statusOrder := Some(s))
  }

  /** `not item['canceled_at']`. */
  predicate IsActive(it: Item)
  {
    it.canceledAt.None?
  }
}
