// The string codes the order service stores: statuses shared by the
// payment, oms, logistics and order columns, cancel reasons, payment
// methods, payers and history event types.
module OrderEnums {

  const Pending := "pending"
  const Done := "done"
  const Cancelled := "cancelled"
  const Failed := "failed"
  const Shipped := "shipped"
  const NotSynced := "not_synced"
  const Confirmed := "confirmed"
  const ReadyForPickup := "ready_for_pickup"
  const PendingAssignment := "pending_assignment"
  const Assigned := "assigned"
  const ArrivedAtPickup := "arrived_at_pickup"
  const PickedUp := "picked_up"
  const ArrivedAtDelivery := "arrived_at_delivery"
  const Delivered := "delivered"
  const Undelivered := "undelivered"

  const OutOfStock := "out_of_stock"
  const CustomerCancelation := "customer_cancelation"
  const CsCancelation := "cs_cancelation"
  const CancelReasons: seq<string> := [OutOfStock, CustomerCancelation, CsCancelation]

  const CcNoonpay := "cc_noonpay"
  const Cod := "cod"
  const ApplePay := "apple_pay"
  const NoPayment := "nopayment"
  const PaymentMethods: seq<string> := [CcNoonpay, Cod, ApplePay, NoPayment]

  /** `PREPAID_PAYMENT_METHOD_CODES`. */
  predicate IsPrepaid(code: string)
  {
    code == CcNoonpay || code == ApplePay
  }

  const PayerCustomer := "customer"
  const PayerNone := "none"

  const HistoryOrderStatus := "order_status"
  const HistoryLogistics := "logistics"

  /** `ORDER_TERMINAL_STATES`. */
  predicate IsOrderTerminal(s: string)
  {
    s == Delivered || s == Undelivered || s == Cancelled || s == Failed
  }

  /** `LOGISTICS_TERMINAL_STATES`: the order terminal states except failed. */
  predicate IsLogisticsTerminal(s: string)
  {
    s == Delivered || s == Undelivered || s == Cancelled
  }

  lemma LogisticsTerminalIsOrderTerminalButFailed(s: string)
    ensures IsLogisticsTerminal(s) <==> IsOrderTerminal(s) && s != Failed
  {
  }
}
