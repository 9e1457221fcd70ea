# Marketplace order service, catalog and indexing — a Dafny model

This project models the core of a marketplace backend. Its centre is the order service, which takes a customer's cart through to a delivered, invoiced and settled order:

- **The cart.** A `session` with its `session_item` rows.
  - Adding an item adds at most the offer's limit to every line of the sku, without clamping the new total.
  - Setting a quantity clamps it to between 0 and the offer's limit.
  - Removing an item zeroes the first line of the sku.
  - A refresh re-reads prices and availability.
  - `modify_session` writes back only the rows that changed.
  - `format_session` computes the totals shown to the customer.
- **The order.** A `sales_order` row with one `sales_order_item` row per unit.
  - `modify_order` merges a patch into the row and recomputes the invoice, the payer and the composite status.
  - It records status and ETA history and queues events.
  - `cancel_order`, `PlaceOrder` and `ListOrders` are built on it.
- **Payments.**
  - The gateway's report is copied onto the order.
  - Capture and refund requests are sent within their bounds.
  - A reconciliation, `settle_payment`, compares what is owed with what was collected and takes one step: a capture, a credit capture, or a refund followed by a credit of whatever surplus is left.
  - A capture or refund that the gateway refuses with a permanent error is swallowed. A refused capture falls back to the credit capture.
  - The refund target follows the evident intent, not the code (see Findings).
- **The payment status machine.** A generic `Status` whose legal transitions are the handler names of its class. The `PaymentStatus` hooks move the order on from there.
- **The durable event queue** (`boilerplate_event`) and the worker that polls it. An event is marked processed only when its handler succeeded.
- **Customer-service commands.** Goodwill credit, payment adjustments and cancellation with a reason, each checked by the access-control layer.
- **Customer notifications.** Which notifications an order update sends, and the idempotency key of each.

Around the order service the model covers the following libraries:

- **Utility library.** Number, date and card helpers, the error-code format, and the nested query-string parser.
- **Catalog.**
  - Search request normalisation and Solr parameter building.
  - The category tree and the taxonomy importer's cycle check.
  - The spreadsheet importers.
  - The offer view fields.
- **Indexing.** The product, stock and price-import row transforms, and Solr document building.
- **CMS.** Widget assembly.
- **Access control.** Resource-level roles and permission processors.

Conventions throughout:

- Money is held in integer cents, since every money column is `NUMERIC(13,2)`. Rounding half-up to two places is therefore the identity (`Util.RoundCentsIdentity`).
- Python's `None` and raised exceptions become `Option` and `Result` values.
- Some operations change tables in place: the order database, the cart, the event table, the adjustment table and the registries. Each of these is a class whose methods are proved against a pure specification function of the old state.
- The following are all parameters of the operations that use them:
  - the clock;
  - the payment gateway's reports and intent tokens;
  - the credit ledger's replies;
  - catalog lookups (`enrich_offers`) and address lookups;
  - CMS criteria;
  - the role-to-permission table.

## Model

| member | source | states |
|---|---|---|
| OrderEnums.LogisticsTerminalIsOrderTerminalButFailed | src/liborder/domain/status.py:12-14 | the logistics terminal states are the order terminal states without `failed` |
| OrderRow.ApplyPatch | src/liborder/domain/order.py:594 | an empty patch leaves the order as it was |
| OrderRules.GetOrderStatusIdempotent | src/liborder/domain/order.py:706-725 | re-deriving the status of an order whose status was just derived changes nothing |
| OrderRules.GetOrderStatusSources | src/liborder/domain/order.py:706-725 | the derived status is the stored one when terminal, and otherwise one of the payment status, the logistics status, `ready_for_pickup`, `confirmed` or the stored status; it turns terminal only through the payment or logistics status |
| OrderRules.PayerNoneIff | src/liborder/domain/order.py:728-733 | the payer is `none` exactly when logistics is undelivered or cancelled or the order is cancelled or failed, and `customer` otherwise |
| OrderRules.PaymentFailureReleasesOrder | src/liborder/domain/order.py:706-733 | a non-terminal order whose payment failed or was cancelled takes that status, loses its payer, and then owes nothing |
| OrderRules.GroupItems | src/liborder/domain/order.py:489-504 | one entry per distinct key in first-seen order; each is the last item with that key, with the number of items carrying it as its quantity |
| OrderRules.KeysSeenDistinct | src/liborder/domain/order.py:490-500 | the keys seen are distinct, cover every item and are exactly the keys that occur |
| OrderRules.SumCountsSnoc | src/liborder/domain/order.py:495-498 | one more item adds one to the count of its key |
| OrderRules.SumCountsAppendKey | src/liborder/domain/order.py:500-503 | one more key adds its count |
| OrderRules.GroupQuantitiesSum | src/liborder/domain/order.py:489-504 | the quantities of the groups add up to the number of items |
| OrderRules.Repeat | src/liborder/domain/order.py:126 | a cart line repeated `qty` times |
| OrderRules.ItemRows | src/liborder/domain/order.py:123-129 | the item rows are one per unit of the cart, unit k (from 0) numbered `{order_nr}-{k+1}` |
| OrderRules.UnitsCount | src/liborder/domain/order.py:124-129 | there are as many units as the quantities add up to |
| OrderRules.ItemNrInjective | src/liborder/domain/order.py:127 | item numbers of one order never repeat |
| OrderRules.PlaceOrderMoneyFacts | src/liborder/domain/order.py:85-92 | the credit used is the smaller of the total and the session credit, and the payment amount is what remains of the total, never negative |
| OrderRules.ListOrdersPaging | src/liborder/domain/order.py:280-283 | the listing is accepted exactly for a positive page size and page number |
| OrderRules.ListOrdersPagingFacts | src/liborder/domain/order.py:281-296 | the page size is capped at 25, the offset skips the earlier pages, and the page count is the ceiling of total / size |
| OrderRules.CancelUnshipped | src/liborder/domain/order.py:788-796 | stamping the unshipped items keeps one item per item |
| OrderRules.CancelUnshippedFacts | src/liborder/domain/order.py:784-796 | afterwards every item is shipped or cancelled, shipped or already cancelled items are untouched, and nothing is stamped exactly when every item was already shipped or cancelled |
| OrderStore.Deactivate | src/liborder/domain/session.py:336-350 | deactivating sessions keeps every session row |
| OrderStore.StampAll | src/liborder/domain/order.py:432-436 | every item is stamped, one row per item |
| OrderStore.OrderDb.constructor | src/liborder/domain/order.py:580-642 | a fresh store holds no rows and the given status codes |
| OrderStore.OrderDb.Restore | src/liborder/domain/order.py:426-429 | a failed command leaves every table as it was before it |
| OrderStore.OrderDb.AddEvents | src/liborder/domain/boilerplate_event.py:60-70 | `create_events` appends one row per event, in order, and changes nothing else |
| OrderStore.OrderDb.AfterPaymentRelatedUpdate | src/liborder/domain/payment.py:308-323 | the payment update fails, changing nothing, when the amount to collect would be negative, and otherwise rewrites the invoice columns and the collected amount of that order |
| OrderStore.OrderDb.Write | src/liborder/domain/order.py:603-639 | the writes of `modify_order` before the payment update: an ETA row when the estimate changed, the history rows, the invoice event and the order row |
| OrderStore.OrderDb.QueueInvoice | src/liborder/domain/order.py:621-627 | a `GENERATE_INVOICE` event, due a day later, is queued exactly when the order has just been delivered |
| OrderStore.OrderDb.LogEta | src/liborder/domain/order.py:603-604 | the ETA rows are appended |
| OrderStore.OrderDb.RecordHistory | src/liborder/domain/order.py:606-619 | the status and logistics history rows are insert-ignored |
| OrderStore.OrderDb.StoreOrder | src/liborder/domain/order.py:637-639 | the order row is written back and no other |
| OrderStore.OrderDb.ModifyOrder | src/liborder/domain/order.py:580-642 | `modify_order` fails, changing nothing, exactly as its specification does, and otherwise leaves the tables and returns the order its specification gives |
| OrderStore.OrderDb.DeleteSubscription | src/liborder/domain/payment.py:66-75 | the subscription of the order's address and payment token is deleted |
| OrderStore.OrderDb.ReactivateOrderSession | src/liborder/domain/order.py:654-702 | the order's session is reactivated only when the customer's active session has no items |
| OrderStore.OrderDb.CancelOrder | src/liborder/domain/order.py:419-458 | `cancel_order` fails, changing nothing, exactly as its specification does, and otherwise leaves the tables it gives |
| OrderStore.OrderDb.EtaOrderUpdate | src/liborder/domain/order.py:949-966 | the estimate is renewed only when the fulfilment time estimate exceeds two, without the payment update |
| OrderFacts.DerivedFixpoint | src/liborder/domain/order.py:600-631 | the order `modify_order` stores is its own derivation: re-deriving status, payer and invoice changes nothing |
| OrderFacts.ModifyOrderIdempotent | src/liborder/domain/order.py:580-642 | a second `modify_order` with an empty modifier right after the first rewrites the same row and adds no history, ETA row or event |
| OrderFacts.ModifyOrderFailsIff | src/liborder/domain/order.py:580-642 | `modify_order` fails exactly when the order is missing, or when the payment update is asked for and the amount to collect is negative |
| OrderFacts.ModifyOrderFrame | src/liborder/domain/order.py:580-642 | on success only the modified order's row changes among the order rows; items, subscriptions, sessions and the status table are untouched |
| OrderFacts.ModifyOrderHistory | src/liborder/domain/order.py:606-619 | both history keys of the stored order are present, and earlier history keeps its timestamps |
| OrderFacts.RecordedKeeps | src/liborder/domain/order.py:618-619 | the history inserts add both keys of the order and keep every earlier row |
| OrderFacts.AfterPaymentFrame | src/liborder/domain/payment.py:308-323 | the payment update rewrites the order's row and nothing else |
| OrderFacts.ModifyOrderStores | src/liborder/domain/order.py:594-641 | the stored row is the patched order with its derived status, payer and invoice; with the payment update it also carries the collected-from-customer formula |
| OrderFacts.ModifyOrderQueues | src/liborder/domain/order.py:603-627 | the invoice event is queued exactly when the status newly becomes `delivered`, a day after now; an ETA row is written exactly when the estimate changed |
| OrderFacts.EnqueuedPair | src/liborder/domain/boilerplate_event.py:60-70 | two events queued close the queue, in order |
| OrderFacts.CancelModify | src/liborder/domain/order.py:446-450 | cancelling through `modify_order` cannot fail, keeps the items, and leaves the order cancelled with payer `none` and nothing to collect |
| OrderFacts.CancelOrderSteps | src/liborder/domain/order.py:431-458 | a `cancel_order` that goes ahead stamps the items, cancels the order, then queues the settle and notification events |
| OrderFacts.CancelOrderFailsIff | src/liborder/domain/order.py:426-429 | `cancel_order` fails exactly when the order is missing or no longer cancelable |
| OrderFacts.CancelOrderOutcome | src/liborder/domain/order.py:419-458 | a successful cancel leaves the order cancelled with payer `none` and nothing to collect, every item cancelled with the reason, and the settle and notification events last in the queue |
| OrderFacts.CancelTwiceFails | src/liborder/domain/order.py:419-458 | once `cancel_order` has succeeded, a second `cancel_order` of the same order is refused as no longer cancelable |
| OrderFacts.CancelledQueued | src/liborder/domain/order.py:453-458 | queueing the events keeps what the cancel stored |
| OrderFacts.SideStepsKeepOrders | src/liborder/domain/order.py:654-702 | queueing events, deleting the subscription and reactivating the session never touch order rows, and fail exactly for a missing order |
| OrderFacts.ModifyKeepsPaymentStatus | src/liborder/domain/order.py:594 | a modifier that leaves the payment status alone keeps the stored payment status |
| Invoice.PayerNoneOwesNothing | src/liborder/domain/payment.py:326-347 | with payer `none` nothing is owed, whatever the items or adjustment |
| Invoice.ActiveSubtotalSplit | src/liborder/domain/payment.py:334-336 | the subtotal adds up over the items one by one |
| Invoice.CustomerInvoice | src/liborder/domain/payment.py:326-345 | for a customer-paid order the subtotal is the active items' prices, any canceled item waives the delivery fee, and the amount to collect and the total are subtotal + fee + adjustment |
| Invoice.PaymentAmounts | src/liborder/domain/payment.py:346-350 | the payment amount is `max(collect + credit, 0)`; the cash amount equals it for cash on delivery and is 0 otherwise |
| Invoice.InvoiceIdempotent | src/liborder/domain/payment.py:326-361 | applying the invoice and computing it again gives the same invoice |
| Invoice.ApplyInvoiceFrame | src/liborder/domain/order.py:630-631 | only the invoice columns change when an invoice is applied |
| Invoice.CancelLowersSubtotal | src/liborder/domain/payment.py:334-339 | canceling one more item of non-negative price never raises the subtotal |
| Payment.Details | src/liborder/domain/order.py:146-200 | `GetDetails(internal=True)` finds the order exactly when its number is in the order table |
| Payment.UpdatePaymentInfoSpec | src/liborder/domain/payment.py:171-196 | a stored payment report always leaves the order in the table |
| Payment.GetDetails | src/liborder/domain/order.py:146-200 | the method returns what `Details` specifies, a failure for a missing order |
| Payment.UpdatePaymentInfo | src/liborder/domain/payment.py:171-196 | the store ends in the state `UpdatePaymentInfoSpec` gives and returns the gateway status; on failure nothing changes |
| Payment.PaymentCapture | src/liborder/domain/payment.py:121-147 | the store ends as `PaymentCaptureSpec` says; a refused capture leaves it untouched |
| Payment.PaymentRefund | src/liborder/domain/payment.py:150-168 | the store ends as `PaymentRefundSpec` says; a refused refund leaves it untouched |
| Payment.Move | src/liborder/domain/status.py:17-29 | a payment status transition ends in the state `MoveSpec` gives, or leaves the store untouched |
| Payment.React | src/liborder/domain/payment.py:233-244 | the status decision after the report is stored ends as `ReactSpec` says |
| Payment.PaymentUpdated | src/liborder/domain/payment.py:222-244 | `payment_updated` ends as `PaymentUpdatedSpec` says, or leaves the store untouched |
| Payment.CapturePaymentAmount | src/liborder/domain/payment.py:252-264 | `capture_payment_amount` ends as `CapturePaymentAmountSpec` says |
| Payment.CreditCapture | src/liborder/domain/credit.py:31-41 | `credit.capture` of the settlement ends as `CreditSpec` says |
| Payment.Remainder | src/liborder/domain/payment.py:299-305 | the surplus left after a refund goes to credit as `RemainderSpec` says |
| Payment.Leftover | src/liborder/domain/payment.py:300-305 | with nothing left over nothing more happens, otherwise the credit is captured as `LeftoverSpec` says |
| Payment.CaptureRefused | src/liborder/domain/payment.py:121-146 | a capture the gateway refuses fails `payment_capture`'s own checks as before, and otherwise leaves only the request recorded |
| Payment.SettleCapture | src/liborder/domain/payment.py:280-287 | the capture branch ends as `SettleCaptureSpec` says: an accepted capture as `payment_capture`, a refused one falling through to the credit capture |
| Payment.RefundAttempt | src/liborder/domain/payment.py:295-296 | `payment_refund` under the permanent-error guard ends as `RefundAttemptSpec` says: a refused refund request is recorded and swallowed |
| Payment.RefundThenRemainder | src/liborder/domain/payment.py:293-305 | refund first, a permanent refusal swallowed, then credit the rest, as `RefundThenRemainderSpec` says |
| Payment.Settle | src/liborder/domain/payment.py:274-305 | each settlement step (nothing, capture more, credit back, refund first) acts as `StepSpec` says for the gateway's answer |
| Payment.SettlePayment | src/liborder/domain/payment.py:267-305 | `settle_payment` ends as `SettlePaymentSpec` says, or leaves the store untouched |
| Payment.Intent | src/liborder/domain/payment.py:100-115 | the intent request is sent and its token stored as `IntentSpec` says |
| Payment.Charge | src/liborder/domain/payment.py:96-118 | after the credit step the order fails, gets an intent, or is marked done, as `ChargeSpec` says |
| Payment.PaymentOrderCreate | src/liborder/domain/payment.py:78-118 | `payment_order_create` ends as `PaymentOrderCreateSpec` says, or leaves the store untouched |
| PaymentFacts.SettledIff | src/liborder/domain/payment.py:274-276 | settlement does nothing exactly when the amount to collect equals the amount collected |
| PaymentFacts.UnderCaptures | src/liborder/domain/payment.py:277-287 | an under-collection with spare authorization captures more than is captured, at most what is authorized and at most the shortfall more; its fallback is the credit capture made when nothing more is authorized |
| PaymentFacts.RefusedCaptureFallsBack | src/liborder/domain/payment.py:283-287 | a refused capture within bounds records the request, changes no column, and the settlement goes on to the credit capture |
| PaymentFacts.RefusedRefundKeepsOrder | src/liborder/domain/payment.py:295-305 | a refused refund records the request and changes no row, so the surplus read back and credited is the whole surplus |
| PaymentFacts.UnderCredits | src/liborder/domain/payment.py:277-287 | an under-collection without spare authorization takes the shortfall from the captured credit |
| PaymentFacts.OverRefundsIff | src/liborder/domain/payment.py:288-305 | an over-collection asks for a refund exactly when more is captured than refunded, and otherwise credits back the whole surplus |
| PaymentFacts.RefundTargetBounds | src/liborder/domain/payment.py:288-296 | the corrected refund target lies between what is refunded and what is captured, and refunds the surplus or all that is left |
| PaymentFacts.RefundTargetAllowed | src/liborder/domain/payment.py:158-167 | the corrected refund target always passes `payment_refund`'s bounds check |
| PaymentFacts.RefundAsWrittenAgrees | src/liborder/domain/payment.py:290-294 | with nothing refunded yet the refund as written equals the corrected one |
| PaymentFacts.RefundAsWrittenGoesNegative | src/liborder/domain/payment.py:290-294 | after a partial refund the decision as written asks for a negative refund, and the settlement fails whatever the gateway answers: 100 captured, 30 refunded, 20 over gives -10 (corrected: 50); 50 captured, 50 refunded, 20 over gives -30 (corrected: credit the 20) |
| PaymentFacts.StepAsWrittenAgrees | src/liborder/domain/payment.py:288-296 | with nothing refunded yet the decision as written is the corrected one |
| PaymentFacts.UpdatePaymentInfoFrame | src/liborder/domain/payment.py:171-196 | storing the report touches only the order's own row, its history and events |
| PaymentFacts.UpdatePaymentInfoColumns | src/liborder/domain/payment.py:173-194 | without a report nothing changes; with one the columns are the authorized amount net of reversals and captures, the captured amount and the refunded amount negated |
| PaymentFacts.CaptureRefuses | src/liborder/domain/payment.py:122-130 | a negative capture and one above captured plus authorized are refused |
| PaymentFacts.CaptureSends | src/liborder/domain/payment.py:131-146 | a capture sends one gateway request, a reverse exactly when the amount is 0 |
| PaymentFacts.RefundSendsIff | src/liborder/domain/payment.py:151-167 | a refund is sent to the gateway exactly when it lies within what is refunded and captured |
| PaymentFacts.MoveSetsColumn | src/liborder/models/status.py:62-84 | a transition that goes through sets the payment status column to its target |
| PaymentFacts.PaymentUpdatedOutcome | src/liborder/domain/payment.py:222-244 | only a pending payment moves: to failed on `payment_failed`, otherwise to done exactly when the amount is positive and covered |
| PaymentFacts.CapturePaymentAmountSkips | src/liborder/domain/payment.py:252-262 | a non-prepaid order, a zero amount, or an amount outside captured..authorized changes nothing |
| PaymentFacts.CapturePaymentAmountCaptures | src/liborder/domain/payment.py:262-264 | otherwise the positive payment amount is captured, never reversed |
| PaymentFacts.OrderCreateSkips | src/liborder/domain/payment.py:83-92 | nothing to collect, or a payment no longer pending, changes nothing |
| PaymentFacts.OrderCreateIntent | src/liborder/domain/payment.py:100-115 | a prepaid order without credit gets an intent exactly when its address key splits in two, for the payment amount, with the token stored |
| PaymentStatus.DefaultPaymentKeysDistinct | src/liborder/domain/status.py:76-83 | the default-payment event's data has distinct keys |
| PaymentStatus.AfterFailure | src/liborder/domain/status.py:31-63 | `after_failed`/`after_canceled` end as `AfterFailureSpec` says |
| PaymentStatus.AfterDone | src/liborder/domain/status.py:65-85 | `after_done` ends as `AfterDoneSpec` says |
| PaymentStatus.NotifyDone | src/liborder/domain/status.py:71-85 | the events and ETA update of `after_done` end as `NotifyDoneSpec` says |
| PaymentStatus.UpdateState | src/liborder/models/status.py:27-33 | `update_state` sets only the payment status column of the order |
| PaymentStatus.After | src/liborder/models/status.py:77-80 | the `after_<status>` hook runs as `AfterSpec` says |
| PaymentStatus.Transition | src/liborder/models/status.py:62-84 | `transition` ends as `TransitionSpec` says, or leaves the store untouched |
| PaymentStatus.NoHandlersFrom | src/liborder/models/status.py:44-52 | no attribute starting with another letter is a handler from a status |
| PaymentStatus.FirstLetters | src/liborder/domain/status.py:17-85 | only the three `pending_to_` handlers start with `p` among the class's attributes |
| PaymentStatus.TransitionTable | src/liborder/domain/status.py:22-29 | from `pending` the targets are `canceled`, `done`, `failed`; nothing leaves `done`, `failed` or `canceled` |
| PaymentStatus.PendingHandlers | src/liborder/domain/status.py:22-29 | the three handlers list the targets in name order |
| PaymentStatus.PendingPlain | src/liborder/domain/status.py:22-29 | no handler name from `pending` repeats its prefix |
| PaymentStatus.CancelledIsRefused | src/liborder/domain/status.py:25-26 | `transition('cancelled')` from `pending` fails with "not allowed transition pending_to_cancelled" and changes nothing |
| PaymentStatus.CancelledMissing | src/liborder/domain/status.py:25-26 | `cancelled` is not an allowed target from `pending` |
| PaymentStatus.FailedModify | src/liborder/domain/status.py:32-36 | marking the order failed succeeds and keeps the payment token and the address |
| PaymentStatus.AfterFailureSteps | src/liborder/domain/status.py:31-45 | the order row, then the subscription deletion unless the wallet is at fault, then the events |
| PaymentStatus.AfterFailureOutcome | src/liborder/domain/status.py:31-63 | the hooks fail only for a missing order; afterwards the order is failed with payer none and nothing to collect |
| PaymentStatus.AfterFailureQueues | src/liborder/domain/status.py:37-44 | the events end the queue, and the subscription is deleted unless the wallet was at fault |
| PaymentStatus.AfterDoneConfirms | src/liborder/domain/status.py:65-84 | a fresh paid order is confirmed, its payment stays done, the notification is queued first and the default-payment event only for prepaid orders |
| PaymentStatus.MovedSetsColumn | src/liborder/models/status.py:76-80 | after a successful move the payment status is the target, whatever the hooks did |
| PaymentStatus.AfterKeepsColumn | src/liborder/domain/status.py:31-85 | no `after_` hook changes the payment status column |
| PaymentStatus.FailureKeepsColumn | src/liborder/domain/status.py:31-63 | the failure hooks keep the payment status column |
| PaymentStatus.AfterDoneKeepsColumn | src/liborder/domain/status.py:65-85 | `after_done` keeps the payment status column |
| Credit.Book | src/liborder/domain/credit.py:33-38 | sending a ledger transaction and storing its reply ends as `BookSpec` says, or leaves the store untouched |
| Credit.Payload | src/liborder/domain/credit.py:76-107 | the transaction request is what `PayloadSpec` builds for the order |
| Credit.Capture | src/liborder/domain/credit.py:31-39 | `capture` ends as `CaptureSpec` says and returns the ledger balance |
| Credit.CaptureCreditAmount | src/liborder/domain/credit.py:42-53 | `capture_credit_amount` ends as `CaptureCreditAmountSpec` says |
| Credit.CaptureIssuedCredits | src/liborder/domain/credit.py:59-69 | `capture_issued_credits` ends as `CaptureIssuedCreditsSpec` says |
| Credit.SetIssuedCredits | src/liborder/domain/credit.py:72-73 | `set_issued_credits` ends as `SetIssuedCreditsSpec` says |
| Credit.DescriptionInjective | src/liborder/domain/credit.py:86-89 | two descriptions agree exactly when they name the same order and both credit or both withdraw |
| Credit.RefTypesDistinct | src/liborder/domain/credit.py:16-17 | order and goodwill transactions carry different reference types |
| Credit.PayloadFacts | src/liborder/domain/credit.py:76-107 | the request exists exactly for a known order and carries the amount, the order number, its customer, the goodwill reference type exactly when asked and the credit wording exactly for a positive amount |
| Credit.CaptureOutcome | src/liborder/domain/credit.py:31-39 | `capture` fails exactly for a missing order, a ledger reply other than `ok`, or a refused order update; otherwise the request is logged and the credit captured is the reply's `ref_balance` |
| Credit.BookFacts | src/liborder/domain/credit.py:33-38 | booking fails exactly on a reply other than `ok` or a refused update; otherwise the patched columns hold the reply's values and no gateway call is made |
| Credit.RoundsPositiveIff | src/liborder/domain/credit.py:51-53 | the balance rounded half-up to cents is positive exactly when it is at least half a cent |
| Credit.CaptureCreditAmountOutcome | src/liborder/domain/credit.py:42-53 | a payment not pending or an order without credit is refused; otherwise the result says whether the rounded balance is positive |
| Credit.CaptureIssuedCreditsOutcome | src/liborder/domain/credit.py:59-69 | one goodwill transaction for the issued credit is sent and the reply's balance is stored as issued credit captured |
| Credit.SetIssuedCreditsStores | src/liborder/domain/credit.py:72-73 | the amount becomes the order's issued credit and no ledger call is made |
| StatusMachine.RemoveAll | src/liborder/models/status.py:50 | `str.replace(pat, '')` never lengthens the string |
| StatusMachine.GetTransitions | src/liborder/models/status.py:44-52 | there are never more transitions than attribute names |
| StatusMachine.TransitionsAppend | src/liborder/models/status.py:44-52 | the transitions of two name lists concatenated are the concatenation of their transitions |
| StatusMachine.RemoveAllAbsent | src/liborder/models/status.py:50 | removing a pattern that does not occur leaves the string as it was |
| StatusMachine.RemovePrefix | src/liborder/models/status.py:47-50 | removing the handler prefix from a handler name leaves the target status |
| StatusMachine.AllowedIffListed | src/liborder/models/status.py:44-60 | `is_allowed(to)` holds exactly when `to` is among `get_transitions(from)` |
| StatusMachine.GetState | src/liborder/models/status.py:18-24 | the state is read exactly when the column holds a non-empty code, and it is that code |
| StatusMachine.NoopDoesNothing | src/liborder/models/status.py:64 | with `allow_noop`, asking for the current state does nothing |
| StatusMachine.MissingHandler | src/liborder/models/status.py:65-69 | a missing handler is skipped under `ignore_not_allowed` and otherwise fails "not allowed transition {from}_to_{to}" |
| StatusMachine.MovesIff | src/liborder/models/status.py:62-84 | the row moves exactly when the state is a known code, the call is no no-op, the handler exists and returns; it is refused exactly when the handler asserts under `ignore_error` |
| StatusMachine.NewToNewLegal | src/liborder/models/status.py:86-88 | `new -> new` is always legal |
| StatusMachine.StatusRow.constructor | src/liborder/models/status.py:14-16 | a row starts with the given state and no hooks run |
| StatusMachine.StatusRow.UpdateState | src/liborder/models/status.py:27-33 | only the state column is set |
| StatusMachine.StatusRow.Allowed | src/liborder/models/status.py:54-60 | `is_allowed` reads the state and answers whether a handler exists |
| StatusMachine.StatusRow.Transition | src/liborder/models/status.py:62-84 | a transition moves the state to the target and runs the hooks exactly when `Decide` says it moves; otherwise the row is unchanged |
| Events.FromName | src/liborder/domain/boilerplate_event.py:12-35 | a member found by name carries that name |
| Events.FromNameName | src/liborder/domain/boilerplate_event.py:12-35 | every action code is found again under its own name |
| Events.NameInjective | src/liborder/domain/boilerplate_event.py:12-35 | two action codes with the same name are the same code |
| Events.RowOf | src/liborder/domain/boilerplate_event.py:38-46 | an inserted event is unprocessed, carries its code's name, the next id, and is scheduled now unless a time is given |
| Events.RowsOf | src/liborder/domain/boilerplate_event.py:60-70 | a batch insert produces one row per event |
| Events.RowsOfOne | src/liborder/domain/boilerplate_event.py:38-70 | a batch of one inserts what `create_event` inserts |
| Events.Selected | src/liborder/domain/boilerplate_event.py:74-81 | at most `limit` rows are selected |
| Events.MarkProcessed | src/liborder/domain/boilerplate_event.py:87-94 | marking keeps every row |
| Events.Batch | src/liborder/domain/boilerplate_event.py:73-84 | `get_events` returns one event per selected row |
| Events.SelectedParse | src/liborder/domain/boilerplate_event.py:82-83 | every stored payload parses with `json.loads` |
| Events.SelectDue | src/liborder/domain/boilerplate_event.py:74-81 | the scan returns exactly the rows `Selected` specifies |
| Events.DecodeAll | src/liborder/domain/boilerplate_event.py:82-83 | every selected payload is decoded, in order |
| Events.EventTable.constructor | src/liborder/domain/boilerplate_event.py:73-84 | a new table is empty |
| Events.EventTable.CreateEvent | src/liborder/domain/boilerplate_event.py:38-46 | one row is appended and returned, the rest is unchanged |
| Events.EventTable.CreateEvents | src/liborder/domain/boilerplate_event.py:60-70 | one row per event is appended, in list order |
| Events.EventTable.Restore | src/liborder/domain/boilerplate_event.py:60-70 | a rolled-back transaction leaves the rows it started with |
| Events.EventTable.GetEvents | src/liborder/domain/boilerplate_event.py:73-84 | the events returned are the `Batch` of the table, which is unchanged |
| Events.EventTable.DeleteEvent | src/liborder/domain/boilerplate_event.py:87-94 | the rows with that id are marked processed and kept |
| Events.BuildRows | src/liborder/domain/boilerplate_event.py:61-69 | the rows to insert are `RowsOf` the events, with consecutive ids and payloads that parse |
| Events.RowsOfParse | src/liborder/domain/boilerplate_event.py:60-70 | batch rows carry consecutive ids and payloads that parse back |
| Events.AppendValid | src/liborder/domain/boilerplate_event.py:60-70 | appending such rows keeps the table's id and payload invariant |
| Events.SelectedAreDue | src/liborder/domain/boilerplate_event.py:74-81 | every selected row is a due row of that code |
| Events.SelectedComplete | src/liborder/domain/boilerplate_event.py:74-81 | a batch short of the limit holds every due row of that code |
| Events.NeverSelectedAgain | src/liborder/domain/boilerplate_event.py:77-93 | a row marked processed is never selected again |
| Events.MarkProcessedFrame | src/liborder/domain/boilerplate_event.py:90-94 | marking changes only the flag, and only of rows with that id |
| Events.CreatedPayloadRoundTrip | src/liborder/domain/boilerplate_event.py:38-46 | what `create_event` stores reads back as the payload given |
| Worker.Poll | src/apporder/workers/__init__.py:22-37 | one pass of the loop leaves the table and outcome `Pass` specifies for the current batch |
| Worker.Drain | src/apporder/workers/__init__.py:38-43 | in testing mode, a loop that ends without a handler failure leaves no event of the code due |
| Worker.PassIsolation | src/apporder/workers/__init__.py:26-37 | outside testing, exactly the events whose handler returned are marked, a failure stays due, and the pass reports whether anything was processed |
| Worker.PassTesting | src/apporder/workers/__init__.py:32-43 | in testing mode a pass fails exactly when some handler fails, and reports processing exactly for a non-empty batch |
| Worker.PassOnlyMarks | src/apporder/workers/__init__.py:26-31 | a pass only ever marks rows processed |
| Worker.DueCountMono | src/liborder/domain/boilerplate_event.py:77-93 | marking never adds due rows, and marking a due row removes one |
| Worker.ProcessingPassShrinks | src/apporder/workers/__init__.py:39-42 | a testing pass that processed something leaves strictly fewer due rows, so the loop ends |
| Worker.EmptyPassLeavesNothingDue | src/apporder/workers/__init__.py:39-43 | a testing pass that processed nothing leaves the table unchanged with nothing of the code due |
| Session.Visible | src/liborder/domain/session.py:613 | the shown lines are lines of the cart with a positive quantity |
| Session.FormatSession | src/liborder/domain/session.py:612-621 | shown lines have positive quantity, total is subtotal plus delivery fee, the payment amount is 0 or total less credit, and the card type follows the mask |
| Session.SubtotalIsVisibleTotal | src/liborder/domain/session.py:613-614 | the subtotal over the shown lines equals the subtotal over all lines with positive quantity |
| Session.LinesTotalAppend | src/liborder/domain/session.py:614 | the total of two runs of lines is the sum of their totals |
| Session.SubtotalUpdate | src/liborder/domain/session.py:614 | replacing one line changes the subtotal by the difference of the lines' contributions |
| Session.ItemsMap | src/liborder/domain/session.py:633-638 | every sku of the cart is a key |
| Session.Filter | src/liborder/domain/session.py:645-647 | the lines to write are lines of the cart whose sku changed |
| Session.UpsertFilter | src/liborder/domain/session.py:640-658 | the upsert writes the final pair of each changed sku and leaves every other stored row alone |
| Session.UnchangedNotWritten | src/liborder/domain/session.py:640-643 | a sku whose (qty, price) pair did not change is not written |
| Session.PersistMirrors | src/liborder/domain/session.py:627-662 | stored item rows that mirrored the cart still mirror it after `modify_session` |
| Session.MapHoldsSomePair | src/liborder/domain/session.py:633 | each key of the sku map holds the pair of some line of that sku |
| Session.SameItemsNoChange | src/liborder/domain/session.py:640-643 | an untouched item list produces no sku to write |
| Session.FirstIndex | src/liborder/domain/session.py:502-505 | the index found is the first line of the sku, and none means no line has it |
| Session.Refreshed | src/liborder/domain/session.py:312-332 | refreshing keeps one line per line |
| Session.Cart.constructor | src/liborder/domain/session.py:627-635 | a cart holds the loaded session state |
| Session.Cart.AddLines | src/liborder/domain/session.py:422-427 | the lines become `Added`: every line of the sku grows, and a new line is appended only when none existed |
| Session.Cart.SetQuantityLines | src/liborder/domain/session.py:473-478 | the lines become `SetLines`: every line of the sku is set, and a new line appended only when none existed |
| Session.Cart.ZeroFirstLine | src/liborder/domain/session.py:502-505 | only the first line of the sku is zeroed |
| Session.Cart.RefreshLines | src/liborder/domain/session.py:310-332 | the cart becomes `RefreshSpec` of the old state |
| Session.RefreshOne | src/liborder/domain/session.py:312-331 | one line is refreshed and its update reported as `RefreshLine` says |
| Session.FirstIndexIs | src/liborder/domain/session.py:502-505 | a line of the sku with none before it is the first index |
| Session.SessionTables.constructor | src/liborder/domain/session.py:627-635 | the tables hold what was loaded |
| Session.SessionTables.UpsertItems | src/liborder/domain/session.py:651-658 | only the item rows are upserted |
| Session.SessionTables.UpsertRow | src/liborder/domain/session.py:659-660 | only the session row is written |
| Session.SkusToUpdate | src/liborder/domain/session.py:640-643 | the skus to write are those whose current pair differs from the loaded one, absent counting as (-1, -1) |
| Session.ModifySession | src/liborder/domain/session.py:627-662 | the tables end as `Persist` says and the cart shows only lines with positive quantity |
| Session.AddItem | src/liborder/domain/session.py:385-439 | `AddItem` commits `AddItemSpec`, or changes nothing on failure |
| Session.SetQuantity | src/liborder/domain/session.py:442-490 | `SetQuantity` commits `SetQuantitySpec`, or changes nothing on failure |
| Session.RemoveItem | src/liborder/domain/session.py:493-507 | `RemoveItem` commits `RemoveItemSpec`, or changes nothing on failure |
| Session.RefreshSession | src/liborder/domain/session.py:298-334 | `refresh_session` commits `RefreshSpec` |
| Session.SetPaymentMethod | src/liborder/domain/session.py:563-590 | `SetPaymentMethod` commits `SetPaymentMethodSpec`, or changes nothing on failure |
| Session.FormatSubtotal | src/liborder/domain/session.py:614-616 | the subtotal shown is the sum over positive lines and the payment amount is max(0, subtotal + fee - credit) |
| Session.AddItemOutcome | src/liborder/domain/session.py:390-437 | every line of the sku gains min(qty_max, qty) with no second clamp, a line is appended only when none existed and the amount is positive, and the popup shows exactly when the request was cut |
| Session.AddItemNotReclamped | src/liborder/domain/session.py:424 | a line at 10 with 12 allowed grows to 15 when 5 are added |
| Session.SetQuantityOutcome | src/liborder/domain/session.py:448-478 | every line of the sku is set to max(min(qty_max, qty), 0), other lines are kept, and a line is created only when that is positive |
| Session.RemoveItemOutcome | src/liborder/domain/session.py:497-505 | the first line of the sku is zeroed, the subtotal drops by its contribution and it is no longer shown |
| Session.RefreshBounds | src/liborder/domain/session.py:310-330 | after a refresh a line without offer is hidden and any other has the offer's price and at most the stock and customer limit, unchanged when already within them |
| Session.RefreshReportsDrifted | src/liborder/domain/session.py:316-333 | `updated_skus` reports exactly the drifted lines, in cart order |
| Session.LineEditsKeepRow | src/liborder/domain/session.py:636-660 | edits to the lines alone never rewrite the session row |
| Session.SetPaymentMethodOutcome | src/liborder/domain/session.py:570-586 | an unknown method or negative credit is refused; `cod` clears the card fields, any other choice stores the mask with its bin and card type |
| CustomerService.Cents | src/libcs/domain/customer_service.py:220-222 | an amount in cents prints with two decimals, as the "Credit amount too high" message shows the total |
| CustomerService.IssueCredit | src/libcs/domain/customer_service.py:208-224 | `IssueCredit` ends as `IssueCreditSpec` says, or changes nothing when an assertion fails |
| CustomerService.FirstWith | src/libcs/domain/customer_service.py:280-303 | the row found holds the item key (or reason key) of the adjustment, and none means no row holds it |
| CustomerService.AdjustmentTable.constructor | src/libcs/domain/customer_service.py:280-303 | the adjustment table starts empty |
| CustomerService.AdjustmentTable.Upsert | src/libcs/domain/customer_service.py:280-303 | the upsert leaves the rows `UpsertSpec` gives, and none changed when it is refused |
| CustomerService.LookupReason | src/libcs/domain/customer_service.py:250-253 | the reason found is a reason row with that code, and none exactly when no row has it |
| CustomerService.FindItem | src/libcs/domain/customer_service.py:271-275 | the loop keeps the last item with the number asked for |
| CustomerService.Validate | src/libcs/domain/customer_service.py:250-297 | the request is checked as `Validated` says |
| CustomerService.AddAdjustment | src/libcs/domain/customer_service.py:233-318 | `AddAdjustment` ends as `AddAdjustmentSpec` says, or changes neither the order nor the table |
| CustomerService.CancelOrder | src/libcs/domain/customer_service.py:180-191 | the CS cancellation ends as `CsCancelOrderSpec` says, or changes nothing |
| CustomerService.IssueCreditIff | src/libcs/domain/customer_service.py:210-223 | credit is issued exactly when the amount is positive, the order exists and is under two days old, the amount is at least what was issued and at most 1.25 times the initial total, and the order update is accepted |
| CustomerService.IssueCreditSteps | src/libcs/domain/customer_service.py:223-224 | a successful issue is `set_issued_credits` followed by the queued event |
| CustomerService.EnqueuedOne | src/liborder/domain/boilerplate_event.py:38-46 | one queued event is appended last and no other table changes |
| CustomerService.IssueCreditOutcome | src/libcs/domain/customer_service.py:223-224 | the amount becomes the issued credit, nothing is booked on the ledger yet, and `CAPTURE_ISSUED_CREDITS` is queued last |
| CustomerService.IssuedCreditNeverLowered | src/libcs/domain/customer_service.py:217 | once an amount is issued, a smaller one is refused |
| CustomerService.LookupReasonIsLast | src/libcs/domain/customer_service.py:251 | the reason map keeps the last row with a code |
| CustomerService.LastWithFacts | src/libcs/domain/customer_service.py:271-276 | the search finds the last item with that number, and finds one exactly when some item has it |
| CustomerService.ValidatedFacts | src/libcs/domain/customer_service.py:250-297 | an accepted request has a known reason and a delivered order under seven days old; an item adjustment names an existing uncancelled item and takes minus its price; an order adjustment is a shipping-fee refund of minus the positive fee |
| CustomerService.OrderLevelOnlyShippingFee | src/libcs/domain/customer_service.py:288-297 | an order-level adjustment other than the shipping-fee refund never gets an amount and is refused |
| CustomerService.NetAppend | src/libcs/domain/customer_service.py:306-315 | the net adjustment with one more row grows by that row's amount when it is of the order |
| CustomerService.NetUpdate | src/libcs/domain/customer_service.py:306-315 | replacing a row changes the net adjustment by the difference of the amounts |
| CustomerService.UpsertKeepsUnique | src/libcs/domain/customer_service.py:280-303 | the upsert keeps both unique keys, (order, item) and (order, reason) |
| CustomerService.UpsertRecords | src/libcs/domain/customer_service.py:280-303 | the row for the request's key carries its amount, comment and user; at most one row is added and other orders' rows are untouched |
| CustomerService.UpsertNet | src/libcs/domain/customer_service.py:280-315 | the net adjustment changes by the new amount less the amount of the row replaced |
| CustomerService.UniqueKeyAt | src/libcs/domain/customer_service.py:280-303 | in a unique table two clashing rows are the same row |
| CustomerService.ReadjustItemKeepsAmount | src/libcs/domain/customer_service.py:280-286 | adjusting an item again under a new reason keeps its one row and amount and moves it to the reason |
| CustomerService.SameReasonOverwritesOtherItem | src/libcs/domain/customer_service.py:280-286 | a second item under a reason already used on the order overwrites that row and keeps the first item's number |
| CustomerService.AddAdjustmentOutcome | src/libcs/domain/customer_service.py:306-318 | the table stays unique, the order's `order_mp_adjustment` is the sum of its rows and `SETTLE_PAYMENT` is queued last |
| CustomerService.CsCancelOrderIff | src/libcs/domain/customer_service.py:187-191 | an unlisted reason is refused; a listed one is `cancel_order` itself, which succeeds exactly for a cancelable order |
| CustomerService.ReplaceCharMaps | src/libcs/domain/customer_service.py:431 | replacing `_` by a space maps the text character by character |
| CustomerService.TitleFromFacts | src/libcs/domain/customer_service.py:432 | `str.title` keeps the length and non-letters, upper-cases word starts and lower-cases the rest |
| CustomerService.CaseFacts | src/libcs/domain/customer_service.py:432 | changing a letter's case gives a letter of that case |
| CustomerService.EtaCodeToNameFacts | src/libcs/domain/customer_service.py:429-432 | `eta_code_to_name` leaves no underscore, keeps the length of the code without `estimated_`, and capitalises each word |
| OrderNotification.SecondsPart | src/liborder/domain/notification.py:23 | `timedelta.seconds` is the part within one day, never negative |
| OrderNotification.CancelledItems | src/liborder/domain/notification.py:46 | the cancelled items are among the order's items |
| OrderNotification.N | src/liborder/domain/notification.py:48-192 | each notification carries its template, channel and recipients, a payload led by `order_nr`, and the key `{template}-{channel}-{order_nr}` |
| OrderNotification.NoKeyAfter | src/liborder/domain/notification.py:48-192 | appending payload members without the key keeps `payload[key]` |
| OrderNotification.Kinds | src/liborder/domain/notification.py:40-193 | the (template, channel) pairs list the notifications in order |
| OrderNotification.NotificationOrderUpdate | src/liborder/domain/notification.py:17-200 | the handler sends the planned list and appends the rescheduled event only when the plan has one; on failure nothing changes |
| OrderNotification.StaleIgnoresDays | src/liborder/domain/notification.py:23 | the age test drops whole days, so an event a day and five minutes old is not skipped; the cut-off is 31 minutes |
| OrderNotification.PartialShipmentFirst | src/liborder/domain/notification.py:45-65 | a partial-shipment event sends an `order_partial` push and an e-mail listing the cancelled items, whatever the status |
| OrderNotification.TemplatesByStatus | src/liborder/domain/notification.py:66-131 | confirmed sends one push, delivered and undelivered a push and an e-mail, failed one push; unknown statuses send nothing |
| OrderNotification.FailReasonIff | src/liborder/domain/notification.py:116-119 | the reason is `payment failed` exactly when the payment status is failed |
| OrderNotification.CancelledIff | src/liborder/domain/notification.py:132-163 | a cancellation is a customer cancellation exactly when every item was cancelled by the customer, and only then is an e-mail added |
| OrderNotification.PickedUpIff | src/liborder/domain/notification.py:164-193 | a recent partial shipment outside tests requeues the event 30 seconds after it and sends nothing; otherwise one `order_picked_up` push goes out |
| OrderNotification.KeysNameTheOrder | src/liborder/domain/notification.py:40-193 | every key is template, channel and order number, so a rerun produces the same keys |
| OrderNotification.SentIff | src/liborder/domain/notification.py:195-200 | nothing is sent for a skipped event or an empty list; otherwise exactly the list |
| OrderNotification.StaleSkipped | src/liborder/domain/notification.py:23-27 | a stale event is skipped before anything is read |
| NotificationClient.Get | src/libexternal/notification.py:30 | `payload[key]` exists exactly when some member has that key |
| NotificationClient.ChannelValuesExact | src/libexternal/notification.py:45-48 | the channel values are exactly `push`, `email`, `sms`, and each gives its member back |
| NotificationClient.MakeFacts | src/libexternal/notification.py:17-30 | a notification is built exactly when the payload's `order_nr` renders; its key is `{template}-{channel}-{order_nr}` whatever key was passed, and its policy defaults to `default` |
| NotificationClient.SameKey | src/libexternal/notification.py:29-30 | two notifications with the same template, channel and order number share their key |
| Util.NumToCharSingle | src/libutil/util.py:23 | a number below the surrogate range is written as one character that reads back as that number |
| Util.EncodeDateRoundTrip | src/libutil/util.py:19-24 | the code is three characters exactly from 2010 on, and they read back as year - 2010, month and day |
| Util.GetDigest | src/libutil/util.py:27-30 | the digest is never longer than its input |
| Util.DigestCounts | src/libutil/util.py:27-30 | the digest drops every vowel, in either case, and keeps every occurrence of every other character |
| Util.DigestAppend | src/libutil/util.py:27-30 | the digest works character by character, so it keeps the other characters in order |
| Util.CountAppend | src/libutil/util.py:27-30 | occurrences of a character add up over a concatenation |
| Util.GetCcBin | src/libutil/util.py:33-37 | the bin is the first six characters of the mask, or all of a shorter one |
| Util.CreditCardTypeFacts | src/libutil/util.py:239-243 | a type is found exactly for a non-empty mask starting with 2 to 6; only the first character matters; the types are MASTERCARD, AMEX, VISA and DISCOVER |
| Util.UpperCanonical | src/libutil/util.py:222-223 | what upper-casing a character leaves after the filter uses only [0-9A-Z] |
| Util.KeepCanonical | src/libutil/util.py:223 | the filter keeps only [0-9A-Z] |
| Util.LStripZeros | src/libutil/util.py:224 | stripping leaves a suffix that does not start with '0' |
| Util.KeepCanonicalFixed | src/libutil/util.py:223 | text of [0-9A-Z] only passes the filter unchanged |
| Util.CanonicalizeIsFixedPoint | src/libutil/util.py:219-224 | the canonical form uses only [0-9A-Z], never starts with '0', and is its own canonical form |
| Util.Pow10 | src/libutil/util.py:236 | a power of ten is at least 1 |
| Util.DecimalRound | src/libutil/util.py:231-236 | `None` stays `None`, and `FREE` is returned exactly for a value at most 0.001 when asked to replace zero |
| Util.Pow10Add | src/libutil/util.py:236 | powers of ten multiply by adding exponents |
| Util.HalfUpStep | src/libutil/util.py:236 | rounding a non-negative quotient half up lands within half a step, a tie going up |
| Util.DivHalfUpNearest | src/libutil/util.py:236 | the half-up quotient is the nearest integer, a tie going away from zero |
| Util.RoundHalfUpNearest | src/libutil/util.py:236 | with two places or fewer the value is kept exactly; with more, the result is the nearest cent, a tie going away from zero |
| Util.RoundCentsIdentity | src/libutil/util.py:231-236 | an amount already in cents is returned unchanged |
| Util.DaySuffixIsOrdinal | src/libutil/util.py:263 | the day suffix is `th` for 11 to 13, else `st`, `nd`, `rd` for days ending in 1, 2, 3, else `th` |
| Util.FormatDateStartsWithDay | src/libutil/util.py:262-264 | the formatted date starts with the day, its suffix and a space |
| Util.DigitRun | src/libutil/util.py:254 | the run of digits at the start of a string is as long as it can be |
| Util.DigitRunOf | src/libutil/util.py:254 | digits followed by a non-digit form a run of exactly that length |
| Util.ParseAt | src/libutil/util.py:254-256 | hours, a colon and minutes give hours times 60 plus minutes |
| Util.DigitRunToColon | src/libutil/util.py:254 | digits followed by a colon stop the run at the colon |
| Util.ParseDigitsColonDigits | src/libutil/util.py:254-256 | `H:M` followed by a non-digit parses as H times 60 plus M |
| Util.TzRoundTrip | src/libutil/util.py:253-259 | parsing a rendered offset gives back its minutes, negated exactly for a leading '-', whatever non-digit text follows |
| Errors.ErrorMsg | src/libutil/error.py:15-18 | the message starts with the error's code |
| Errors.CodesUnique | src/libutil/error.py:9-37 | the declared errors have five-character codes starting with 'E', pairwise distinct |
| Errors.SkipSpace | src/libutil/error.py:24 | skipping whitespace leaves a suffix that starts with no space |
| Errors.WordLength | src/libutil/error.py:24 | the first word runs up to the first whitespace |
| Errors.FirstWord | src/libutil/error.py:24 | there is no first word exactly when the string is whitespace only |
| Errors.GetType | src/libutil/error.py:21-27 | `get_type` fails exactly on a non-empty string of whitespace, and a code it returns has five characters starting with 'E' |
| Errors.GetMsg | src/libutil/error.py:30-33 | `get_msg` returns a suffix of its input |
| Errors.MessageRoundTrip | src/libutil/error.py:15-33 | reading a message back gives its code and its text, for any code of five non-space characters starting with 'E' |
| Errors.WordLengthAt | src/libutil/error.py:24 | a word ends at its first whitespace |
| Errors.ErrorMsgRoundTrip | src/libutil/error.py:9-33 | for each declared error, `get_msg(error_msg(e))` is its text and `get_type(error_msg(e))` its code |
| Errors.PlainTextHasNoCode | src/libutil/error.py:21-33 | a string not starting with 'E' comes back unchanged from `get_msg` and carries no code |
| Json.EncChar | src/liborder/domain/boilerplate_event.py:41 | one encoded character of a string literal is never a bare quote |
| Json.Dumps | src/liborder/domain/boilerplate_event.py:41 | `json.dumps` of a dictionary is braced |
| Json.Parse4 | src/liborder/domain/boilerplate_event.py:83 | four hex digits give a value below 0x10000 |
| Json.DecUnicode | src/liborder/domain/boilerplate_event.py:83 | decoding an escape consumes input |
| Json.DecChar | src/liborder/domain/boilerplate_event.py:83 | decoding a character consumes input |
| Json.DecChars | src/liborder/domain/boilerplate_event.py:83 | decoding a literal's characters consumes input |
| Json.DecString | src/liborder/domain/boilerplate_event.py:83 | decoding a string literal consumes input |
| Json.DecValue | src/liborder/domain/boilerplate_event.py:83 | decoding a value consumes input |
| Json.Put | src/liborder/domain/boilerplate_event.py:83 | a key already present keeps its place; a new key is appended |
| Json.HexDigitValue | src/liborder/domain/boilerplate_event.py:41-83 | a hex digit reads back as its value |
| Json.Parse4Hex4 | src/liborder/domain/boilerplate_event.py:41-83 | four hex digits read back as their value |
| Json.Parse4Append | src/liborder/domain/boilerplate_event.py:83 | only the first four characters are read |
| Json.DecUnicodeBmp | src/liborder/domain/boilerplate_event.py:41-83 | a `\uXXXX` escape of a character below 0x10000 decodes to it |
| Json.DecUnicodeJoin | src/liborder/domain/boilerplate_event.py:83 | a high surrogate escape followed by a low one decodes to the character they form |
| Json.DecUnicodePair | src/liborder/domain/boilerplate_event.py:41-83 | a character above 0xFFFF, written as its surrogate pair, decodes back |
| Json.DecCharEnc | src/liborder/domain/boilerplate_event.py:41-83 | every character, encoded, decodes back |
| Json.DecCharsEnc | src/liborder/domain/boilerplate_event.py:41-83 | every text, encoded and quoted, decodes back |
| Json.DecStringEnc | src/liborder/domain/boilerplate_event.py:41-83 | a string literal decodes back |
| Json.DecValueEnc | src/liborder/domain/boilerplate_event.py:41-83 | a string or `null` decodes back |
| Json.DecMembersEnc | src/liborder/domain/boilerplate_event.py:41-83 | the members of a dictionary with distinct keys decode back in order |
| Json.LoadsDumps | src/liborder/domain/boilerplate_event.py:41-83 | `json.loads(json.dumps(d)) == d` for a dictionary with distinct keys |
| Json.DumpsInjective | src/liborder/domain/boilerplate_event.py:41 | two event payloads with the same text are the same payload |
| Chunks.ChunkedFacts | src/libcatalog/models/importer.py:138-139 | `iterutils.chunked` pieces put back together give the list; every piece holds one to `size` elements, and only the last may be short |
| Chunks.ChunkCount | src/libcatalog/models/importer.py:138-139 | there are as many pieces as it takes to hold the list, and one fewer would not do |
| StableSort.InsertPerm | src/libindexing/domain/product.py:235 | inserting keeps every element, as often as it occurs, and adds the new one |
| StableSort.InsertSorted | src/libindexing/domain/product.py:235 | inserting into a list ordered by key keeps it ordered |
| StableSort.SortFacts | src/libcontent/domain/page_content.py:168-172 | `sorted(xs, key=...)` is a permutation of its input of the same length, ordered by key |
| StableSort.InsertWithKey | src/libcontent/domain/page_content.py:168-172 | inserting an element places it ahead of every element with its key and changes the order of no key's elements |
| StableSort.SortStable | src/libcontent/domain/page_content.py:168-172 | the sort is stable: for every key, the elements with that key come out in the order they went in |
| StableSort.SortSorted | src/libcatalog/domain/offer.py:47 | a list already in key order is returned unchanged |
| Text.NatToString | src/libcatalog/domain/search.py:80 | `str(n)` is one or more digits, two or more exactly from 10 on |
| Text.NatToStringRoundTrip | src/libcatalog/domain/search.py:80 | the digits read back as the number |
| Text.Split | src/libutil/query_parser.py:116-119 | `split` on one character gives at least one piece, none holding the separator |
| Text.SplitJoin | src/libutil/query_parser.py:116-119 | splitting pieces joined by the separator gives the pieces back |
| Text.UpperFacts | src/libutil/util.py:222 | ASCII upper-casing keeps the length, leaves no lower-case letter and changes nothing else |
| QueryParser.Find | src/libutil/query_parser.py:28-31 | `find` gives the first position at or after the start holding the character, or -1 exactly when there is none |
| QueryParser.CountBracketPairs | src/libutil/query_parser.py:20-35 | the loop of `more_than_one_index` gives the verdict of its specification |
| QueryParser.Nest | src/libutil/query_parser.py:81-96 | a chain stands for one-entry dictionaries nested once per key below the first |
| QueryParser.ParserHelper | src/libutil/query_parser.py:71-96 | `parser_helper` gives at least one key and a string or int leaf |
| QueryParser.Chains | src/libutil/query_parser.py:116-132 | one chain per element, in order, each the element's own; the first failure wins |
| QueryParser.IndexOf | src/libutil/query_parser.py:136-139 | the position of a key in a dictionary, or -1 exactly when absent |
| QueryParser.Insert | src/libutil/query_parser.py:133-144 | merging a chain never loses an entry |
| QueryParser.NormEntries | src/libutil/query_parser.py:165-178 | normalising keeps every key of a dictionary, in place |
| QueryParser.NormValues | src/libutil/query_parser.py:170-171 | normalising the values of an int-keyed dictionary gives one value per entry |
| QueryParser.Parse | src/libutil/query_parser.py:99-148 | `parse` as run, one element and then one chain at a time, gives exactly its specification's result |
| QueryParser.ChainsOf | src/libutil/query_parser.py:116-132 | the first loop of `parse` gives exactly the chains of the elements or the first failure |
| QueryParser.ChainsStep | src/libutil/query_parser.py:116-132 | one more element appends its chain or fails |
| QueryParser.Merge | src/libutil/query_parser.py:133-144 | the second loop of `parse` gives exactly the merge of all chains |
| QueryParser.ChainsFailurePersists | src/libutil/query_parser.py:127-128 | once an element fails, the whole parse of chains fails with that error |
| QueryParser.MergeFailurePersists | src/libutil/query_parser.py:133-144 | once a merge step fails, the whole merge fails with that error |
| QueryParser.HasVariableNameIff | src/libutil/query_parser.py:11-17 | a name stands before the brackets exactly when there is a `[` and the key does not start with it |
| QueryParser.FindReaches | src/libutil/query_parser.py:28-31 | `find` reaches any later occurrence |
| QueryParser.MoreThanOneIndexSound | src/libutil/query_parser.py:20-35 | a key said to have two indexes has two bracket pairs |
| QueryParser.MoreThanOneIndexComplete | src/libutil/query_parser.py:20-35 | a key with two bracket pairs is said to have two indexes |
| QueryParser.MoreThanOneIndexIff | src/libutil/query_parser.py:20-35 | `more_than_one_index` holds exactly when there is a `[`, a `]` after it, another `[` after that and a `]` after that |
| QueryParser.GetKeyNoneIff | src/libutil/query_parser.py:43-46 | `get_key` gives `None` exactly when a bracket is missing |
| QueryParser.GetKeyReadsBack | src/libutil/query_parser.py:38-51 | a bracket key reads back the text between the brackets, with or without single quotes |
| QueryParser.KeyOfIntToString | src/libutil/query_parser.py:54-92 | the decimal text of any integer is a number and becomes that integer as an int key |
| QueryParser.KeyOfIff | src/libutil/query_parser.py:54-92 | a key becomes an int exactly when it is a sign and digits that are all decimal; a sign and digits with one that is not decimal is the `ValueError` of `int()`; anything else stays text |
| QueryParser.ToInt | src/libutil/query_parser.py:84-94 | `int()` on a string `is_number` accepts succeeds exactly when every digit is decimal, and raises `ValueError` otherwise |
| QueryParser.KeyOfAscii | src/libutil/query_parser.py:54-92 | a sign and ASCII digits read as the integer they spell, negated after `-` |
| QueryParser.KeyOfOneDigit | src/libutil/query_parser.py:54-92 | a one-digit key in any script is a number; a decimal digit reads as its value and any other digit (a superscript, a circled digit) raises `ValueError` |
| QueryParser.KeyOfArabicIndic | src/libutil/query_parser.py:92 | ARABIC-INDIC DIGIT THREE becomes the int key 3 |
| QueryParser.KeyOfSuperscript | src/libutil/query_parser.py:92 | SUPERSCRIPT TWO passes `is_number`, and `int()` then raises `ValueError` |
| QueryParser.ParserHelperPlain | src/libutil/query_parser.py:86-95 | a key without brackets is a single key, converted as `is_number` and `int()` convert it, or the `ValueError` of that conversion |
| QueryParser.ParserHelperBracket | src/libutil/query_parser.py:86-95 | a lone bracket key `[k]` is the single key `k`; for `[]` a numeric value becomes an int; a `ValueError` from either conversion is the result |
| QueryParser.ParserHelperName | src/libutil/query_parser.py:80-81 | a name before the brackets becomes the outer key |
| QueryParser.ParserHelperNested | src/libutil/query_parser.py:80-95 | `name[k]` nests one level, `{name: {k: val}}`, or fails with the `ValueError` of converting `k` or the value |
| QueryParser.ParserHelperErrors | src/libutil/query_parser.py:71-96 | `parser_helper` fails only with a malformed query string or the `ValueError` of `int()`, and the latter only when the key or value holds a digit that is not decimal; the index and type errors its helpers could raise never happen on the keys it passes them |
| QueryParser.ChainsErrors | src/libutil/query_parser.py:116-132 | every failure of an element is a malformed query string or the `ValueError` of `int()` |
| QueryParser.MalformedWithoutOneEquals | src/libutil/query_parser.py:119-128 | an element without exactly one `=` makes the whole query fail; the failure is a malformed query string unless an earlier element raised `ValueError` |
| UrlUnquote.HexDigit | src/libutil/query_parser.py:123-124 | the hex digit of a value below 16 reads back as that value |
| UrlUnquote.EscapeBytes | src/libutil/query_parser.py:123-124 | each byte is written as a three-character `%XX` escape, never a `+` |
| UrlUnquote.Decode | src/libutil/query_parser.py:123-124 | `unquote_plus` gives at most one character per byte or kept character |
| UrlUnquote.NextUtf8 | src/libutil/query_parser.py:123-124 | the UTF-8 bytes of any character decode to that character, whatever follows them |
| UrlUnquote.UnquotePlusQuote | src/libutil/query_parser.py:123-124 | `unquote_plus` undoes UTF-8 percent-encoding: any string, each character written as the `%XX` escapes of its UTF-8 bytes, decodes back to itself |
| UrlUnquote.UnquotePlusNoEscape | src/libutil/query_parser.py:123-124 | text without `%` decodes to itself with every `+` a space; characters outside ASCII are kept |
| UrlUnquote.UnquotePlusPlain | src/libutil/query_parser.py:123-124 | text without `%` and `+` decodes to itself |
| UrlUnquote.TwoByteEscape | src/libutil/query_parser.py:123-124 | `%C3%A9` decodes to the one character U+00E9 |
| UrlUnquote.LoneByteReplaced | src/libutil/query_parser.py:123-124 | `%E9`, a lone byte that is not UTF-8, decodes to U+FFFD |
| UrlUnquote.TruncatedAndStray | src/libutil/query_parser.py:123-124 | a truncated sequence (`%E1%80`) becomes one U+FFFD; a lead byte followed by a byte outside its range (`%E0%80`) becomes two |
| UrlUnquote.UnquoteEscapedChar | src/libutil/query_parser.py:123-124 | one character written as the `%XX` escapes of its UTF-8 bytes, between text without `%` or `+`, decodes to that character between the same text |
| UrlUnquote.ArabicIndicEscape | src/libutil/query_parser.py:123-124 | `a[%D9%A3]` decodes to `a[` ARABIC-INDIC DIGIT THREE `]` |
| UrlUnquote.SuperscriptEscape | src/libutil/query_parser.py:123-124 | `a[%C2%B2]` decodes to `a[` SUPERSCRIPT TWO `]` |
| QueryParser.ParseEmpty | src/libutil/query_parser.py:110-111 | the empty query is the empty dictionary |
| QueryParser.ParsePlain | src/libutil/query_parser.py:116-148 | a single plain `k=v` element is `{k: v}` after decoding, or the `ValueError` of converting `k` |
| QueryParser.SingleChain | src/libutil/query_parser.py:133-144 | a single chain of one key is a one-entry dictionary |
| QueryParser.RepeatedKeyCollects | src/libutil/query_parser.py:139-142 | repeating a key collects its values into a list, in the order they appear |
| QueryParser.SharedPrefixMerges | src/libutil/query_parser.py:136-144 | two elements under the same first key merge into one dictionary under it; equal second keys make a list |
| QueryParser.InsertKeepsKeys | src/libutil/query_parser.py:133-144 | merging keeps a dictionary: keys stay distinct, existing keys keep their places and a new first key goes to the end |
| QueryParser.AppendKeyChains | src/libutil/query_parser.py:80-95 | `a[]=x` is the one chain `a`, `''` with leaf `x` |
| QueryParser.AppendKeyMerge | src/libutil/query_parser.py:133-144 | that chain merges into `{a: {'': x}}` |
| QueryParser.ParseAppendKey | src/libutil/query_parser.py:99-148 | `a[]=x` parses to `{a: {'': x}}` |
| QueryParser.ParseArabicIndicKey | src/libutil/query_parser.py:99-148 | `a[%D9%A3]=x` parses to `{a: {3: x}}`: the escapes decode to a decimal digit of another script |
| QueryParser.ParseSuperscriptKey | src/libutil/query_parser.py:99-148 | `a[%C2%B2]=x` raises `ValueError`, which `parse` does not catch: the escapes decode to a digit that `int()` refuses |
| UnicodeDigits.TablesAscending | src/libutil/query_parser.py:54-61 | the tables of decimal runs and of other digits are in ascending order, as the searches expect |
| UnicodeDigits.ZeroOfComplete | src/libutil/query_parser.py:54-61 | the search of an ascending table of decimal runs finds a zero exactly when some run holds the character |
| UnicodeDigits.InRangesComplete | src/libutil/query_parser.py:54-61 | the search of an ascending table of ranges finds a range exactly when some range holds the character |
| UnicodeDigits.LowDigits | src/libutil/query_parser.py:54-61 | below U+00B2 the characters `isdigit` accepts are exactly the ASCII digits, and all are decimal |
| UnicodeDigits.DigitNotSign | src/libutil/query_parser.py:59-60 | no digit is a sign, so the sign test and the digit test never overlap |
| UnicodeDigits.OneDecimal | src/libutil/query_parser.py:84-94 | `int()` of one decimal digit is its value |
| UnicodeDigits.AsciiDecimal | src/libutil/query_parser.py:84-94 | ASCII digits are decimal and `int()` gives them their usual value |
| UnicodeDigits.ArabicIndicThree | src/libutil/query_parser.py:84-94 | ARABIC-INDIC DIGIT THREE is a decimal digit of value 3 |
| UnicodeDigits.SuperscriptTwo | src/libutil/query_parser.py:54-61 | SUPERSCRIPT TWO is a digit to `isdigit` but not a decimal digit |
| QueryParser.NormalizeEmptyKeyFinding | src/libutil/query_parser.py:173-174 | as written, `parse("a[]=x", normalized=True)` fails with a `TypeError`; the corrected normalisation gives `{a: x}` |
| QueryParser.NormEmptyKeyAsWritten | src/libutil/query_parser.py:173-174 | `v.values()[0]` fails on a dictionary under the `''` key |
| QueryParser.NormEmptyKeyCorrected | src/libutil/query_parser.py:173-174 | the corrected step takes the value under the `''` key |
| QueryParser.NormTotal | src/libutil/query_parser.py:151-179 | the corrected normalisation never fails on a value without empty dictionaries |
| QueryParser.NormEntriesTotal | src/libutil/query_parser.py:165-178 | nor on the entries of such a dictionary |
| QueryParser.NormMemberTotal | src/libutil/query_parser.py:166-178 | nor on one such value |
| QueryParser.NormValuesTotal | src/libutil/query_parser.py:169-172 | nor on the values of an int-keyed dictionary |
| QueryParser.NestNoEmpty | src/libutil/query_parser.py:81-96 | a chain's nesting never builds an empty dictionary |
| QueryParser.InsertNoEmpty | src/libutil/query_parser.py:133-144 | merging never creates an empty dictionary |
| QueryParser.MergeAllNoEmpty | src/libutil/query_parser.py:133-144 | the merged dictionary holds no empty dictionary |
| QueryParser.ParseNormalizedSucceeds | src/libutil/query_parser.py:146-148 | with the corrected normalisation, asking for normalised output never turns a query that parses into a failure |
| SearchQuery.KeepTruthy | src/libcatalog/models/search.py:37 | keeps exactly the present, non-empty values, never more than it was given |
| SearchQuery.ValidateFFacts | src/libcatalog/models/search.py:29-40 | `validate_f` gives an empty dict for a falsy input, keeps an attribute exactly when it has a truthy value, and turns a truthy scalar into a one-element list |
| SearchQuery.KeepTruthyAll | src/libcatalog/models/search.py:37 | a list of truthy values is kept whole, in order |
| SearchQuery.ValidateFFixed | src/libcatalog/models/search.py:29-40 | an already normalised filter dict is left unchanged |
| SearchQuery.ValidateFIdempotent | src/libcatalog/models/search.py:29-40 | `validate_f` is idempotent |
| SearchQuery.MakeFacts | src/libcatalog/models/search.py:22-27 | a query is accepted exactly when its text, if any, holds 1 to 50 characters; the filters come out normalised, `page` defaults to 1 and `rows` to 21 |
| SearchQuery.NoParamsGiveDefault | src/libcatalog/models/search.py:42-46 | no query parameters give the default query |
| Search.Find | src/libcatalog/domain/search.py:99-104 | `id in id_to_category_map`: a category is found only for a present id held by some row, and then it is that row |
| Search.FindRow | src/libcatalog/domain/search.py:99-104 | with unique ids every category is found by its own id |
| Search.SelectionNeedsCategoryBrowse | src/libcatalog/domain/search.py:91-95 | nothing is selected with a text query or without a category filter |
| Search.SelectionSound | src/libcatalog/domain/search.py:91-113 | a selection is one root category filtered alone, or a root and one of its children filtered together in either order; a child is never selected without a root |
| Search.FindSelf | src/libcatalog/domain/search.py:96-99 | a found category is found again by its own id |
| Search.SelectionOneRoot | src/libcatalog/domain/search.py:97-100 | filtering on a single root category selects it |
| Search.SelectionRootAndChild | src/libcatalog/domain/search.py:101-112 | filtering on a root and one of its children, in either order, selects the pair |
| Search.KnownIds | src/libcatalog/domain/search.py:75-79 | the ids kept are exactly the non-zero ids of the filtered codes known to the code map |
| Search.CatIdParamFacts | src/libcatalog/domain/search.py:74-83 | the category filter is absent exactly when no filtered code names a known category; otherwise it is an `fq=` ORing one `cat:` term per known id |
| Search.SortParamFacts | src/libcatalog/domain/search.py:187-191 | results are sorted only by price, descending exactly when `desc` is asked for |
| Search.PriceParamOpenEnds | src/libcatalog/domain/search.py:193-204 | the price filter is sent exactly when a bound is filtered on; an end that is missing, does not read as a number or is zero is open, and the bounds are not compared |
| Search.PageNr | src/libcatalog/domain/search.py:219 | the page number is at least 1: the requested page when it is positive, else 1 |
| Search.NbPagesCeil | src/libcatalog/domain/search.py:229 | for a positive page size the page count is at least 1 and is the number of pages the hits fill, the last one not empty |
| Search.FilterPartPrefixes | src/libcatalog/domain/search.py:187-217 | every sort or filter parameter starts with `sort=` or `fq=` |
| Search.ParamsTail | src/libcatalog/domain/search.py:177-225 | the parameter list exists exactly when `rows` is set, and ends with the page size, the offset of the requested page and the field list; the offset is never negative for a positive page size |
| Search.ParamsQfIff | src/libcatalog/domain/search.py:181-185 | the query fields are sent, first, exactly when there is a text query |
| Search.ProductRows | src/libcatalog/domain/search.py:246-251 | the offers are cut into rows of one to three that concatenate back to the offers |
| Search.ChildRows | src/libcatalog/domain/search.py:161-163 | the categories whose parent is the root, in map order |
| Search.RootRows | src/libcatalog/domain/search.py:145-146 | the categories without a parent, in map order |
| Search.QuickFiltersTotal | src/libcatalog/domain/search.py:115-174 | for the selection the handler computes, building the pills and facets never fails |
| Search.NavpillsFacts | src/libcatalog/domain/search.py:150-173 | with a root selected, the pills are the sticky root pill followed by one pill per child of the root in map order, selected exactly when it is the selected child |
| Search.NavpillsListAllChildren | src/libcatalog/domain/search.py:161-163 | the pills name every child of the root, whichever row comes first, unlike the root's `children` list |
| Search.ChildIdsAll | src/libcatalog/domain/search.py:161-163 | the children met within a prefix of the map are those the children list gathers from that prefix |
| Search.FacetFacts | src/libcatalog/domain/search.py:122-149 | the facet lists every root category in map order; only the selected root is marked and only it lists its children |
| Search.NoRootNoPills | src/libcatalog/domain/search.py:119-121 | without a root there are neither pills nor facets |
| Category.Rows | src/libcatalog/domain/category.py:18 | one table row per category object, in order |
| Category.CodeToIdFacts | src/libcatalog/domain/category.py:33-34 | the code map holds exactly the table's codes, each sent to the id of the last row carrying it |
| Category.PositionOf | src/libcatalog/domain/category.py:38 | the position of the row with a given id, or -1 exactly when no row has it |
| Category.PositionOfId | src/libcatalog/domain/category.py:38 | with unique ids, each row is found at its own position |
| Category.IdToCategoryMap | src/libcatalog/domain/category.py:37-45 | the loop, run on the category objects it is handed, gives exactly the map its specification describes, or the `KeyError` of a parent id that names no row |
| Category.StepWithParent | src/libcatalog/domain/category.py:41-43 | a row with a parent resets its own children and is appended to its parent's |
| Category.StepNoParent | src/libcatalog/domain/category.py:41-42 | a row without a parent only resets its own children |
| Category.Finish | src/libcatalog/domain/category.py:40-45 | after the last row the objects are the specified map |
| Category.ChildrenInIff | src/libcatalog/domain/category.py:40-43 | a category's children are exactly the ids of the rows from its own position on that name it as parent |
| Category.ChildBeforeParentLost | src/libcatalog/domain/category.py:40-43 | a child whose row precedes its parent's is lost when the parent's list is reset later |
| Category.Roots | src/libcatalog/domain/category.py:48-54 | the roots are exactly the categories without a (truthy) parent |
| Category.ParentTable | src/libcatalog/domain/category.py:58 | the parent table is keyed by exactly the table's ids |
| Category.AncestorIds | src/libcatalog/domain/category.py:61-66 | the `while parent_id is not None` walk for one category gives exactly its ancestors then itself |
| Category.ParentIdsMap | src/libcatalog/domain/category.py:57-67 | every id of the table maps to its ancestor chain, and no other id is present |
| Category.WalkChain | src/libcatalog/domain/category.py:62-65 | a finished walk starts at the first parent, steps from each id to its parent, and stops at an id without one |
| Category.AncestorsFacts | src/libcatalog/domain/category.py:66 | each chain lists the ancestors nearest first and ends with the category itself; a category without a parent maps to itself alone |
| Category.SelfParentNeverEnds | src/libcatalog/domain/category.py:63-65 | the walk has no cycle guard: from a category that is its own parent it never stops |
| Category.SelfParentCyclic | src/libcatalog/domain/category.py:63-65 | such a table is outside what the walk can answer |
| Taxonomy.Shrink | src/libcatalog/models/importer.py:209-221 | visiting a new code leaves fewer codes to visit, so the validation walk ends |
| Taxonomy.CheckSound | src/libcatalog/models/importer.py:209-221 | a walk that passes the validation ends within the codes not yet visited |
| Taxonomy.NodesMono | src/libcatalog/models/importer.py:212-221 | a chain of parents that ends within some steps ends the same way with more |
| Taxonomy.NodesSuffix | src/libcatalog/models/importer.py:212-221 | the chain from any code on a finished chain is the rest of that chain |
| Taxonomy.NodesDistinct | src/libcatalog/models/importer.py:213-215 | a finished chain never meets a code twice |
| Taxonomy.CheckComplete | src/libcatalog/models/importer.py:209-221 | a chain that ends without meeting a visited code passes the validation |
| Taxonomy.CheckIff | src/libcatalog/models/importer.py:209-221 | the validation from a code passes exactly when the chain of parents from it ends at a category without a parent, naming only existing codes |
| Taxonomy.WalkFrom | src/libcatalog/models/importer.py:210-221 | the `visited` loop for one code gives exactly the validation's verdict, including its cycle and missing-parent messages |
| Taxonomy.ValidateTree | src/libcatalog/models/importer.py:209-221 | the validation of all codes passes exactly when the merged tree is valid |
| Taxonomy.SelfParentWalk | src/libcatalog/models/importer.py:213-215 | a category that is its own parent has a chain that never ends |
| Taxonomy.SelfParentInvalid | src/libcatalog/models/importer.py:213-215 | a category named as its own parent makes the tree invalid |
| Taxonomy.TwoCycleWalk | src/libcatalog/models/importer.py:213-215 | two categories naming each other have chains that never end |
| Taxonomy.TwoCycleInvalid | src/libcatalog/models/importer.py:213-215 | two categories naming each other as parent make the tree invalid |
| Taxonomy.MissingParentInvalid | src/libcatalog/models/importer.py:217-220 | a parent code that names no category makes the tree invalid |
| Taxonomy.ParentCodeOf | src/libcatalog/models/importer.py:169-174 | the `parent_code` of a row is absent exactly when the row has no (truthy) parent, is otherwise the code of a row with the parent id, and fails when no row has it |
| Taxonomy.ByCodeUpToOk | src/libcatalog/models/importer.py:169-177 | keying by code fails exactly when some row's parent id names no row |
| Taxonomy.ByCodeUpToKeys | src/libcatalog/models/importer.py:177 | the keyed map holds exactly the table's codes, each with the id of a row carrying it |
| Taxonomy.ByCodeUpToLast | src/libcatalog/models/importer.py:177 | the row that wins a code is the last one carrying it |
| Taxonomy.ByCodeFacts | src/libcatalog/models/importer.py:169-177 | the existing categories by code: exactly the table's codes, ids of the table, the last row winning each code |
| Taxonomy.RowsByCodeFacts | src/libcatalog/models/importer.py:180-186 | uploaded rows with an empty code are dropped, a later row wins its code, and an empty parent code becomes absent |
| Taxonomy.IsAffected | src/libcatalog/models/importer.py:195-199 | the inner loop with its `break` says whether the chain meets an updated id |
| Taxonomy.AffectedIds | src/libcatalog/models/importer.py:191-201 | the affected ids are exactly the existing categories whose chain meets an updated id |
| Taxonomy.DbCodes | src/libcatalog/models/importer.py:177 | the codes of the table |
| Taxonomy.RowCodes | src/libcatalog/models/importer.py:180 | the non-empty codes of the upload |
| Taxonomy.ImportTaxonomy | src/libcatalog/models/importer.py:143-221 | the import up to its writes: a dangling parent id in the table is a `KeyError`, and otherwise the updated ids, affected ids and merged rows are those the specification gives, or the validation's failure |
| Taxonomy.ImportSpecOf | src/libcatalog/models/importer.py:183-221 | an import whose table keys by code succeeds exactly when the merged tree is valid, with the updated and affected ids as computed |
| Taxonomy.SameElements | src/libcatalog/models/importer.py:191-201 | the affected list and the affected set hold the same ids |
| Taxonomy.UpdatedAreAffected | src/libcatalog/models/importer.py:162-201 | every updated category is itself affected, since its chain ends with itself |
| Taxonomy.ChildOfUpdatedAffected | src/libcatalog/models/importer.py:191-201 | a category whose parent was updated is affected too |
| Taxonomy.NoChangeNoUpdate | src/libcatalog/models/importer.py:183-201 | uploading only new codes, or existing codes with their current parents, updates and affects nothing |
| Taxonomy.LastIndexOf | src/libcatalog/models/importer.py:180 | the last uploaded row carrying a code |
| Taxonomy.AcceptedMerge | src/libcatalog/models/importer.py:204-221 | an accepted import keeps every uploaded parent, keeps the parents of the codes it does not mention, and leaves a tree in which every chain ends |
| Taxonomy.SelfParentRejected | src/libcatalog/models/importer.py:204-215 | an uploaded row naming itself as parent is rejected |
| Taxonomy.MissingParentRejected | src/libcatalog/models/importer.py:204-220 | an uploaded parent code that is neither in the table nor uploaded is rejected |
| Taxonomy.DanglingParentKeyError | src/libcatalog/models/importer.py:169-172 | a table row whose parent id names no row fails with a `KeyError` before anything is compared |
| Taxonomy.ByCodeFails | src/libcatalog/models/importer.py:169-172 | once keying fails, the failure is that `KeyError` |
| CatalogImporter.KeyOfImporter | src/libcatalog/models/importer.py:20-22 | an importer named `import_` followed by a name free of `import_` is registered under that name |
| CatalogImporter.RepeatedPrefixRemoved | src/libcatalog/models/importer.py:21 | `replace` removes every `import_`, not only the leading one |
| CatalogImporter.NoPrefixIn | src/libcatalog/models/importer.py:21 | a name without the letter `i` loses only its `import_` prefix |
| CatalogImporter.Registry.Register | src/libcatalog/models/importer.py:20-22 | registering stores the importer under its key, replacing any earlier one; other keys are unchanged |
| CatalogImporter.Registry.Lookup | src/libcatalog/models/importer.py:25-29 | the lookup finds exactly the registered keys and gives their importer; any other key is `ValueError: unknown importer` |
| CatalogImporter.Standard | src/libcatalog/models/importer.py:32-143 | the module registers exactly `product_meta`, `product_group_code`, `update_zsku_category` and `category_taxonomy`, each to its importer |
| CatalogImporter.PrepareMeta | src/libcatalog/models/importer.py:34-45 | the row loop returns exactly the rows or the first assertion failure `PrepareAll` specifies |
| CatalogImporter.PrepareAllFacts | src/libcatalog/models/importer.py:34-45 | the loop succeeds exactly when every row passes; then it keeps the rows' order and skus, stamps each with the uploader, and each volume and weight is absent exactly when the upload was falsy and otherwise within 0 to 25000 and 0 to 7 |
| CatalogImporter.VolumeTooLargeRejected | src/libcatalog/models/importer.py:35-36 | a volume above 25000 rejects the whole upload |
| CatalogImporter.KeepKnownFacts | src/libcatalog/models/importer.py:67 | the filter keeps exactly the rows whose sku exists or was just fetched, never more rows than it was given |
| CatalogImporter.Missing | src/libcatalog/models/importer.py:51 | a sku is missing exactly when it was uploaded and is not among existing products |
| CatalogImporter.MissingNone | src/libcatalog/models/importer.py:51-53 | when every uploaded sku exists, nothing is missing |
| CatalogImporter.Skus | src/libcatalog/models/importer.py:47 | one sku per uploaded row, in order |
| CatalogImporter.AllExistingKeepsAll | src/libcatalog/models/importer.py:47-70 | when every sku already exists, nothing is fetched and every checked row is written |
| CatalogImporter.WrittenRowsKnown | src/libcatalog/models/importer.py:33-70 | every written row carries the uploader, has measures within their bounds, and names an existing or just-fetched product |
| CatalogImporter.ValidLinksFacts | src/libcatalog/models/importer.py:100-106 | a link is kept exactly when some row names that sku with a code whose category id is non-zero; rows with unknown codes are dropped |
| CatalogImporter.ReplacedFacts | src/libcatalog/models/importer.py:108-134 | a touched sku ends with exactly its uploaded categories; any other sku keeps the ones it had |
| CatalogImporter.ReplacedIdempotent | src/libcatalog/models/importer.py:108-134 | uploading the same rows twice leaves the table as uploading them once |
| CatalogImporter.ProductCategories.DeleteSku | src/libcatalog/models/importer.py:115-123 | deleting a sku removes exactly its links |
| CatalogImporter.ProductCategories.Insert | src/libcatalog/models/importer.py:125-134 | inserting adds the link, and a link already present stays as it was |
| CatalogImporter.ProductCategories.UpdateZskuCategory | src/libcatalog/models/importer.py:88-139 | the table becomes the old one with the valid rows' skus replaced by their uploaded links, and the skus published are exactly those skus |
| Offer.DiscountFacts | src/libcatalog/models/offer.py:31-32 | on a sale below the price the discount is the whole percentage taken off, rounded down: between 0 and 100, and 100 exactly for a free sale |
| Offer.FractionOff | src/libcatalog/models/offer.py:32 | the fraction of the price a sale takes off lies in (0, 1] and is 1 exactly for a free sale |
| Offer.NoDiscountWithoutSale | src/libcatalog/models/offer.py:31 | a price at or below the sale price gives no discount |
| Offer.ViewFacts | src/libcatalog/models/offer.py:25-34 | the maximum quantity is the smaller of the customer limit and the stock; image keys are present exactly when the JSON field is non-empty, and then the image key is the first of them; a discount is set exactly when the sale price is below the price |
| Offer.PdpBuyable | src/libcatalog/models/offer.py:45-50 | a product-page offer can be bought exactly when it has stock |
| Offer.IndexOf | src/libcatalog/domain/offer.py:47 | `sku_list.index`: the first position holding the sku, and -1 exactly when it is absent |
| Offer.NumberOffers | src/libcatalog/domain/offer.py:49-55 | the numbering loop returns exactly the offers `Numbered` specifies from the page's first position |
| Offer.NumberedFacts | src/libcatalog/domain/offer.py:49-55 | the offers are numbered consecutively from the first position, one per row, each built from its row |
| Offer.ActiveOffersFacts | src/libcatalog/domain/offer.py:41-55 | no skus, no offers; otherwise the rows are a permutation of the queried rows in the order of the requested skus, one offer per row, numbered from `(page - 1) * rows + 1` |
| Offer.PdpOfferOf | src/libcatalog/domain/offer.py:32-38 | no row is "Product not found"; otherwise the product-page offer built from the first row returned |
| ProductIndex.WithSuffixFacts | src/libindexing/domain/product.py:263-264 | every sku ends in `-1` afterwards, one that already did is unchanged, and adding the suffix twice adds it once |
| ProductIndex.AddSuffixes | src/libindexing/domain/product.py:261-264 | the loop changes every entry of the sku list in place to its suffixed form |
| ProductIndex.PutFacts | src/libindexing/domain/product.py:28-48 | a dict update sets the key to the new value, keeps every other key's value, and keeps each key once |
| ProductIndex.PutAllFacts | src/libindexing/domain/product.py:28-48 | after `dict.update` the keys are the old ones and the new ones, each once |
| ProductIndex.FetchDetails | src/libindexing/domain/product.py:17-53 | the fetch loop returns exactly the merge of the answers of the chunk calls that succeeded |
| ProductIndex.FetchedFacts | src/libindexing/domain/product.py:21-51 | a sku is fetched exactly when some chunk's call succeeded and answered for it, and it appears once |
| ProductIndex.FetchChunks | src/libindexing/domain/product.py:21-39 | the calls go out in chunks of 1 to 100 skus that together are the list, in order |
| ProductIndex.GetImageKeys | src/libindexing/domain/product.py:225-236 | the loops and sort return exactly the keys `ImageKeys` specifies |
| ProductIndex.VisibleInFacts | src/libindexing/domain/product.py:230-234 | a candidate is taken from an attribute exactly for each visible image, with its `v{version}/{public_id}` path and sort key |
| ProductIndex.VisibleFacts | src/libindexing/domain/product.py:227-234 | a candidate is kept exactly when it is a visible image of an attribute whose name starts with `image_url_` |
| ProductIndex.PathsFacts | src/libindexing/domain/product.py:236 | the keys are the candidates' paths, one per candidate, in order |
| ProductIndex.ImageKeysFacts | src/libindexing/domain/product.py:225-236 | the image keys are the paths of the visible images, each as often as it is listed, in ascending order of sort key |
| ProductIndex.CatIdsOf | src/libindexing/domain/product.py:79-201 | a category is listed for a sku exactly when a category link row pairs them |
| ProductIndex.CategoryIdsFacts | src/libindexing/domain/product.py:79-85 | `category_ids` holds exactly the ancestors-or-self of the categories the sku is linked to |
| ProductIndex.ZskuImageKeysFacts | src/libindexing/domain/product.py:86-90 | missing and empty storage paths are dropped; every other path gives one key, in order, with `.jpg` removed, and a path without `.jpg` is kept as it is |
| ProductIndex.BuildZskuSku | src/libindexing/domain/product.py:68-96 | a zsku answer gives rows exactly when it carries no error, all three for its own sku |
| ProductIndex.ZskuPassFacts | src/libindexing/domain/product.py:66-133 | the zsku loop builds aligned rows for exactly the answers without an error, in answer order, and records their skus |
| ProductIndex.BuildNskuSku | src/libindexing/domain/product.py:145-196 | an nsku answer gives rows exactly when every mandatory field is present, all three under the nsku's zsku |
| ProductIndex.NskuPassFacts | src/libindexing/domain/product.py:142-215 | the nsku loop adds aligned rows for exactly the answers with every mandatory field, in answer order, recording their zskus after the earlier ones |
| ProductIndex.NskuMapFacts | src/libindexing/domain/product.py:136-140 | the nsku map holds only requested pairs with a non-empty nsku and zsku whose zsku the zsku loop did not process, each nsku once |
| ProductIndex.AcceptedUnprocessed | src/libindexing/domain/product.py:136-215 | no zsku recorded by the nsku loop was already processed by the zsku loop |
| ProductIndex.FetchAndUpdate | src/libindexing/domain/product.py:55-222 | the method returns exactly the rows and processed skus `UpdateSpec` specifies, including its first error |
| ProductIndex.UpdateFacts | src/libindexing/domain/product.py:55-222 | no products, no work; otherwise the processed skus are first the clean zsku answers (only those with `only_zsku`), then zskus from complete nsku answers none of which the zsku loop had processed, and the three row lists stay aligned |
| SolrIndex.AttrsPrecedence | src/libindexing/domain/solr.py:102-122 | an attribute appears exactly when the code, Arabic or English section has it; the English value wins, then the Arabic, then the code value |
| SolrIndex.ParseRendered | src/libindexing/domain/solr.py:94 | decimal ids rendered with no commas parse back to the same ids |
| SolrIndex.CatsRoundTrip | src/libindexing/domain/solr.py:94 | splitting a written `category_ids` field on commas and parsing each part gives back the ids |
| SolrIndex.FixedUnprefixed | src/libindexing/domain/solr.py:83-98 | no field the document sets itself starts with `attr_`, so attribute fields cannot overwrite one |
| SolrIndex.PrefixedKeys | src/libindexing/domain/solr.py:98 | the attribute field names are exactly the attribute names with `attr_` in front |
| SolrIndex.DocSplit | src/libindexing/domain/solr.py:81-99 | a document's own fields keep the values it set, and a field it did not set is not added by the attributes |
| SolrIndex.DocIdentity | src/libindexing/domain/solr.py:83-86 | the object id is `sku:wh_code`, and the Arabic title falls back to the English one when missing or empty |
| SolrIndex.DocPriceAndCats | src/libindexing/domain/solr.py:91-94 | a price field exactly for a non-zero offer price, a category field exactly for a non-empty `category_ids`, holding its numbers |
| SolrIndex.DocAttrs | src/libindexing/domain/solr.py:96-98 | an attribute reaches the document, prefixed with `attr_`, exactly when its value is truthy |
| SolrIndex.GroupedFacts | src/libindexing/domain/solr.py:70-76 | grouping keeps exactly the lower-cased countries of in-stock rows and gives each the documents of its in-stock rows, in order |
| SolrIndex.SelectEmpty | src/libindexing/domain/solr.py:70-72 | a country without in-stock rows selects no row |
| SolrIndex.GroupDocs | src/libindexing/domain/solr.py:68-76 | the grouping loop returns exactly the documents per country `Grouped` specifies, including its first error |
| SolrIndex.BatchesFacts | src/libindexing/domain/solr.py:27-78 | every in-stock document is sent under its country, in order, in chunks of 1 to 250; out-of-stock rows send nothing |
| StockIndex.StockNet | src/libindexing/domain/stock.py:109 | the stock written is never negative: the net quantity when it is non-negative, else 0 |
| StockIndex.DeriveFacts | src/libindexing/domain/stock.py:95-117 | a derived row exists exactly for a stock row whose psku is known, carrying that psku's sku, nsku and partner; every derived row has non-negative stock; there are never more rows than stock rows |
| StockIndex.KeptFacts | src/libindexing/domain/stock.py:133-135 | a row is written exactly when its sku had product data or was processed by the product fetch |
| StockIndex.OutOfStockFacts | src/libindexing/domain/stock.py:143-147 | an id is deleted for a country exactly when it is `sku:wh_code` of a written row with no stock whose lower-cased country is that country |
| StockIndex.SolrDeletionsFacts | src/libindexing/domain/stock.py:141-149 | every deletion batch is non-empty and holds exactly the out-of-stock ids of its country, and a country with such ids gets a batch |
| StockIndex.PairsFacts | src/libindexing/domain/stock.py:151 | the reindex list has one `(sku, wh_code)` pair per written row, in order |
| StockIndex.StockUpdateFacts | src/libindexing/domain/stock.py:92-152 | for a non-empty input a row is written exactly when it derives from a stock row with a known psku and has product data (forced updates count only processed skus); every written row has non-negative stock and is reindexed |
| StockIndex.ZskuRowsFacts | src/libindexing/domain/stock.py:44-68 | a zsku cache row exists exactly for a product whose zsku is cached, standing for itself |
| StockIndex.NskuRowsFacts | src/libindexing/domain/stock.py:70-87 | an nsku cache row exists exactly for a product whose zsku is not cached and whose non-empty nsku is, keyed by the nsku and pointing to the zsku |
| StockIndex.NskuDeletesFacts | src/libindexing/domain/stock.py:46-55 | an `(nsku, wh_code)` key is deleted exactly when a product with a cached zsku has that non-empty nsku in that warehouse |
| StockIndex.BoilerplatePartition | src/libindexing/domain/stock.py:14-89 | each product gets a zsku row when its zsku is cached (and its nsku row is deleted), otherwise an nsku row when its nsku is cached, otherwise nothing |
| StockIndex.UpsertedFacts | src/libindexing/domain/stock.py:88-89 | after an upsert a key holds the last row written under it, and a key no row mentions keeps its entry |
| StockIndex.BoilerplateStock.Update | src/libindexing/domain/stock.py:14-89 | the cache becomes the old cache with the nsku keys deleted and then the cache rows upserted in order |
| StockIndex.ServiceableFacts | src/libindexing/domain/stock.py:160 | a request is kept exactly when its warehouse is in the boilerplate's warehouse map |
| StockIndex.ReindexStockFacts | src/libindexing/domain/stock.py:155-164 | only serviceable requests are queried, and when no request is serviceable nothing is updated |
| StockIndex.WithCountriesFacts | src/libindexing/domain/stock.py:180-181 | tagging succeeds exactly when every row's warehouse is mapped, and then each row carries its warehouse's country upper-cased; otherwise a `KeyError` |
| StockIndex.Tagged | src/libindexing/domain/stock.py:191-204 | one stock row per row found, each of that warehouse and its country |
| StockIndex.FullStockUpdateFacts | src/libindexing/domain/stock.py:185-207 | an unknown warehouse is skipped; a known one with stock hands on one row per stock row, all of that warehouse and its upper-cased country |
| PriceImport.SurvivorFacts | src/libindexing/importers/price.py:59-105 | a row survives the four preprocessors exactly when it is unflagged, its price parses to a non-zero number, its partner id parses to the import's non-zero partner and the catalog knows its canonical partner sku; a survivor carries those parsed values, the catalog sku and its warehouse code |
| PriceImport.MarkAll | src/libindexing/importers/price.py:60-68 | marking a batch marks every row in place, keeping their number and order |
| PriceImport.PipelineKeepsAccepted | src/libindexing/importers/price.py:34-37 | the pipeline keeps exactly the surviving rows, in input order |
| PriceImport.PipelineAppend | src/libindexing/importers/price.py:34-37 | a row added at the end of the input adds its survivor, if any, at the end of the kept rows |
| PriceImport.PipelinePartition | src/libindexing/importers/price.py:34-37 | every input line ends among the kept rows or the errors exactly once, and every error carries a reason |
| PriceImport.StageLines | src/libindexing/importers/price.py:69-99 | one preprocessor splits its rows into valid and invalid without losing or duplicating a line |
| PriceImport.StageFlagged | src/libindexing/importers/price.py:62-98 | every row a preprocessor rejects carries an error code |
| PriceImport.PreexecuteFacts | src/libindexing/importers/price.py:30-39 | `preexecute` keeps exactly the surviving rows, accounts for every input line once among rows and errors, and gives each error a reason |
| PriceImport.AcceptedPrepared | src/libindexing/importers/price.py:41-56 | every kept row has a sku, a warehouse code, a partner id and a numeric price, so `execute` can key and write it |
| PriceImport.NameErrorFinding | src/libindexing/importers/price.py:1-64 | a well-formed one-row import stops with a `NameError` as written and keeps the row once `util` is imported |
| PriceImport.UpsertInit | src/libindexing/importers/price.py:45-52 | the rows before the last of a prepared batch are prepared too |
| PriceImport.UpsertedLast | src/libindexing/importers/price.py:45-52 | an offer key of the batch ends with the price and msrp of the last row written under it |
| PriceImport.UpsertedKeeps | src/libindexing/importers/price.py:49-51 | an existing offer keeps its country and partner: only price and msrp are updated |
| PriceImport.UpsertedOthers | src/libindexing/importers/price.py:45-52 | an offer no row of the batch mentions is untouched, and no offer appears without a row |
| PriceImport.PublishPairs | src/libindexing/importers/price.py:53 | one `(sku, wh_code)` pair per written row, in order |
| PriceImport.PublishedFacts | src/libindexing/importers/price.py:53-56 | the messages together are the written pairs in order, each message holds 1 to 20 pairs, and no rows means no messages |
| PriceImport.PriceImporter.constructor | src/libindexing/importers/price.py:25-28 | an import starts with its input rows and no errors |
| PriceImport.PriceImporter.RunStage | src/libindexing/importers/price.py:59-105 | a preprocessor marks its rows in place and returns exactly the valid and invalid rows the stage specifies |
| PriceImport.PriceImporter.RunPipeline | src/libindexing/importers/price.py:33-37 | the loop over the preprocessors returns exactly the kept rows and errors the pipeline specifies |
| PriceImport.PriceImporter.Preexecute | src/libindexing/importers/price.py:30-39 | the rows and errors become those `PreexecuteSpec` gives for the old rows, and the kept rows are ready to write |
| PriceImport.PriceImporter.Execute | src/libindexing/importers/price.py:41-56 | the offer table becomes the old table with the rows upserted in order, and the messages published are the rows' keys in chunks of 20 |
| AccessControl.ResourceRoles | src/libaccess/domain/control.py:28-36 | no roles without access info; otherwise a role is listed exactly when the user has an entry with that role on this resource type and reference, and never more roles than entries |
| AccessControl.HasResourcePermissionIff | src/libaccess/domain/control.py:44-48 | the user has the permission on a resource exactly when access info is present and some role the user holds on that very resource grants it |
| AccessControl.AnyGrantsIff | src/libaccess/domain/control.py:45-48 | `any` over the roles holds exactly when one of the roles grants the permission |
| AccessControl.AssertAccessIff | src/libaccess/domain/control.py:13-25 | access passes exactly when access info is present, a processor is registered for the resource type and it says yes; a refusal other than a missing processor starts with "Permission denied: user " |
| AccessControl.ResourceRegistry.Register | src/libaccess/domain/control.py:51-63 | a processor is registered exactly when its resource type has none yet; a duplicate is refused and leaves the registry unchanged |
| AccessControl.RegisterCustomerService | src/libaccess/domain/control.py:66-68 | the module's registration adds the customer-service processor under CUSTOMER_SERVICE, refused when one is already there |
| AccessControl.RegisterTwice | src/libaccess/domain/control.py:57-60 | registering the customer-service processor a second time is refused |
| AccessControl.CustomerServiceAccess | src/libaccess/domain/control.py:19-68 | with the customer-service processor registered, access to a customer-service resource holds exactly when a role on it grants the permission |
| Permissions.CheckPermissionIff | src/libaccess/domain/permission.py:12-21 | a check passes exactly when a context with a user code is open and the user is a platform admin, or the permission has processors and every one of them passes |
| Permissions.RunAllFacts | src/libaccess/domain/permission.py:20-21 | the processors pass together exactly when each passes; a refusal is the first failing processor's, all earlier ones having passed |
| Permissions.Check | src/libaccess/domain/permission.py:12-21 | the loop over the registered processors returns exactly the outcome `CheckPermission` specifies |
| Permissions.AdminBypass | src/libaccess/domain/permission.py:15-19 | a platform admin with a user code passes every check whatever is registered; anyone else is refused for a permission without processors |
| Permissions.PermissionRegistry.Register | src/libaccess/domain/permission.py:24-36 | registering appends the processor to the permission's list (a new list when there was none); other permissions are unchanged |
| Permissions.RegisterCsProcessors | src/libaccess/domain/permission.py:42-49 | each of the six customer-service permissions gains the CUSTOMER_SERVICE / `NOON_CS` processor at the end of its list; other permissions keep theirs |
| Permissions.Loaded | src/libaccess/domain/permission.py:42-49 | after both modules load, the resource registry holds only the customer-service processor and every customer-service permission has exactly the `NOON_CS` check |
| Permissions.CsRouting | src/libaccess/domain/permission.py:42-49 | a customer-service permission for a non-admin with a user code passes exactly when one of the user's roles on CUSTOMER_SERVICE / `NOON_CS` grants it |
| PageContent.Collect | src/libcontent/domain/page_content.py:102-162 | the assembly loop creates exactly one widget per widget code of a shown asset, recording each code once, in first-seen order |
| PageContent.AddBanner | src/libcontent/domain/page_content.py:150-158 | appending a banner succeeds exactly when the widget has a `banners` list, and adds the asset's banner at its end; a missing field is a `KeyError`, a value that is not a list an `AttributeError` |
| PageContent.WithinRegistered | src/libcontent/domain/page_content.py:133-136 | the substring tests `in ('productList')` and `in ('productCarousel')` agree with equality on every registered widget type |
| PageContent.NewWidgetKeys | src/libcontent/domain/page_content.py:17-145 | without misc data a new widget has exactly the fields its type shows plus `position` |
| PageContent.NewWidgetFields | src/libcontent/domain/page_content.py:121-145 | without misc data a new widget has an empty banner list (when its type shows one), its own type and its own position |
| PageContent.BannerlessKeyError | src/libcontent/domain/page_content.py:150-151 | an asset with an asset code for a widget type showing no banners ends the whole page with a `KeyError` |
| PageContent.MiscBannersAlone | src/libcontent/domain/page_content.py:121-170 | a widget whose `widget_misc` sets `banners` to a value of length 0 and which gets no banner is left off the page; set to a value with no length, it fails the page with a `TypeError` |
| PageContent.TidyDrops | src/libcontent/domain/page_content.py:164-166 | a widget is dropped exactly when its banners have length 0: an empty list, or an empty string, object or list set by `widget_misc` |
| PageContent.TidyFails | src/libcontent/domain/page_content.py:163-170 | the per-widget clean-up fails exactly when the banners have no length (`TypeError`), are non-empty but not a banner list (`AttributeError` at `.sort`, `KeyError` for banners already without positions), or hold two or more banners of which one has no position (`TypeError`); a single banner is never compared |
| PageContent.OrderByPositionFacts | src/libcontent/domain/page_content.py:171-172 | the final sort fails exactly when a widget has no `position` key, or when two or more widgets remain and one position is not a number; otherwise it orders the widgets by position and keeps each one |
| PageContent.TidyKeeps | src/libcontent/domain/page_content.py:167-170 | a kept widget keeps every field but its banners, which are the same banners ordered by position and without it, and it is paired with its own numeric position, if it has one |
| PageContent.PruneFacts | src/libcontent/domain/page_content.py:163-170 | the clean-up keeps at most one entry per created widget, each from a widget it created, paired with its position, with a non-empty banner list when it has one |
| PageContent.GetWidgetsFacts | src/libcontent/domain/page_content.py:171-175 | the page lists kept widgets ordered by position, none showing its position; a page of two or more has a numeric position for each |
| PageContent.GetWidgets | src/libcontent/domain/page_content.py:98-175 | the two loops return exactly the page `GetWidgetsSpec` specifies, including its first error |

## Left out

**Out of scope for this model**
- HTTP apps, routers, views and middleware. They are request plumbing around the domain calls.
- The context and transaction classes, and the retry on deadlock.
  - Each domain call is modelled as one atomic transaction: a call that raises leaves every table as it was.
  - The row lock is not modelled. `get_state` overwrites its `lock` argument with False, so no lock is ever taken.
- The threaded polling workers and pub/sub consumers, including their sleep loops. The only loop modelled is `event_processor`, one pass at a time.

**Outside services**
- The outbound HTTP clients: payment gateway, credit ledger, customer addresses and invoicing. Their answers are parameters.
  - A gateway or ledger request is recorded in the database snapshot as a call, not sent.
  - `NotificationList.send` is not modelled. The list of notifications to send is returned instead.
  - The gateway's answer to a settlement's capture or refund is either accepted or one of the permanent errors that `ignore_http_permanent_payment_error` swallows. Other HTTP errors, which propagate and fail the settlement, are not modelled.
- `refresh_payment_info_if_pending` (src/liborder/domain/payment.py:199-219) is not modelled on its own. Its testing flag, customer check and swallowed HTTP errors are I/O; what remains of it is `payment_updated`, which is modelled.
- `get_customer_balance` (src/liborder/domain/credit.py:20-28) is not modelled. It is a remote call whose exception is swallowed.

**Storage**
- SQL, Spanner and Solr queries are not modelled, nor are the `GetDetails`, `ListOrders` and `ManyOrders` selects.
  - Where a result feeds a modelled operation, it is a parameter.
  - `enrich_offers` gives each sku's price and its `qty_max`.
- Tables are maps keyed by their unique constraints.
  - An upsert is a map update, so duplicates within one batch are last-wins.
  - Stock and price upserts are computed as the rows to write. Only the boilerplate stock cache and the offer table are held as state.
- `sqlutil.upsert` is not part of this model. The cs adjustment upsert follows MySQL's `ON DUPLICATE KEY UPDATE`: a clash on the second unique key after the first was updated is a "Duplicate entry" failure.

**Numbers, clocks, randomness and text**
- Floats and geometry are not modelled: serviceability (KML), lat/lng scaling, the Solr float price, and the float tolerance of `equal_decimals`.
  - Money is integer cents, and equality of amounts is equality of cents.
  - The price importer's offer price is a `real` obtained through a `safe_float` parameter.
- The clock is a parameter (`now`). `miscutil.cached` and the 60-second cache of the role lookups are not modelled: a cache returns what the lookup returns.
- The random order numbers and comment codes (`generate_order_nr`, `generate_comment_code`) are not modelled. An order number is an input.
- Presentation and i18n are not modelled: `format_order`, which is defined twice, the order summaries, `get_tool_tip` and the translations.
- `PAYMENT_METHOD_MAP` display names are not modelled.
- Logging and tracing are not modelled. The customer-service action log (`log_action`) writes nothing the modelled commands read.

**Other repository code**
- The access-data importers and user/role lookups are not modelled. The role-to-permission table is the parameter `RolePermissions`.
- Jinja compilation of CMS criteria is not modelled. Each criterion is a given evaluation function, and JSON decoding of a widget's `misc` is a given function.
- `util.get_msg` (src/libutil/util.py:267) returns its argument unchanged and is not modelled.

**Parts of named files not modelled**
- `session.py`: `ResetCheckoutSession`, `ResetPaymentMethod`, `SetDeliveryPreferences`, the session lookup and merge (`get_active_session`, `switch_to_customer_session`), `set_default_payment_method_for` and the order-summary helpers. They lie outside the cart operations modelled.
- `customer_service.py`: the read-only and comment commands (`GetDetails`, `Search`, `WhoAmI`, the comment commands) and the history and adjustment listings.
- `payment.py`: `get_payment_subscription_id` and `is_cvv_required` are not modelled on their own. They are subscription lookups.
- The `import_product_group_code` importer is modelled only as a registry entry. Its upsert and publish are storage and pub/sub.
- Not wired together in the model:
  - The `with_permission` decorator on the customer-service commands. Permission checks (`Permissions.CheckPermission`) and the commands are modelled separately.
  - `status_check_enabled` is always true, so the unchecked branch of `Status.transition` is not modelled.

**Behaviour modelled in a different form**
- The denial message of `assert_access` formats the one-element list `[resource_ref]` as `['ref']`. Python's escaping of quotes inside the reference is not modelled.
- Only the `AccessCheck` form of permission processor is modelled, because it is the only one the source registers.
- A descent of the query parser into a key that does not hold a dictionary is `Failure(TypeError)`. Python raises different exception types depending on the container.
- `json.dumps` and `json.loads` are modelled only for flat objects whose values are strings or null, which are the only event payloads the model writes.
- In CMS widget assembly, decoding `widget_misc` is a parameter that gives an object of fields, or None when `json.loads` raises or does not give an object.
  - The update of the last banner (src/libcontent/domain/page_content.py:160) reads an attribute that a dict does not have. Its error is swallowed, so it changes nothing and is not modelled.
  - A `widget_misc` value is null, a boolean, a number, a string, an object (only its size), or a list. A list is read as a list of banners.
- `str.isdigit` and `int()` follow the Unicode 15.0 tables. The decimal digits (category Nd) are stored as the zero of each run of ten. The other characters of numeric type Digit are stored as ranges. A Python built on another Unicode version may accept slightly different characters.
- The limit on the number of digits `int()` accepts from a string (4300 by default since Python 3.11) is not modelled. A longer key reads as its value.

**Weaker contracts**
- Category.ParentIdsMap requires the parent table to be acyclic. The source's ancestor walk never ends on a cycle, so no result can be stated there.
- Taxonomy.ImportTaxonomy requires the stored category table to be acyclic, for the same reason: it builds the parent ids map first.
- Payment.Settle refunds to the corrected target (see Findings). After a partial refund the code as written asks for a negative refund and fails at `payment_refund`'s assertion. That behaviour is `Payment.StepOfAsWritten`, shown by `PaymentFacts.RefundAsWrittenGoesNegative`, and is not what Settle does.
- Payment.SettlePayment decides with the corrected `StepOf`. It therefore succeeds on the inputs where the code as written fails, and credits the surplus where the code asks for a negative refund.
- PaymentFacts.OverRefundsIff states the corrected condition for a refund: more captured than refunded. The code as written branches on captured plus refunded being positive (`Payment.StepOfAsWritten`).
- OrderStore.OrderDb.Restore rolls back the recorded gateway and ledger requests along with the tables. A transaction that fails after sending a request (for example a refund followed by a refused ledger capture in `Payment.RefundThenRemainder`) therefore leaves no record that the request was sent, although the outside service received it.
- PageContent.OrderByPosition fails with `TypeError` on two or more widgets whose positions are all strings, which only `widget_misc` can set. Python would sort those strings. Only numeric positions are ordered here.
- NotificationClient.MakeFacts: a payload whose `order_nr` is a list of items fails to build. Python's f-string would render the list through its items' repr, which this model does not hold. The notifications the model builds always carry the order number as a string.
- QueryParser.ParserHelperErrors and QueryParser.ChainsErrors do not promise that every failure is a malformed query string. `int()` raises `ValueError` on a key or `[]` value made of digits `isdigit` accepts when one of them is not decimal, and `parse` does not catch it (src/libutil/query_parser.py:117-128 covers only the split).
- Events.Selected returns the unprocessed events in id order. The source's SELECT has no ORDER BY, so the database promises no order.

## Findings

| source | as written | input that shows it | evidently intended | confidence | as-written member | corrected member |
|---|---|---|---|---|---|---|
| src/liborder/domain/payment.py:290-294 | when too much was collected, the refund target is `min(-r + min(captured + r, diff), captured)` with `r` the amount already refunded, so earlier refunds are added to what is left and subtracted from the target | 100 captured, 30 refunded, 20 collected too much: the target is -10; 50 captured, 50 refunded, 20 collected too much: the target is -30. In both `payment_refund`'s assertion refuses the amount, so the settlement fails | the target is what was refunded so far plus the smaller of the surplus and what is left to refund (50 in the first case); with nothing left to refund (the second case) the surplus goes to credit | high; not executed | PaymentFacts.RefundAsWrittenGoesNegative | PaymentFacts.RefundTargetBounds |
| src/libutil/query_parser.py:173-174 | `_normalize` reads the value under a `''` key with `v.values()[0]`, which Python 3 refuses, because a dict view is not indexable | `parse("a[]=x", normalized=True)` raises `TypeError` | `{'a': 'x'}`: the single value is lifted | high; not executed | QueryParser.NormalizeEmptyKeyFinding | QueryParser.ParseNormalizedSucceeds |
| src/libindexing/importers/price.py:64-85 | `util.safe_float` and `util.canonicalize` are called, but `util` is not among the imports at lines 1-11 | any import with at least one row stops with `NameError` | the rows are validated and canonicalised | high; not executed | PriceImport.NameErrorFinding | PriceImport.PreexecuteFacts |
