// The order-level rules of the order service that need no storage: the
// composite order status, the payer, cancelability, grouping of item rows,
// the item rows and money fields `PlaceOrder` derives, the paging of
// `ListOrders`, and the unshipped-item cancellation of
// `order_ready_for_pickup`.
module OrderRules {
  import opened Wrappers
  import opened OrderEnums
  import opened OrderRow
  import Text
  import Invoice

  // ---------------------------------------------------------------------
  // get_order_status / get_order_payer_code / is_cancelable

  predicate IsLogisticsProgress(s: string)
  {
    s == ArrivedAtPickup || s == PickedUp || s == ArrivedAtDelivery || s == Delivered || s == Undelivered || s == Cancelled
  }

  /** `get_order_status`: a terminal status is kept; otherwise the first
      rule that applies of payment, logistics, oms and payment-done. */
  function GetOrderStatus(o: Order): string
  {
    if IsOrderTerminal(o.statusOrder) then o.statusOrder
    else if o.statusPayment == Pending || o.statusPayment == Cancelled || o.statusPayment == Failed then o.statusPayment
    else if IsLogisticsProgress(o.statusLogistics) then o.statusLogistics
    else if o.statusOms == Shipped then ReadyForPickup
    else if o.statusPayment == Done then Confirmed
    else o.statusOrder
  }

  /** `get_order_payer_code`. */
  function GetOrderPayerCode(o: Order): string
  {
    if o.statusLogistics == Undelivered || o.statusLogistics == Cancelled then PayerNone
    else if o.statusOrder == Cancelled || o.statusOrder == Failed then PayerNone
    else PayerCustomer
  }

  /** `is_cancelable`. */
  predicate IsCancelable(o: Order)
  {
    !IsOrderTerminal(o.statusOrder) && o.statusOms != Shipped
  }

  /** Re-deriving the status of an order whose status was just derived
      changes nothing. */
  lemma GetOrderStatusIdempotent(o: Order)
    ensures GetOrderStatus(o.(statusOrder := GetOrderStatus(o))) == GetOrderStatus(o)
  {
  }

  /** The derived status is the stored one when terminal, and otherwise one
      of the payment status, the logistics status, `ready_for_pickup`,
      `confirmed` or the stored status. */
  lemma GetOrderStatusSources(o: Order)
    ensures IsOrderTerminal(o.statusOrder) ==> GetOrderStatus(o) == o.statusOrder
    ensures var s := GetOrderStatus(o);
      s == o.statusOrder || s == o.statusPayment || s == o.statusLogistics || s == ReadyForPickup || s == Confirmed
    ensures IsOrderTerminal(GetOrderStatus(o)) && !IsOrderTerminal(o.statusOrder) ==>
      GetOrderStatus(o) == o.statusPayment || GetOrderStatus(o) == o.statusLogistics
  {
  }

  /** The payer is `none` exactly when logistics is undelivered or
      cancelled or the order is cancelled or failed. */
  lemma PayerNoneIff(o: Order)
    ensures GetOrderPayerCode(o) == PayerNone <==>
      (o.statusLogistics == Undelivered || o.statusLogistics == Cancelled || o.statusOrder == Cancelled || o.statusOrder == Failed)
    ensures GetOrderPayerCode(o) != PayerNone ==> GetOrderPayerCode(o) == PayerCustomer
  {
  }

  /** A non-terminal order whose payment failed or was cancelled becomes
      that status, loses its payer, and then owes nothing. */
  lemma PaymentFailureReleasesOrder(o: Order, items: seq<Item>)
    requires !IsOrderTerminal(o.statusOrder)
    requires o.statusPayment == Failed || o.statusPayment == Cancelled
    ensures var o1 := o.(statusOrder := GetOrderStatus(o));
      o1.statusOrder == o.statusPayment &&
      GetOrderPayerCode(o1) == PayerNone &&
      Invoice.GetInvoiceInfo(o1.(payerCode := GetOrderPayerCode(o1)), items).collectFromCustomer == 0
  {
  }

  // ---------------------------------------------------------------------
  // group_items

  /** The distinct keys of `items`, in the order they are first seen. */
  function KeysSeen<T, K(==)>(items: seq<T>, key: T -> K): (r: seq<K>)
  {
    if items == [] then []
    else
      var ks := KeysSeen(items[..|items| - 1], key);
      if key(items[|items| - 1]) in ks then ks else ks + [key(items[|items| - 1])]
  }

  function CountKey<T, K(==)>(items: seq<T>, key: T -> K, k: K): nat
  {
    if items == [] then 0
    else CountKey(items[..|items| - 1], key, k) + (if key(items[|items| - 1]) == k then 1 else 0)
  }

  /** The last item carrying key `k`: the one the group keeps. */
  function LastWith<T, K(==)>(items: seq<T>, key: T -> K, k: K): Option<T>
  {
    if items == [] then None
    else if key(items[|items| - 1]) == k then Some(items[|items| - 1])
    else LastWith(items[..|items| - 1], key, k)
  }

  /** `group_items(items, keys)`: one entry per distinct key in first-seen
      order; each entry is the last item with that key, paired with the
      number of items carrying it (the `qty` the source writes into it). */
  method GroupItems<T, K(==)>(items: seq<T>, key: T -> K) returns (grouped: seq<(T, nat)>)
    ensures |grouped| == |KeysSeen(items, key)|
    ensures forall j :: 0 <= j < |grouped| ==>
      var k := KeysSeen(items, key)[j];
      LastWith(items, key, k) == Some(grouped[j].0) && grouped[j].1 == CountKey(items, key, k)
  {
    var order: seq<K> := [];
    var counts: map<K, nat> := map[];
    var last: map<K, T> := map[];
    for i := 0 to |items|
      invariant order == KeysSeen(items[..i], key)
      invariant forall k :: k in counts <==> k in order
      invariant forall k :: k in last <==> k in order
      invariant forall k :: k in counts ==> counts[k] == CountKey(items[..i], key, k)
      invariant forall k :: k in last ==> LastWith(items[..i], key, k) == Some(last[k])
      invariant forall k :: k !in order ==> CountKey(items[..i], key, k) == 0 && LastWith(items[..i], key, k) == None
    {
      var k := key(items[i]);
      assert items[..i + 1][..i] == items[..i];
      assert items[..i + 1][i] == items[i];
      assert forall k' :: CountKey(items[..i + 1], key, k') == CountKey(items[..i], key, k') + (if k == k' then 1 else 0);
      last := last[k := items[i]];
      ghost var prev := counts;
      if k in counts {
        counts := counts[k := counts[k] + 1];
      } else {
        counts := counts[k := 1];
        order := order + [k];
      }
      forall k' | k' in counts
        ensures counts[k'] == CountKey(items[..i + 1], key, k')
      {
        if k' != k {
          assert k' in prev;
        } else if k in prev {
          assert prev[k] == CountKey(items[..i], key, k);
          assert counts[k] == prev[k] + 1;
        } else {
          assert k !in order[..|order| - 1];
          assert CountKey(items[..i], key, k) == 0;
        }
      }
    }
    assert items[..|items|] == items;
    grouped := [];
    for j := 0 to |order|
      invariant |grouped| == j
      invariant forall m :: 0 <= m < j ==>
        LastWith(items, key, order[m]) == Some(grouped[m].0) && grouped[m].1 == CountKey(items, key, order[m])
    {
      assert order[j] in order;
      grouped := grouped + [(last[order[j]], counts[order[j]])];
    }
  }

  lemma {:induction false} KeysSeenDistinct<T, K>(items: seq<T>, key: T -> K)
    ensures forall a, b :: 0 <= a < b < |KeysSeen(items, key)| ==> KeysSeen(items, key)[a] != KeysSeen(items, key)[b]
    ensures forall x :: x in items ==> key(x) in KeysSeen(items, key)
    ensures forall k :: k in KeysSeen(items, key) ==> CountKey(items, key, k) > 0
    ensures forall k :: k !in KeysSeen(items, key) ==> CountKey(items, key, k) == 0
  {
    if items != [] {
      var front := items[..|items| - 1];
      KeysSeenDistinct(front, key);
      assert items == front + [items[|items| - 1]];
    }
  }

  /** The sum of counts over a list of distinct keys. */
  function SumCounts<T, K(==)>(ks: seq<K>, items: seq<T>, key: T -> K): nat
  {
    if ks == [] then 0 else CountKey(items, key, ks[0]) + SumCounts(ks[1..], items, key)
  }

  lemma {:induction false} SumCountsSnoc<T, K>(ks: seq<K>, items: seq<T>, key: T -> K, x: T)
    requires forall a, b :: 0 <= a < b < |ks| ==> ks[a] != ks[b]
    ensures SumCounts(ks, items + [x], key) == SumCounts(ks, items, key) + (if key(x) in ks then 1 else 0)
  {
    var ix := items + [x];
    assert ix[..|ix| - 1] == items;
    if ks != [] {
      SumCountsSnoc(ks[1..], items, key, x);
      if key(x) == ks[0] {
        assert key(x) !in ks[1..];
      }
      assert key(x) in ks <==> key(x) == ks[0] || key(x) in ks[1..];
    }
  }

  lemma {:induction false} SumCountsAppendKey<T, K>(ks: seq<K>, k: K, items: seq<T>, key: T -> K)
    ensures SumCounts(ks + [k], items, key) == SumCounts(ks, items, key) + CountKey(items, key, k)
  {
    if ks != [] {
      assert (ks + [k])[1..] == ks[1..] + [k];
      SumCountsAppendKey(ks[1..], k, items, key);
    } else {
      assert (ks + [k])[1..] == [];
    }
  }

  /** The quantities of the groups add up to the number of items. */
  lemma {:induction false} GroupQuantitiesSum<T, K>(items: seq<T>, key: T -> K)
    ensures SumCounts(KeysSeen(items, key), items, key) == |items|
  {
    if items != [] {
      var front := items[..|items| - 1];
      var x := items[|items| - 1];
      var ks := KeysSeen(front, key);
      GroupQuantitiesSum(front, key);
      KeysSeenDistinct(front, key);
      assert items == front + [x];
      SumCountsSnoc(ks, front, key, x);
      if key(x) !in ks {
        SumCountsAppendKey(ks, key(x), items, key);
        assert CountKey(front, key, key(x)) == 0;
      }
    }
  }

  // ---------------------------------------------------------------------
  // PlaceOrder

  /** A cart line as `PlaceOrder` copies it into the order. */
  datatype CartLine = CartLine(idPartner: nat, sku: string, price: int, qty: nat)

  /** `f"{order_nr}-{index}"`. */
  function ItemNr(orderNr: string, index: nat): string
  {
    orderNr + "-" + Text.NatToString(index)
  }

  /** One item row per unit of each line, in line order. */
  function Units(lines: seq<CartLine>): seq<CartLine>
  {
    if lines == [] then [] else Units(lines[..|lines| - 1]) + Repeat(lines[|lines| - 1], lines[|lines| - 1].qty)
  }

  function Repeat(l: CartLine, n: nat): (r: seq<CartLine>)
    ensures |r| == n && forall k :: 0 <= k < n ==> r[k] == l
  {
    if n == 0 then [] else Repeat(l, n - 1) + [l]
  }

  function RowOf(orderNr: string, l: CartLine, index: nat): Item
  {
    Item(ItemNr(orderNr, index), l.idPartner, l.sku, l.price, None, None)
  }

  /** The item rows `PlaceOrder` inserts: unit k (from 0) of the expanded
      cart is numbered k + 1. */
  method ItemRows(orderNr: string, lines: seq<CartLine>) returns (rows: seq<Item>)
    ensures |rows| == |Units(lines)|
    ensures forall k :: 0 <= k < |rows| ==> rows[k] == RowOf(orderNr, Units(lines)[k], k + 1)
  {
    rows := [];
    var index := 1;
    for i := 0 to |lines|
      invariant index == |rows| + 1
      invariant |rows| == |Units(lines[..i])|
      invariant forall k :: 0 <= k < |rows| ==> rows[k] == RowOf(orderNr, Units(lines[..i])[k], k + 1)
    {
      assert lines[..i + 1][..i] == lines[..i];
      var u := Units(lines[..i + 1]);
      assert u == Units(lines[..i]) + Repeat(lines[i], lines[i].qty);
      for x := 0 to lines[i].qty
        invariant index == |rows| + 1
        invariant |rows| == |Units(lines[..i])| + x
        invariant forall k :: 0 <= k < |rows| ==> rows[k] == RowOf(orderNr, u[k], k + 1)
      {
        rows := rows + [RowOf(orderNr, lines[i], index)];
        index := index + 1;
      }
    }
    assert lines[..|lines|] == lines;
  }

  /** The number of item rows is the total quantity. */
  function TotalQty(lines: seq<CartLine>): nat
  {
    if lines == [] then 0 else TotalQty(lines[..|lines| - 1]) + lines[|lines| - 1].qty
  }

  lemma {:induction false} UnitsCount(lines: seq<CartLine>)
    ensures |Units(lines)| == TotalQty(lines)
  {
    if lines != [] {
      UnitsCount(lines[..|lines| - 1]);
    }
  }

  /** Item numbers are distinct: `{order_nr}-1`, `-2`, ... never repeat. */
  lemma ItemNrInjective(orderNr: string, a: nat, b: nat)
    requires ItemNr(orderNr, a) == ItemNr(orderNr, b)
    ensures a == b
  {
    var p := orderNr + "-";
    assert ItemNr(orderNr, a)[|p|..] == Text.NatToString(a);
    assert ItemNr(orderNr, b)[|p|..] == Text.NatToString(b);
    Text.NatToStringInjective(a, b);
  }

  /** `sum(qty * price) + order_delivery_fee`. */
  function CartTotal(lines: seq<CartLine>, deliveryFee: int): int
  {
    LinesValue(lines) + deliveryFee
  }

  function LinesValue(lines: seq<CartLine>): int
  {
    if lines == [] then 0 else LinesValue(lines[..|lines| - 1]) + lines[|lines| - 1].qty * lines[|lines| - 1].price
  }

  /** The money fields `PlaceOrder` sets from the confirmed total and the
      session credit. */
  datatype PlacedMoney = PlacedMoney(total: int, creditAmount: int, collectFromCustomer: int, paymentAmount: int)

  function PlaceOrderMoney(total: int, sessionCredit: int): (m: PlacedMoney)
  {
    var credit := -(if total <= sessionCredit then total else sessionCredit);
    PlacedMoney(total, credit, total, Invoice.Max(total + credit, 0))
  }

  /** The credit used is at most the total and at most the session credit,
      and the payment amount is what remains of the total, never negative. */
  lemma PlaceOrderMoneyFacts(total: int, sessionCredit: int)
    ensures var m := PlaceOrderMoney(total, sessionCredit);
      -m.creditAmount <= total && -m.creditAmount <= sessionCredit &&
      (-m.creditAmount == total || -m.creditAmount == sessionCredit) &&
      m.paymentAmount >= 0 &&
      (0 <= sessionCredit <= total ==> m.paymentAmount == total - sessionCredit) &&
      (sessionCredit >= total >= 0 ==> m.paymentAmount == 0)
  {
  }

  // ---------------------------------------------------------------------
  // ListOrders

  datatype Paging = Paging(pageSize: nat, offset: nat, totalPages: nat)

  const MaxOrdersPerPage: nat := 25

  /** The paging of `ListOrders`, or its assertion message. */
  function ListOrdersPaging(ordersPerPage: int, pageNr: int, totalOrders: nat): (r: Result<Paging>)
    ensures r.Success? <==> ordersPerPage > 0 && pageNr > 0
  {
    if ordersPerPage <= 0 then Failure("Invalid orders per page")
    else if pageNr <= 0 then Failure("Invalid page number")
    else
      var size := if ordersPerPage <= MaxOrdersPerPage then ordersPerPage else MaxOrdersPerPage;
      Success(Paging(size, size * (pageNr - 1), totalOrders / size + (if totalOrders % size != 0 then 1 else 0)))
  }

  /** The page size is capped at 25, the offset skips the earlier pages,
      and the page count is the ceiling of total / size. */
  lemma ListOrdersPagingFacts(ordersPerPage: int, pageNr: int, totalOrders: nat)
    requires ordersPerPage > 0 && pageNr > 0
    ensures var p := ListOrdersPaging(ordersPerPage, pageNr, totalOrders).value;
      1 <= p.pageSize <= MaxOrdersPerPage && p.pageSize <= ordersPerPage &&
      p.offset == p.pageSize * (pageNr - 1) &&
      p.totalPages * p.pageSize >= totalOrders &&
      (p.totalPages == 0 || (p.totalPages - 1) * p.pageSize < totalOrders)
  {
    var p := ListOrdersPaging(ordersPerPage, pageNr, totalOrders).value;
    var q := totalOrders / p.pageSize;
    var rem := totalOrders % p.pageSize;
    assert totalOrders == q * p.pageSize + rem;
    if rem != 0 {
      assert p.totalPages * p.pageSize == q * p.pageSize + p.pageSize;
    }
  }

  // ---------------------------------------------------------------------
  // order_ready_for_pickup

  /** The status `format_order` gives an item row. */
  predicate ItemCancelled(it: Item)
  {
    it.cancelReasonCode.Some? && it.cancelReasonCode.value != ""
  }

  /** `order_items - shipment_items`: numbers of non-cancelled items that
      no shipment carries. */
  function Unshipped(items: seq<Item>, shipped: set<string>): set<string>
  {
    set i | 0 <= i < |items| && !ItemCancelled(items[i]) && items[i].itemNr !in shipped :: items[i].itemNr
  }

  /** The items after `order_ready_for_pickup` has stamped the unshipped
      ones as out of stock at time `now`. */
  function CancelUnshipped(items: seq<Item>, shipped: set<string>, now: int): (r: seq<Item>)
    ensures |r| == |items|
  {
    var gone := Unshipped(items, shipped);
    seq(|items|, i requires 0 <= i < |items| =>
      if items[i].itemNr in gone then items[i].(canceledAt := Some(now), cancelReasonCode := Some(OutOfStock)) else items[i])
  }

  /** Afterwards every item is either shipped or cancelled, and shipped or
      already cancelled items are untouched. */
  lemma CancelUnshippedFacts(items: seq<Item>, shipped: set<string>, now: int)
    ensures var r := CancelUnshipped(items, shipped, now);
      (forall i :: 0 <= i < |r| ==> r[i].itemNr in shipped || ItemCancelled(r[i])) &&
      (forall i :: 0 <= i < |r| && (items[i].itemNr in shipped || ItemCancelled(items[i])) && items[i].itemNr !in Unshipped(items, shipped) ==> r[i] == items[i])
    ensures (Unshipped(items, shipped) == {}) <==> (forall i :: 0 <= i < |items| ==> items[i].itemNr in shipped || ItemCancelled(items[i]))
  {
    var r := CancelUnshipped(items, shipped, now);
    forall i | 0 <= i < |r|
      ensures r[i].itemNr in shipped || ItemCancelled(r[i])
    {
      if !(items[i].itemNr in shipped || ItemCancelled(items[i])) {
        assert items[i].itemNr in Unshipped(items, shipped);
      }
    }
    if exists i :: 0 <= i < |items| && !(items[i].itemNr in shipped || ItemCancelled(items[i])) {
      var i :| 0 <= i < |items| && !(items[i].itemNr in shipped || ItemCancelled(items[i]));
      assert items[i].itemNr in Unshipped(items, shipped);
    }
  }
}
