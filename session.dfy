// The cart: a `session` row with its `session_item` rows. The cart
// operations run a callback that edits the loaded session dict in place;
// `modify_session` then writes back only the item rows whose (qty, price)
// pair changed and the session row only when one of its columns changed,
// and `format_session` computes the totals shown to the customer.
// Prices are integer cents; the catalog lookup `enrich_offers` is a map
// given to each operation.
module Session {
  import opened Wrappers
  import opened OrderEnums
  import Util
  import Text
  import OrderStore

  type Line = OrderStore.SessionItem
  type Cols = OrderStore.SessionRow

  /** An entry of `enrich_offers`, keyed by (sku, warehouse code). */
  datatype Offer = Offer(sku: string, whCode: string, idPartner: nat, price: int,
                         stockNet: int, stockCustomerLimit: int, qtyMax: int)

  type Offers = map<(string, string), Offer>

  /** A popup message (its "View Cart" action is the same for all). */
  datatype Message = Popup(title: string, text: string)

  const PopupTitle := "Could not add to cart"
  const AddOverStock := "Could not add all of the requested quantity as it exceeds the available stock"
  const AddOverLimit := "Could not add all of the requested quantity as it exceeds the cart size limit"
  const SetOverStock := "Could not set the requested quantity as it exceeds the available stock"
  const SetOverLimit := "Could not set the requested quantity as it exceeds the cart size limit"

  /** An entry of `updated_skus`: the refreshed line and what it had before. */
  datatype Update = Update(line: Line, oldPrice: Option<int>, oldQty: Option<int>)

  /** The session dict: its columns, its lines, and the keys that are not
      columns (messages, `updated_skus`, the delivery fee). */
  datatype CartState = CartState(cols: Cols, items: seq<Line>, messages: seq<Message>,
                                 updatedSkus: seq<Update>, deliveryFee: int)

  /** What is stored for one session: its row, and its item rows keyed by
      sku (unique on id_session and sku). */
  datatype Tables = Tables(row: Cols, stored: map<string, Line>)

  function Max(a: int, b: int): int { if a < b then b else a }
  function Min(a: int, b: int): int { if a < b then a else b }

  predicate Truthy(s: Option<string>)
  {
    s.Some? && s.value != ""
  }

  // ---------------------------------------------------------------------
  // format_session

  /** `[item for item in items if item['qty'] > 0]`. */
  function Visible(items: seq<Line>): (r: seq<Line>)
    ensures forall l :: l in r ==> l in items && l.qty > 0
    ensures |r| <= |items|
  {
    if items == [] then []
    else Visible(items[..|items| - 1]) + (if items[|items| - 1].qty > 0 then [items[|items| - 1]] else [])
  }

  function LineValue(l: Line): int
  {
    l.price * l.qty
  }

  /** Σ price·qty. */
  function LinesTotal(items: seq<Line>): int
  {
    if items == [] then 0 else LinesTotal(items[..|items| - 1]) + LineValue(items[|items| - 1])
  }

  /** What a line adds to the subtotal once hidden lines are dropped. */
  function Contribution(l: Line): int
  {
    if l.qty > 0 then LineValue(l) else 0
  }

  /** The subtotal as a sum of contributions. */
  function Subtotal(items: seq<Line>): int
  {
    if items == [] then 0 else Subtotal(items[..|items| - 1]) + Contribution(items[|items| - 1])
  }

  datatype Details = Details(items: seq<Line>, subtotal: int, total: int, paymentAmount: int, ccType: Option<string>)

  /** `format_session`'s money fields and card type. */
  function FormatSession(s: CartState): (d: Details)
    ensures forall l :: l in d.items ==> l.qty > 0
    ensures d.total == d.subtotal + s.deliveryFee
    ensures d.paymentAmount >= 0
    ensures d.paymentAmount == 0 || d.paymentAmount == d.total - s.cols.creditAmount
    ensures d.ccType == Util.GetCreditCardType(s.cols.creditCardMask)
  {
    var items := Visible(s.items);
    var subtotal := LinesTotal(items);
    var total := subtotal + s.deliveryFee;
    Details(items, subtotal, total, Max(0, total - s.cols.creditAmount), Util.GetCreditCardType(s.cols.creditCardMask))
  }

  lemma {:induction false} SubtotalIsVisibleTotal(items: seq<Line>)
    ensures LinesTotal(Visible(items)) == Subtotal(items)
  {
    if items != [] {
      var init := items[..|items| - 1];
      var last := items[|items| - 1];
      SubtotalIsVisibleTotal(init);
      LinesTotalAppend(Visible(init), if last.qty > 0 then [last] else []);
    }
  }

  lemma {:induction false} LinesTotalAppend(a: seq<Line>, b: seq<Line>)
    ensures LinesTotal(a + b) == LinesTotal(a) + LinesTotal(b)
  {
    if b != [] {
      assert (a + b)[..|a + b| - 1] == a + b[..|b| - 1];
      var last := b[|b| - 1];
      assert (a + b)[|a + b| - 1] == last;
      LinesTotalAppend(a, b[..|b| - 1]);
      assert LinesTotal(a + b) == LinesTotal(a + b[..|b| - 1]) + LineValue(last);
      assert LinesTotal(b) == LinesTotal(b[..|b| - 1]) + LineValue(last);
    } else {
      assert a + b == a;
    }
  }

  /** Replacing one line changes the subtotal by the difference of the two
      lines' contributions. */
  lemma {:induction false} SubtotalUpdate(items: seq<Line>, i: nat, l: Line)
    requires i < |items|
    ensures Subtotal(items[i := l]) == Subtotal(items) - Contribution(items[i]) + Contribution(l)
  {
    var n := |items| - 1;
    if i < n {
      assert items[i := l][..n] == items[..n][i := l];
      SubtotalUpdate(items[..n], i, l);
    } else {
      assert items[i := l][..n] == items[..n];
    }
  }

  // ---------------------------------------------------------------------
  // modify_session

  function Pair(l: Line): (int, int)
  {
    (l.qty, l.price)
  }

  /** `{item['sku']: (item['qty'], item['price']) for item in items}`: a
      later line with the same sku wins. */
  function ItemsMap(items: seq<Line>): (m: map<string, (int, int)>)
    ensures forall i :: 0 <= i < |items| ==> items[i].sku in m
  {
    if items == [] then map[]
    else
      var m0 := ItemsMap(items[..|items| - 1]);
      var l := items[|items| - 1];
      m0[l.sku := Pair(l)]
  }

  /** `prev_items_map.get(sku, (-1, -1))`. */
  function Lookup(m: map<string, (int, int)>, sku: string): (int, int)
  {
    if sku in m then m[sku] else (-1, -1)
  }

  /** The skus `modify_session` upserts. */
  function ChangedSkus(prev: seq<Line>, cur: seq<Line>): set<string>
  {
    set s | s in ItemsMap(cur) && Lookup(ItemsMap(prev), s) != ItemsMap(cur)[s]
  }

  /** The lines whose sku is in `skus`, in cart order. */
  function Filter(items: seq<Line>, skus: set<string>): (r: seq<Line>)
    ensures forall l :: l in r ==> l in items && l.sku in skus
  {
    if items == [] then []
    else Filter(items[..|items| - 1], skus) + (if items[|items| - 1].sku in skus then [items[|items| - 1]] else [])
  }

  /** The `session_item` upsert: a known sku gets the new qty and price, an
      unknown one is inserted; rows apply in order. */
  function UpsertAll(stored: map<string, Line>, rows: seq<Line>): map<string, Line>
  {
    if rows == [] then stored
    else
      var m := UpsertAll(stored, rows[..|rows| - 1]);
      var r := rows[|rows| - 1];
      m[r.sku := if r.sku in m then m[r.sku].(qty := r.qty, price := r.price) else r]
  }

  /** The tables after `modify_session`, given the session before and after
      the callback. */
  function Persist(t: Tables, prev: CartState, cur: CartState): Tables
  {
    Tables(if cur.cols != prev.cols then cur.cols else t.row,
           UpsertAll(t.stored, Filter(cur.items, ChangedSkus(prev.items, cur.items))))
  }

  /** The stored item rows agree with the cart's lines. */
  predicate Mirrors(stored: map<string, Line>, items: seq<Line>)
  {
    forall s :: s in ItemsMap(items) ==> s in stored && Pair(stored[s]) == ItemsMap(items)[s]
  }

  lemma {:induction false} UpsertFilter(stored: map<string, Line>, items: seq<Line>, skus: set<string>, s: string)
    ensures s !in skus ==> (s in UpsertAll(stored, Filter(items, skus)) <==> s in stored)
    ensures s !in skus && s in stored ==> UpsertAll(stored, Filter(items, skus))[s] == stored[s]
    ensures s in skus && s in ItemsMap(items) ==>
      s in UpsertAll(stored, Filter(items, skus)) && Pair(UpsertAll(stored, Filter(items, skus))[s]) == ItemsMap(items)[s]
    ensures s in skus && s !in ItemsMap(items) ==>
      (s in UpsertAll(stored, Filter(items, skus)) <==> s in stored)
    ensures s in skus && s !in ItemsMap(items) && s in stored ==> UpsertAll(stored, Filter(items, skus))[s] == stored[s]
  {
    if items != [] {
      var init := items[..|items| - 1];
      var l := items[|items| - 1];
      UpsertFilter(stored, init, skus, s);
      var f := Filter(items, skus);
      if l.sku in skus {
        assert f[..|f| - 1] == Filter(init, skus);
      } else {
        assert f == Filter(init, skus);
      }
    }
  }

  /** A sku whose (qty, price) pair did not change is not written. */
  lemma UnchangedNotWritten(t: Tables, prev: CartState, cur: CartState, s: string)
    requires s !in ChangedSkus(prev.items, cur.items)
    ensures s in Persist(t, prev, cur).stored <==> s in t.stored
    ensures s in t.stored ==> Persist(t, prev, cur).stored[s] == t.stored[s]
  {
    UpsertFilter(t.stored, cur.items, ChangedSkus(prev.items, cur.items), s);
  }

  /** If the stored rows mirrored the cart before the callback, they mirror
      it after `modify_session`, provided no line carries the pair
      (-1, -1) that `modify_session` takes for "absent". */
  lemma PersistMirrors(t: Tables, prev: CartState, cur: CartState)
    requires Mirrors(t.stored, prev.items)
    requires forall i :: 0 <= i < |cur.items| ==> Pair(cur.items[i]) != (-1, -1)
    ensures Mirrors(Persist(t, prev, cur).stored, cur.items)
  {
    var changed := ChangedSkus(prev.items, cur.items);
    forall s | s in ItemsMap(cur.items)
      ensures s in Persist(t, prev, cur).stored && Pair(Persist(t, prev, cur).stored[s]) == ItemsMap(cur.items)[s]
    {
      UpsertFilter(t.stored, cur.items, changed, s);
      if s !in changed {
        MapHoldsSomePair(cur.items, s);
      }
    }
  }

  lemma {:induction false} MapHoldsSomePair(items: seq<Line>, s: string)
    requires s in ItemsMap(items)
    ensures exists i :: 0 <= i < |items| && items[i].sku == s && ItemsMap(items)[s] == Pair(items[i])
  {
    var init := items[..|items| - 1];
    if items[|items| - 1].sku != s {
      MapHoldsSomePair(init, s);
      var i :| 0 <= i < |init| && init[i].sku == s && ItemsMap(init)[s] == Pair(init[i]);
      assert items[i] == init[i];
    }
  }

  lemma {:induction false} SameItemsNoChange(items: seq<Line>)
    ensures ChangedSkus(items, items) == {}
  {
  }

  /** The session dict after `modify_session`: hidden lines dropped. */
  function Shown(s: CartState): CartState
  {
    s.(items := Visible(s.items))
  }

  // ---------------------------------------------------------------------
  // The callbacks' edits to the lines

  function NewLine(o: Offer, qty: int): Line
  {
    OrderStore.SessionItem(o.idPartner, o.sku, o.price, qty)
  }

  predicate HasSku(items: seq<Line>, sku: string)
  {
    exists i :: 0 <= i < |items| && items[i].sku == sku
  }

  function AddTo(l: Line, sku: string, n: int): Line
  {
    if l.sku == sku then l.(qty := Max(0, l.qty + n)) else l
  }

  function SetTo(l: Line, sku: string, n: int): Line
  {
    if l.sku == sku then l.(qty := Max(n, 0)) else l
  }

  /** `AddItem`'s edit: every line of the sku grows by `n` (never below 0);
      a new line is appended only when there was none and `n` is positive. */
  function Added(items: seq<Line>, sku: string, n: int, o: Offer): (r: seq<Line>)
  {
    seq(|items|, i requires 0 <= i < |items| => AddTo(items[i], sku, n)) +
    (if !HasSku(items, sku) && n > 0 then [NewLine(o, n)] else [])
  }

  /** `SetQuantity`'s edit. */
  function SetLines(items: seq<Line>, sku: string, n: int, o: Offer): (r: seq<Line>)
  {
    seq(|items|, i requires 0 <= i < |items| => SetTo(items[i], sku, n)) +
    (if !HasSku(items, sku) && n > 0 then [NewLine(o, n)] else [])
  }

  /** The first line of the sku, if any. */
  function FirstIndex(items: seq<Line>, sku: string): (r: Option<nat>)
    ensures r.Some? ==> r.value < |items| && items[r.value].sku == sku &&
                        forall j :: 0 <= j < r.value ==> items[j].sku != sku
    ensures r.None? ==> !HasSku(items, sku)
  {
    if items == [] then None
    else if items[0].sku == sku then Some(0)
    else match FirstIndex(items[1..], sku)
      case None => None
      case Some(k) => Some(k + 1)
  }

  /** `RemoveItem`'s edit: the first line of the sku gets qty 0. */
  function ZeroFirst(items: seq<Line>, sku: string): seq<Line>
  {
    match FirstIndex(items, sku)
    case None => items
    case Some(i) => items[i := items[i].(qty := 0)]
  }

  /** `refresh_session`'s treatment of one line: no offer hides it; a
      drifted price is replaced; a quantity above what stock and the
      customer limit allow is lowered to it. A changed line is reported. */
  function RefreshLine(l: Line, offers: Offers, wh: string): (Line, Option<Update>)
  {
    if (l.sku, wh) !in offers then (l.(qty := 0), None)
    else
      var o := offers[(l.sku, wh)];
      var cap := Min(o.stockNet, o.stockCustomerLimit);
      var repriced := l.price != o.price;
      var capped := l.qty > cap;
      var l1 := l.(price := if repriced then o.price else l.price, qty := if capped then cap else l.qty);
      (l1, if repriced || capped
           then Some(Update(l1, if repriced then Some(l.price) else None, if capped then Some(l.qty) else None))
           else None)
  }

  function Refreshed(items: seq<Line>, offers: Offers, wh: string): (r: seq<Line>)
    ensures |r| == |items|
  {
    seq(|items|, i requires 0 <= i < |items| => RefreshLine(items[i], offers, wh).0)
  }

  function Updates(items: seq<Line>, offers: Offers, wh: string): seq<Update>
  {
    if items == [] then []
    else
      var u := RefreshLine(items[|items| - 1], offers, wh).1;
      Updates(items[..|items| - 1], offers, wh) + (if u.Some? then [u.value] else [])
  }

  // ---------------------------------------------------------------------
  // The operations' effect on the session dict

  /** The popup for a clamped request: the requested amount was cut to
      `qtyMax`, so the "available stock" text is chosen whenever it shows. */
  function Clamped(requested: int, qtyMax: int, overStock: string, overLimit: string): seq<Message>
  {
    var n := Min(qtyMax, requested);
    if n < requested then [Popup(PopupTitle, if n == qtyMax then overStock else overLimit)] else []
  }

  function AddItemSpec(s: CartState, sku: string, qty: int, wh: string, offers: Offers): Result<CartState>
  {
    if qty <= 0 then Failure("Invalid item quantity")
    else if (sku, wh) !in offers then Failure("Invalid sku")
    else if offers[(sku, wh)].whCode != wh then Failure("Item does not exist in any warehouse")
    else
      var o := offers[(sku, wh)];
      var n := Min(o.qtyMax, qty);
      Success(s.(items := Added(s.items, sku, n, o), messages := s.messages + Clamped(qty, o.qtyMax, AddOverStock, AddOverLimit)))
  }

  function SetQuantitySpec(s: CartState, sku: string, qty: int, wh: string, offers: Offers): Result<CartState>
  {
    if qty < 0 then Failure("Invalid item quantity")
    else if (sku, wh) !in offers then Failure("Invalid sku")
    else if offers[(sku, wh)].whCode != wh then Failure("Item does not exist in this warehouse")
    else
      var o := offers[(sku, wh)];
      var n := Min(o.qtyMax, qty);
      Success(s.(items := SetLines(s.items, sku, n, o), messages := s.messages + Clamped(qty, o.qtyMax, SetOverStock, SetOverLimit)))
  }

  function RemoveItemSpec(s: CartState, sku: string, wh: string, offers: Offers): Result<CartState>
  {
    if (sku, wh) !in offers then Failure("Invalid sku")
    else if offers[(sku, wh)].whCode != wh then Failure("Item does not exist in this warehouse")
    else Success(s.(items := ZeroFirst(s.items, sku)))
  }

  function RefreshSpec(s: CartState, wh: string, offers: Offers): CartState
  {
    s.(items := Refreshed(s.items, offers, wh), updatedSkus := Updates(s.items, offers, wh))
  }

  /** `is_cvv_required`: not required only when the session's token and
      address have a stored payment subscription. */
  predicate CvvRequired(c: Cols, subs: map<(string, string), string>)
  {
    !(Truthy(c.paymentToken) && Truthy(c.addressKey) &&
      (c.addressKey.value, c.paymentToken.value) in subs && subs[(c.addressKey.value, c.paymentToken.value)] != "")
  }

  function SetPaymentMethodSpec(c: Cols, code: Option<string>, credit: int, mask: Option<string>,
                                token: Option<string>, subs: map<(string, string), string>): Result<Cols>
  {
    if Truthy(code) && code.value !in PaymentMethods then Failure("Invalid Payment Method")
    else if credit < 0 then Failure("Credits Amount must not be negative")
    else
      var c1 := c.(paymentMethodCode := code, creditAmount := credit, creditCardMask := mask, paymentToken := token,
                   creditCardBin := if Truthy(mask) then Some(Util.GetCcBin(mask.value)) else None,
                   ccType := Util.GetCreditCardType(mask));
      var c2 := if code == Some(Cod)
                then c1.(creditCardMask := None, paymentToken := None, creditCardBin := None, ccType := None)
                else c1;
      Success(c2.(isCvvRequired := CvvRequired(c2, subs)))
  }

  // ---------------------------------------------------------------------
  // The session dict and the stored rows

  class Cart {
    var cols: Cols
    var items: seq<Line>
    var messages: seq<Message>
    var updatedSkus: seq<Update>
    var deliveryFee: int

    function State(): CartState
      reads this
    {
      CartState(cols, items, messages, updatedSkus, deliveryFee)
    }

    constructor (s: CartState)
      ensures State() == s
    {
      cols, items, messages, updatedSkus, deliveryFee := s.cols, s.items, s.messages, s.updatedSkus, s.deliveryFee;
    }

    /** The loop of `add_item`. */
    method AddLines(sku: string, n: int, o: Offer)
      modifies this
      ensures State() == old(State()).(items := Added(old(items), sku, n, o))
    {
      var i := 0;
      var existing := false;
      while i < |items|
        invariant 0 <= i <= |items| == |old(items)|
        invariant State() == old(State()).(items := items)
        invariant forall j :: 0 <= j < i ==> items[j] == AddTo(old(items)[j], sku, n)
        invariant forall j :: i <= j < |items| ==> items[j] == old(items)[j]
        invariant existing <==> HasSku(old(items)[..i], sku)
      {
        assert old(items)[..i + 1] == old(items)[..i] + [old(items)[i]];
        if items[i].sku == sku {
          items := items[i := items[i].(qty := Max(0, items[i].qty + n))];
          existing := true;
        }
        i := i + 1;
      }
      assert old(items)[..i] == old(items);
      ghost var edited := items;
      assert edited == seq(|old(items)|, j requires 0 <= j < |old(items)| => AddTo(old(items)[j], sku, n));
      if !existing && n > 0 {
        items := items + [NewLine(o, n)];
      }
      assert items == edited + (if !HasSku(old(items), sku) && n > 0 then [NewLine(o, n)] else []);
      assert items == Added(old(items), sku, n, o);
    }

    /** The loop of `set_qty`. */
    method SetQuantityLines(sku: string, n: int, o: Offer)
      modifies this
      ensures State() == old(State()).(items := SetLines(old(items), sku, n, o))
    {
      var i := 0;
      var existing := false;
      while i < |items|
        invariant 0 <= i <= |items| == |old(items)|
        invariant State() == old(State()).(items := items)
        invariant forall j :: 0 <= j < i ==> items[j] == SetTo(old(items)[j], sku, n)
        invariant forall j :: i <= j < |items| ==> items[j] == old(items)[j]
        invariant existing <==> HasSku(old(items)[..i], sku)
      {
        assert old(items)[..i + 1] == old(items)[..i] + [old(items)[i]];
        if items[i].sku == sku {
          items := items[i := items[i].(qty := Max(n, 0))];
          existing := true;
        }
        i := i + 1;
      }
      assert old(items)[..i] == old(items);
      ghost var edited := items;
      assert edited == seq(|old(items)|, j requires 0 <= j < |old(items)| => SetTo(old(items)[j], sku, n));
      if !existing && n > 0 {
        items := items + [NewLine(o, n)];
      }
      assert items == edited + (if !HasSku(old(items), sku) && n > 0 then [NewLine(o, n)] else []);
      assert items == SetLines(old(items), sku, n, o);
    }

    /** The loop of `remove_item`: stops at the first match. */
    method ZeroFirstLine(sku: string)
      modifies this
      ensures State() == old(State()).(items := ZeroFirst(old(items), sku))
    {
      var i := 0;
      while i < |items|
        invariant 0 <= i <= |items|
        invariant items == old(items)
        invariant State() == old(State()).(items := items)
        invariant forall j :: 0 <= j < i ==> items[j].sku != sku
      {
        if items[i].sku == sku {
          FirstIndexIs(items, sku, i);
          items := items[i := items[i].(qty := 0)];
          return;
        }
        i := i + 1;
      }
      assert !HasSku(items, sku);
      assert FirstIndex(items, sku) == None;
    }

    /** The loop of `refresh_fn`. */
    method RefreshLines(offers: Offers, wh: string)
      modifies this
      ensures State() == RefreshSpec(old(State()), wh, offers)
    {
      var changed: seq<Update> := [];
      var i := 0;
      while i < |items|
        invariant 0 <= i <= |items| == |old(items)|
        invariant State() == old(State()).(items := items)
        invariant forall j :: 0 <= j < i ==> items[j] == RefreshLine(old(items)[j], offers, wh).0
        invariant forall j :: i <= j < |items| ==> items[j] == old(items)[j]
        invariant changed == Updates(old(items)[..i], offers, wh)
      {
        assert old(items)[..i + 1][..i] == old(items)[..i];
        var l1, u := RefreshOne(items[i], offers, wh);
        if u.Some? {
          changed := changed + [u.value];
        }
        items := items[i := l1];
        i := i + 1;
      }
      assert old(items)[..i] == old(items);
      assert items == Refreshed(old(items), offers, wh);
      updatedSkus := changed;
    }
  }

  /** One iteration of `refresh_fn`. */
  method RefreshOne(line: Line, offers: Offers, wh: string) returns (l1: Line, u: Option<Update>)
    ensures (l1, u) == RefreshLine(line, offers, wh)
  {
    if (line.sku, wh) !in offers {
      return line.(qty := 0), None;
    }
    var o := offers[(line.sku, wh)];
    var cap := Min(o.stockNet, o.stockCustomerLimit);
    var isChanged := false;
    var oldPrice: Option<int> := None;
    var oldQty: Option<int> := None;
    l1 := line;
    if line.price != o.price {
      isChanged := true;
      oldPrice := Some(line.price);
      l1 := l1.(price := o.price);
    }
    if line.qty > cap {
      isChanged := true;
      oldQty := Some(line.qty);
      l1 := l1.(qty := cap);
    }
    u := if isChanged then Some(Update(l1, oldPrice, oldQty)) else None;
  }

  lemma FirstIndexIs(items: seq<Line>, sku: string, i: nat)
    requires i < |items| && items[i].sku == sku
    requires forall j :: 0 <= j < i ==> items[j].sku != sku
    ensures FirstIndex(items, sku) == Some(i)
  {
    var r := FirstIndex(items, sku);
    assert r.Some?;
    if r.value < i {
    } else if r.value > i {
    }
  }

  class SessionTables {
    var row: Cols
    var stored: map<string, Line>

    function State(): Tables
      reads this
    {
      Tables(row, stored)
    }

    constructor (t: Tables)
      ensures State() == t
    {
      row, stored := t.row, t.stored;
    }

    /** The `session_item` upsert of `modify_session`. */
    method UpsertItems(rows: seq<Line>)
      modifies this
      ensures State() == old(State()).(stored := UpsertAll(old(stored), rows))
    {
      stored := UpsertAll(stored, rows);
    }

    /** `upsert_one(Session, session)`. */
    method UpsertRow(c: Cols)
      modifies this
      ensures State() == old(State()).(row := c)
    {
      row := c;
    }
  }

  /** The set of skus to upsert, as `modify_session`'s loop collects them. */
  method SkusToUpdate(prev: map<string, (int, int)>, cur: seq<Line>) returns (skus: set<string>)
    ensures skus == (set s | s in ItemsMap(cur) && Lookup(prev, s) != ItemsMap(cur)[s])
  {
    var m := ItemsMap(cur);
    skus := {};
    var i := 0;
    while i < |cur|
      invariant 0 <= i <= |cur|
      invariant forall s :: s in skus <==> s in m && Lookup(prev, s) != m[s] && HasSku(cur[..i], s)
    {
      assert cur[..i + 1] == cur[..i] + [cur[i]];
      var s := cur[i].sku;
      if Lookup(prev, s) != m[s] {
        skus := skus + {s};
      }
      i := i + 1;
    }
    assert cur[..i] == cur;
    forall s | s in m
      ensures HasSku(cur, s)
    {
      MapHoldsSomePair(cur, s);
    }
  }

  /** `modify_session` after its callback ran: `prev` is the session as
      loaded, `cart` the session the callback left. */
  method ModifySession(t: SessionTables, prev: CartState, cart: Cart)
    modifies t, cart
    ensures t.State() == Persist(old(t.State()), prev, old(cart.State()))
    ensures cart.State() == Shown(old(cart.State()))
  {
    var skus := SkusToUpdate(ItemsMap(prev.items), cart.items);
    var rows := Filter(cart.items, skus);
    if rows != [] {
      t.UpsertItems(rows);
    }
    if cart.cols != prev.cols {
      t.UpsertRow(cart.cols);
    }
    cart.items := Visible(cart.items);
  }

  /** The effect of a cart operation that went through. */
  predicate Committed(r: Result<Details>, before: CartState, t0: Tables, spec: Result<CartState>, after: CartState, t1: Tables)
  {
    match spec
    case Failure(e) => r == Failure(e) && after == before && t1 == t0
    case Success(s) => r == Success(FormatSession(Shown(s))) && after == Shown(s) && t1 == Persist(t0, before, s)
  }

  method AddItem(t: SessionTables, cart: Cart, sku: string, qty: int, wh: string, offers: Offers) returns (r: Result<Details>)
    modifies t, cart
    ensures Committed(r, old(cart.State()), old(t.State()), AddItemSpec(old(cart.State()), sku, qty, wh, offers), cart.State(), t.State())
  {
    if qty <= 0 { return Failure("Invalid item quantity"); }
    if (sku, wh) !in offers { return Failure("Invalid sku"); }
    var o := offers[(sku, wh)];
    if o.whCode != wh { return Failure("Item does not exist in any warehouse"); }
    var prev := cart.State();
    var n := Min(o.qtyMax, qty);
    cart.AddLines(sku, n, o);
    cart.messages := cart.messages + Clamped(qty, o.qtyMax, AddOverStock, AddOverLimit);
    ModifySession(t, prev, cart);
    r := Success(FormatSession(cart.State()));
  }

  method SetQuantity(t: SessionTables, cart: Cart, sku: string, qty: int, wh: string, offers: Offers) returns (r: Result<Details>)
    modifies t, cart
    ensures Committed(r, old(cart.State()), old(t.State()), SetQuantitySpec(old(cart.State()), sku, qty, wh, offers), cart.State(), t.State())
  {
    if qty < 0 { return Failure("Invalid item quantity"); }
    if (sku, wh) !in offers { return Failure("Invalid sku"); }
    var o := offers[(sku, wh)];
    if o.whCode != wh { return Failure("Item does not exist in this warehouse"); }
    var prev := cart.State();
    var n := Min(o.qtyMax, qty);
    cart.SetQuantityLines(sku, n, o);
    cart.messages := cart.messages + Clamped(qty, o.qtyMax, SetOverStock, SetOverLimit);
    ModifySession(t, prev, cart);
    r := Success(FormatSession(cart.State()));
  }

  method RemoveItem(t: SessionTables, cart: Cart, sku: string, wh: string, offers: Offers) returns (r: Result<Details>)
    modifies t, cart
    ensures Committed(r, old(cart.State()), old(t.State()), RemoveItemSpec(old(cart.State()), sku, wh, offers), cart.State(), t.State())
  {
    if (sku, wh) !in offers { return Failure("Invalid sku"); }
    if offers[(sku, wh)].whCode != wh { return Failure("Item does not exist in this warehouse"); }
    var prev := cart.State();
    cart.ZeroFirstLine(sku);
    ModifySession(t, prev, cart);
    r := Success(FormatSession(cart.State()));
  }

  method RefreshSession(t: SessionTables, cart: Cart, wh: string, offers: Offers) returns (d: Details)
    modifies t, cart
    ensures Committed(Success(d), old(cart.State()), old(t.State()), Success(RefreshSpec(old(cart.State()), wh, offers)), cart.State(), t.State())
  {
    var prev := cart.State();
    cart.RefreshLines(offers, wh);
    ModifySession(t, prev, cart);
    d := FormatSession(cart.State());
  }

  method SetPaymentMethod(t: SessionTables, cart: Cart, code: Option<string>, credit: int, mask: Option<string>,
                          token: Option<string>, subs: map<(string, string), string>) returns (r: Result<Details>)
    modifies t, cart
    ensures Committed(r, old(cart.State()), old(t.State()),
      match SetPaymentMethodSpec(old(cart.cols), code, credit, mask, token, subs)
      case Failure(e) => Failure(e)
      case Success(c) => Success(old(cart.State()).(cols := c)),
      cart.State(), t.State())
  {
    var spec := SetPaymentMethodSpec(cart.cols, code, credit, mask, token, subs);
    if spec.Failure? { return Failure(spec.error); }
    var prev := cart.State();
    cart.cols := spec.value;
    ModifySession(t, prev, cart);
    r := Success(FormatSession(cart.State()));
  }

  // ---------------------------------------------------------------------
  // What the cart operations promise

  /** The subtotal shown is the sum over lines with a positive quantity. */
  lemma FormatSubtotal(s: CartState)
    ensures FormatSession(s).subtotal == Subtotal(s.items)
    ensures FormatSession(s).paymentAmount == Max(0, Subtotal(s.items) + s.deliveryFee - s.cols.creditAmount)
  {
    SubtotalIsVisibleTotal(s.items);
  }

  /** `AddItem` adds `min(qty_max, qty)` to every line of the sku, without
      clamping the sum again, appends a line only when the cart had none and
      that amount is positive, and shows the "available stock" popup exactly
      when the request was cut. */
  lemma AddItemOutcome(s: CartState, sku: string, qty: int, wh: string, offers: Offers)
    requires AddItemSpec(s, sku, qty, wh, offers).Success?
    ensures qty > 0 && (sku, wh) in offers
    ensures var o := offers[(sku, wh)];
      var n := Min(o.qtyMax, qty);
      var r := AddItemSpec(s, sku, qty, wh, offers).value;
      |r.items| == |s.items| + (if !HasSku(s.items, sku) && n > 0 then 1 else 0) &&
      (forall i :: 0 <= i < |s.items| && s.items[i].sku == sku ==> r.items[i].qty == Max(0, s.items[i].qty + n)) &&
      (forall i :: 0 <= i < |s.items| && s.items[i].sku != sku ==> r.items[i] == s.items[i]) &&
      (|r.items| > |s.items| ==> r.items[|s.items|] == NewLine(o, n)) &&
      r.messages == s.messages + (if o.qtyMax < qty then [Popup(PopupTitle, AddOverStock)] else [])
  {
  }

  /** The sum is not clamped: a line at 10 with 12 allowed grows to 15 when
      5 more are added. */
  lemma AddItemNotReclamped(s: CartState, line: Line, wh: string, o: Offer)
    requires s.items == [line] && line.qty == 10
    requires o.qtyMax == 12 && o.whCode == wh
    ensures AddItemSpec(s, line.sku, 5, wh, map[(line.sku, wh) := o]).value.items[0].qty == 15
  {
  }

  /** `SetQuantity` sets every line of the sku to `min(qty_max, qty)` (at
      least 0) and creates a line only when that is positive. */
  lemma SetQuantityOutcome(s: CartState, sku: string, qty: int, wh: string, offers: Offers)
    requires SetQuantitySpec(s, sku, qty, wh, offers).Success?
    ensures qty >= 0 && (sku, wh) in offers
    ensures var o := offers[(sku, wh)];
      var n := Min(o.qtyMax, qty);
      var r := SetQuantitySpec(s, sku, qty, wh, offers).value;
      |r.items| == |s.items| + (if !HasSku(s.items, sku) && n > 0 then 1 else 0) &&
      (forall i :: 0 <= i < |s.items| && s.items[i].sku == sku ==> r.items[i].qty == Max(n, 0) && r.items[i].qty <= qty) &&
      (forall i :: 0 <= i < |s.items| && s.items[i].sku != sku ==> r.items[i] == s.items[i]) &&
      (|r.items| > |s.items| ==> r.items[|s.items|] == NewLine(o, n) && n > 0)
  {
  }

  /** `RemoveItem` zeroes the first line of the sku, so the subtotal drops by
      exactly what that line contributed and the line is no longer shown. */
  lemma RemoveItemOutcome(s: CartState, sku: string, wh: string, offers: Offers)
    requires RemoveItemSpec(s, sku, wh, offers).Success?
    ensures var r := RemoveItemSpec(s, sku, wh, offers).value;
      match FirstIndex(s.items, sku)
      case None => r.items == s.items
      case Some(i) =>
        Subtotal(r.items) == Subtotal(s.items) - Contribution(s.items[i]) &&
        r.items[i].qty == 0 && r.items[i] !in Visible(r.items)
  {
    var r := RemoveItemSpec(s, sku, wh, offers).value;
    match FirstIndex(s.items, sku)
    case None =>
    case Some(i) =>
      SubtotalUpdate(s.items, i, s.items[i].(qty := 0));
  }

  /** After a refresh every line either has no offer and is hidden, or has
      the offer's price and at most what stock and the customer limit
      allow. */
  lemma RefreshBounds(s: CartState, wh: string, offers: Offers, i: nat)
    requires i < |s.items|
    ensures var l := RefreshSpec(s, wh, offers).items[i];
      var k := (s.items[i].sku, wh);
      l.sku == s.items[i].sku &&
      (k !in offers ==> l.qty == 0) &&
      (k in offers ==> l.price == offers[k].price &&
                       l.qty <= Min(offers[k].stockNet, offers[k].stockCustomerLimit) &&
                       (s.items[i].qty <= Min(offers[k].stockNet, offers[k].stockCustomerLimit) ==> l.qty == s.items[i].qty))
  {
  }

  /** A line needs reporting when its offer's price differs or its quantity
      is above what is allowed. */
  predicate Drifted(l: Line, offers: Offers, wh: string)
  {
    (l.sku, wh) in offers &&
    (l.price != offers[(l.sku, wh)].price ||
     l.qty > Min(offers[(l.sku, wh)].stockNet, offers[(l.sku, wh)].stockCustomerLimit))
  }

  /** `updated_skus` reports exactly the drifted lines, in cart order. */
  lemma {:induction false} RefreshReportsDrifted(items: seq<Line>, offers: Offers, wh: string)
    ensures |Updates(items, offers, wh)| == |Filtered(items, offers, wh)|
    ensures forall k :: 0 <= k < |Updates(items, offers, wh)| ==>
      Updates(items, offers, wh)[k].line.sku == Filtered(items, offers, wh)[k].sku
  {
    if items != [] {
      var init := items[..|items| - 1];
      RefreshReportsDrifted(init, offers, wh);
    }
  }

  function Filtered(items: seq<Line>, offers: Offers, wh: string): seq<Line>
  {
    if items == [] then []
    else Filtered(items[..|items| - 1], offers, wh) +
         (if Drifted(items[|items| - 1], offers, wh) then [items[|items| - 1]] else [])
  }

  /** Edits to the lines alone never rewrite the session row. */
  lemma LineEditsKeepRow(t: Tables, prev: CartState, items: seq<Line>, messages: seq<Message>, updated: seq<Update>)
    ensures Persist(t, prev, prev.(items := items, messages := messages, updatedSkus := updated)).row == t.row
  {
  }

  /** `SetPaymentMethod` refuses an unknown method and a negative credit
      amount; choosing `cod` clears the card fields, any other choice
      stores the mask with its bin and card type. */
  lemma SetPaymentMethodOutcome(c: Cols, code: Option<string>, credit: int, mask: Option<string>,
                                token: Option<string>, subs: map<(string, string), string>)
    ensures var r := SetPaymentMethodSpec(c, code, credit, mask, token, subs);
      (r.Failure? <==> (Truthy(code) && code.value !in PaymentMethods) || credit < 0) &&
      (r.Success? ==>
        r.value.paymentMethodCode == code && r.value.creditAmount == credit &&
        r.value.isCvvRequired == CvvRequired(r.value, subs) &&
        (code == Some(Cod) ==>
          r.value.creditCardMask == None && r.value.paymentToken == None &&
          r.value.creditCardBin == None && r.value.ccType == None) &&
        (code != Some(Cod) ==>
          r.value.creditCardMask == mask && r.value.paymentToken == token &&
          r.value.ccType == Util.GetCreditCardType(mask) &&
          (Truthy(mask) <==> r.value.creditCardBin.Some?) &&
          (Truthy(mask) ==> Text.IsPrefix(r.value.creditCardBin.value, mask.value))))
  {
  }
}
