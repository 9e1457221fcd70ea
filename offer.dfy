// Offers as the catalog shows them: the fields derived when an offer object
// is built from a database row (discount, image keys, purchasable
// quantity), and the two lookups — the active offers of a result page, in
// the order of the requested skus and numbered from the page's first
// position, and the single offer of a product page.
module Offer {
  import opened Wrappers
  import StableSort

  /** A row of the offer query. `imageKeysJson` is the product's JSON list
      of image keys, if any; prices are decimals. */
  datatype OfferData = OfferData(sku: string, idPartner: int, title: string, brand: string, brandCode: string,
                                 price: real, salePrice: real, imageKeysJson: Option<string>,
                                 stockCustomerLimit: int, stockNet: int)

  /** The fields `OfferBase.__init__` leaves on the object. */
  datatype OfferView = OfferView(sku: string, idPartner: int, title: string, brand: string, brandCode: string,
                                 price: real, salePrice: real, discountPercent: Option<int>,
                                 imageKey: Option<string>, imageKeys: Option<seq<string>>, maxQty: int)

  /** `Offer`: a view with the position it was built with. */
  datatype IndexedOffer = IndexedOffer(view: OfferView, index: int)

  /** `OfferPdp`: a view with whether it can be bought. */
  datatype PdpOffer = PdpOffer(view: OfferView, isBuyable: bool)

  const JsonDecodeError := "JSONDecodeError"
  const IndexError := "IndexError"
  const DivisionByZero := "DivisionByZero"
  const ValueError := "ValueError"
  const ProductNotFound := "Product not found"

  /** `math.floor((price - sale_price) / price * 100)`, set only when the
      sale price is below the price. */
  function Discount(price: real, salePrice: real): Result<Option<int>>
  {
    if !(salePrice < price) then Success(None)
    else if price == 0.0 then Failure(DivisionByZero)
    else Success(Some(((price - salePrice) / price * 100.0).Floor))
  }

  /** The image fields: a truthy JSON list sets both, the first key being
      its head; otherwise both stay unset. `decode` is `json.loads`. */
  function Images(json: Option<string>, decode: string -> Option<seq<string>>): Result<(Option<string>, Option<seq<string>>)>
  {
    if json.None? || json.value == "" then Success((None, None))
    else
      match decode(json.value)
      case None => Failure(JsonDecodeError)
      case Some(keys) => if keys == [] then Failure(IndexError) else Success((Some(keys[0]), Some(keys)))
  }

  function Min(a: int, b: int): int
  {
    if b < a then b else a
  }

  /** `OfferBase.__init__`. */
  function MakeView(d: OfferData, decode: string -> Option<seq<string>>): Result<OfferView>
  {
    var images :- Images(d.imageKeysJson, decode);
    var discount :- Discount(d.price, d.salePrice);
    Success(OfferView(d.sku, d.idPartner, d.title, d.brand, d.brandCode, d.price, d.salePrice,
                      discount, images.0, images.1, Min(d.stockCustomerLimit, d.stockNet)))
  }

  /** `Offer(data, index)`. */
  function MakeOffer(d: OfferData, index: int, decode: string -> Option<seq<string>>): Result<IndexedOffer>
  {
    var v :- MakeView(d, decode);
    Success(IndexedOffer(v, index))
  }

  /** `OfferPdp(data)`. */
  function MakePdp(d: OfferData, decode: string -> Option<seq<string>>): Result<PdpOffer>
  {
    var v :- MakeView(d, decode);
    Success(PdpOffer(v, d.stockNet > 0))
  }

  /** The discount is the whole percentage the sale price takes off the
      price, rounded down: between 0 and 100, and 100 exactly for a free
      sale. */
  lemma DiscountFacts(price: real, salePrice: real)
    requires 0.0 <= salePrice < price
    ensures Discount(price, salePrice).Success? && Discount(price, salePrice).value.Some?
    ensures var d := Discount(price, salePrice).value.value;
      0 <= d <= 100 && (d == 100 <==> salePrice == 0.0) &&
      d as real * price <= (price - salePrice) * 100.0 < (d as real + 1.0) * price
  {
    var y := (price - salePrice) / price;
    FractionOff(price, salePrice);
    var x := y * 100.0;
    assert x * price == (price - salePrice) * 100.0 by {
      assert x * price == (y * price) * 100.0;
    }
    var d := x.Floor;
    assert d as real <= x < d as real + 1.0;
    MulLe(d as real, x, price);
    MulLt(x, d as real + 1.0, price);
  }

  /** The fraction of the price a sale takes off lies in [0, 1] and is 1
      exactly for a free sale. */
  lemma FractionOff(price: real, salePrice: real)
    requires 0.0 <= salePrice < price
    ensures var y := (price - salePrice) / price;
      y * price == price - salePrice && 0.0 < y <= 1.0 && (y == 1.0 <==> salePrice == 0.0)
  {
    var y := (price - salePrice) / price;
    assert y * price == price - salePrice;
    if y > 1.0 {
      MulLt(1.0, y, price);
    }
    if y <= 0.0 {
      MulLe(y, 0.0, price);
    }
    if salePrice == 0.0 && y < 1.0 {
      MulLt(y, 1.0, price);
    }
  }

  lemma MulLe(a: real, b: real, c: real)
    requires a <= b && c > 0.0
    ensures a * c <= b * c
  {
  }

  lemma MulLt(a: real, b: real, c: real)
    requires a < b && c > 0.0
    ensures a * c < b * c
  {
  }

  /** A price at or below the sale price gives no discount. */
  lemma NoDiscountWithoutSale(price: real, salePrice: real)
    requires price <= salePrice
    ensures Discount(price, salePrice) == Success(None)
  {
  }

  /** The purchasable quantity is the smaller of the customer limit and
      the stock, and each view's image key heads its image keys. */
  lemma ViewFacts(d: OfferData, decode: string -> Option<seq<string>>)
    requires MakeView(d, decode).Success?
    ensures var v := MakeView(d, decode).value;
      v.maxQty <= d.stockCustomerLimit && v.maxQty <= d.stockNet &&
      (v.maxQty == d.stockCustomerLimit || v.maxQty == d.stockNet) &&
      (v.imageKeys.Some? <==> d.imageKeysJson.Some? && d.imageKeysJson.value != "") &&
      (v.imageKeys.Some? ==> v.imageKeys.value != [] && v.imageKey == Some(v.imageKeys.value[0])) &&
      (v.discountPercent.Some? <==> d.salePrice < d.price)
  {
  }

  /** A product-page offer can be bought exactly when it has stock. */
  lemma PdpBuyable(d: OfferData, decode: string -> Option<seq<string>>)
    requires MakePdp(d, decode).Success?
    ensures MakePdp(d, decode).value.isBuyable <==> d.stockNet > 0
  {
  }

  // ---------------------------------------------------------------------
  // Lookups

  /** `sku_list.index(sku)`: the first position, or -1 (`ValueError`). */
  function IndexOf(xs: seq<string>, x: string): (i: int)
    ensures i == -1 <==> x !in xs
    ensures i != -1 ==> 0 <= i < |xs| && xs[i] == x && forall k :: 0 <= k < i ==> xs[k] != x
  {
    if xs == [] then -1
    else if xs[0] == x then 0
    else
      var i := IndexOf(xs[1..], x);
      if i == -1 then -1 else i + 1
  }

  /** The sort key of a row: its sku's first position in the request. */
  function Key(skus: seq<string>, d: OfferData): int
  {
    IndexOf(skus, d.sku)
  }

  /** `sorted(data, key=lambda x: sku_list.index(x["sku"]))`. */
  function InRequestOrder(data: seq<OfferData>, skus: seq<string>): seq<OfferData>
  {
    StableSort.Sort(data, d => Key(skus, d))
  }

  /** The numbering of the page's offers: the first gets
      `(page - 1) * rows + 1`, each next one the following number. */
  function Numbered(data: seq<OfferData>, first: int, decode: string -> Option<seq<string>>): Result<seq<IndexedOffer>>
  {
    if data == [] then Success([])
    else
      var init :- Numbered(data[..|data| - 1], first, decode);
      var o :- MakeOffer(data[|data| - 1], first + |data| - 1, decode);
      Success(init + [o])
  }

  /** The numbering loop of `get_active_offers`. */
  method NumberOffers(data: seq<OfferData>, page: int, rows: int, decode: string -> Option<seq<string>>)
    returns (r: Result<seq<IndexedOffer>>)
    ensures r == Numbered(data, (page - 1) * rows + 1, decode)
  {
    var first := (page - 1) * rows + 1;
    var idx := first;
    var offers: seq<IndexedOffer> := [];
    for i := 0 to |data|
      invariant idx == first + i
      invariant Numbered(data[..i], first, decode) == Success(offers)
    {
      assert data[..i + 1][..i] == data[..i];
      var o := MakeOffer(data[i], idx, decode);
      if o.Failure? {
        NumberedFailsFrom(data, i + 1, first, decode);
        return Failure(o.error);
      }
      idx := idx + 1;
      offers := offers + [o.value];
    }
    assert data[..|data|] == data;
    return Success(offers);
  }

  lemma {:induction false} NumberedFailsFrom(data: seq<OfferData>, n: nat, first: int, decode: string -> Option<seq<string>>)
    requires n <= |data| && Numbered(data[..n], first, decode).Failure?
    ensures Numbered(data, first, decode) == Numbered(data[..n], first, decode)
    decreases |data| - n
  {
    if n < |data| {
      assert data[..n + 1][..n] == data[..n];
      NumberedFailsFrom(data, n + 1, first, decode);
    } else {
      assert data[..n] == data;
    }
  }

  /** The offers are numbered consecutively from `first`, one per row,
      each built from its row. */
  lemma {:induction false} NumberedFacts(data: seq<OfferData>, first: int, decode: string -> Option<seq<string>>)
    requires Numbered(data, first, decode).Success?
    ensures var offers := Numbered(data, first, decode).value;
      |offers| == |data| &&
      forall k :: 0 <= k < |data| ==>
        offers[k].index == first + k && MakeView(data[k], decode) == Success(offers[k].view)
  {
    if data != [] {
      var init := data[..|data| - 1];
      NumberedFacts(init, first, decode);
      var offers := Numbered(data, first, decode).value;
      forall k | 0 <= k < |data| - 1 ensures offers[k] == Numbered(init, first, decode).value[k] && data[k] == init[k] {
      }
    }
  }

  /** `get_active_offers`: `query` stands for the offer query over the
      sku list (in-stock rows only); an empty list asks nothing. */
  function ActiveOffers(skus: seq<string>, page: int, rows: int, query: seq<string> -> seq<OfferData>,
                        decode: string -> Option<seq<string>>): Result<seq<IndexedOffer>>
  {
    if |skus| == 0 then Success([])
    else
      var data := query(skus);
      if exists k :: 0 <= k < |data| && data[k].sku !in skus then Failure(ValueError)
      else Numbered(InRequestOrder(data, skus), (page - 1) * rows + 1, decode)
  }

  /** No skus, no offers; otherwise every returned offer comes from a
      queried row, in the order of the requested skus, numbered from the
      page's first position. */
  lemma ActiveOffersFacts(skus: seq<string>, page: int, rows: int, query: seq<string> -> seq<OfferData>,
                          decode: string -> Option<seq<string>>)
    ensures skus == [] ==> ActiveOffers(skus, page, rows, query, decode) == Success([])
    ensures skus != [] && ActiveOffers(skus, page, rows, query, decode).Success? ==>
      var data := query(skus);
      var sorted := InRequestOrder(data, skus);
      var offers := ActiveOffers(skus, page, rows, query, decode).value;
      multiset(sorted) == multiset(data) && StableSort.SortedBy(sorted, d => Key(skus, d)) &&
      |offers| == |data| &&
      forall k :: 0 <= k < |offers| ==>
        offers[k].index == (page - 1) * rows + 1 + k && MakeView(sorted[k], decode) == Success(offers[k].view)
  {
    if skus != [] && ActiveOffers(skus, page, rows, query, decode).Success? {
      var data := query(skus);
      StableSort.SortFacts(data, d => Key(skus, d));
      NumberedFacts(InRequestOrder(data, skus), (page - 1) * rows + 1, decode);
    }
  }

  /** `get_pdp_offer`: the first in-stock row, or `NotFoundException`. */
  function PdpOfferOf(rows: seq<OfferData>, decode: string -> Option<seq<string>>): (r: Result<PdpOffer>)
    ensures rows == [] ==> r == Failure(ProductNotFound)
    ensures rows != [] ==> r == MakePdp(rows[0], decode)
  {
    if rows == [] then Failure(ProductNotFound) else MakePdp(rows[0], decode)
  }
}
