// Stock indexing: the offer-stock rows derived from a batch of warehouse
// stock, which of them are kept, the Solr documents dropped for stock that
// ran out, the boilerplate stock cache keyed by zsku or nsku, and the
// warehouse filter of a reindex.
module StockIndex {
  import opened Wrappers
  import Text

  /** A row of the warehouse stock. */
  datatype ScRow = ScRow(pskuCode: string, whCode: string, qtyNet: int, countryCode: string)

  /** What the psku table knows of a psku. */
  datatype Psku = Psku(sku: string, nsku: Option<string>, idPartner: int)

  /** An offer-stock row. */
  datatype StockRow = StockRow(whCode: string, stockNet: int, sku: string, nsku: Option<string>, idPartner: int,
                               countryCode: string)

  /** `row['qty_net'] if row['qty_net'] >= 0 else 0`. */
  function StockNet(qty: int): (n: int)
    ensures n >= 0 && (qty >= 0 ==> n == qty) && (qty < 0 ==> n == 0)
  {
    if qty >= 0 then qty else 0
  }

  function RowOf(r: ScRow, p: Psku): StockRow
  {
    StockRow(r.whCode, StockNet(r.qtyNet), p.sku, p.nsku, p.idPartner, r.countryCode)
  }

  /** The first `stock_update_rows`: one row per stock row whose psku is
      known, in order. */
  function Derive(rows: seq<ScRow>, pskus: map<string, Psku>): seq<StockRow>
  {
    if rows == [] then []
    else
      Derive(rows[..|rows| - 1], pskus) +
        (if rows[|rows| - 1].pskuCode in pskus then [RowOf(rows[|rows| - 1], pskus[rows[|rows| - 1].pskuCode])] else [])
  }

  /** A derived row comes from a stock row with a known psku, and every
      such stock row gives one; its stock is never negative. */
  lemma {:induction false} DeriveFacts(rows: seq<ScRow>, pskus: map<string, Psku>, s: StockRow)
    ensures s in Derive(rows, pskus) <==>
      exists i :: 0 <= i < |rows| && rows[i].pskuCode in pskus && s == RowOf(rows[i], pskus[rows[i].pskuCode])
    ensures forall k :: 0 <= k < |Derive(rows, pskus)| ==> Derive(rows, pskus)[k].stockNet >= 0
    ensures |Derive(rows, pskus)| <= |rows|
  {
    if rows != [] {
      var init := rows[..|rows| - 1];
      DeriveFacts(init, pskus, s);
      assert forall i :: 0 <= i < |init| ==> init[i] == rows[i];
    }
  }

  /** The rows kept for writing: those whose sku had product data or had
      it fetched. */
  function Kept(rows: seq<StockRow>, known: set<string>, processed: seq<string>): seq<StockRow>
  {
    if rows == [] then []
    else
      var r := rows[|rows| - 1];
      Kept(rows[..|rows| - 1], known, processed) + (if r.sku in processed || r.sku in known then [r] else [])
  }

  lemma {:induction false} KeptFacts(rows: seq<StockRow>, known: set<string>, processed: seq<string>, s: StockRow)
    ensures s in Kept(rows, known, processed) <==> s in rows && (s.sku in processed || s.sku in known)
  {
    if rows != [] {
      var init := rows[..|rows| - 1];
      KeptFacts(init, known, processed, s);
      assert rows == init + [rows[|rows| - 1]];
    }
  }

  /** `skus_with_no_product_data`. */
  function NoProductData(rows: seq<StockRow>, known: set<string>): seq<(string, Option<string>)>
  {
    if rows == [] then []
    else
      var r := rows[|rows| - 1];
      NoProductData(rows[..|rows| - 1], known) + (if r.sku !in known then [(r.sku, r.nsku)] else [])
  }

  /** The countries Solr deletions are issued for. */
  const DeleteCountries: seq<string> := ["ae", "sa", "eg"]

  /** The `sku:wh_code` ids of a country's rows that ran out of stock. */
  function OutOfStockIds(rows: seq<StockRow>, country: string): seq<string>
  {
    if rows == [] then []
    else
      var r := rows[|rows| - 1];
      OutOfStockIds(rows[..|rows| - 1], country) +
        (if r.stockNet == 0 && Text.Lower(r.countryCode) == country then [r.sku + ":" + r.whCode] else [])
  }

  lemma {:induction false} OutOfStockFacts(rows: seq<StockRow>, country: string, id: string)
    ensures id in OutOfStockIds(rows, country) <==>
      exists i :: 0 <= i < |rows| && rows[i].stockNet == 0 && Text.Lower(rows[i].countryCode) == country &&
        id == rows[i].sku + ":" + rows[i].whCode
  {
    if rows != [] {
      var init := rows[..|rows| - 1];
      OutOfStockFacts(init, country, id);
      assert forall i :: 0 <= i < |init| ==> init[i] == rows[i];
    }
  }

  /** The deletions issued, per country, skipping countries with none. */
  function SolrDeletions(rows: seq<StockRow>, countries: seq<string>): seq<(string, seq<string>)>
  {
    if countries == [] then []
    else
      var ids := OutOfStockIds(rows, countries[0]);
      (if ids == [] then [] else [(countries[0], ids)]) + SolrDeletions(rows, countries[1..])
  }

  /** Every deletion batch is non-empty and holds exactly the out-of-stock
      ids of its country. */
  lemma {:induction false} SolrDeletionsFacts(rows: seq<StockRow>, countries: seq<string>)
    ensures forall k :: 0 <= k < |SolrDeletions(rows, countries)| ==>
      var (c, ids) := SolrDeletions(rows, countries)[k];
      c in countries && ids != [] && ids == OutOfStockIds(rows, c)
    ensures forall c :: c in countries && OutOfStockIds(rows, c) != [] ==>
      exists k :: 0 <= k < |SolrDeletions(rows, countries)| && SolrDeletions(rows, countries)[k].0 == c
  {
    if countries != [] {
      SolrDeletionsFacts(rows, countries[1..]);
      var head: seq<(string, seq<string>)> :=
        if OutOfStockIds(rows, countries[0]) == [] then [] else [(countries[0], OutOfStockIds(rows, countries[0]))];
      var rest := SolrDeletions(rows, countries[1..]);
      assert SolrDeletions(rows, countries) == head + rest;
      forall c | c in countries && OutOfStockIds(rows, c) != []
        ensures exists k :: 0 <= k < |head + rest| && (head + rest)[k].0 == c
      {
        if c != countries[0] {
          assert c in countries[1..];
          var k :| 0 <= k < |rest| && rest[k].0 == c;
          assert (head + rest)[|head| + k] == rest[k];
        } else {
          assert (head + rest)[0].0 == c;
        }
      }
    }
  }

  /** What `stock_update` writes and sends. */
  datatype StockPlan = StockPlan(rows: seq<StockRow>, fetched: seq<(string, Option<string>)>,
                                 deletions: seq<(string, seq<string>)>, reindex: seq<(string, string)>)

  function Pairs(rows: seq<StockRow>): seq<(string, string)>
  {
    if rows == [] then [] else [(rows[0].sku, rows[0].whCode)] + Pairs(rows[1..])
  }

  /** `stock_update`: `pskus` is the psku lookup, `known` the skus with
      product data (none when the product update is forced), and `fetch`
      the product indexer, returning the skus it built rows for. An empty
      batch does nothing. */
  function StockUpdate(scRows: seq<ScRow>, force: bool, pskus: map<string, Psku>, known: set<string>,
                       fetch: seq<(string, Option<string>)> -> seq<string>): Option<StockPlan>
  {
    if scRows == [] then None
    else
      var rows := Derive(scRows, pskus);
      var withData := if force then {} else known;
      var missing := NoProductData(rows, withData);
      var processed := if missing == [] then [] else fetch(missing);
      var kept := Kept(rows, withData, processed);
      Some(StockPlan(kept, missing, SolrDeletions(kept, DeleteCountries), Pairs(kept)))
  }

  /** A written row has a known psku, non-negative stock and product
      data; ids deleted from Solr are those of written rows with no stock;
      every written row is reindexed. */
  lemma StockUpdateFacts(scRows: seq<ScRow>, force: bool, pskus: map<string, Psku>, known: set<string>,
                         fetch: seq<(string, Option<string>)> -> seq<string>, s: StockRow)
    requires scRows != []
    ensures StockUpdate(scRows, force, pskus, known, fetch).Some?
    ensures var plan := StockUpdate(scRows, force, pskus, known, fetch).value;
      var missing := NoProductData(Derive(scRows, pskus), if force then {} else known);
      var processed := if missing == [] then [] else fetch(missing);
      (s in plan.rows <==>
        (exists i :: 0 <= i < |scRows| && scRows[i].pskuCode in pskus && s == RowOf(scRows[i], pskus[scRows[i].pskuCode])) &&
        (s.sku in processed || (!force && s.sku in known))) &&
      (s in plan.rows ==> s.stockNet >= 0 && (s.sku, s.whCode) in plan.reindex)
  {
    var rows := Derive(scRows, pskus);
    var withData := if force then {} else known;
    var missing := NoProductData(rows, withData);
    var processed := if missing == [] then [] else fetch(missing);
    DeriveFacts(scRows, pskus, s);
    KeptFacts(rows, withData, processed, s);
    var kept := Kept(rows, withData, processed);
    if s in kept {
      var k :| 0 <= k < |rows| && rows[k] == s;
      PairsFacts(kept);
    }
  }

  lemma {:induction false} PairsFacts(rows: seq<StockRow>)
    ensures |Pairs(rows)| == |rows|
    ensures forall k :: 0 <= k < |rows| ==> Pairs(rows)[k] == (rows[k].sku, rows[k].whCode)
    ensures forall s :: s in rows ==> (s.sku, s.whCode) in Pairs(rows)
  {
    if rows != [] {
      PairsFacts(rows[1..]);
      forall s | s in rows ensures (s.sku, s.whCode) in Pairs(rows) {
        var k :| 0 <= k < |rows| && rows[k] == s;
        assert Pairs(rows)[k] == (s.sku, s.whCode);
      }
    }
  }

  // ---------------------------------------------------------------------
  // Boilerplate stock

  /** A row of the boilerplate stock cache, keyed by `(sku, wh_code)`. */
  datatype CacheRow = CacheRow(sku: string, boilerplateSku: string, stockNet: int, countryCode: string, whCode: string)

  function KeyOf(r: CacheRow): (string, string)
  {
    (r.sku, r.whCode)
  }

  predicate Truthy(s: Option<string>)
  {
    s.Some? && s.value != ""
  }

  /** The `(nsku, wh_code)` rows dropped because the zsku is known. */
  function NskuDeletes(products: seq<StockRow>, zskus: set<string>): seq<(string, string)>
  {
    if products == [] then []
    else
      var p := products[|products| - 1];
      NskuDeletes(products[..|products| - 1], zskus) +
        (if p.sku in zskus && Truthy(p.nsku) then [(p.nsku.value, p.whCode)] else [])
  }

  function ZskuRow(p: StockRow): CacheRow
  {
    CacheRow(p.sku, p.sku, p.stockNet, p.countryCode, p.whCode)
  }

  function NskuRow(p: StockRow): CacheRow
    requires p.nsku.Some?
  {
    CacheRow(p.nsku.value, p.sku, p.stockNet, p.countryCode, p.whCode)
  }

  predicate ByZsku(p: StockRow, zskus: set<string>)
  {
    p.sku in zskus
  }

  predicate ByNsku(p: StockRow, zskus: set<string>, nskus: set<string>)
  {
    p.sku !in zskus && Truthy(p.nsku) && p.nsku.value in nskus
  }

  function ZskuRows(products: seq<StockRow>, zskus: set<string>): seq<CacheRow>
  {
    if products == [] then []
    else
      var p := products[|products| - 1];
      ZskuRows(products[..|products| - 1], zskus) + (if ByZsku(p, zskus) then [ZskuRow(p)] else [])
  }

  function NskuRows(products: seq<StockRow>, zskus: set<string>, nskus: set<string>): seq<CacheRow>
  {
    if products == [] then []
    else
      var p := products[|products| - 1];
      NskuRows(products[..|products| - 1], zskus, nskus) + (if ByNsku(p, zskus, nskus) then [NskuRow(p)] else [])
  }

  /** `list_to_upsert`: the zsku rows, then the nsku rows. */
  function CacheRows(products: seq<StockRow>, zskus: set<string>, nskus: set<string>): seq<CacheRow>
  {
    ZskuRows(products, zskus) + NskuRows(products, zskus, nskus)
  }

  lemma {:induction false} ZskuRowsFacts(products: seq<StockRow>, zskus: set<string>, c: CacheRow)
    ensures c in ZskuRows(products, zskus) <==> exists i :: 0 <= i < |products| && ByZsku(products[i], zskus) && c == ZskuRow(products[i])
  {
    if products != [] {
      var init := products[..|products| - 1];
      ZskuRowsFacts(init, zskus, c);
      assert forall i :: 0 <= i < |init| ==> init[i] == products[i];
    }
  }

  lemma {:induction false} NskuRowsFacts(products: seq<StockRow>, zskus: set<string>, nskus: set<string>, c: CacheRow)
    ensures c in NskuRows(products, zskus, nskus) <==>
      exists i :: 0 <= i < |products| && ByNsku(products[i], zskus, nskus) && c == NskuRow(products[i])
  {
    if products != [] {
      var init := products[..|products| - 1];
      NskuRowsFacts(init, zskus, nskus, c);
      assert forall i :: 0 <= i < |init| ==> init[i] == products[i];
    }
  }

  lemma {:induction false} NskuDeletesFacts(products: seq<StockRow>, zskus: set<string>, key: (string, string))
    ensures key in NskuDeletes(products, zskus) <==>
      exists i :: 0 <= i < |products| && products[i].sku in zskus && Truthy(products[i].nsku) &&
        key == (products[i].nsku.value, products[i].whCode)
  {
    if products != [] {
      var init := products[..|products| - 1];
      NskuDeletesFacts(init, zskus, key);
      assert forall i :: 0 <= i < |init| ==> init[i] == products[i];
    }
  }

  /** A product whose zsku is cached gets a row under its zsku, standing
      for itself, and its warehouse's nsku row is deleted; otherwise one
      whose nsku is cached gets a row under its nsku pointing to the zsku;
      otherwise it gets no row. */
  lemma BoilerplatePartition(products: seq<StockRow>, zskus: set<string>, nskus: set<string>, c: CacheRow)
    ensures c in CacheRows(products, zskus, nskus) <==>
      exists i :: 0 <= i < |products| &&
        ((products[i].sku in zskus && c == CacheRow(products[i].sku, products[i].sku, products[i].stockNet, products[i].countryCode, products[i].whCode)) ||
         (products[i].sku !in zskus && Truthy(products[i].nsku) && products[i].nsku.value in nskus &&
          c == CacheRow(products[i].nsku.value, products[i].sku, products[i].stockNet, products[i].countryCode, products[i].whCode)))
    ensures forall i :: 0 <= i < |products| && products[i].sku in zskus && Truthy(products[i].nsku) ==>
      (products[i].nsku.value, products[i].whCode) in NskuDeletes(products, zskus)
  {
    ZskuRowsFacts(products, zskus, c);
    NskuRowsFacts(products, zskus, nskus, c);
    forall i | 0 <= i < |products| && products[i].sku in zskus && Truthy(products[i].nsku)
      ensures (products[i].nsku.value, products[i].whCode) in NskuDeletes(products, zskus)
    {
      NskuDeletesFacts(products, zskus, (products[i].nsku.value, products[i].whCode));
    }
  }

  /** The table after upserting rows in order: a later row with the same
      key replaces an earlier one. */
  function Upserted(m: map<(string, string), CacheRow>, rows: seq<CacheRow>): map<(string, string), CacheRow>
  {
    if rows == [] then m else Upserted(m, rows[..|rows| - 1])[KeyOf(rows[|rows| - 1]) := rows[|rows| - 1]]
  }

  /** The table after the deletes. */
  function Deleted(m: map<(string, string), CacheRow>, keys: seq<(string, string)>): map<(string, string), CacheRow>
  {
    map k | k in m && k !in keys :: m[k]
  }

  /** The last upserted row with a key. */
  predicate LastFor(rows: seq<CacheRow>, i: int, key: (string, string))
  {
    0 <= i < |rows| && KeyOf(rows[i]) == key && forall j :: i < j < |rows| ==> KeyOf(rows[j]) != key
  }

  /** An upserted key holds the last row written under it; every other
      key keeps its entry. */
  lemma UpsertedFacts(m: map<(string, string), CacheRow>, rows: seq<CacheRow>, key: (string, string))
    ensures (exists i :: LastFor(rows, i, key)) ==>
      (key in Upserted(m, rows) && forall i :: LastFor(rows, i, key) ==> Upserted(m, rows)[key] == rows[i])
    ensures (forall i :: 0 <= i < |rows| ==> KeyOf(rows[i]) != key) ==>
      ((key in Upserted(m, rows) <==> key in m) && (key in m ==> Upserted(m, rows)[key] == m[key]))
  {
    forall i | LastFor(rows, i, key) ensures key in Upserted(m, rows) && Upserted(m, rows)[key] == rows[i] {
      UpsertedLast(m, rows, key, i);
    }
    if forall i :: 0 <= i < |rows| ==> KeyOf(rows[i]) != key {
      UpsertedUntouched(m, rows, key);
    }
  }

  lemma {:induction false} UpsertedLast(m: map<(string, string), CacheRow>, rows: seq<CacheRow>, key: (string, string), i: int)
    requires LastFor(rows, i, key)
    ensures key in Upserted(m, rows) && Upserted(m, rows)[key] == rows[i]
  {
    var init := rows[..|rows| - 1];
    if i < |rows| - 1 {
      assert KeyOf(rows[|rows| - 1]) != key;
      assert LastFor(init, i, key) by {
        forall j | i < j < |init| ensures KeyOf(init[j]) != key {
          assert init[j] == rows[j];
        }
      }
      UpsertedLast(m, init, key, i);
    }
  }

  lemma {:induction false} UpsertedUntouched(m: map<(string, string), CacheRow>, rows: seq<CacheRow>, key: (string, string))
    requires forall i :: 0 <= i < |rows| ==> KeyOf(rows[i]) != key
    ensures key in Upserted(m, rows) <==> key in m
    ensures key in m ==> Upserted(m, rows)[key] == m[key]
  {
    if rows != [] {
      var init := rows[..|rows| - 1];
      assert forall i :: 0 <= i < |init| ==> init[i] == rows[i];
      UpsertedUntouched(m, init, key);
    }
  }

  /** The `boilerplate_stock` table. */
  class BoilerplateStock {
    var rows: map<(string, string), CacheRow>

    constructor(init: map<(string, string), CacheRow>)
      ensures rows == init
    {
      rows := init;
    }

    /** `update_boilerplate_stock`: `zskus` and `nskus` are the skus the
        product cache holds. */
    method Update(products: seq<StockRow>, zskus: set<string>, nskus: set<string>)
      modifies this
      ensures rows == Upserted(Deleted(old(rows), NskuDeletes(products, zskus)), CacheRows(products, zskus, nskus))
    {
      var dels := NskuDeletes(products, zskus);
      rows := map k | k in rows && k !in dels :: rows[k];
      var ups := CacheRows(products, zskus, nskus);
      ghost var base := rows;
      for i := 0 to |ups|
        invariant rows == Upserted(base, ups[..i])
      {
        assert ups[..i + 1][..i] == ups[..i];
        rows := rows[KeyOf(ups[i]) := ups[i]];
      }
      assert ups[..|ups|] == ups;
    }
  }

  // ---------------------------------------------------------------------
  // reindex_stock

  /** A reindex request: a psku in a warehouse. */
  datatype Request = Request(pskuCode: string, warehouseCode: string)

  /** The requests for warehouses the boilerplate serves. */
  function Serviceable(reqs: seq<Request>, whCountry: map<string, string>): seq<Request>
  {
    if reqs == [] then []
    else
      var r := reqs[|reqs| - 1];
      Serviceable(reqs[..|reqs| - 1], whCountry) + (if r.warehouseCode in whCountry then [r] else [])
  }

  lemma {:induction false} ServiceableFacts(reqs: seq<Request>, whCountry: map<string, string>, r: Request)
    ensures r in Serviceable(reqs, whCountry) <==> r in reqs && r.warehouseCode in whCountry
  {
    if reqs != [] {
      var init := reqs[..|reqs| - 1];
      ServiceableFacts(init, whCountry, r);
      assert reqs == init + [reqs[|reqs| - 1]];
    }
  }

  /** A stock row as the reindex query returns it. */
  datatype StockRead = StockRead(pskuCode: string, whCode: string, qtyNet: int)

  function WithCountries(rows: seq<StockRead>, whCountry: map<string, string>): Result<seq<ScRow>>
  {
    if rows == [] then Success([])
    else if rows[0].whCode !in whCountry then Failure("KeyError")
    else
      var rest :- WithCountries(rows[1..], whCountry);
      Success([ScRow(rows[0].pskuCode, rows[0].whCode, rows[0].qtyNet, Text.Upper(whCountry[rows[0].whCode]))] + rest)
  }

  /** `reindex_stock` up to its call of `stock_update`: the stock rows it
      hands on, or `None` when it returns early. `query` is the stock
      lookup. */
  function ReindexStock(reqs: seq<Request>, whCountry: map<string, string>, query: seq<Request> -> seq<StockRead>): Result<Option<seq<ScRow>>>
  {
    var served := Serviceable(reqs, whCountry);
    if served == [] then Success(None)
    else
      var found := query(served);
      if found == [] then Success(None)
      else
        var rows :- WithCountries(found, whCountry);
        Success(Some(rows))
  }

  /** Only serviceable warehouses are asked for, and a request with none
      stops there. */
  lemma ReindexStockFacts(reqs: seq<Request>, whCountry: map<string, string>, query: seq<Request> -> seq<StockRead>)
    ensures (forall i :: 0 <= i < |reqs| ==> reqs[i].warehouseCode !in whCountry) ==>
      ReindexStock(reqs, whCountry, query) == Success(None)
    ensures forall r :: r in Serviceable(reqs, whCountry) ==> r.warehouseCode in whCountry && r in reqs
  {
    forall r | r in Serviceable(reqs, whCountry) ensures r.warehouseCode in whCountry && r in reqs {
      ServiceableFacts(reqs, whCountry, r);
    }
    if forall i :: 0 <= i < |reqs| ==> reqs[i].warehouseCode !in whCountry {
      if Serviceable(reqs, whCountry) != [] {
        var r := Serviceable(reqs, whCountry)[0];
        ServiceableFacts(reqs, whCountry, r);
      }
    }
  }

  /** Every row handed on carries its warehouse's country, upper-cased;
      a row from a warehouse outside the map is a `KeyError`. */
  lemma {:induction false} WithCountriesFacts(rows: seq<StockRead>, whCountry: map<string, string>)
    ensures WithCountries(rows, whCountry).Success? <==> forall i :: 0 <= i < |rows| ==> rows[i].whCode in whCountry
    ensures WithCountries(rows, whCountry).Success? ==>
      var out := WithCountries(rows, whCountry).value;
      |out| == |rows| &&
      forall i :: 0 <= i < |rows| ==>
        out[i] == ScRow(rows[i].pskuCode, rows[i].whCode, rows[i].qtyNet, Text.Upper(whCountry[rows[i].whCode]))
  {
    if rows != [] {
      WithCountriesFacts(rows[1..], whCountry);
      if rows[0].whCode in whCountry && WithCountries(rows[1..], whCountry).Success? {
        var rest := WithCountries(rows[1..], whCountry).value;
        var out := WithCountries(rows, whCountry).value;
        forall i | 0 <= i < |rows|
          ensures out[i] == ScRow(rows[i].pskuCode, rows[i].whCode, rows[i].qtyNet, Text.Upper(whCountry[rows[i].whCode]))
        {
          if i > 0 {
            assert out[i] == rest[i - 1] && rows[i] == rows[1..][i - 1];
          }
        }
      } else if rows[0].whCode in whCountry {
        var i :| 0 <= i < |rows[1..]| && rows[1..][i].whCode !in whCountry;
        assert rows[i + 1].whCode !in whCountry;
      }
    }
  }

  /** `full_stock_update_for_warehouse` up to its call of `stock_update`
      (which it forces): nothing for a warehouse outside the map or
      without stock, otherwise every stock row of the warehouse, tagged
      with its upper-cased country. `query` is the stock lookup. */
  function FullStockUpdate(wh: string, whCountry: map<string, string>, query: string -> seq<(string, int)>): Option<seq<ScRow>>
  {
    if wh !in whCountry then None
    else
      var found := query(wh);
      if found == [] then None
      else Some(Tagged(found, wh, Text.Upper(whCountry[wh])))
  }

  function Tagged(found: seq<(string, int)>, wh: string, country: string): (rows: seq<ScRow>)
    ensures |rows| == |found|
    ensures forall i :: 0 <= i < |found| ==> rows[i] == ScRow(found[i].0, wh, found[i].1, country)
  {
    if found == [] then [] else [ScRow(found[0].0, wh, found[0].1, country)] + Tagged(found[1..], wh, country)
  }

  /** An unknown warehouse is skipped; a known one with stock hands on one
      row per stock row, all of that warehouse and its country. */
  lemma FullStockUpdateFacts(wh: string, whCountry: map<string, string>, query: string -> seq<(string, int)>)
    ensures wh !in whCountry ==> FullStockUpdate(wh, whCountry, query) == None
    ensures FullStockUpdate(wh, whCountry, query).Some? <==> wh in whCountry && query(wh) != []
    ensures FullStockUpdate(wh, whCountry, query).Some? ==>
      var rows := FullStockUpdate(wh, whCountry, query).value;
      |rows| == |query(wh)| &&
      forall i :: 0 <= i < |rows| ==> rows[i].whCode == wh && rows[i].countryCode == Text.Upper(whCountry[wh])
  {
  }
}
