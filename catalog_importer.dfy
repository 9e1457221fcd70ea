// The catalog's spreadsheet importers: the registry that dispatches an
// upload to an importer by key, the product-meta importer's row checks and
// filter, and the replacement of products' category links.
module CatalogImporter {
  import opened Wrappers
  import Category
  import Text

  // ---------------------------------------------------------------------
  // Registry

  const Prefix := "import_"

  /** `fn.__name__.replace('import_', '')`. */
  function Key(name: string): string
  {
    Text.ReplaceAll(name, Prefix, "")
  }

  /** An importer named `import_` followed by a name without `import_` is
      registered under that name. */
  lemma KeyOfImporter(rest: string)
    requires !Text.Occurs(rest, Prefix)
    ensures Key(Prefix + rest) == rest
  {
    var s := Prefix + rest;
    assert s[..|Prefix|] == Prefix;
    assert s[|Prefix|..] == rest;
    Text.ReplaceAbsent(rest, Prefix, "");
  }

  /** Every occurrence is removed, not only a leading one. */
  lemma RepeatedPrefixRemoved(rest: string)
    requires 'i' !in rest
    ensures Key(Prefix + Prefix + rest) == rest
  {
    var s := Prefix + Prefix + rest;
    assert s[..|Prefix|] == Prefix;
    assert s[|Prefix|..] == Prefix + rest;
    NoPrefixIn(rest);
  }

  /** The importers the catalog defines. */
  datatype Importer = ProductMeta | ProductGroupCode | UpdateZskuCategory | CategoryTaxonomy

  function UnknownImporter(key: string): string
  {
    "unknown importer " + key
  }

  /** The `IMPORTERS` dictionary. */
  class Registry {
    var importers: map<string, Importer>

    constructor()
      ensures importers == map[]
    {
      importers := map[];
    }

    /** `register(fn)`. */
    method Register(name: string, imp: Importer)
      modifies this
      ensures importers == old(importers)[Key(name) := imp]
    {
      importers := importers[Key(name) := imp];
    }

    /** The lookup of `import_rows`: an unknown key raises `ValueError`. */
    function Lookup(key: string): (r: Result<Importer>)
      reads this
      ensures r.Success? <==> key in importers
      ensures r.Success? ==> r.value == importers[key]
      ensures r.Failure? ==> r.error == UnknownImporter(key)
    {
      if key in importers then Success(importers[key]) else Failure(UnknownImporter(key))
    }
  }

  /** The four decorated importers, registered in the module's order. */
  method Standard() returns (reg: Registry)
    ensures fresh(reg)
    ensures reg.Lookup("product_meta") == Success(ProductMeta)
    ensures reg.Lookup("product_group_code") == Success(ProductGroupCode)
    ensures reg.Lookup("update_zsku_category") == Success(UpdateZskuCategory)
    ensures reg.Lookup("category_taxonomy") == Success(CategoryTaxonomy)
    ensures reg.importers.Keys == {"product_meta", "product_group_code", "update_zsku_category", "category_taxonomy"}
  {
    NoPrefixIn("product_meta");
    NoPrefixIn("product_group_code");
    NoPrefixIn("update_zsku_category");
    NoPrefixIn("category_taxonomy");
    reg := new Registry();
    reg.Register(Prefix + "product_meta", ProductMeta);
    reg.Register(Prefix + "product_group_code", ProductGroupCode);
    reg.Register(Prefix + "update_zsku_category", UpdateZskuCategory);
    reg.Register(Prefix + "category_taxonomy", CategoryTaxonomy);
  }

  /** A name without the letter `i` cannot hold `import_`. */
  lemma NoPrefixIn(rest: string)
    requires 'i' !in rest
    ensures Key(Prefix + rest) == rest
  {
    forall i | 0 <= i <= |rest| ensures !Text.StartsWith(rest[i..], Prefix) {
      if i < |rest| {
        assert rest[i..][0] == rest[i];
      }
    }
    KeyOfImporter(rest);
  }

  // ---------------------------------------------------------------------
  // Product meta

  /** An uploaded product-meta row; a missing or empty value is falsy. */
  datatype MetaIn = MetaIn(sku: string, volume: Option<string>, weight: Option<string>)

  /** The row as written to the table. */
  datatype MetaRow = MetaRow(sku: string, volume: Option<real>, weight: Option<real>, updatedBy: string)

  const VolumeError := "volume must be between 1 and 25000"
  const WeightError := "weight must be below 7 kgs"
  const ValueError := "ValueError"
  const MaxVolume: real := 25000.0
  const MaxWeight: real := 7.0

  predicate Truthy(v: Option<string>)
  {
    v.Some? && v.value != ""
  }

  /** One measure: falsy gives `None`; otherwise `float(v)` (which may
      raise `ValueError`) must lie in `[0, max]`. */
  function Measure(v: Option<string>, max: real, err: string, parse: string -> Option<real>): Result<Option<real>>
  {
    if !Truthy(v) then Success(None)
    else
      match parse(v.value)
      case None => Failure(ValueError)
      case Some(x) => if 0.0 <= x <= max then Success(Some(x)) else Failure(err)
  }

  /** The loop body for one row: volume is checked before weight. */
  function PrepareRow(r: MetaIn, email: string, parse: string -> Option<real>): Result<MetaRow>
  {
    var volume :- Measure(r.volume, MaxVolume, VolumeError, parse);
    var weight :- Measure(r.weight, MaxWeight, WeightError, parse);
    Success(MetaRow(r.sku, volume, weight, email))
  }

  /** The whole loop: the first failing row, in order, aborts it. */
  function PrepareAll(rows: seq<MetaIn>, email: string, parse: string -> Option<real>): Result<seq<MetaRow>>
  {
    if rows == [] then Success([])
    else
      var init :- PrepareAll(rows[..|rows| - 1], email, parse);
      var last :- PrepareRow(rows[|rows| - 1], email, parse);
      Success(init + [last])
  }

  /** The `for r in rows` loop of `import_product_meta`. */
  method PrepareMeta(rows: seq<MetaIn>, email: string, parse: string -> Option<real>) returns (r: Result<seq<MetaRow>>)
    ensures r == PrepareAll(rows, email, parse)
  {
    var out: seq<MetaRow> := [];
    for i := 0 to |rows|
      invariant PrepareAll(rows[..i], email, parse) == Success(out)
    {
      assert rows[..i + 1][..i] == rows[..i];
      var row := PrepareRow(rows[i], email, parse);
      if row.Failure? {
        PrepareFailsFrom(rows, i + 1, email, parse);
        return Failure(row.error);
      }
      out := out + [row.value];
    }
    assert rows[..|rows|] == rows;
    return Success(out);
  }

  /** Once a prefix fails, the whole loop fails the same way. */
  lemma {:induction false} PrepareFailsFrom(rows: seq<MetaIn>, n: nat, email: string, parse: string -> Option<real>)
    requires n <= |rows| && PrepareAll(rows[..n], email, parse).Failure?
    ensures PrepareAll(rows, email, parse) == PrepareAll(rows[..n], email, parse)
    decreases |rows| - n
  {
    if n < |rows| {
      assert rows[..n + 1][..n] == rows[..n];
      PrepareFailsFrom(rows, n + 1, email, parse);
    } else {
      assert rows[..n] == rows;
    }
  }

  /** The loop succeeds exactly when every row passes; it then keeps the
      rows' order and skus, stamps each with the uploader, and every
      measure is absent or within its bounds, absent exactly when the
      uploaded value was falsy. */
  lemma {:induction false} PrepareAllFacts(rows: seq<MetaIn>, email: string, parse: string -> Option<real>)
    ensures PrepareAll(rows, email, parse).Success? <==>
      forall i :: 0 <= i < |rows| ==> PrepareRow(rows[i], email, parse).Success?
    ensures PrepareAll(rows, email, parse).Success? ==>
      var out := PrepareAll(rows, email, parse).value;
      |out| == |rows| &&
      forall i :: 0 <= i < |rows| ==>
        out[i].sku == rows[i].sku && out[i].updatedBy == email &&
        (out[i].volume.None? <==> !Truthy(rows[i].volume)) &&
        (out[i].volume.Some? ==> 0.0 <= out[i].volume.value <= MaxVolume) &&
        (out[i].weight.None? <==> !Truthy(rows[i].weight)) &&
        (out[i].weight.Some? ==> 0.0 <= out[i].weight.value <= MaxWeight)
  {
    if rows != [] {
      var init := rows[..|rows| - 1];
      PrepareAllFacts(init, email, parse);
      if PrepareAll(rows, email, parse).Success? {
        var out := PrepareAll(rows, email, parse).value;
        assert out[..|out| - 1] == PrepareAll(init, email, parse).value;
        forall i | 0 <= i < |rows| - 1 ensures out[i] == PrepareAll(init, email, parse).value[i] && rows[i] == init[i] {
        }
      } else {
        forall i | 0 <= i < |rows| - 1 ensures rows[i] == init[i] {
        }
      }
    }
  }

  /** A volume above the bound rejects the upload. */
  lemma VolumeTooLargeRejected(rows: seq<MetaIn>, email: string, parse: string -> Option<real>, i: nat)
    requires i < |rows| && Truthy(rows[i].volume)
    requires parse(rows[i].volume.value).Some? && parse(rows[i].volume.value).value > MaxVolume
    ensures PrepareAll(rows, email, parse).Failure?
  {
    PrepareAllFacts(rows, email, parse);
  }

  /** `[r for r in rows if r['sku'] in processed or r['sku'] in existing]`. */
  function KeepKnown(rows: seq<MetaRow>, existing: set<string>, processed: seq<string>): seq<MetaRow>
  {
    if rows == [] then []
    else
      var last := rows[|rows| - 1];
      KeepKnown(rows[..|rows| - 1], existing, processed) +
        (if last.sku in processed || last.sku in existing then [last] else [])
  }

  /** The filter keeps exactly the rows whose sku exists or was just
      fetched. */
  lemma {:induction false} KeepKnownFacts(rows: seq<MetaRow>, existing: set<string>, processed: seq<string>)
    ensures |KeepKnown(rows, existing, processed)| <= |rows|
    ensures forall r :: r in KeepKnown(rows, existing, processed) <==>
      r in rows && (r.sku in existing || r.sku in processed)
  {
    if rows != [] {
      KeepKnownFacts(rows[..|rows| - 1], existing, processed);
      assert rows == rows[..|rows| - 1] + [rows[|rows| - 1]];
    }
  }

  /** The skus of the uploaded rows not found among existing products. */
  function Missing(skus: seq<string>, existing: set<string>): (r: seq<string>)
    ensures forall z :: z in r <==> z in skus && z !in existing
  {
    if skus == [] then []
    else Missing(skus[..|skus| - 1], existing) + (if skus[|skus| - 1] in existing then [] else [skus[|skus| - 1]])
  }

  lemma {:induction false} MissingNone(skus: seq<string>, existing: set<string>)
    requires forall i :: 0 <= i < |skus| ==> skus[i] in existing
    ensures Missing(skus, existing) == []
  {
    if skus != [] {
      MissingNone(skus[..|skus| - 1], existing);
    }
  }

  function Skus(rows: seq<MetaIn>): (r: seq<string>)
    ensures |r| == |rows| && forall i :: 0 <= i < |rows| ==> r[i] == rows[i].sku
  {
    seq(|rows|, i requires 0 <= i < |rows| => rows[i].sku)
  }

  /** `import_product_meta` up to the writes. `existing` is what
      `get_product_details_for` returns, `lookup` the psku query and
      `fetch` `fetch_and_update_product_details`; each is consulted only
      when the one before found something. */
  function ImportProductMeta(rows: seq<MetaIn>, email: string, parse: string -> Option<real>,
                             existing: set<string>, lookup: seq<string> -> seq<(string, string)>,
                             fetch: seq<(string, string)> -> seq<string>): Result<seq<MetaRow>>
  {
    var prepared :- PrepareAll(rows, email, parse);
    Success(KeepKnown(prepared, existing, Processed(rows, existing, lookup, fetch)))
  }

  /** The skus fetched for the missing ones, or none. */
  function Processed(rows: seq<MetaIn>, existing: set<string>, lookup: seq<string> -> seq<(string, string)>,
                     fetch: seq<(string, string)> -> seq<string>): seq<string>
  {
    var missing := Missing(Skus(rows), existing);
    var pairs := if missing == [] then [] else lookup(missing);
    if pairs == [] then [] else fetch(pairs)
  }

  /** When every sku already exists, nothing is looked up or fetched and
      every checked row is written. */
  lemma AllExistingKeepsAll(rows: seq<MetaIn>, email: string, parse: string -> Option<real>,
                            existing: set<string>, lookup: seq<string> -> seq<(string, string)>,
                            fetch: seq<(string, string)> -> seq<string>)
    requires forall i :: 0 <= i < |rows| ==> rows[i].sku in existing
    ensures ImportProductMeta(rows, email, parse, existing, lookup, fetch).Success? ==>
      forall r :: r in ImportProductMeta(rows, email, parse, existing, lookup, fetch).value <==>
        r in PrepareAll(rows, email, parse).value
  {
    MissingNone(Skus(rows), existing);
    assert Processed(rows, existing, lookup, fetch) == [];
    PrepareAllFacts(rows, email, parse);
    if PrepareAll(rows, email, parse).Success? {
      var out := PrepareAll(rows, email, parse).value;
      KeepKnownFacts(out, existing, []);
      forall r | r in out ensures r.sku in existing {
        var i :| 0 <= i < |out| && out[i] == r;
      }
    }
  }

  /** Every written row passed the bounds and names a known product. */
  lemma WrittenRowsKnown(rows: seq<MetaIn>, email: string, parse: string -> Option<real>,
                         existing: set<string>, lookup: seq<string> -> seq<(string, string)>,
                         fetch: seq<(string, string)> -> seq<string>)
    ensures var r := ImportProductMeta(rows, email, parse, existing, lookup, fetch);
      r.Success? ==> forall m :: m in r.value ==>
        m.updatedBy == email &&
        (m.volume.Some? ==> 0.0 <= m.volume.value <= MaxVolume) &&
        (m.weight.Some? ==> 0.0 <= m.weight.value <= MaxWeight) &&
        (m.sku in existing || m.sku in Processed(rows, existing, lookup, fetch))
  {
    PrepareAllFacts(rows, email, parse);
    if PrepareAll(rows, email, parse).Success? {
      var out := PrepareAll(rows, email, parse).value;
      var processed := Processed(rows, existing, lookup, fetch);
      KeepKnownFacts(out, existing, processed);
      forall m | m in KeepKnown(out, existing, processed)
        ensures m.updatedBy == email
        ensures m.volume.Some? ==> 0.0 <= m.volume.value <= MaxVolume
        ensures m.weight.Some? ==> 0.0 <= m.weight.value <= MaxWeight
        ensures m.sku in existing || m.sku in processed
      {
        var i :| 0 <= i < |out| && out[i] == m;
      }
    }
  }

  // ---------------------------------------------------------------------
  // Products' category links

  /** An uploaded (zsku, category code) row. */
  datatype ZskuRow = ZskuRow(zsku: string, categoryCode: string)

  /** `rows_valid`: rows whose code maps to a (truthy) category id, in
      order, as (sku, id) links. */
  function ValidLinks(codeMap: map<string, int>, rows: seq<ZskuRow>): seq<(string, int)>
  {
    if rows == [] then []
    else
      var last := rows[|rows| - 1];
      ValidLinks(codeMap, rows[..|rows| - 1]) +
        (if last.categoryCode in codeMap && codeMap[last.categoryCode] != 0
         then [(last.zsku, codeMap[last.categoryCode])] else [])
  }

  /** Some row names `sku` with a code mapping to `id`. */
  predicate Named(codeMap: map<string, int>, rows: seq<ZskuRow>, sku: string, id: int)
  {
    exists j :: 0 <= j < |rows| && rows[j].zsku == sku &&
      rows[j].categoryCode in codeMap && codeMap[rows[j].categoryCode] == id
  }

  /** A link is kept exactly when some row names that sku with a code
      whose id is non-zero; rows with unknown codes are dropped. */
  lemma {:induction false} ValidLinksFacts(codeMap: map<string, int>, rows: seq<ZskuRow>)
    ensures forall sku, id :: (sku, id) in ValidLinks(codeMap, rows) <==> id != 0 && Named(codeMap, rows, sku, id)
  {
    if rows != [] {
      var init := rows[..|rows| - 1];
      ValidLinksFacts(codeMap, init);
      forall sku, id | id != 0 && Named(codeMap, rows, sku, id)
        ensures (sku, id) in ValidLinks(codeMap, rows)
      {
        var j :| 0 <= j < |rows| && rows[j].zsku == sku &&
          rows[j].categoryCode in codeMap && codeMap[rows[j].categoryCode] == id;
        if j < |rows| - 1 {
          assert init[j] == rows[j];
          assert Named(codeMap, init, sku, id);
        }
      }
      forall sku, id | (sku, id) in ValidLinks(codeMap, init)
        ensures Named(codeMap, rows, sku, id)
      {
        var j :| 0 <= j < |init| && init[j].zsku == sku &&
          init[j].categoryCode in codeMap && codeMap[init[j].categoryCode] == id;
        assert rows[j] == init[j];
      }
    }
  }

  /** The distinct skus of the links. */
  function SkusOf(links: seq<(string, int)>): set<string>
  {
    set l | l in links :: l.0
  }

  /** The table after the import: links of the touched skus are replaced
      by the uploaded ones; every other link stays. */
  function Replaced(table: set<(string, int)>, links: seq<(string, int)>): set<(string, int)>
  {
    (set l | l in table && l.0 !in SkusOf(links)) + (set l | l in links)
  }

  /** A touched sku ends with exactly its uploaded categories; any other
      sku keeps the ones it had. */
  lemma ReplacedFacts(table: set<(string, int)>, links: seq<(string, int)>, sku: string, id: int)
    ensures sku in SkusOf(links) ==> ((sku, id) in Replaced(table, links) <==> (sku, id) in links)
    ensures sku !in SkusOf(links) ==> ((sku, id) in Replaced(table, links) <==> (sku, id) in table)
  {
    if (sku, id) in links {
      assert sku in SkusOf(links);
    }
  }

  /** Uploading the same rows twice leaves the table as after once. */
  lemma ReplacedIdempotent(table: set<(string, int)>, links: seq<(string, int)>)
    ensures Replaced(Replaced(table, links), links) == Replaced(table, links)
  {
    var once := Replaced(table, links);
    forall l | l in Replaced(once, links) ensures l in once {
      ReplacedFacts(once, links, l.0, l.1);
    }
    forall l | l in once ensures l in Replaced(once, links) {
      ReplacedFacts(once, links, l.0, l.1);
      ReplacedFacts(table, links, l.0, l.1);
    }
  }

  /** `product_category`: (sku, id_category) pairs, unique together. */
  class ProductCategories {
    var links: set<(string, int)>

    constructor(init: set<(string, int)>)
      ensures links == init
    {
      links := init;
    }

    /** `DELETE ... WHERE sku = :zsku`. */
    method DeleteSku(sku: string)
      modifies this
      ensures links == set l | l in old(links) && l.0 != sku
    {
      links := set l | l in links && l.0 != sku;
    }

    /** `INSERT ... ON DUPLICATE KEY UPDATE`: a pair already present is
        left as it is. */
    method Insert(sku: string, id: int)
      modifies this
      ensures links == old(links) + {(sku, id)}
    {
      links := links + {(sku, id)};
    }

    /** `import_update_zsku_category` on the table: the distinct skus of
        the valid rows lose their links, then every valid row is inserted.
        Returns the skus published for reindexing. */
    method UpdateZskuCategory(cats: seq<Category.CategoryRow>, rows: seq<ZskuRow>) returns (skus: set<string>)
      modifies this
      ensures skus == SkusOf(ValidLinks(Category.CodeToId(cats), rows))
      ensures links == Replaced(old(links), ValidLinks(Category.CodeToId(cats), rows))
    {
      var valid := ValidLinks(Category.CodeToId(cats), rows);
      skus := {};
      for i := 0 to |valid|
        invariant skus == set l | l in valid[..i] :: l.0
      {
        assert valid[..i + 1] == valid[..i] + [valid[i]];
        skus := skus + {valid[i].0};
      }
      assert valid[..|valid|] == valid;
      var pending := skus;
      while pending != {}
        invariant pending <= skus
        invariant links == set l | l in old(links) && l.0 !in skus - pending
        decreases pending
      {
        var sku :| sku in pending;
        DeleteSku(sku);
        pending := pending - {sku};
      }
      for i := 0 to |valid|
        invariant links == (set l | l in old(links) && l.0 !in skus) + (set l | l in valid[..i])
      {
        assert valid[..i + 1] == valid[..i] + [valid[i]];
        Insert(valid[i].0, valid[i].1);
      }
      assert valid[..|valid|] == valid;
    }
  }
}
