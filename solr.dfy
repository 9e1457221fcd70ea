// The search index's documents: how an offer row with its product data
// becomes a Solr document, how the attribute JSON is flattened into
// `attr_` fields, and which documents a reindex sends, per country, in
// chunks of 250.
module SolrIndex {
  import opened Wrappers
  import Text
  import Chunks

  /** A value of the attribute JSON. */
  datatype AttrValue = AStr(s: string) | ANum(n: int) | ABool(b: bool) | ANull

  /** Python truthiness of an attribute value. */
  predicate Truthy(v: AttrValue)
  {
    match v
    case AStr(s) => s != ""
    case ANum(n) => n != 0
    case ABool(b) => b
    case ANull => false
  }

  /** The decoded attribute JSON: the `code`, `ar` and `en` sections, each
      a dictionary of attribute values. */
  type AttrJson = map<string, map<string, AttrValue>>

  /** A row of the product-and-offer query. */
  datatype IndexRow = IndexRow(sku: string, whCode: string, titleEn: Option<string>, titleAr: Option<string>,
                               brandCode: Option<string>, enBrand: Option<string>, arBrand: Option<string>,
                               offerPrice: Option<real>, categoryIds: Option<string>, groupCode: Option<string>,
                               attributes: Option<string>, stockNet: int, countryCode: string)

  /** A field of a Solr document. */
  datatype Field = FText(t: Option<string>) | FPrice(p: real) | FCats(ids: seq<int>) | FAttr(a: AttrValue)

  type Doc = map<string, Field>

  const ValueError := "ValueError"
  const JsonDecodeError := "JSONDecodeError"
  const KeyError := "KeyError"
  const AttrPrefix := "attr_"
  /** `SolrIndexer.DOC_SIZE`. */
  const DocSize := 250

  /** `get_attributes_lang(attributes, lang)` (and `get_attributes_code`):
      the section when present, else nothing. */
  function Section(j: AttrJson, name: string): map<string, AttrValue>
  {
    if name in j then j[name] else map[]
  }

  /** `get_attrs`: the code entries, overridden by the Arabic ones, those
      by the English ones. */
  function Attrs(j: AttrJson): map<string, AttrValue>
  {
    Section(j, "code") + Section(j, "ar") + Section(j, "en")
  }

  /** An English entry wins, then an Arabic one, then a code entry; no
      other key appears. */
  lemma AttrsPrecedence(j: AttrJson, k: string)
    ensures k in Attrs(j) <==> k in Section(j, "code") || k in Section(j, "ar") || k in Section(j, "en")
    ensures k in Section(j, "en") ==> Attrs(j)[k] == Section(j, "en")[k]
    ensures k !in Section(j, "en") && k in Section(j, "ar") ==> Attrs(j)[k] == Section(j, "ar")[k]
    ensures k !in Section(j, "en") && k !in Section(j, "ar") && k in Section(j, "code") ==>
      Attrs(j)[k] == Section(j, "code")[k]
  {
  }

  /** `int(s)` for one piece of `category_ids`, narrowed to non-empty runs
      of decimal digits: a sign, surrounding whitespace or an underscore
      between digits, which `int` accepts (`+12`, ` 12`, `-3`), are
      refused here. The ids the index writes are plain digits. */
  function ParseId(s: string): Result<int>
  {
    if s != "" && Text.AllDigits(s) then Success(Text.DigitsValue(s)) else Failure(ValueError)
  }

  function ParseIds(parts: seq<string>): Result<seq<int>>
  {
    if parts == [] then Success([])
    else
      var first :- ParseId(parts[0]);
      var rest :- ParseIds(parts[1..]);
      Success([first] + rest)
  }

  /** `list(map(int, category_ids.split(",")))`. */
  function ParseCats(s: string): Result<seq<int>>
  {
    ParseIds(Text.Split(s, ','))
  }

  function Rendered(ids: seq<nat>): seq<string>
  {
    if ids == [] then [] else [Text.NatToString(ids[0])] + Rendered(ids[1..])
  }

  /** The `category_ids` field as the product indexer writes it: the ids
      in decimal, joined by commas. */
  function JoinIds(ids: seq<nat>): string
  {
    Text.Join(Rendered(ids), ",")
  }

  lemma {:induction false} ParseRendered(ids: seq<nat>)
    ensures ParseIds(Rendered(ids)) == Success(ids)
    ensures forall k :: 0 <= k < |Rendered(ids)| ==> ',' !in Rendered(ids)[k]
  {
    if ids != [] {
      var s := Text.NatToString(ids[0]);
      Text.NatToStringRoundTrip(ids[0]);
      assert forall i :: 0 <= i < |s| ==> s[i] != ',' by {
        assert Text.AllDigits(s);
      }
      assert ParseId(s) == Success(ids[0]);
      ParseRendered(ids[1..]);
      assert Rendered(ids)[1..] == Rendered(ids[1..]);
      assert Rendered(ids)[0] == s;
      assert [ids[0]] + ids[1..] == ids;
      forall k | 0 <= k < |Rendered(ids)| ensures ',' !in Rendered(ids)[k] {
        if k > 0 {
          assert Rendered(ids)[k] == Rendered(ids[1..])[k - 1];
        }
      }
    }
  }

  /** Reading back a written `category_ids` field gives the ids. */
  lemma CatsRoundTrip(ids: seq<nat>)
    requires ids != []
    ensures ParseCats(JoinIds(ids)) == Success(ids)
  {
    ParseRendered(ids);
    Text.SplitJoin(Rendered(ids), ',');
  }

  /** Keys of the form `attr_<name>`. */
  predicate Prefixed(key: string)
  {
    |key| >= |AttrPrefix| && key[..|AttrPrefix|] == AttrPrefix
  }

  /** The keys `get_solr_doc` sets itself. */
  const FixedKeys: set<string> := {"object_id", "sku", "en_title", "ar_title", "wh_code", "brand_code",
                                   "en_brand", "ar_brand", "group_code", "price", "cat"}

  /** No key the document sets itself looks like an attribute field. */
  lemma FixedUnprefixed(key: string)
    requires key in FixedKeys
    ensures !Prefixed(key)
  {
    if |key| >= |AttrPrefix| {
      assert key[0] != 'a' || key[1] != 't';
      assert key[..|AttrPrefix|][0] == key[0] && key[..|AttrPrefix|][1] == key[1];
    }
  }

  /** `get_solr_doc` without its attribute fields. */
  function BaseDoc(row: IndexRow, cats: Option<seq<int>>): Doc
  {
    var title := if row.titleAr.Some? && row.titleAr.value != "" then row.titleAr else row.titleEn;
    var fixed := map["object_id" := FText(Some(row.sku + ":" + row.whCode)),
                     "sku" := FText(Some(row.sku)),
                     "en_title" := FText(row.titleEn),
                     "ar_title" := FText(title),
                     "wh_code" := FText(Some(row.whCode)),
                     "brand_code" := FText(row.brandCode),
                     "en_brand" := FText(row.enBrand),
                     "ar_brand" := FText(row.arBrand),
                     "group_code" := FText(row.groupCode)];
    var priced := if row.offerPrice.Some? && row.offerPrice.value != 0.0 then fixed["price" := FPrice(row.offerPrice.value)] else fixed;
    if cats.Some? then priced["cat" := FCats(cats.value)] else priced
  }

  /** The attribute names, prefixed. */
  function PrefixedKeys(attrs: map<string, AttrValue>): (keys: set<string>)
    ensures forall key :: key in keys ==> Prefixed(key) && key[|AttrPrefix|..] in attrs
    ensures forall k :: k in attrs ==> AttrPrefix + k in keys
  {
    var keys := set k | k in attrs :: AttrPrefix + k;
    assert forall k :: k in attrs ==> (AttrPrefix + k)[|AttrPrefix|..] == k;
    keys
  }

  /** The `attr_` fields: every attribute with a truthy value. */
  function AttrFields(attrs: map<string, AttrValue>): Doc
  {
    map key | key in PrefixedKeys(attrs) && Truthy(attrs[key[|AttrPrefix|..]]) :: FAttr(attrs[key[|AttrPrefix|..]])
  }

  /** The category ids of a row, when it has any. */
  function CatsOf(row: IndexRow): Result<Option<seq<int>>>
  {
    if row.categoryIds.Some? && row.categoryIds.value != "" then
      var ids :- ParseCats(row.categoryIds.value);
      Success(Some(ids))
    else Success(None)
  }

  /** Whether a row carries attribute JSON. */
  predicate HasAttrs(row: IndexRow)
  {
    row.attributes.Some? && row.attributes.value != ""
  }

  /** `get_solr_doc`. `decode` is `json.loads` on the attribute JSON. */
  function SolrDoc(row: IndexRow, decode: string -> Option<AttrJson>): Result<Doc>
  {
    var cats :- CatsOf(row);
    if !HasAttrs(row) then Success(BaseDoc(row, cats))
    else if decode(row.attributes.value).None? then Failure(JsonDecodeError)
    else Success(BaseDoc(row, cats) + AttrFields(Attrs(decode(row.attributes.value).value)))
  }

  /** A document's fields: the ones it sets itself, untouched by the
      attribute fields, plus the attribute fields. */
  lemma DocSplit(row: IndexRow, decode: string -> Option<AttrJson>, key: string)
    requires SolrDoc(row, decode).Success?
    ensures CatsOf(row).Success?
    ensures key in FixedKeys && key in BaseDoc(row, CatsOf(row).value) ==>
      key in SolrDoc(row, decode).value && SolrDoc(row, decode).value[key] == BaseDoc(row, CatsOf(row).value)[key]
    ensures key in FixedKeys && key !in BaseDoc(row, CatsOf(row).value) ==> key !in SolrDoc(row, decode).value
  {
    if key in FixedKeys && HasAttrs(row) {
      FixedUnprefixed(key);
      assert key !in AttrFields(Attrs(decode(row.attributes.value).value));
    }
  }

  /** The document's identity and titles: the object id is `sku:wh_code`,
      and the Arabic title falls back to the English one when empty. */
  lemma DocIdentity(row: IndexRow, decode: string -> Option<AttrJson>)
    requires SolrDoc(row, decode).Success?
    ensures var doc := SolrDoc(row, decode).value;
      "object_id" in doc && doc["object_id"] == FText(Some(row.sku + ":" + row.whCode)) &&
      "ar_title" in doc &&
      (row.titleAr.Some? && row.titleAr.value != "" ==> doc["ar_title"] == FText(row.titleAr)) &&
      (row.titleAr.None? || row.titleAr.value == "" ==> doc["ar_title"] == FText(row.titleEn))
  {
    DocSplit(row, decode, "object_id");
    DocSplit(row, decode, "ar_title");
  }

  /** A price field exactly for a non-zero offer price, a category field
      exactly for a non-empty `category_ids`, holding its numbers. */
  lemma DocPriceAndCats(row: IndexRow, decode: string -> Option<AttrJson>)
    requires SolrDoc(row, decode).Success?
    ensures var doc := SolrDoc(row, decode).value;
      ("price" in doc <==> row.offerPrice.Some? && row.offerPrice.value != 0.0) &&
      ("price" in doc ==> doc["price"] == FPrice(row.offerPrice.value)) &&
      ("cat" in doc <==> row.categoryIds.Some? && row.categoryIds.value != "") &&
      ("cat" in doc ==> doc["cat"] == FCats(ParseCats(row.categoryIds.value).value))
  {
    DocSplit(row, decode, "price");
    DocSplit(row, decode, "cat");
  }

  /** An attribute reaches the document, prefixed, exactly when it is
      truthy. */
  lemma DocAttrs(row: IndexRow, decode: string -> Option<AttrJson>, k: string)
    requires SolrDoc(row, decode).Success?
    requires HasAttrs(row)
    ensures decode(row.attributes.value).Some?
    ensures var doc := SolrDoc(row, decode).value;
      var attrs := Attrs(decode(row.attributes.value).value);
      (AttrPrefix + k in doc <==> k in attrs && Truthy(attrs[k])) &&
      (AttrPrefix + k in doc ==> doc[AttrPrefix + k] == FAttr(attrs[k]))
  {
    var key := AttrPrefix + k;
    assert key[|AttrPrefix|..] == k;
    assert Prefixed(key);
    var base := BaseDoc(row, CatsOf(row).value);
    assert key !in base by {
      if key in base {
        assert key in FixedKeys;
        FixedUnprefixed(key);
      }
    }
  }

  // ---------------------------------------------------------------------
  // Reindexing

  /** The in-stock rows of one country, in query order. */
  function Select(rows: seq<IndexRow>, country: string): seq<IndexRow>
  {
    if rows == [] then []
    else
      var init := Select(rows[..|rows| - 1], country);
      var r := rows[|rows| - 1];
      if r.stockNet > 0 && Text.Lower(r.countryCode) == country then init + [r] else init
  }

  /** The documents of some rows, or the first row's failure. */
  function DocsOf(rows: seq<IndexRow>, decode: string -> Option<AttrJson>): Result<seq<Doc>>
  {
    if rows == [] then Success([])
    else
      var init :- DocsOf(rows[..|rows| - 1], decode);
      var d :- SolrDoc(rows[|rows| - 1], decode);
      Success(init + [d])
  }

  /** The countries of the in-stock rows. */
  function Countries(rows: seq<IndexRow>): set<string>
  {
    set k | 0 <= k < |rows| && rows[k].stockNet > 0 :: Text.Lower(rows[k].countryCode)
  }

  /** `solr_docs` after the grouping loop of `reindex_in_solr`: in-stock
      documents by lower-cased country, each list in query order. */
  function Grouped(rows: seq<IndexRow>, decode: string -> Option<AttrJson>): Result<map<string, seq<Doc>>>
  {
    if rows == [] then Success(map[])
    else
      var m :- Grouped(rows[..|rows| - 1], decode);
      var r := rows[|rows| - 1];
      if r.stockNet <= 0 then Success(m)
      else
        var d :- SolrDoc(r, decode);
        var c := Text.Lower(r.countryCode);
        Success(m[c := (if c in m then m[c] else []) + [d]])
  }

  lemma CountriesStep(rows: seq<IndexRow>)
    requires rows != []
    ensures var r := rows[|rows| - 1];
      Countries(rows) == Countries(rows[..|rows| - 1]) + (if r.stockNet > 0 then {Text.Lower(r.countryCode)} else {})
  {
    var init := rows[..|rows| - 1];
    assert forall k :: 0 <= k < |init| ==> init[k] == rows[k];
  }

  lemma DocsOfStep(sel: seq<IndexRow>, r: IndexRow, decode: string -> Option<AttrJson>, init: seq<Doc>, d: Doc)
    requires DocsOf(sel, decode) == Success(init) && SolrDoc(r, decode) == Success(d)
    ensures DocsOf(sel + [r], decode) == Success(init + [d])
  {
    assert (sel + [r])[..|sel|] == sel;
  }

  /** Grouping keeps exactly the countries with stock, and gives each the
      documents of its in-stock rows, in order. */
  lemma {:induction false} GroupedFacts(rows: seq<IndexRow>, decode: string -> Option<AttrJson>)
    requires Grouped(rows, decode).Success?
    ensures var m := Grouped(rows, decode).value;
      m.Keys == Countries(rows) &&
      forall c :: c in m ==> DocsOf(Select(rows, c), decode) == Success(m[c])
  {
    if rows != [] {
      var init := rows[..|rows| - 1];
      var r := rows[|rows| - 1];
      GroupedFacts(init, decode);
      CountriesStep(rows);
      var m0 := Grouped(init, decode).value;
      var m := Grouped(rows, decode).value;
      forall c | c in m ensures DocsOf(Select(rows, c), decode) == Success(m[c]) {
        if r.stockNet > 0 && Text.Lower(r.countryCode) == c {
          if c !in m0 {
            SelectEmpty(init, c);
            DocsOfStep([], r, decode, [], SolrDoc(r, decode).value);
          } else {
            DocsOfStep(Select(init, c), r, decode, m0[c], SolrDoc(r, decode).value);
          }
        }
      }
    }
  }

  lemma {:induction false} SelectEmpty(rows: seq<IndexRow>, c: string)
    requires c !in Countries(rows)
    ensures Select(rows, c) == []
  {
    if rows != [] {
      var init := rows[..|rows| - 1];
      assert c !in Countries(init) by {
        assert forall k :: 0 <= k < |init| ==> init[k] == rows[k];
      }
      SelectEmpty(init, c);
      assert !(rows[|rows| - 1].stockNet > 0 && Text.Lower(rows[|rows| - 1].countryCode) == c) by {
        var k := |rows| - 1;
        if rows[k].stockNet > 0 {
          assert Text.Lower(rows[k].countryCode) in Countries(rows);
        }
      }
    }
  }

  /** The grouping loop of `reindex_in_solr`. */
  method GroupDocs(rows: seq<IndexRow>, decode: string -> Option<AttrJson>) returns (r: Result<map<string, seq<Doc>>>)
    ensures r == Grouped(rows, decode)
  {
    var docs: map<string, seq<Doc>> := map[];
    for i := 0 to |rows|
      invariant Grouped(rows[..i], decode) == Success(docs)
    {
      assert rows[..i + 1][..i] == rows[..i];
      var row := rows[i];
      if row.stockNet > 0 {
        var d := SolrDoc(row, decode);
        if d.Failure? {
          GroupedFailsFrom(rows, i + 1, decode);
          return Failure(d.error);
        }
        var c := Text.Lower(row.countryCode);
        var sofar := if c in docs then docs[c] else [];
        docs := docs[c := sofar + [d.value]];
      }
    }
    assert rows[..|rows|] == rows;
    return Success(docs);
  }

  lemma {:induction false} GroupedFailsFrom(rows: seq<IndexRow>, n: nat, decode: string -> Option<AttrJson>)
    requires n <= |rows| && Grouped(rows[..n], decode).Failure?
    ensures Grouped(rows, decode) == Grouped(rows[..n], decode)
    decreases |rows| - n
  {
    if n < |rows| {
      assert rows[..n + 1][..n] == rows[..n];
      GroupedFailsFrom(rows, n + 1, decode);
    } else {
      assert rows[..n] == rows;
    }
  }

  /** The indexes there are: one, for the UAE. */
  const Indexers: set<string> := {"ae"}

  /** What `reindex_in_solr` sends: for each country, its documents in
      chunks of `DocSize`; a country without an index is a `KeyError`. */
  function Batches(rows: seq<IndexRow>, decode: string -> Option<AttrJson>): Result<map<string, seq<seq<Doc>>>>
  {
    var m :- Grouped(rows, decode);
    if m.Keys <= Indexers then Success(map c | c in m :: Chunks.Chunked(m[c], DocSize))
    else Failure(KeyError)
  }

  /** Every in-stock document is sent, with its country, in chunks of at
      most 250; out-of-stock rows send nothing. */
  lemma BatchesFacts(rows: seq<IndexRow>, decode: string -> Option<AttrJson>)
    requires Batches(rows, decode).Success?
    ensures var b := Batches(rows, decode).value;
      b.Keys == Countries(rows) &&
      forall c :: c in b ==>
        DocsOf(Select(rows, c), decode) == Success(Chunks.Flatten(b[c])) &&
        forall k :: 0 <= k < |b[c]| ==> 0 < |b[c][k]| <= DocSize
  {
    var m := Grouped(rows, decode).value;
    GroupedFacts(rows, decode);
    forall c | c in m ensures Chunks.Flatten(Chunks.Chunked(m[c], DocSize)) == m[c] {
      Chunks.ChunkedFacts(m[c], DocSize);
    }
    forall c | c in m ensures forall k :: 0 <= k < |Chunks.Chunked(m[c], DocSize)| ==> 0 < |Chunks.Chunked(m[c], DocSize)[k]| <= DocSize {
      Chunks.ChunkedFacts(m[c], DocSize);
    }
  }
}
