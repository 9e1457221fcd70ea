// The product indexer: product, English and Arabic rows built from the
// catalog services' answers, first from the zsku catalog and then, for skus
// it did not cover, from the nsku catalog; the detail fetches in chunks of
// 100; the image keys of an nsku product; and the `-1` suffix every zsku
// gets before a product update.
module ProductIndex {
  import opened Wrappers
  import Text
  import Chunks
  import StableSort

  const IndexError := "IndexError"
  const KeyError := "KeyError"
  const TypeError := "TypeError"
  /** An nsku answer with no requested zsku would give a row without a key,
      which the upsert refuses. */
  const NoSku := "row without sku"
  /** `iterutils.chunked(sku_list, 100)`. */
  const FetchChunk := 100

  // ---------------------------------------------------------------------
  // The `-1` suffix

  /** `sku if sku[-2:] == "-1" else sku + "-1"`. */
  function WithSuffix(sku: string): string
  {
    if |sku| >= 2 && sku[|sku| - 2..] == "-1" then sku else sku + "-1"
  }

  /** Every sku ends in `-1` afterwards, one that did is unchanged, and
      adding the suffix twice adds it once. */
  lemma WithSuffixFacts(sku: string)
    ensures var s := WithSuffix(sku); |s| >= 2 && s[|s| - 2..] == "-1"
    ensures |sku| >= 2 && sku[|sku| - 2..] == "-1" ==> WithSuffix(sku) == sku
    ensures WithSuffix(WithSuffix(sku)) == WithSuffix(sku)
  {
    var s := sku + "-1";
    assert s[|s| - 2..] == "-1";
  }

  /** The loop of `update_zsku_product_details` over `sku_list`, which it
      changes in place. */
  method AddSuffixes(skus: array<string>)
    modifies skus
    ensures forall i :: 0 <= i < skus.Length ==> skus[i] == WithSuffix(old(skus[i]))
  {
    for i := 0 to skus.Length
      invariant forall k :: 0 <= k < i ==> skus[k] == WithSuffix(old(skus[k]))
      invariant forall k :: i <= k < skus.Length ==> skus[k] == old(skus[k])
    {
      var s := skus[i];
      if !(|s| >= 2 && s[|s| - 2..] == "-1") {
        skus[i] := s + "-1";
      }
    }
  }

  // ---------------------------------------------------------------------
  // Insertion-ordered dictionaries

  /** A Python dict: keys in insertion order, each with its value. */
  type Dict<D> = seq<(string, D)>

  function KeysOf<D>(d: Dict<D>): set<string>
  {
    set i | 0 <= i < |d| :: d[i].0
  }

  function KeyList<D>(d: Dict<D>): seq<string>
  {
    if d == [] then [] else [d[0].0] + KeyList(d[1..])
  }

  predicate DistinctKeys<D>(d: Dict<D>)
  {
    forall i, j :: 0 <= i < j < |d| ==> d[i].0 != d[j].0
  }

  /** `d[k] = v`: a new key goes last, an existing one keeps its place. */
  function Put<D>(d: Dict<D>, k: string, v: D): Dict<D>
  {
    if d == [] then [(k, v)]
    else if d[0].0 == k then [(k, v)] + d[1..]
    else [d[0]] + Put(d[1..], k, v)
  }

  /** `d.update(kvs)`. */
  function PutAll<D>(d: Dict<D>, kvs: Dict<D>): Dict<D>
    decreases |kvs|
  {
    if kvs == [] then d else PutAll(Put(d, kvs[0].0, kvs[0].1), kvs[1..])
  }

  /** `d.get(k)`. */
  function Get<D>(d: Dict<D>, k: string): Option<D>
  {
    if d == [] then None else if d[0].0 == k then Some(d[0].1) else Get(d[1..], k)
  }

  lemma {:induction false} PutFacts<D>(d: Dict<D>, k: string, v: D)
    requires DistinctKeys(d)
    ensures KeysOf(Put(d, k, v)) == KeysOf(d) + {k}
    ensures DistinctKeys(Put(d, k, v))
    ensures Get(Put(d, k, v), k) == Some(v)
    ensures forall k' :: k' != k ==> Get(Put(d, k, v), k') == Get(d, k')
  {
    PutKeys(d, k, v);
    PutGet(d, k, v);
  }

  lemma {:induction false} PutGet<D>(d: Dict<D>, k: string, v: D)
    ensures Get(Put(d, k, v), k) == Some(v)
    ensures forall k' :: k' != k ==> Get(Put(d, k, v), k') == Get(d, k')
  {
    if d != [] && d[0].0 != k {
      PutGet(d[1..], k, v);
    } else if d != [] {
      assert ([(k, v)] + d[1..])[1..] == d[1..];
    }
  }

  lemma {:induction false} TailKeys<D>(d: Dict<D>)
    requires d != []
    ensures KeysOf(d) == {d[0].0} + KeysOf(d[1..])
  {
    assert forall i :: 0 < i < |d| ==> d[i] == d[1..][i - 1];
  }

  lemma {:induction false} PutKeys<D>(d: Dict<D>, k: string, v: D)
    requires DistinctKeys(d)
    ensures KeysOf(Put(d, k, v)) == KeysOf(d) + {k}
    ensures DistinctKeys(Put(d, k, v))
  {
    if d != [] && d[0].0 != k {
      var rest := d[1..];
      assert DistinctKeys(rest) by {
        forall i, j | 0 <= i < j < |rest| ensures rest[i].0 != rest[j].0 {
          assert rest[i] == d[i + 1] && rest[j] == d[j + 1];
        }
      }
      PutKeys(rest, k, v);
      TailKeys(d);
      var p := Put(rest, k, v);
      var r := [d[0]] + p;
      assert r[1..] == p;
      TailKeys(r);
      assert d[0].0 !in KeysOf(rest) by {
        forall i | 0 <= i < |rest| ensures rest[i].0 != d[0].0 {
          assert rest[i] == d[i + 1];
        }
      }
      forall i, j | 0 <= i < j < |r| ensures r[i].0 != r[j].0 {
        if i == 0 {
          assert r[j] == p[j - 1];
          assert r[j].0 in KeysOf(p);
        } else {
          assert r[i] == p[i - 1] && r[j] == p[j - 1];
        }
      }
    } else if d != [] {
      var r := [(k, v)] + d[1..];
      TailKeys(d);
      assert r[1..] == d[1..] && r[0].0 == k == d[0].0;
      TailKeys(r);
      assert KeysOf(r) == KeysOf(d);
      assert k in KeysOf(d);
      forall i, j | 0 <= i < j < |r| ensures r[i].0 != r[j].0 {
        assert r[j] == d[j];
        if i > 0 {
          assert r[i] == d[i];
        }
      }
    } else {
      assert [(k, v)][0].0 == k;
    }
  }

  /** After an update the keys are the old ones and the new ones, each
      once. */
  lemma {:induction false} PutAllFacts<D>(d: Dict<D>, kvs: Dict<D>)
    requires DistinctKeys(d)
    ensures KeysOf(PutAll(d, kvs)) == KeysOf(d) + KeysOf(kvs)
    ensures DistinctKeys(PutAll(d, kvs))
    decreases |kvs|
  {
    if kvs != [] {
      PutFacts(d, kvs[0].0, kvs[0].1);
      PutAllFacts(Put(d, kvs[0].0, kvs[0].1), kvs[1..]);
      assert KeysOf(kvs) == {kvs[0].0} + KeysOf(kvs[1..]) by {
        assert forall i :: 0 < i < |kvs| ==> kvs[i] == kvs[1..][i - 1];
      }
    }
  }

  // ---------------------------------------------------------------------
  // Chunked fetches

  /** The details gathered from the answers to successive chunks; a chunk
      whose call fails adds nothing. */
  function Fetched<D>(chunks: seq<seq<string>>, api: seq<string> -> Option<Dict<D>>): Dict<D>
  {
    if chunks == [] then []
    else
      var prev := Fetched(chunks[..|chunks| - 1], api);
      var answer := api(chunks[|chunks| - 1]);
      if answer.Some? then PutAll(prev, answer.value) else prev
  }

  /** `fetch_zsku_details` and `fetch_nsku_details`: one call per chunk of
      100 skus, failures logged and skipped. */
  method FetchDetails<D>(skus: seq<string>, api: seq<string> -> Option<Dict<D>>) returns (res: Dict<D>)
    ensures res == Fetched(Chunks.Chunked(skus, FetchChunk), api)
  {
    var chunks := Chunks.Chunked(skus, FetchChunk);
    res := [];
    for i := 0 to |chunks|
      invariant res == Fetched(chunks[..i], api)
    {
      assert chunks[..i + 1][..i] == chunks[..i];
      var answer := api(chunks[i]);
      if answer.Some? {
        res := PutAll(res, answer.value);
      }
    }
    assert chunks[..|chunks|] == chunks;
  }

  /** A sku is fetched exactly when some chunk's call succeeded and
      answered for it, and it is fetched once. */
  lemma {:induction false} FetchedFacts<D>(chunks: seq<seq<string>>, api: seq<string> -> Option<Dict<D>>, k: string)
    ensures DistinctKeys(Fetched(chunks, api))
    ensures k in KeysOf(Fetched(chunks, api)) <==>
      exists i :: 0 <= i < |chunks| && api(chunks[i]).Some? && k in KeysOf(api(chunks[i]).value)
  {
    if chunks != [] {
      var init := chunks[..|chunks| - 1];
      FetchedFacts(init, api, k);
      var last := chunks[|chunks| - 1];
      if api(last).Some? {
        PutAllFacts(Fetched(init, api), api(last).value);
      }
      assert forall i :: 0 <= i < |init| ==> init[i] == chunks[i];
    }
  }

  /** Every fetch goes out in chunks of at most 100 skus that together
      are the list. */
  lemma FetchChunks(skus: seq<string>)
    ensures Chunks.Flatten(Chunks.Chunked(skus, FetchChunk)) == skus
    ensures forall k :: 0 <= k < |Chunks.Chunked(skus, FetchChunk)| ==> 0 < |Chunks.Chunked(skus, FetchChunk)[k]| <= FetchChunk
  {
    Chunks.ChunkedFacts(skus, FetchChunk);
  }

  // ---------------------------------------------------------------------
  // Image keys of an nsku product

  datatype Image = Image(isVisible: bool, version: string, publicId: string, sortKey: int)
  datatype Candidate = Candidate(path: string, sortKey: int)

  const ImagePrefix := "image_url_"

  /** `"v{version}/{public_id}"`. */
  function Path(img: Image): string
  {
    "v" + img.version + "/" + img.publicId
  }

  function VisibleIn(imgs: seq<Image>): seq<Candidate>
  {
    if imgs == [] then []
    else
      var img := imgs[|imgs| - 1];
      VisibleIn(imgs[..|imgs| - 1]) + (if img.isVisible then [Candidate(Path(img), img.sortKey)] else [])
  }

  /** The visible images of the `image_url_` attributes, in attribute order. */
  function Visible(attrs: seq<(string, seq<Image>)>): seq<Candidate>
  {
    if attrs == [] then []
    else
      var a := attrs[|attrs| - 1];
      Visible(attrs[..|attrs| - 1]) + (if Text.StartsWith(a.0, ImagePrefix) then VisibleIn(a.1) else [])
  }

  function Paths(cs: seq<Candidate>): seq<string>
  {
    if cs == [] then [] else [cs[0].path] + Paths(cs[1..])
  }

  function SortKeyOf(c: Candidate): int
  {
    c.sortKey
  }

  /** `get_image_keys`. */
  function ImageKeys(attrs: seq<(string, seq<Image>)>): seq<string>
  {
    Paths(StableSort.Sort(Visible(attrs), SortKeyOf))
  }

  /** The loops of `get_image_keys`, then its sort. */
  method GetImageKeys(attrs: seq<(string, seq<Image>)>) returns (keys: seq<string>)
    ensures keys == ImageKeys(attrs)
  {
    var found: seq<Candidate> := [];
    for i := 0 to |attrs|
      invariant found == Visible(attrs[..i])
    {
      assert attrs[..i + 1][..i] == attrs[..i];
      if Text.StartsWith(attrs[i].0, ImagePrefix) {
        var imgs := attrs[i].1;
        var before := found;
        for j := 0 to |imgs|
          invariant found == before + VisibleIn(imgs[..j])
        {
          assert imgs[..j + 1][..j] == imgs[..j];
          if imgs[j].isVisible {
            found := found + [Candidate(Path(imgs[j]), imgs[j].sortKey)];
          }
        }
        assert imgs[..|imgs|] == imgs;
      }
    }
    assert attrs[..|attrs|] == attrs;
    keys := Paths(StableSort.Sort(found, SortKeyOf));
  }

  lemma {:induction false} VisibleInFacts(imgs: seq<Image>, c: Candidate)
    ensures c in VisibleIn(imgs) <==> exists k :: 0 <= k < |imgs| && imgs[k].isVisible && c == Candidate(Path(imgs[k]), imgs[k].sortKey)
  {
    if imgs != [] {
      var init := imgs[..|imgs| - 1];
      VisibleInFacts(init, c);
      assert forall k :: 0 <= k < |init| ==> init[k] == imgs[k];
    }
  }

  /** A candidate is kept exactly when it is a visible image of an
      attribute named `image_url_...`. */
  lemma {:induction false} VisibleFacts(attrs: seq<(string, seq<Image>)>, c: Candidate)
    ensures c in Visible(attrs) <==>
      exists i, k :: 0 <= i < |attrs| && Text.StartsWith(attrs[i].0, ImagePrefix) && 0 <= k < |attrs[i].1| &&
        attrs[i].1[k].isVisible && c == Candidate(Path(attrs[i].1[k]), attrs[i].1[k].sortKey)
  {
    if attrs != [] {
      var init := attrs[..|attrs| - 1];
      var a := attrs[|attrs| - 1];
      VisibleFacts(init, c);
      VisibleInFacts(a.1, c);
      assert forall i :: 0 <= i < |init| ==> init[i] == attrs[i];
    }
  }

  lemma {:induction false} PathsFacts(cs: seq<Candidate>)
    ensures |Paths(cs)| == |cs|
    ensures forall k :: 0 <= k < |cs| ==> Paths(cs)[k] == cs[k].path
  {
    if cs != [] {
      PathsFacts(cs[1..]);
    }
  }

  /** The image keys are the paths of the visible images, each once for
      every time it is listed, in ascending order of sort key. */
  lemma ImageKeysFacts(attrs: seq<(string, seq<Image>)>)
    ensures var sorted := StableSort.Sort(Visible(attrs), SortKeyOf);
      multiset(sorted) == multiset(Visible(attrs)) &&
      (forall i, j :: 0 <= i < j < |sorted| ==> sorted[i].sortKey <= sorted[j].sortKey) &&
      |ImageKeys(attrs)| == |sorted| &&
      forall k :: 0 <= k < |sorted| ==> ImageKeys(attrs)[k] == sorted[k].path
  {
    var sorted := StableSort.Sort(Visible(attrs), SortKeyOf);
    StableSort.SortFacts(Visible(attrs), SortKeyOf);
    PathsFacts(sorted);
    assert forall i, j :: 0 <= i < j < |sorted| ==> SortKeyOf(sorted[i]) <= SortKeyOf(sorted[j]);
  }

  // ---------------------------------------------------------------------
  // Rows

  /** A localized attribute entry of the zsku catalog. */
  datatype Localized = Localized(locale: string, data: Option<string>, optionName: Option<string>)

  /** The zsku catalog's answer for one sku. */
  datatype ZskuDetails = ZskuDetails(error: bool, attributes: map<string, seq<Localized>>, imagePaths: seq<Option<string>>)

  /** An entry of the nsku catalog (a title, brand, family or fulltype). */
  datatype NEntry = NEntry(locale: Option<string>, value: Option<string>, code: Option<string>, id: Option<string>)

  /** The nsku catalog's `attributes`: the full titles and every attribute
      that lists images. */
  datatype NAttributes = NAttributes(fullTitle: seq<NEntry>, imageAttrs: seq<(string, seq<Image>)>)

  datatype NskuDetails = NskuDetails(attributes: Option<NAttributes>, brands: seq<NEntry>, families: seq<NEntry>, fulltypes: seq<NEntry>)

  /** A `product` row. */
  datatype ProductRow = ProductRow(sku: string, familyCode: Option<string>, brandCode: Option<string>,
                                   modelNameNumber: Option<string>, idFulltype: Option<string>,
                                   categoryIds: set<int>, groupCode: string, imageKeys: Option<seq<string>>)

  /** A `product_en` / `product_ar` row; `longDesc` is `None` when the
      attributes column is not written, else the `long_desc` it holds. */
  datatype LangRow = LangRow(sku: string, title: Option<string>, titleSuffix: Option<string>, brand: Option<string>,
                             longDesc: Option<Option<string>>)

  datatype Built = Built(rows: seq<ProductRow>, en: seq<LangRow>, ar: seq<LangRow>, processed: seq<string>)

  const NoRows := Built([], [], [], [])

  /** The catalog data the rows need: the sku's category links, the group
      codes and the ancestor-or-self ids of every category. */
  datatype Catalog = Catalog(catRows: seq<(string, int)>, groupCodes: map<string, string>, parents: map<int, seq<int>>)

  function GroupCode(cat: Catalog, sku: string): string
  {
    if sku in cat.groupCodes then cat.groupCodes[sku] else ""
  }

  /** The categories a sku is linked to, in link order. */
  function CatIdsOf(rows: seq<(string, int)>, sku: string): (ids: seq<int>)
    ensures forall id :: id in ids <==> exists i :: 0 <= i < |rows| && rows[i] == (sku, id)
  {
    if rows == [] then []
    else
      var rest := CatIdsOf(rows[1..], sku);
      assert forall i :: 0 < i < |rows| ==> rows[1..][i - 1] == rows[i];
      if rows[0].0 == sku then [rows[0].1] + rest else rest
  }

  /** The set behind `category_ids`: every ancestor-or-self id of every
      linked category; a linked category missing from the map fails. */
  function CategoryIds(cat: Catalog, sku: string): Result<set<int>>
  {
    var ids := CatIdsOf(cat.catRows, sku);
    if exists i :: 0 <= i < |ids| && ids[i] !in cat.parents then Failure(TypeError)
    else Success(set i, x | 0 <= i < |ids| && ids[i] in cat.parents && x in cat.parents[ids[i]] :: x)
  }

  /** `category_ids` holds exactly the ancestors-or-self of the sku's
      categories. */
  lemma CategoryIdsFacts(cat: Catalog, sku: string, x: int)
    requires CategoryIds(cat, sku).Success?
    ensures x in CategoryIds(cat, sku).value <==>
      exists id :: (exists i :: 0 <= i < |cat.catRows| && cat.catRows[i] == (sku, id)) &&
        id in cat.parents && x in cat.parents[id]
  {
    var ids := CatIdsOf(cat.catRows, sku);
    if x in CategoryIds(cat, sku).value {
      var i :| 0 <= i < |ids| && ids[i] in cat.parents && x in cat.parents[ids[i]];
      assert ids[i] in ids;
    }
    if exists id :: (exists i :: 0 <= i < |cat.catRows| && cat.catRows[i] == (sku, id)) && id in cat.parents && x in cat.parents[id] {
      var id :| (exists i :: 0 <= i < |cat.catRows| && cat.catRows[i] == (sku, id)) && id in cat.parents && x in cat.parents[id];
      assert id in ids;
      var i :| 0 <= i < |ids| && ids[i] == id;
    }
  }

  /** `attrs.get(name, [{}])[0].get('data')`. */
  function FirstData(attrs: map<string, seq<Localized>>, name: string): Result<Option<string>>
  {
    if name !in attrs then Success(None)
    else if attrs[name] == [] then Failure(IndexError)
    else Success(attrs[name][0].data)
  }

  function Data(e: Localized): Option<string>
  {
    e.data
  }

  function OptionName(e: Localized): Option<string>
  {
    e.optionName
  }

  /** The value the loop over `entries` leaves for `locale`: the last
      matching entry's field, which must be there (`KeyError`). */
  function LastOf(entries: seq<Localized>, locale: string, field: Localized -> Option<string>): Result<Option<string>>
  {
    if entries == [] then Success(None)
    else
      var prev :- LastOf(entries[..|entries| - 1], locale, field);
      var e := entries[|entries| - 1];
      if e.locale != locale then Success(prev)
      else if field(e).None? then Failure(KeyError)
      else Success(field(e))
  }

  function ListOf(attrs: map<string, seq<Localized>>, name: string): seq<Localized>
  {
    if name in attrs then attrs[name] else []
  }

  /** The image keys of a zsku product: the non-empty storage paths with
      `.jpg` removed. */
  function ZskuImageKeys(paths: seq<Option<string>>): seq<string>
  {
    if paths == [] then []
    else
      var p := paths[0];
      (if p.Some? && p.value != "" then [Text.ReplaceAll(p.value, ".jpg", "")] else []) + ZskuImageKeys(paths[1..])
  }

  function NonEmptyPaths(paths: seq<Option<string>>): seq<string>
  {
    if paths == [] then []
    else (if paths[0].Some? && paths[0].value != "" then [paths[0].value] else []) + NonEmptyPaths(paths[1..])
  }

  /** Missing and empty paths are dropped; every other path gives one key,
      in order, with `.jpg` removed, and a path without `.jpg` is kept as
      it is. */
  lemma {:induction false} ZskuImageKeysFacts(paths: seq<Option<string>>)
    ensures |ZskuImageKeys(paths)| == |NonEmptyPaths(paths)|
    ensures forall k :: 0 <= k < |NonEmptyPaths(paths)| ==>
      NonEmptyPaths(paths)[k] != "" &&
      ZskuImageKeys(paths)[k] == Text.ReplaceAll(NonEmptyPaths(paths)[k], ".jpg", "")
    ensures forall k :: 0 <= k < |NonEmptyPaths(paths)| && !Text.Occurs(NonEmptyPaths(paths)[k], ".jpg") ==>
      ZskuImageKeys(paths)[k] == NonEmptyPaths(paths)[k]
  {
    if paths != [] {
      ZskuImageKeysFacts(paths[1..]);
      forall k | 0 <= k < |NonEmptyPaths(paths)| && !Text.Occurs(NonEmptyPaths(paths)[k], ".jpg")
        ensures ZskuImageKeys(paths)[k] == NonEmptyPaths(paths)[k]
      {
        Text.ReplaceAbsent(NonEmptyPaths(paths)[k], ".jpg", "");
      }
    }
  }

  function OptKeys(keys: seq<string>): Option<seq<string>>
  {
    if keys == [] then None else Some(keys)
  }

  /** The rows built for one entry of the zsku answer, or none for an
      entry reporting an error. */
  function BuildZsku(sku: string, d: ZskuDetails, cat: Catalog): Result<Option<(ProductRow, LangRow, LangRow)>>
  {
    if d.error then Success(None)
    else
      var a := d.attributes;
      var family :- FirstData(a, "family");
      var brandCode :- FirstData(a, "brand");
      var modelNumber :- FirstData(a, "model_number");
      var modelName :- FirstData(a, "model_name");
      var cats :- CategoryIds(cat, sku);
      var keys := ZskuImageKeys(d.imagePaths);
      if "brand" !in a then Failure(KeyError)
      else
        var arBrand :- LastOf(a["brand"], "ar", OptionName);
        var enBrand :- LastOf(a["brand"], "en", OptionName);
        if "product_title" !in a then Failure(KeyError)
        else
          var arTitle :- LastOf(a["product_title"], "ar", Data);
          var enTitle :- LastOf(a["product_title"], "en", Data);
          var enDesc :- LastOf(ListOf(a, "long_description"), "en", Data);
          var arDesc :- LastOf(ListOf(a, "long_description"), "ar", Data);
          var arSuffix :- LastOf(ListOf(a, "title_suffix"), "ar", Data);
          var enSuffix :- LastOf(ListOf(a, "title_suffix"), "en", Data);
          var row := ProductRow(sku, family, brandCode, Some(modelName.GetOr("") + " " + modelNumber.GetOr("")), None,
                                cats, GroupCode(cat, sku), OptKeys(keys));
          Success(Some((row, LangRow(sku, enTitle, enSuffix, enBrand, Some(enDesc)),
                        LangRow(sku, arTitle, arSuffix, arBrand, Some(arDesc)))))
  }

  function Add(b: Built, r: (ProductRow, LangRow, LangRow), sku: string): Built
  {
    Built(b.rows + [r.0], b.en + [r.1], b.ar + [r.2], b.processed + [sku])
  }

  /** The zsku loop of `fetch_and_update_product_details`. */
  function ZskuPass(entries: Dict<ZskuDetails>, cat: Catalog): Result<Built>
  {
    if entries == [] then Success(NoRows)
    else
      var b :- ZskuPass(entries[..|entries| - 1], cat);
      var e := entries[|entries| - 1];
      var r :- BuildZsku(e.0, e.1, cat);
      if r.None? then Success(b) else Success(Add(b, r.value, e.0))
  }

  /** The skus of the entries without an error, in answer order. */
  function Clean(entries: Dict<ZskuDetails>): seq<string>
  {
    if entries == [] then []
    else
      var e := entries[|entries| - 1];
      Clean(entries[..|entries| - 1]) + (if e.1.error then [] else [e.0])
  }

  /** Each product row goes with its English and Arabic row and its
      processed sku. */
  predicate Aligned(b: Built)
  {
    |b.rows| == |b.en| == |b.ar| == |b.processed| &&
    forall k :: 0 <= k < |b.rows| ==> b.rows[k].sku == b.en[k].sku == b.ar[k].sku == b.processed[k]
  }

  lemma AddAligned(b: Built, r: (ProductRow, LangRow, LangRow), sku: string)
    requires Aligned(b) && r.0.sku == sku && r.1.sku == sku && r.2.sku == sku
    ensures Aligned(Add(b, r, sku))
  {
  }

  lemma BuildZskuSku(sku: string, d: ZskuDetails, cat: Catalog)
    requires BuildZsku(sku, d, cat).Success?
    ensures var r := BuildZsku(sku, d, cat).value;
      (r.Some? <==> !d.error) && (r.Some? ==> r.value.0.sku == sku && r.value.1.sku == sku && r.value.2.sku == sku)
  {
  }

  /** The zsku pass builds rows for exactly the entries without an error,
      in answer order, and returns their skus. */
  lemma {:induction false} ZskuPassFacts(entries: Dict<ZskuDetails>, cat: Catalog)
    requires ZskuPass(entries, cat).Success?
    ensures Aligned(ZskuPass(entries, cat).value)
    ensures ZskuPass(entries, cat).value.processed == Clean(entries)
  {
    if entries != [] {
      var e := entries[|entries| - 1];
      ZskuPassFacts(entries[..|entries| - 1], cat);
      BuildZskuSku(e.0, e.1, cat);
      var r := BuildZsku(e.0, e.1, cat).value;
      if r.Some? {
        AddAligned(ZskuPass(entries[..|entries| - 1], cat).value, r.value, e.0);
      }
    }
  }

  /** Python truthiness of an optional string. */
  predicate Truthy(s: Option<string>)
  {
    s.Some? && s.value != ""
  }

  /** The last `value` of an entry with the locale (`KeyError` if it has
      none). */
  function NLast(entries: seq<NEntry>, locale: string): Result<Option<string>>
  {
    if entries == [] then Success(None)
    else
      var prev :- NLast(entries[..|entries| - 1], locale);
      var e := entries[|entries| - 1];
      if e.locale != Some(locale) then Success(prev)
      else if e.value.None? then Failure(KeyError)
      else Success(e.value)
  }

  /** The same loop reading `value` with `.get`. */
  function NLastOrNone(entries: seq<NEntry>, locale: string): Option<string>
  {
    if entries == [] then None
    else
      var e := entries[|entries| - 1];
      if e.locale == Some(locale) then e.value else NLastOrNone(entries[..|entries| - 1], locale)
  }

  function FullTitles(d: NskuDetails): seq<NEntry>
  {
    if d.attributes.Some? then d.attributes.value.fullTitle else []
  }

  /** The fields the nsku branch reads, in the order it reads them. */
  datatype NFields = NFields(enTitle: Option<string>, arTitle: Option<string>, brandCode: Option<string>,
                             enBrand: Option<string>, arBrand: Option<string>, familyCode: Option<string>,
                             fulltype: Option<string>, enSuffix: Option<string>, arSuffix: Option<string>,
                             imageKeys: seq<string>)

  function ReadNsku(d: NskuDetails): Result<NFields>
  {
    var enTitle :- NLast(FullTitles(d), "en");
    var arTitle :- NLast(FullTitles(d), "ar");
    var enBrand :- NLast(d.brands, "en");
    var arBrand :- NLast(d.brands, "ar");
    var brandCode := if d.brands == [] then None else d.brands[|d.brands| - 1].code;
    var family := if d.families == [] then None else d.families[0].code;
    var fulltype := if d.fulltypes == [] then None else d.fulltypes[|d.fulltypes| - 1].id;
    var enSuffix := NLastOrNone(FullTitles(d), "en");
    var arSuffix := NLastOrNone(FullTitles(d), "ar");
    if d.attributes.None? then Failure(KeyError)
    else Success(NFields(enTitle, arTitle, brandCode, enBrand, arBrand, family, fulltype, enSuffix, arSuffix,
                         ImageKeys(d.attributes.value.imageAttrs)))
  }

  /** The mandatory fields of the nsku branch are all present. */
  predicate Complete(f: NFields)
  {
    Truthy(f.enTitle) && Truthy(f.arTitle) && Truthy(f.fulltype) && Truthy(f.familyCode) && Truthy(f.brandCode)
  }

  /** The rows built for one entry of the nsku answer, or none when a
      mandatory field is missing. */
  function BuildNsku(nsku: string, d: NskuDetails, nskuZsku: Dict<string>, cat: Catalog): Result<Option<(ProductRow, LangRow, LangRow)>>
  {
    var f :- ReadNsku(d);
    if !Complete(f) then Success(None)
    else if Get(nskuZsku, nsku).None? then Failure(NoSku)
    else
      var zsku := Get(nskuZsku, nsku).value;
      var cats :- CategoryIds(cat, zsku);
      var row := ProductRow(zsku, f.familyCode, f.brandCode, None, f.fulltype, cats, GroupCode(cat, zsku), OptKeys(f.imageKeys));
      Success(Some((row, LangRow(zsku, f.enTitle, f.enSuffix, f.enBrand, None),
                    LangRow(zsku, f.arTitle, f.arSuffix, f.arBrand, None))))
  }

  /** The nsku loop, adding to what the zsku loop built. */
  function NskuPass(entries: Dict<NskuDetails>, nskuZsku: Dict<string>, cat: Catalog, b0: Built): Result<Built>
  {
    if entries == [] then Success(b0)
    else
      var b :- NskuPass(entries[..|entries| - 1], nskuZsku, cat, b0);
      var e := entries[|entries| - 1];
      var r :- BuildNsku(e.0, e.1, nskuZsku, cat);
      if r.None? then Success(b)
      else Success(Add(b, r.value, Get(nskuZsku, e.0).value))
  }

  /** The zskus the nsku entries with all mandatory fields stand for. */
  function Accepted(entries: Dict<NskuDetails>, nskuZsku: Dict<string>): seq<string>
  {
    if entries == [] then []
    else
      var e := entries[|entries| - 1];
      var f := ReadNsku(e.1);
      Accepted(entries[..|entries| - 1], nskuZsku) +
        (if f.Success? && Complete(f.value) && Get(nskuZsku, e.0).Some? then [Get(nskuZsku, e.0).value] else [])
  }

  lemma BuildNskuSku(nsku: string, d: NskuDetails, nskuZsku: Dict<string>, cat: Catalog)
    requires BuildNsku(nsku, d, nskuZsku, cat).Success?
    ensures var r := BuildNsku(nsku, d, nskuZsku, cat).value;
      (r.Some? <==> Complete(ReadNsku(d).value)) &&
      (r.Some? ==> Get(nskuZsku, nsku).Some? && var z := Get(nskuZsku, nsku).value;
        r.value.0.sku == z && r.value.1.sku == z && r.value.2.sku == z)
  {
  }

  /** The nsku pass adds rows for exactly the entries with every mandatory
      field, in answer order, each under its zsku. */
  lemma {:induction false} NskuPassFacts(entries: Dict<NskuDetails>, nskuZsku: Dict<string>, cat: Catalog, b0: Built)
    requires Aligned(b0) && NskuPass(entries, nskuZsku, cat, b0).Success?
    ensures Aligned(NskuPass(entries, nskuZsku, cat, b0).value)
    ensures NskuPass(entries, nskuZsku, cat, b0).value.processed == b0.processed + Accepted(entries, nskuZsku)
  {
    if entries != [] {
      var e := entries[|entries| - 1];
      var init := entries[..|entries| - 1];
      NskuPassFacts(init, nskuZsku, cat, b0);
      BuildNskuSku(e.0, e.1, nskuZsku, cat);
      var r := BuildNsku(e.0, e.1, nskuZsku, cat).value;
      if r.Some? {
        AddAligned(NskuPass(init, nskuZsku, cat, b0).value, r.value, Get(nskuZsku, e.0).value);
      }
    }
  }

  // ---------------------------------------------------------------------
  // fetch_and_update_product_details

  /** An entry of `list_products`. */
  datatype Requested = Requested(sku: Option<string>, nsku: Option<string>)

  /** `[product['sku'] for product in list_products if product['sku']]`. */
  function Zskus(products: seq<Requested>): seq<string>
  {
    if products == [] then []
    else (if Truthy(products[0].sku) then [products[0].sku.value] else []) + Zskus(products[1..])
  }

  /** `nsku_zsku_map`: each nsku with a zsku the zsku loop did not
      process; a repeated nsku keeps its place and takes the later zsku. */
  function NskuMap(products: seq<Requested>, processed: seq<string>): Dict<string>
  {
    if products == [] then []
    else
      var prev := NskuMap(products[..|products| - 1], processed);
      var p := products[|products| - 1];
      if Truthy(p.nsku) && Truthy(p.sku) && p.sku.value !in processed then Put(prev, p.nsku.value, p.sku.value)
      else prev
  }

  /** The nsku map holds only requested pairs whose zsku the zsku loop
      did not process, each nsku once. */
  lemma {:induction false} NskuMapFacts(products: seq<Requested>, processed: seq<string>, nsku: string)
    ensures DistinctKeys(NskuMap(products, processed))
    ensures Get(NskuMap(products, processed), nsku).Some? ==>
      var z := Get(NskuMap(products, processed), nsku).value;
      z !in processed && z != "" && nsku != "" &&
      exists i :: 0 <= i < |products| && products[i] == Requested(Some(z), Some(nsku))
  {
    if products != [] {
      var init := products[..|products| - 1];
      var p := products[|products| - 1];
      NskuMapFacts(init, processed, nsku);
      var prev := NskuMap(init, processed);
      if Truthy(p.nsku) && Truthy(p.sku) && p.sku.value !in processed {
        PutFacts(prev, p.nsku.value, p.sku.value);
      }
      if Get(NskuMap(products, processed), nsku).Some? && Get(prev, nsku) == Get(NskuMap(products, processed), nsku) {
        var z := Get(prev, nsku).value;
        var i :| 0 <= i < |init| && init[i] == Requested(Some(z), Some(nsku));
        assert products[i] == init[i];
      }
    }
  }

  /** What a call leaves to upsert, or `None` for an empty request. */
  function UpdateSpec(products: seq<Requested>, onlyZsku: bool, onlyNsku: bool, cat: Catalog,
                      zapi: seq<string> -> Option<Dict<ZskuDetails>>,
                      napi: seq<string> -> Option<Dict<NskuDetails>>): Result<Option<Built>>
  {
    if products == [] then Success(None)
    else
      var b1 :- if onlyNsku then Success(NoRows)
                else ZskuPass(Fetched(Chunks.Chunked(Zskus(products), FetchChunk), zapi), cat);
      if onlyZsku then Success(Some(b1))
      else
        var nmap := NskuMap(products, b1.processed);
        if nmap == [] then Success(Some(b1))
        else
          var b2 :- NskuPass(Fetched(Chunks.Chunked(KeyList(nmap), FetchChunk), napi), nmap, cat, b1);
          Success(Some(b2))
  }

  /** `fetch_and_update_product_details` up to its upserts. */
  method FetchAndUpdate(products: seq<Requested>, onlyZsku: bool, onlyNsku: bool, cat: Catalog,
                        zapi: seq<string> -> Option<Dict<ZskuDetails>>,
                        napi: seq<string> -> Option<Dict<NskuDetails>>) returns (r: Result<Option<Built>>)
    ensures r == UpdateSpec(products, onlyZsku, onlyNsku, cat, zapi, napi)
  {
    if products == [] {
      return Success(None);
    }
    var b := NoRows;
    if !onlyNsku {
      var zskus := Zskus(products);
      var entries := FetchDetails(zskus, zapi);
      for i := 0 to |entries|
        invariant ZskuPass(entries[..i], cat) == Success(b)
      {
        assert entries[..i + 1][..i] == entries[..i];
        var built := BuildZsku(entries[i].0, entries[i].1, cat);
        if built.Failure? {
          ZskuFailsFrom(entries, i + 1, cat);
          return Failure(built.error);
        }
        if built.value.Some? {
          b := Add(b, built.value.value, entries[i].0);
        }
      }
      assert entries[..|entries|] == entries;
    }
    if onlyZsku {
      return Success(Some(b));
    }
    var nmap := NskuMap(products, b.processed);
    if nmap == [] {
      return Success(Some(b));
    }
    var b1 := b;
    var entries := FetchDetails(KeyList(nmap), napi);
    for i := 0 to |entries|
      invariant NskuPass(entries[..i], nmap, cat, b1) == Success(b)
    {
      assert entries[..i + 1][..i] == entries[..i];
      var built := BuildNsku(entries[i].0, entries[i].1, nmap, cat);
      if built.Failure? {
        NskuFailsFrom(entries, i + 1, nmap, cat, b1);
        return Failure(built.error);
      }
      if built.value.Some? {
        b := Add(b, built.value.value, Get(nmap, entries[i].0).value);
      }
    }
    assert entries[..|entries|] == entries;
    return Success(Some(b));
  }

  lemma {:induction false} ZskuFailsFrom(entries: Dict<ZskuDetails>, n: nat, cat: Catalog)
    requires n <= |entries| && ZskuPass(entries[..n], cat).Failure?
    ensures ZskuPass(entries, cat) == ZskuPass(entries[..n], cat)
    decreases |entries| - n
  {
    if n < |entries| {
      assert entries[..n + 1][..n] == entries[..n];
      ZskuFailsFrom(entries, n + 1, cat);
    } else {
      assert entries[..n] == entries;
    }
  }

  lemma {:induction false} NskuFailsFrom(entries: Dict<NskuDetails>, n: nat, nmap: Dict<string>, cat: Catalog, b0: Built)
    requires n <= |entries| && NskuPass(entries[..n], nmap, cat, b0).Failure?
    ensures NskuPass(entries, nmap, cat, b0) == NskuPass(entries[..n], nmap, cat, b0)
    decreases |entries| - n
  {
    if n < |entries| {
      assert entries[..n + 1][..n] == entries[..n];
      NskuFailsFrom(entries, n + 1, nmap, cat, b0);
    } else {
      assert entries[..n] == entries;
    }
  }

  /** The returned skus are exactly those rows were built for: first the
      clean zsku answers, then the complete nsku answers under their
      zskus, none of which the zsku loop had processed. */
  lemma UpdateFacts(products: seq<Requested>, onlyZsku: bool, onlyNsku: bool, cat: Catalog,
                    zapi: seq<string> -> Option<Dict<ZskuDetails>>,
                    napi: seq<string> -> Option<Dict<NskuDetails>>)
    requires UpdateSpec(products, onlyZsku, onlyNsku, cat, zapi, napi).Success?
    ensures products == [] <==> UpdateSpec(products, onlyZsku, onlyNsku, cat, zapi, napi).value.None?
    ensures products != [] ==>
      var b := UpdateSpec(products, onlyZsku, onlyNsku, cat, zapi, napi).value.value;
      var zskuPart := if onlyNsku then [] else Clean(Fetched(Chunks.Chunked(Zskus(products), FetchChunk), zapi));
      Aligned(b) && |zskuPart| <= |b.processed| && b.processed[..|zskuPart|] == zskuPart &&
      (onlyZsku ==> b.processed == zskuPart) &&
      forall k :: |zskuPart| <= k < |b.processed| ==> b.processed[k] !in zskuPart
  {
    if products != [] {
      var b1 := if onlyNsku then NoRows else ZskuPass(Fetched(Chunks.Chunked(Zskus(products), FetchChunk), zapi), cat).value;
      if !onlyNsku {
        ZskuPassFacts(Fetched(Chunks.Chunked(Zskus(products), FetchChunk), zapi), cat);
      }
      var nmap := NskuMap(products, b1.processed);
      if !onlyZsku && nmap != [] {
        var entries := Fetched(Chunks.Chunked(KeyList(nmap), FetchChunk), napi);
        NskuPassFacts(entries, nmap, cat, b1);
        var b := NskuPass(entries, nmap, cat, b1).value;
        AcceptedUnprocessed(entries, products, b1.processed);
        assert b.processed[..|b1.processed|] == b1.processed;
        forall k | |b1.processed| <= k < |b.processed| ensures b.processed[k] !in b1.processed {
          assert b.processed[k] == Accepted(entries, nmap)[k - |b1.processed|];
        }
      }
    }
  }

  lemma {:induction false} AcceptedUnprocessed(entries: Dict<NskuDetails>, products: seq<Requested>, processed: seq<string>)
    ensures forall k :: 0 <= k < |Accepted(entries, NskuMap(products, processed))| ==>
      Accepted(entries, NskuMap(products, processed))[k] !in processed
  {
    if entries != [] {
      var nmap := NskuMap(products, processed);
      var e := entries[|entries| - 1];
      AcceptedUnprocessed(entries[..|entries| - 1], products, processed);
      NskuMapFacts(products, processed, e.0);
    }
  }
}
