// The catalog search request handler: the Solr parameters a search query
// turns into, the paging arithmetic, and the category navpills and facet
// shown when browsing a category without a text query. The Solr call, the
// offer lookup and the response model are not part of this model.
module Search {
  import opened Wrappers
  import Text
  import Category
  import SQ = SearchQuery
  import Chunks

  type CategoryRow = Category.CategoryRow

  /** `get_id_category_to_category_map()` in its insertion order. */
  type CategoryMap = seq<CategoryRow>

  /** `id in id_to_category_map` and the category it holds. */
  function Find(cats: CategoryMap, id: Option<int>): (r: Option<CategoryRow>)
    ensures r.Some? ==> id.Some? && r.value in cats && r.value.id == id.value
    ensures r.None? ==> id.None? || forall k :: 0 <= k < |cats| ==> cats[k].id != id.value
  {
    if id.None? || cats == [] then None
    else if cats[0].id == id.value then Some(cats[0])
    else Find(cats[1..], id)
  }

  lemma FindRow(cats: CategoryMap, r: CategoryRow)
    requires Category.UniqueIds(cats) && r in cats
    ensures Find(cats, Some(r.id)) == Some(r)
  {
    if cats[0] != r {
      assert r in cats[1..];
      assert Category.UniqueIds(cats[1..]);
      FindRow(cats[1..], r);
    }
  }

  /** `get_code_to_id_category_map().get(code)`. */
  function IdOf(cats: CategoryMap, code: string): Option<int>
  {
    var m := Category.CodeToId(cats);
    if code in m then Some(m[code]) else None
  }

  predicate Truthy(q: Option<string>)
  {
    q.Some? && q.value != ""
  }

  // ---------------------------------------------------------------------
  // Navpill selection

  datatype Selection = Selection(root: Option<int>, child: Option<int>)

  const NoSelection := Selection(None, None)

  /** `get_selected_categories_for_navpills()`. */
  function SelectedForNavpills(q: Option<string>, f: SQ.Filters, cats: CategoryMap): Selection
  {
    if Truthy(q) || "category" !in f then NoSelection
    else
      var codes := f["category"];
      if |codes| == 1 then
        match Find(cats, IdOf(cats, codes[0]))
        case Some(r) => if Category.HasParent(r) then NoSelection else Selection(Some(r.id), None)
        case None => NoSelection
      else if |codes| == 2 then
        match (Find(cats, IdOf(cats, codes[0])), Find(cats, IdOf(cats, codes[1])))
        case (Some(r0), Some(r1)) =>
          var a := if r0.parent == Some(r1.id) then r1 else r0;
          var b := if r0.parent == Some(r1.id) then r0 else r1;
          if b.parent == Some(a.id) && !Category.HasParent(a) then Selection(Some(a.id), Some(b.id))
          else NoSelection
        case _ => NoSelection
      else NoSelection
  }

  /** Nothing is selected with a text query or without a category filter. */
  lemma SelectionNeedsCategoryBrowse(q: Option<string>, f: SQ.Filters, cats: CategoryMap)
    requires Truthy(q) || "category" !in f
    ensures SelectedForNavpills(q, f, cats) == NoSelection
  {
  }

  /** A selection is one root category filtered alone, or a root and one
      of its children filtered together in either order; a child is never
      selected without a root. */
  lemma SelectionSound(q: Option<string>, f: SQ.Filters, cats: CategoryMap)
    ensures var s := SelectedForNavpills(q, f, cats);
      (s.child.Some? ==> s.root.Some?) &&
      (s.root.Some? ==>
        !Truthy(q) && "category" in f &&
        Find(cats, s.root).Some? && !Category.HasParent(Find(cats, s.root).value) &&
        (s.child.None? ==> f["category"] == f["category"][..1] && IdOf(cats, f["category"][0]) == s.root) &&
        (s.child.Some? ==>
          |f["category"]| == 2 &&
          Find(cats, s.child).Some? && Find(cats, s.child).value.parent == s.root &&
          ((IdOf(cats, f["category"][0]) == s.root && IdOf(cats, f["category"][1]) == s.child) ||
           (IdOf(cats, f["category"][0]) == s.child && IdOf(cats, f["category"][1]) == s.root))))
  {
    var s := SelectedForNavpills(q, f, cats);
    if s.root.Some? {
      var codes := f["category"];
      if |codes| == 1 {
        assert codes == codes[..1];
        FindSelf(cats, IdOf(cats, codes[0]));
      } else {
        var r0 := Find(cats, IdOf(cats, codes[0])).value;
        var r1 := Find(cats, IdOf(cats, codes[1])).value;
        FindSelf(cats, IdOf(cats, codes[0]));
        FindSelf(cats, IdOf(cats, codes[1]));
      }
    }
  }

  /** A found category is found again by its own id. */
  lemma FindSelf(cats: CategoryMap, id: Option<int>)
    ensures Find(cats, id).Some? ==> Find(cats, Some(Find(cats, id).value.id)) == Find(cats, id)
  {
  }

  /** Filtering on a single root category selects it. */
  lemma SelectionOneRoot(q: Option<string>, f: SQ.Filters, cats: CategoryMap, code: string, r: CategoryRow)
    requires Category.UniqueIds(cats) && r in cats && !Category.HasParent(r)
    requires !Truthy(q) && "category" in f && f["category"] == [code] && IdOf(cats, code) == Some(r.id)
    ensures SelectedForNavpills(q, f, cats) == Selection(Some(r.id), None)
  {
    FindRow(cats, r);
  }

  /** Filtering on a root and one of its children, in either order,
      selects the pair. */
  lemma SelectionRootAndChild(q: Option<string>, f: SQ.Filters, cats: CategoryMap,
                              rootCode: string, childCode: string, a: CategoryRow, b: CategoryRow)
    requires Category.UniqueIds(cats) && a in cats && b in cats && a.id != 0 && b.id != 0
    requires !Category.HasParent(a) && b.parent == Some(a.id)
    requires IdOf(cats, rootCode) == Some(a.id) && IdOf(cats, childCode) == Some(b.id)
    requires !Truthy(q) && "category" in f
    requires f["category"] == [rootCode, childCode] || f["category"] == [childCode, rootCode]
    ensures SelectedForNavpills(q, f, cats) == Selection(Some(a.id), Some(b.id))
  {
    FindRow(cats, a);
    FindRow(cats, b);
  }

  // ---------------------------------------------------------------------
  // Solr parameters

  /** The ids of the codes known to the code map, falsy ids dropped. */
  function KnownIds(codes: seq<string>, cats: CategoryMap): (ids: seq<int>)
    ensures forall x :: x in ids <==> x != 0 && exists c :: c in codes && IdOf(cats, c) == Some(x)
  {
    if codes == [] then []
    else
      var id := IdOf(cats, codes[|codes| - 1]);
      assert forall c :: c in codes <==> c in codes[..|codes| - 1] || c == codes[|codes| - 1];
      KnownIds(codes[..|codes| - 1], cats) + (if id.Some? && id.value != 0 then [id.value] else [])
  }

  function CatTerms(ids: seq<int>): seq<string>
  {
    seq(|ids|, k requires 0 <= k < |ids| => "cat:" + Text.IntToString(ids[k]))
  }

  /** `get_cat_id_solr_param()`. */
  function CatIdParam(codes: seq<string>, cats: CategoryMap): Option<string>
  {
    var ids := KnownIds(codes, cats);
    if ids == [] then None else Some("fq=" + Text.Join(CatTerms(ids), " OR "))
  }

  /** The category filter is absent exactly when no filtered code names a
      known category; otherwise it ORs one `cat:` term per known id. */
  lemma CatIdParamFacts(codes: seq<string>, cats: CategoryMap)
    ensures CatIdParam(codes, cats).None? <==>
      forall c :: c in codes ==> IdOf(cats, c).None? || IdOf(cats, c) == Some(0)
    ensures CatIdParam(codes, cats).Some? ==>
      CatIdParam(codes, cats).value[..3] == "fq=" &&
      forall x :: "cat:" + Text.IntToString(x) in CatTerms(KnownIds(codes, cats)) <==>
        x != 0 && exists c :: c in codes && IdOf(cats, c) == Some(x)
  {
    var ids := KnownIds(codes, cats);
    if ids == [] {
      forall c | c in codes ensures IdOf(cats, c).None? || IdOf(cats, c) == Some(0) {
        if IdOf(cats, c).Some? {
          assert IdOf(cats, c).value !in ids;
        }
      }
    } else {
      forall x ensures "cat:" + Text.IntToString(x) in CatTerms(ids) <==> x in ids {
        if "cat:" + Text.IntToString(x) in CatTerms(ids) {
          var k :| 0 <= k < |ids| && CatTerms(ids)[k] == "cat:" + Text.IntToString(x);
          assert Text.IntToString(ids[k]) == ("cat:" + Text.IntToString(ids[k]))[4..];
          IntToStringInjective(ids[k], x);
        }
        if x in ids {
          var k :| 0 <= k < |ids| && ids[k] == x;
          assert CatTerms(ids)[k] == "cat:" + Text.IntToString(x);
        }
      }
      assert ids[0] in ids;
      var c :| c in codes && IdOf(cats, c) == Some(ids[0]);
    }
  }

  lemma IntToStringInjective(a: int, b: int)
    requires Text.IntToString(a) == Text.IntToString(b)
    ensures a == b
  {
    if a < 0 && b < 0 {
      assert Text.IntToString(a)[1..] == Text.NatToString(-a);
      Text.NatToStringInjective(-a, -b);
    } else if a >= 0 && b >= 0 {
      Text.NatToStringInjective(a, b);
    } else if a < 0 {
      NatToStringNoMinus(b);
    } else {
      NatToStringNoMinus(a);
    }
  }

  lemma NatToStringNoMinus(n: nat)
    ensures Text.NatToString(n)[0] != '-'
  {
    Text.NatToStringRoundTrip(n);
    assert Text.IsDigit(Text.NatToString(n)[0]);
  }

  /** `get_brand_solr_param()`, with `Solr.clean` given. */
  function BrandParam(brands: seq<string>, clean: string -> string): Option<string>
  {
    if brands == [] then None
    else Some("fq=" + Text.Join(seq(|brands|, k requires 0 <= k < |brands| => "brand_code:" + clean(brands[k])), " OR "))
  }

  /** The sort parameter. */
  function SortParam(sort: Option<SQ.SearchSort>): Option<string>
  {
    if sort.Some? && sort.value.sortBy == "price" then
      Some(if sort.value.dir == "desc" then "sort=price desc" else "sort=price asc")
    else None
  }

  /** Results are sorted only by price, and descending only on request. */
  lemma SortParamFacts(sort: Option<SQ.SearchSort>)
    ensures SortParam(sort).Some? <==> sort.Some? && sort.value.sortBy == "price"
    ensures SortParam(sort) == Some("sort=price desc") <==>
      sort.Some? && sort.value.sortBy == "price" && sort.value.dir == "desc"
    ensures SortParam(sort) == Some("sort=price asc") <==>
      sort.Some? && sort.value.sortBy == "price" && sort.value.dir != "desc"
  {
    assert |"sort=price asc"| != |"sort=price desc"|;
  }

  /** A price bound as `safe_float` reads it: its value and how it prints. */
  datatype Bound = Bound(value: real, text: string)

  /** A missing, unreadable or zero bound prints as `*`. */
  function BoundText(b: Option<Bound>): string
  {
    if b.Some? && b.value.value != 0.0 then b.value.text else "*"
  }

  function FirstBound(f: SQ.Filters, key: string, parse: string -> Option<Bound>): Option<Bound>
    requires SQ.Normalised(f)
  {
    if key in f then parse(f[key][0]) else None
  }

  /** The price range filter, present when either bound is filtered on. */
  function PriceParam(f: SQ.Filters, parse: string -> Option<Bound>): Option<string>
    requires SQ.Normalised(f)
  {
    if "price_min" !in f && "price_max" !in f then None
    else Some("fq=price:[" + BoundText(FirstBound(f, "price_min", parse)) + " TO " +
              BoundText(FirstBound(f, "price_max", parse)) + "]")
  }

  /** The filter has no lower (upper) end when the minimum (maximum) is not
      filtered on, does not read as a number, or is zero; the bounds are
      not compared with each other. */
  lemma PriceParamOpenEnds(f: SQ.Filters, parse: string -> Option<Bound>)
    requires SQ.Normalised(f)
    ensures PriceParam(f, parse).Some? <==> "price_min" in f || "price_max" in f
    ensures ("price_min" !in f || parse(f["price_min"][0]).None? || parse(f["price_min"][0]).value.value == 0.0) ==>
      ("price_max" in f ==> PriceParam(f, parse).value[..14] == "fq=price:[* TO")
    ensures "price_min" in f && parse(f["price_min"][0]).Some? && parse(f["price_min"][0]).value.value != 0.0 ==>
      PriceParam(f, parse).value[10..10 + |parse(f["price_min"][0]).value.text|] == parse(f["price_min"][0]).value.text
  {
  }

  /** The language `guess_language` detects in the query. */
  datatype Lang = En | Ar

  function QfFields(lang: Lang): seq<string>
  {
    match lang
    case En => ["sku", "en_model", "en_title", "en_title_exact", "en_cat", "en_cat_exact", "en_brand", "en_kw", "en_fulltext_attr"]
    case Ar => ["sku", "ar_model", "ar_title", "ar_title_exact", "ar_cat", "ar_cat_exact", "ar_brand", "ar_kw", "ar_fulltext_attr"]
  }

  function QfWeight(field: string): nat
  {
    if field == "sku" then 60
    else if field in {"en_model", "ar_model"} then 1
    else if field in {"en_title", "en_title_exact", "en_cat", "ar_cat"} then 30
    else if field in {"en_cat_exact", "en_brand", "ar_title", "ar_cat_exact", "ar_brand"} then 40
    else if field == "ar_title_exact" then 50
    else if field in {"en_kw", "ar_kw"} then 10
    else 20
  }

  /** The weighted query fields `field^weight`, space separated. */
  function Qf(lang: Lang): string
  {
    var fs := QfFields(lang);
    Text.Join(seq(|fs|, k requires 0 <= k < |fs| => fs[k] + "^" + Text.NatToString(QfWeight(fs[k]))), " ")
  }

  // ---------------------------------------------------------------------
  // Paging

  /** `max(page, 1) if page else 1`. */
  function PageNr(page: Option<int>): (n: int)
    ensures n >= 1
    ensures page.Some? && page.value >= 1 ==> n == page.value
    ensures page.None? || page.value < 1 ==> n == 1
  {
    if page.Some? && page.value != 0 then (if page.value > 1 then page.value else 1) else 1
  }

  /** Python's `//`, which rounds toward negative infinity. */
  function FloorDiv(a: int, b: int): int
    requires b != 0
  {
    if b > 0 then a / b else (-a) / (-b)
  }

  const TypeError := "TypeError"
  const ZeroDivisionError := "ZeroDivisionError"

  /** `max((nbHits + rows - 1) // rows, 1)`. */
  function NbPages(nbHits: int, rows: int): Result<int>
  {
    if rows == 0 then Failure(ZeroDivisionError)
    else
      var n := FloorDiv(nbHits + rows - 1, rows);
      Success(if n > 1 then n else 1)
  }

  /** For a positive page size, the page count is at least 1 and is the
      number of pages `nbHits` hits fill: the last page is not empty. */
  lemma NbPagesCeil(nbHits: nat, rows: int)
    requires rows > 0
    ensures NbPages(nbHits, rows).Success?
    ensures NbPages(nbHits, rows).value >= 1
    ensures nbHits == 0 ==> NbPages(nbHits, rows).value == 1
    ensures nbHits > 0 ==>
      (NbPages(nbHits, rows).value - 1) * rows < nbHits <= NbPages(nbHits, rows).value * rows
  {
    var n := (nbHits + rows - 1) / rows;
    var m := (nbHits + rows - 1) % rows;
    assert nbHits + rows - 1 == n * rows + m;
    MulSign(n, rows);
    assert (n - 1) * rows == n * rows - rows;
  }

  lemma MulSign(n: int, rows: int)
    requires rows > 0
    ensures n <= 0 ==> n * rows <= 0
    ensures n >= 1 ==> n * rows >= rows
    ensures n <= -1 ==> n * rows <= -rows
    ensures n >= 0 ==> n * rows >= 0
  {
  }

  function Opt(p: Option<string>): seq<string>
  {
    if p.Some? then [p.value] else []
  }

  /** The query fields, sent only with a text query. */
  function QfPart(q: Option<string>, lang: Lang): seq<string>
  {
    if Truthy(q) then ["qf=" + Qf(lang)] else []
  }

  /** The sort and the filters, in the order the handler appends them. */
  function FilterPart(sq: SQ.SearchQuery, cats: CategoryMap, parse: string -> Option<Bound>, clean: string -> string): seq<string>
    requires SQ.Normalised(sq.f)
  {
    Opt(SortParam(sq.sort)) +
    Opt(PriceParam(sq.f, parse)) +
    (if "category" in sq.f then Opt(CatIdParam(sq.f["category"], cats)) else []) +
    (if "brand" in sq.f then Opt(BrandParam(sq.f["brand"], clean)) else [])
  }

  /** Page size, offset of the requested page and the field list. */
  function PagePart(page: Option<int>, rows: int): seq<string>
  {
    ["rows=" + Text.IntToString(rows), "start=" + Text.IntToString((PageNr(page) - 1) * rows), "fl=sku"]
  }

  /** The Solr parameters of a query; `rows=None` fails at the `start`
      arithmetic. */
  function ParamsSpec(sq: SQ.SearchQuery, cats: CategoryMap, lang: Lang,
                      parse: string -> Option<Bound>, clean: string -> string): Result<seq<string>>
    requires SQ.Normalised(sq.f)
  {
    if sq.rows.None? then Failure(TypeError)
    else Success(QfPart(sq.q, lang) + FilterPart(sq, cats, parse, clean) + PagePart(sq.page, sq.rows.value))
  }

  /** Every sort or filter parameter starts with `sort=` or `fq=`. */
  lemma FilterPartPrefixes(sq: SQ.SearchQuery, cats: CategoryMap, parse: string -> Option<Bound>, clean: string -> string)
    requires SQ.Normalised(sq.f)
    ensures forall p :: p in FilterPart(sq, cats, parse, clean) ==> |p| >= 3 && (p[..3] == "fq=" || p[..3] == "sor")
  {
  }

  /** Every successful list ends with the page size, the offset of the
      requested page and the field list, and the offset is never negative
      for a positive page size. */
  lemma ParamsTail(sq: SQ.SearchQuery, cats: CategoryMap, lang: Lang,
                   parse: string -> Option<Bound>, clean: string -> string)
    requires SQ.Normalised(sq.f)
    ensures ParamsSpec(sq, cats, lang, parse, clean).Success? <==> sq.rows.Some?
    ensures ParamsSpec(sq, cats, lang, parse, clean).Success? ==>
      var ps := ParamsSpec(sq, cats, lang, parse, clean).value;
      |ps| >= 3 && ps[|ps| - 3..] == PagePart(sq.page, sq.rows.value) &&
      (sq.rows.value > 0 ==> (PageNr(sq.page) - 1) * sq.rows.value >= 0)
  {
    if sq.rows.Some? {
      Pieces(QfPart(sq.q, lang), FilterPart(sq, cats, parse, clean), PagePart(sq.page, sq.rows.value));
      if sq.rows.value > 0 {
        MulSign(PageNr(sq.page) - 1, sq.rows.value);
      }
    }
  }

  /** The query fields are sent, first, exactly when there is a text query. */
  lemma ParamsQfIff(sq: SQ.SearchQuery, cats: CategoryMap, lang: Lang,
                    parse: string -> Option<Bound>, clean: string -> string)
    requires SQ.Normalised(sq.f) && sq.rows.Some?
    ensures Truthy(sq.q) <==> ParamsSpec(sq, cats, lang, parse, clean).value[0] == "qf=" + Qf(lang)
  {
    FilterPartPrefixes(sq, cats, parse, clean);
    var tail := PagePart(sq.page, sq.rows.value);
    PagePartHead(sq.page, sq.rows.value);
    QfFirst(Truthy(sq.q), QfPart(sq.q, lang), FilterPart(sq, cats, parse, clean), tail, Qf(lang));
  }

  lemma PagePartHead(page: Option<int>, rows: int)
    ensures |PagePart(page, rows)| == 3 && |PagePart(page, rows)[0]| >= 3 && PagePart(page, rows)[0][..3] == "row"
  {
  }

  lemma QfFirst(hasQ: bool, qf: seq<string>, mid: seq<string>, tail: seq<string>, x: string)
    requires qf == (if hasQ then ["qf=" + x] else [])
    requires forall p :: p in mid ==> |p| >= 3 && (p[..3] == "fq=" || p[..3] == "sor")
    requires |tail| == 3 && |tail[0]| >= 3 && tail[0][..3] == "row"
    ensures hasQ <==> (qf + mid + tail)[0] == "qf=" + x
  {
    Pieces(qf, mid, tail);
    if !hasQ {
      if mid != [] {
        assert mid[0] in mid;
        NotQf(mid[0], x);
      } else {
        NotQf(tail[0], x);
      }
    }
  }

  lemma NotQf(p: string, x: string)
    requires |p| >= 3 && p[..3] != "qf="
    ensures p != "qf=" + x
  {
    assert ("qf=" + x)[..3] == "qf=";
  }

  lemma Pieces(qf: seq<string>, mid: seq<string>, tail: seq<string>)
    requires |tail| == 3
    ensures var ps := qf + mid + tail;
      |ps| >= 3 && ps[|ps| - 3..] == tail &&
      (qf != [] ==> ps[0] == qf[0]) &&
      (qf == [] && mid != [] ==> ps[0] == mid[0]) &&
      (qf == [] && mid == [] ==> ps[0] == tail[0])
  {
    var ps := qf + mid + tail;
    assert ps[|ps| - 3..] == tail;
  }

  /** The hits shown in rows of three. */
  function ProductRows<T>(offers: seq<T>): (r: seq<seq<T>>)
    ensures Chunks.Flatten(r) == offers
    ensures forall k :: 0 <= k < |r| ==> 0 < |r[k]| <= 3
  {
    Chunks.ChunkedFacts(offers, 3);
    Chunks.Chunked(offers, 3)
  }

  // ---------------------------------------------------------------------
  // Navpills and the category facet

  datatype Pill =
    | StickyPill(name: string)
    | ChildPill(name: string, parentCode: string, code: string, isSelected: bool)

  datatype FacetEntry = FacetEntry(name: string, code: string, children: seq<FacetEntry>, isSelected: bool)

  /** The categories in map order whose parent is `root`. */
  function ChildRows(cats: CategoryMap, root: int): (r: seq<CategoryRow>)
    ensures forall c :: c in r <==> c in cats && c.parent == Some(root)
  {
    if cats == [] then []
    else
      var last := cats[|cats| - 1];
      assert forall c :: c in cats <==> c in cats[..|cats| - 1] || c == last;
      ChildRows(cats[..|cats| - 1], root) + (if last.parent == Some(root) then [last] else [])
  }

  /** The categories in map order without a parent. */
  function RootRows(cats: CategoryMap): (r: seq<CategoryRow>)
    ensures forall c :: c in r <==> c in cats && !Category.HasParent(c)
  {
    if cats == [] then []
    else
      var last := cats[|cats| - 1];
      assert forall c :: c in cats <==> c in cats[..|cats| - 1] || c == last;
      RootRows(cats[..|cats| - 1]) + (if Category.HasParent(last) then [] else [last])
  }

  function ChildPills(children: seq<CategoryRow>, parentCode: string, selected: Option<int>, lang: string): seq<Pill>
  {
    seq(|children|, k requires 0 <= k < |children| =>
      ChildPill(Category.Name(children[k], lang), parentCode, children[k].code, Some(children[k].id) == selected))
  }

  function FacetData(cats: CategoryMap, root: int, selected: Option<int>, lang: string): seq<FacetEntry>
  {
    var roots := RootRows(cats);
    var children := ChildRows(cats, root);
    seq(|roots|, k requires 0 <= k < |roots| =>
      FacetEntry(Category.Name(roots[k], lang), roots[k].code,
                 if roots[k].id == root then
                   seq(|children|, j requires 0 <= j < |children| =>
                     FacetEntry(Category.Name(children[j], lang), children[j].code, [], Some(children[j].id) == selected))
                 else [],
                 roots[k].id == root))
  }

  const KeyError := "KeyError"

  /** `get_quickfilters_navpills_facets()`: nothing without a (truthy)
      root; otherwise a sticky pill for the root then a pill per child of
      the root, and the category facet listing every root. */
  function QuickFilters(sel: Selection, cats: CategoryMap, lang: string): Result<(seq<Pill>, seq<FacetEntry>)>
  {
    if sel.root.None? || sel.root.value == 0 then Success(([], []))
    else
      match Find(cats, sel.root)
      case None => Failure(KeyError)
      case Some(r) =>
        var pills := [StickyPill(Category.Name(r, lang))] + ChildPills(ChildRows(cats, r.id), r.code, sel.child, lang);
        Success((pills, FacetData(cats, r.id, sel.child, lang)))
  }

  /** The selection the handler computes always names a category in the
      map, so the quick filters never fail. */
  lemma QuickFiltersTotal(q: Option<string>, f: SQ.Filters, cats: CategoryMap, lang: string)
    ensures QuickFilters(SelectedForNavpills(q, f, cats), cats, lang).Success?
  {
    SelectionSound(q, f, cats);
  }

  /** With a root selected, the pills are the sticky root pill followed by
      one pill per child of the root in map order, selected exactly when it
      is the selected child. */
  lemma NavpillsFacts(sel: Selection, cats: CategoryMap, lang: string)
    requires sel.root.Some? && sel.root.value != 0 && QuickFilters(sel, cats, lang).Success?
    ensures var pills := QuickFilters(sel, cats, lang).value.0;
      var kids := ChildRows(cats, sel.root.value);
      |pills| == |kids| + 1 &&
      pills[0].StickyPill? &&
      forall k :: 0 <= k < |kids| ==>
        pills[k + 1].ChildPill? && pills[k + 1].code == kids[k].code &&
        (pills[k + 1].isSelected <==> sel.child == Some(kids[k].id))
  {
    var r := Find(cats, sel.root).value;
    var kids := ChildRows(cats, r.id);
    var tail := ChildPills(kids, r.code, sel.child, lang);
    var pills := [StickyPill(Category.Name(r, lang))] + tail;
    assert QuickFilters(sel, cats, lang).value.0 == pills;
    forall k | 0 <= k < |kids| ensures pills[k + 1] == tail[k] {
    }
  }

  /** The pills name every child of the root, wherever their rows stand
      relative to the root's, unlike the root's `children` list. */
  lemma NavpillsListAllChildren(cats: CategoryMap, root: int)
    requires root != 0
    ensures Ids(ChildRows(cats, root)) == Category.ChildrenIn(cats, root, 0, |cats|)
  {
    ChildIdsAll(cats, root, |cats|);
    assert cats[..|cats|] == cats;
  }

  function Ids(rows: seq<CategoryRow>): seq<int>
  {
    seq(|rows|, k requires 0 <= k < |rows| => rows[k].id)
  }

  lemma {:induction false} ChildIdsAll(cats: CategoryMap, root: int, n: nat)
    requires root != 0 && n <= |cats|
    ensures Ids(ChildRows(cats[..n], root)) == Category.ChildrenIn(cats, root, 0, n)
  {
    if n > 0 {
      ChildIdsAll(cats, root, n - 1);
      assert cats[..n][..n - 1] == cats[..n - 1];
      var init := ChildRows(cats[..n - 1], root);
      var last := cats[n - 1];
      if last.parent == Some(root) {
        assert Ids(init + [last]) == Ids(init) + [last.id];
      } else {
        assert init + [] == init;
      }
    }
  }

  /** The facet lists every root category in map order; only the selected
      root is marked and only it lists its children. */
  lemma FacetFacts(sel: Selection, cats: CategoryMap, lang: string)
    requires sel.root.Some? && sel.root.value != 0 && QuickFilters(sel, cats, lang).Success?
    ensures var facet := QuickFilters(sel, cats, lang).value.1;
      var roots := RootRows(cats);
      |facet| == |roots| &&
      forall k :: 0 <= k < |roots| ==>
        facet[k].code == roots[k].code &&
        (facet[k].isSelected <==> roots[k].id == sel.root.value) &&
        (roots[k].id != sel.root.value ==> facet[k].children == []) &&
        (roots[k].id == sel.root.value ==> |facet[k].children| == |ChildRows(cats, sel.root.value)|)
  {
  }

  /** Without a root there are neither pills nor facets. */
  lemma NoRootNoPills(sel: Selection, cats: CategoryMap, lang: string)
    requires sel.root.None?
    ensures QuickFilters(sel, cats, lang) == Success(([], []))
  {
  }
}
