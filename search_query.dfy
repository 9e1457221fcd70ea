// The catalog's search request: the text query, the sort, the facet
// filters `f` (normalised by `validate_f`) and the paging fields, with
// their bounds and defaults.
module SearchQuery {
  import opened Wrappers

  /** A filter value as it arrives: a single value or a list of them; a
      missing or empty value is falsy. */
  datatype RawFilter = Scalar(v: Option<string>) | Many(vs: seq<Option<string>>)

  /** Attribute name to its non-empty list of non-empty values. */
  type Filters = map<string, seq<string>>

  predicate Truthy(v: Option<string>)
  {
    v.Some? && v.value != ""
  }

  /** `[each for each in val if each]`. */
  function KeepTruthy(vs: seq<Option<string>>): (r: seq<string>)
    ensures |r| <= |vs|
    ensures forall x :: x in r <==> Some(x) in vs && x != ""
  {
    if vs == [] then []
    else
      var last := vs[|vs| - 1];
      KeepTruthy(vs[..|vs| - 1]) + (if Truthy(last) then [last.value] else [])
  }

  /** `if not isinstance(val, (list, tuple)): val = [val]`. */
  function AsList(raw: RawFilter): seq<Option<string>>
  {
    match raw
    case Scalar(v) => [v]
    case Many(vs) => vs
  }

  /** `validate_f`: a falsy input gives `{}`; each attribute keeps its
      truthy values, and an attribute left with none is dropped. */
  function ValidateF(v: Option<map<string, RawFilter>>): Filters
  {
    if v.None? then map[]
    else map a | a in v.value && KeepTruthy(AsList(v.value[a])) != [] :: KeepTruthy(AsList(v.value[a]))
  }

  /** What `validate_f` returns: every list non-empty, every value non-empty. */
  predicate Normalised(f: Filters)
  {
    forall a :: a in f ==> f[a] != [] && forall k :: 0 <= k < |f[a]| ==> f[a][k] != ""
  }

  /** A normalised dict handed back as input. */
  function Lift(f: Filters): map<string, RawFilter>
  {
    map a | a in f :: Many(seq(|f[a]|, k requires 0 <= k < |f[a]| => Some(f[a][k])))
  }

  /** The output is normalised; an attribute survives exactly when it has a
      truthy value, and a truthy scalar becomes a one-element list. */
  lemma ValidateFFacts(v: Option<map<string, RawFilter>>)
    ensures Normalised(ValidateF(v))
    ensures v.None? ==> ValidateF(v) == map[]
    ensures forall a :: a in ValidateF(v) <==>
      v.Some? && a in v.value && exists x :: Some(x) in AsList(v.value[a]) && x != ""
    ensures forall a, s :: v.Some? && a in v.value && v.value[a] == Scalar(Some(s)) && s != "" ==>
      a in ValidateF(v) && ValidateF(v)[a] == [s]
  {
    var r := ValidateF(v);
    forall a | a in r
      ensures r[a] != [] && forall k :: 0 <= k < |r[a]| ==> r[a][k] != ""
      ensures exists x :: Some(x) in AsList(v.value[a]) && x != ""
    {
      assert r[a][0] in r[a];
      forall k | 0 <= k < |r[a]| ensures r[a][k] != "" {
        assert r[a][k] in r[a];
      }
    }
    forall a | v.Some? && a in v.value && (exists x :: Some(x) in AsList(v.value[a]) && x != "")
      ensures a in r
    {
      var x :| Some(x) in AsList(v.value[a]) && x != "";
      assert x in KeepTruthy(AsList(v.value[a]));
    }
    forall a, s | v.Some? && a in v.value && v.value[a] == Scalar(Some(s)) && s != ""
      ensures a in r && r[a] == [s]
    {
      var one := [Some(s)];
      assert one[..0] == [];
      assert KeepTruthy(one) == [s];
    }
  }

  lemma {:induction false} KeepTruthyAll(xs: seq<string>)
    requires forall k :: 0 <= k < |xs| ==> xs[k] != ""
    ensures KeepTruthy(seq(|xs|, k requires 0 <= k < |xs| => Some(xs[k]))) == xs
  {
    var vs := seq(|xs|, k requires 0 <= k < |xs| => Some(xs[k]));
    if xs != [] {
      var init := xs[..|xs| - 1];
      assert vs[..|vs| - 1] == seq(|init|, k requires 0 <= k < |init| => Some(init[k]));
      KeepTruthyAll(init);
      assert init + [xs[|xs| - 1]] == xs;
    }
  }

  /** Normalising an already normalised dict leaves it unchanged. */
  lemma ValidateFFixed(f: Filters)
    requires Normalised(f)
    ensures ValidateF(Some(Lift(f))) == f
  {
    var r := ValidateF(Some(Lift(f)));
    forall a | a in f ensures a in r && r[a] == f[a] {
      KeepTruthyAll(f[a]);
    }
  }

  /** Hence `validate_f` is idempotent. */
  lemma ValidateFIdempotent(v: Option<map<string, RawFilter>>)
    ensures ValidateF(Some(Lift(ValidateF(v)))) == ValidateF(v)
  {
    ValidateFFacts(v);
    ValidateFFixed(ValidateF(v));
  }

  // ---------------------------------------------------------------------

  datatype SearchSort = SearchSort(sortBy: string, dir: string)

  datatype SearchQuery = SearchQuery(q: Option<string>, sort: Option<SearchSort>, f: Filters,
                                     page: Option<int>, rows: Option<int>)

  /** `SearchQuery()`. */
  const Default := SearchQuery(None, None, map[], Some(1), Some(21))

  const ValidationError := "ValidationError"
  const MaxQueryLength := 50

  /** The fields the query string supplies; `None` when absent. */
  datatype Params = Params(q: Option<string>, sort: Option<SearchSort>, f: Option<map<string, RawFilter>>,
                           page: Option<int>, rows: Option<int>)

  const NoParams := Params(None, None, None, None, None)

  /** `SearchQuery(**params)`: `q` must hold 1 to 50 characters; missing
      fields take their defaults. */
  function Make(p: Params): Result<SearchQuery>
  {
    if p.q.Some? && !(1 <= |p.q.value| <= MaxQueryLength) then Failure(ValidationError)
    else Success(SearchQuery(p.q, p.sort, if p.f.Some? then ValidateF(p.f) else map[],
                             Some(p.page.GetOr(1)), Some(p.rows.GetOr(21))))
  }

  /** `get_from_query_params()`. */
  function FromQueryParams(p: Option<Params>): Result<SearchQuery>
  {
    if p.None? || p.value == NoParams then Success(Default) else Make(p.value)
  }

  /** A query is accepted exactly when its text, if any, holds 1 to 50
      characters; the filters come out normalised, `page` defaults to 1
      and `rows` to 21. */
  lemma MakeFacts(p: Params)
    ensures Make(p).Success? <==> p.q.None? || 1 <= |p.q.value| <= 50
    ensures Make(p).Success? ==>
      var sq := Make(p).value;
      Normalised(sq.f) && sq.q == p.q &&
      (p.page.None? ==> sq.page == Some(1)) && (p.rows.None? ==> sq.rows == Some(21)) &&
      (p.page.Some? ==> sq.page == p.page) && (p.rows.Some? ==> sq.rows == p.rows)
  {
    ValidateFFacts(p.f);
  }

  /** No query parameters, or none at all, give the defaults. */
  lemma NoParamsGiveDefault()
    ensures FromQueryParams(None) == Success(Default)
    ensures Make(NoParams) == Success(Default)
  {
  }
}
