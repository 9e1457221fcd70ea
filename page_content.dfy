// CMS page content: the widgets of a page assembled from its widget assets.
// Assets outside their date window, of an unknown widget type or failing
// their criterion are skipped; the first asset of a widget creates it with
// the fields of its type, later ones only add banners; widgets whose banner
// list stayed empty are dropped, and banners and widgets come out ordered by
// position, without it.
module PageContent {
  import opened Wrappers
  import Text
  import StableSort

  /** A banner while the widgets are being assembled. */
  datatype Banner = Banner(code: string, position: Option<int>, linkUrl: Option<string>, imageUrl: string)

  /** A banner as the page shows it: `position` has been popped. */
  datatype ShownBanner = ShownBanner(code: string, linkUrl: Option<string>, imageUrl: string)

  /** A value `json.loads` gives for a member of `widget_misc`: `null`, a
      boolean, a number, a string, an object (by its number of members) or
      a list of banner objects. */
  datatype Misc = MNull | MBool(b: bool) | MNum(n: int) | MStr(s: string) | MObj(size: nat) | MList(items: seq<Banner>)

  /** A widget field. `FMisc` holds a value merged in from `widget_misc`. */
  datatype Field =
    | FText(text: Option<string>)
    | FNum(num: Option<int>)
    | FHeader(header: map<string, Option<string>>)
    | FBanners(banners: seq<Banner>)
    | FShown(shown: seq<ShownBanner>)
    | FMisc(misc: Misc)

  type Widget = map<string, Field>

  /** A row of the page's widget assets. */
  datatype Asset = Asset(widgetCode: string, widgetType: string, widgetTitle: string, widgetPosition: int,
                         widgetMisc: Option<string>, numPerRow: Option<string>, titleColor: Option<string>,
                         productUrl: Option<string>, assetCode: Option<string>, assetPosition: Option<int>,
                         link: Option<string>, image: Option<string>, criteria: Option<string>,
                         startDate: Option<int>, endDate: Option<int>)

  /** The request and the outside world: the clock, the language, the CDN
      host, the criterion evaluator (`None` when evaluating raises) and the
      `widget_misc` decoder (`None` when it does not give an object). */
  datatype Env = Env(now: int, lang: string, cdnHost: string, evaluate: string -> Option<bool>,
                     decodeMisc: string -> Option<map<string, Misc>>)

  const KeyError := "KeyError"
  const TypeError := "TypeError"
  const AttributeError := "AttributeError"

  /** Python's `len()` of a field: `None` when it has none (`None`, a
      number or a boolean). */
  function Len(f: Field): Option<nat>
  {
    match f
    case FText(t) => if t.Some? then Some(|t.value|) else None
    case FNum(_) => None
    case FHeader(h) => Some(|h|)
    case FBanners(bs) => Some(|bs|)
    case FShown(sh) => Some(|sh|)
    case FMisc(m) =>
      match m
      case MStr(t) => Some(|t|)
      case MObj(n) => Some(n)
      case MList(bs) => Some(|bs|)
      case _ => None
  }

  /** The banners of a field that is a list of banners, built by the
      assembly or set by `widget_misc`. */
  function Listed(f: Field): Option<seq<Banner>>
  {
    match f
    case FBanners(bs) => Some(bs)
    case FMisc(MList(bs)) => Some(bs)
    case _ => None
  }

  /** `widget_parameters`: the fields each widget type shows. */
  const WidgetParameters: map<string, seq<string>> := map[
    "bannerModuleStrip" := ["type", "widgetCode", "numPerRow", "moduleHeader", "banners"],
    "bannerSlider" := ["type", "widgetCode", "numPerRow", "moduleHeader", "banners"],
    "bannerModule" := ["type", "widgetCode", "numPerRow", "moduleHeader", "banners"],
    "productCarousel" := ["type", "widgetCode", "productUrl", "moduleHeader"],
    "bannerModuleCarousel" := ["type", "widgetCode", "numPerRow", "productUrl", "moduleHeader", "banners"],
    "productList" := ["type", "widgetCode", "productUrl", "moduleHeader", "showAllURL", "initialNum"]
  ]

  predicate Truthy(s: Option<string>)
  {
    s.Some? && s.value != ""
  }

  /** Python's `x in s` for strings: `x` occurs in `s`. */
  predicate Within(x: string, s: string)
    decreases |s|
  {
    |x| <= |s| && (s[..|x|] == x || Within(x, s[1..]))
  }

  /** Whether an asset is taken: inside its dates, of a known type, and
      with a criterion that holds without raising. */
  predicate Shown(a: Asset, env: Env)
  {
    !(a.startDate.Some? && env.now < a.startDate.value) &&
    !(a.endDate.Some? && a.endDate.value < env.now) &&
    a.widgetType in WidgetParameters &&
    (Truthy(a.criteria) ==> env.evaluate(a.criteria.value) == Some(true))
  }

  /** The module header of a new widget. */
  function Header(a: Asset, env: Env): map<string, Option<string>>
  {
    var base := map["titleText" := Some(a.widgetTitle), "titleColor" := a.titleColor];
    var linked := if a.widgetType in ["productCarousel", "bannerModuleCarousel"] then base["linkUrl" := a.productUrl] else base;
    if Within(a.widgetType, "productCarousel") then
      linked["linkText" := Some(if Text.Lower(env.lang) == "en" then "VIEW ALL" else "عرض الكل")]
    else linked
  }

  /** Every field the first asset writes. */
  function Built(a: Asset, env: Env): Widget
  {
    var w := map[
      "type" := FText(Some(a.widgetType)),
      "moduleHeader" := FHeader(Header(a, env)),
      "widgetCode" := FText(Some(a.widgetCode)),
      "numPerRow" := FText(a.numPerRow),
      "position" := FNum(Some(a.widgetPosition)),
      "productUrl" := FText(if a.productUrl.Some? then Some(a.productUrl.value + "&productsOnly=1") else None),
      "banners" := FBanners([])];
    if Within(a.widgetType, "productList") then
      w["initialNum" := FNum(Some(20))]["showAllURL" := FText(a.productUrl)]
    else w
  }

  /** A new widget: the fields of its type and `position`, then whatever
      `widget_misc` decodes to, merged over them. */
  function NewWidget(a: Asset, env: Env): Widget
    requires a.widgetType in WidgetParameters
  {
    var built := Built(a, env);
    var params := WidgetParameters[a.widgetType];
    var w := map p | p in built && (p in params || p == "position") :: built[p];
    if a.widgetMisc.Some? && env.decodeMisc(a.widgetMisc.value).Some? then w + MiscFields(env.decodeMisc(a.widgetMisc.value).value)
    else w
  }

  /** The members of `widget_misc` as widget fields. */
  function MiscFields(d: map<string, Misc>): Widget
  {
    map k | k in d :: FMisc(d[k])
  }

  function BannerOf(a: Asset, env: Env): Banner
  {
    Banner(a.assetCode.GetOr(""), a.assetPosition, a.link,
           env.cdnHost + (if Truthy(a.image) then a.image.value else ""))
  }

  /** Appending an asset's banner: a widget without a `banners` field is a
      `KeyError`; `.append` on a `banners` that `widget_misc` set to
      anything but a list is an `AttributeError`. The assembly writes only
      banner lists and `widget_misc` values under `banners`. */
  function AddBanner(w: Widget, a: Asset, env: Env): (r: Result<Widget>)
    ensures r.Success? <==> "banners" in w && Listed(w["banners"]).Some?
    ensures r.Success? ==> r.value == w["banners" := FBanners(Listed(w["banners"]).value + [BannerOf(a, env)])]
    ensures r.Failure? ==> r.error == (if "banners" in w then AttributeError else KeyError)
  {
    if "banners" !in w then Failure(KeyError)
    else match Listed(w["banners"])
      case Some(bs) => Success(w["banners" := FBanners(bs + [BannerOf(a, env)])])
      case None => Failure(AttributeError)
  }

  /** The widgets built so far and the order in which they were created. */
  datatype Acc = Acc(widgets: map<string, Widget>, order: seq<string>)

  predicate Distinct(s: seq<string>)
  {
    forall i, j :: 0 <= i < j < |s| ==> s[i] != s[j]
  }

  /** One asset of the loop. */
  function Step(acc: Acc, a: Asset, env: Env): Result<Acc>
  {
    if !Shown(a, env) then Success(acc)
    else
      var created := if a.widgetCode in acc.widgets then acc
                     else Acc(acc.widgets[a.widgetCode := NewWidget(a, env)], acc.order + [a.widgetCode]);
      if Truthy(a.assetCode) then
        if a.widgetCode in created.widgets then
          var w :- AddBanner(created.widgets[a.widgetCode], a, env);
          Success(created.(widgets := created.widgets[a.widgetCode := w]))
        else Failure(KeyError)
      else Success(created)
  }

  /** The assembly loop over the assets. The widgets created are exactly
      those of the shown assets, listed once each in creation order. */
  function Collect(assets: seq<Asset>, env: Env): (r: Result<Acc>)
    ensures r.Success? ==> Distinct(r.value.order)
    ensures r.Success? ==> forall c :: c in r.value.order <==> c in r.value.widgets
    ensures r.Success? ==> forall c :: c in r.value.widgets <==>
      exists i :: 0 <= i < |assets| && Shown(assets[i], env) && assets[i].widgetCode == c
  {
    if assets == [] then Success(Acc(map[], []))
    else
      var acc :- Collect(assets[..|assets| - 1], env);
      assert forall i :: 0 <= i < |assets| - 1 ==> assets[..|assets| - 1][i] == assets[i];
      Step(acc, assets[|assets| - 1], env)
  }

  /** Banner order: ascending position. */
  function BannerKey(b: Banner): int
  {
    b.position.GetOr(0)
  }

  predicate AllPlaced(bs: seq<Banner>)
  {
    forall i :: 0 <= i < |bs| ==> bs[i].position.Some?
  }

  function Unplaced(bs: seq<Banner>): (r: seq<ShownBanner>)
    ensures |r| == |bs| && forall i :: 0 <= i < |bs| ==>
      r[i] == ShownBanner(bs[i].code, bs[i].linkUrl, bs[i].imageUrl)
  {
    if bs == [] then [] else [ShownBanner(bs[0].code, bs[0].linkUrl, bs[0].imageUrl)] + Unplaced(bs[1..])
  }

  /** A widget's position when it is a number; a boolean from
      `widget_misc` compares as 0 or 1. */
  function PositionOf(w: Widget): Option<int>
  {
    if "position" !in w then None
    else match w["position"]
      case FNum(n) => n
      case FMisc(MNum(n)) => Some(n)
      case FMisc(MBool(b)) => Some(if b then 1 else 0)
      case _ => None
  }

  /** The clean-up of one widget. `len(banners)` of a value without a
      length is a `TypeError`; a length of 0 drops the widget (`[]`).
      Otherwise the banners are sorted by position and lose it, and the
      widget is paired with its own position. Sorting reads the position
      of each item: a shown banner has none left (`KeyError`), and a string
      or an object has no `.sort` (`AttributeError`). Two or more banners
      are compared, which fails when one has no position. */
  function Tidy(w: Widget): Result<seq<(Option<int>, Widget)>>
  {
    var tidied :- if "banners" !in w then Success(Some(w))
      else
        var f := w["banners"];
        if Len(f).None? then Failure(TypeError)
        else if Len(f).value == 0 then Success(None)
        else if f.FShown? then Failure(KeyError)
        else match Listed(f)
          case None => Failure(AttributeError)
          case Some(bs) =>
            if |bs| >= 2 && !AllPlaced(bs) then Failure(TypeError)
            else Success(Some(w["banners" := FShown(Unplaced(StableSort.Sort(bs, BannerKey)))]));
    match tidied
    case None => Success([])
    case Some(t) => Success([(PositionOf(t), t)])
  }

  /** The clean-up loop, in creation order. */
  function Prune(widgets: map<string, Widget>, order: seq<string>): Result<seq<(Option<int>, Widget)>>
    requires forall c :: c in order ==> c in widgets
  {
    if order == [] then Success([])
    else
      var kept :- Prune(widgets, order[..|order| - 1]);
      var one :- Tidy(widgets[order[|order| - 1]]);
      Success(kept + one)
  }

  function PairKey(p: (Option<int>, Widget)): int
  {
    p.0.GetOr(0)
  }

  /** `widgets.sort(key=lambda a: a['position'])`: the key of every widget
      is read, which fails when one has no `position`; two or more widgets
      are compared, which fails unless every position is a number. */
  function OrderByPosition(kept: seq<(Option<int>, Widget)>): Result<seq<(Option<int>, Widget)>>
  {
    if exists i :: 0 <= i < |kept| && "position" !in kept[i].1 then Failure(KeyError)
    else if |kept| >= 2 && exists i :: 0 <= i < |kept| && kept[i].0.None? then Failure(TypeError)
    else Success(StableSort.Sort(kept, PairKey))
  }

  /** The widgets without their positions. */
  function Unpositioned(ps: seq<(Option<int>, Widget)>): (r: seq<Widget>)
    ensures |r| == |ps| && forall i :: 0 <= i < |ps| ==> r[i] == ps[i].1 - {"position"}
  {
    if ps == [] then [] else [ps[0].1 - {"position"}] + Unpositioned(ps[1..])
  }

  /** `get_widgets`. */
  function GetWidgetsSpec(assets: seq<Asset>, env: Env): Result<seq<Widget>>
  {
    var acc :- Collect(assets, env);
    var kept :- Prune(acc.widgets, acc.order);
    var ps :- OrderByPosition(kept);
    Success(Unpositioned(ps))
  }

  // ---------------------------------------------------------------------
  // Properties

  /** The substring tests `in ('productList')` and `in ('productCarousel')`
      behave as equality on every registered widget type. */
  lemma {:induction false} WithinHead(x: string, s: string)
    requires x != [] && Within(x, s)
    ensures x[0] in s
    decreases |s|
  {
    if s[..|x|] != x {
      WithinHead(x, s[1..]);
      assert x[0] in s[1..];
    } else {
      assert s[0] == s[..|x|][0];
    }
  }

  lemma WithinRegistered(t: string)
    requires t in WidgetParameters
    ensures Within(t, "productList") <==> t == "productList"
    ensures Within(t, "productCarousel") <==> t == "productCarousel"
  {
    RegisteredTypes(t);
    if t == "productList" {
      WithinProductList();
    } else if t == "productCarousel" {
      WithinProductCarousel();
    } else {
      WithinBanner(t);
    }
  }

  /** The registered widget types: the banner ones and the two product ones. */
  lemma RegisteredTypes(t: string)
    requires t in WidgetParameters
    ensures (|t| > 0 && t[0] == 'b') || t == "productList" || t == "productCarousel"
  {
  }

  /** No banner type occurs in a product type: neither holds a `b`. */
  lemma WithinBanner(t: string)
    requires |t| > 0 && t[0] == 'b'
    ensures !Within(t, "productList") && !Within(t, "productCarousel")
  {
    var pl := "productList";
    var pc := "productCarousel";
    assert 'b' !in pl && 'b' !in pc;
    if Within(t, pl) { WithinHead(t, pl); }
    if Within(t, pc) { WithinHead(t, pc); }
  }

  lemma WithinProductList()
    ensures Within("productList", "productList") && !Within("productList", "productCarousel")
  {
    var pl := "productList";
    var pc := "productCarousel";
    assert pc[..|pl|][7] != pl[7];
    assert 'p' !in pc[1..];
    if Within(pl, pc[1..]) { WithinHead(pl, pc[1..]); }
  }

  lemma WithinProductCarousel()
    ensures Within("productCarousel", "productCarousel") && !Within("productCarousel", "productList")
  {
    assert |"productCarousel"| > |"productList"|;
  }

  /** Every field a widget type shows is among the fields written. */
  lemma ParamsBuilt(a: Asset, env: Env)
    requires a.widgetType in WidgetParameters
    ensures forall p :: p in WidgetParameters[a.widgetType] ==> p in Built(a, env)
  {
    WithinRegistered(a.widgetType);
  }

  /** The fields a new widget starts from. */
  lemma BuiltFacts(a: Asset, env: Env)
    ensures "position" in Built(a, env) && Built(a, env)["position"] == FNum(Some(a.widgetPosition))
    ensures "type" in Built(a, env) && Built(a, env)["type"] == FText(Some(a.widgetType))
    ensures "banners" in Built(a, env) && Built(a, env)["banners"] == FBanners([])
  {
  }

  /** A new widget holds exactly the fields of its type and `position`
      when `widget_misc` adds nothing. */
  lemma NewWidgetKeys(a: Asset, env: Env)
    requires a.widgetType in WidgetParameters
    requires a.widgetMisc.None? || env.decodeMisc(a.widgetMisc.value).None?
    ensures forall p :: p in NewWidget(a, env) <==> p in WidgetParameters[a.widgetType] || p == "position"
  {
    ParamsBuilt(a, env);
    BuiltFacts(a, env);
  }

  /** ... with an empty banner list when its type has one, its type and
      its own position. */
  lemma NewWidgetFields(a: Asset, env: Env)
    requires a.widgetType in WidgetParameters
    requires a.widgetMisc.None? || env.decodeMisc(a.widgetMisc.value).None?
    ensures "banners" in NewWidget(a, env) ==> NewWidget(a, env)["banners"] == FBanners([])
    ensures "position" in NewWidget(a, env) && NewWidget(a, env)["position"] == FNum(Some(a.widgetPosition))
    ensures "type" in NewWidget(a, env) && NewWidget(a, env)["type"] == FText(Some(a.widgetType))
  {
    ParamsBuilt(a, env);
    BuiltFacts(a, env);
  }

  /** A banner for a widget whose type shows no banners (a product
      carousel or list) is a `KeyError` that ends the whole page. */
  lemma BannerlessKeyError(acc: Acc, a: Asset, env: Env)
    requires Shown(a, env) && a.widgetCode !in acc.widgets && Truthy(a.assetCode)
    requires "banners" !in WidgetParameters[a.widgetType]
    requires a.widgetMisc.None? || env.decodeMisc(a.widgetMisc.value).None?
    ensures Step(acc, a, env) == Failure(KeyError)
  {
    NewWidgetKeys(a, env);
  }

  /** A widget is dropped exactly when its `banners` has length 0: an
      empty list, or an empty string or object set by `widget_misc`. */
  lemma TidyDrops(w: Widget)
    ensures Tidy(w) == Success([]) <==> "banners" in w && Len(w["banners"]) == Some(0)
    ensures "banners" in w && w["banners"] in {FBanners([]), FMisc(MStr("")), FMisc(MObj(0)), FMisc(MList([]))} ==>
      Tidy(w) == Success([])
  {
  }

  /** The clean-up fails exactly when `banners` has no length, is a
      non-empty value that is not a banner list, or holds two or more
      banners of which one lacks a position; each failure is the
      exception Python raises there. */
  lemma TidyFails(w: Widget)
    ensures Tidy(w).Failure? <==> ("banners" in w &&
      (Len(w["banners"]).None? ||
       (Len(w["banners"]).value > 0 &&
        (Listed(w["banners"]).None? ||
         (|Listed(w["banners"]).value| >= 2 && !AllPlaced(Listed(w["banners"]).value))))))
    ensures "banners" in w && Len(w["banners"]).None? ==> Tidy(w) == Failure(TypeError)
    ensures "banners" in w && Len(w["banners"]).Some? && Len(w["banners"]).value > 0 && Listed(w["banners"]).None? ==>
      Tidy(w) == Failure(if w["banners"].FShown? then KeyError else AttributeError)
    ensures ("banners" in w && Listed(w["banners"]).Some? && |Listed(w["banners"]).value| >= 2 &&
      !AllPlaced(Listed(w["banners"]).value)) ==> Tidy(w) == Failure(TypeError)
  {
  }

  /** A widget whose `widget_misc` set `banners` to a value of length 0
      and which got no banner is left off the page; set to a value with no
      length, it fails the page with a `TypeError`. */
  lemma MiscBannersAlone(a: Asset, env: Env)
    requires Shown(a, env) && !Truthy(a.assetCode) && a.widgetMisc.Some?
    requires env.decodeMisc(a.widgetMisc.value).Some? && "banners" in env.decodeMisc(a.widgetMisc.value).value
    ensures var m := env.decodeMisc(a.widgetMisc.value).value["banners"];
      (Len(FMisc(m)) == Some(0) ==> GetWidgetsSpec([a], env) == Success([])) &&
      (Len(FMisc(m)).None? ==> GetWidgetsSpec([a], env) == Failure(TypeError))
  {
    var c := a.widgetCode;
    var w := NewWidget(a, env);
    CollectOne(a, env);
    MiscBannersField(a, env);
    PruneOne(c, w);
  }

  /** A shown asset without an asset code creates its widget and nothing else. */
  lemma CollectOne(a: Asset, env: Env)
    requires Shown(a, env) && !Truthy(a.assetCode)
    ensures Collect([a], env) == Success(Acc(map[a.widgetCode := NewWidget(a, env)], [a.widgetCode]))
  {
    assert [a][..0] == [];
    assert [] + [a.widgetCode] == [a.widgetCode];
  }

  lemma MiscBannersField(a: Asset, env: Env)
    requires a.widgetType in WidgetParameters && a.widgetMisc.Some?
    requires env.decodeMisc(a.widgetMisc.value).Some? && "banners" in env.decodeMisc(a.widgetMisc.value).value
    ensures "banners" in NewWidget(a, env)
    ensures NewWidget(a, env)["banners"] == FMisc(env.decodeMisc(a.widgetMisc.value).value["banners"])
  {
    var d := env.decodeMisc(a.widgetMisc.value).value;
    assert "banners" in MiscFields(d);
  }

  /** The clean-up of one widget is that widget's own. */
  lemma PruneOne(c: string, w: Widget)
    ensures Prune(map[c := w], [c]) == Tidy(w)
  {
    assert [c][..0] == [];
    if Tidy(w).Success? {
      assert [] + Tidy(w).value == Tidy(w).value;
    }
  }

  /** The final sort fails exactly when a widget has no `position`, or when
      two or more widgets remain and one position is not a number; a single
      widget is never compared. Otherwise it orders the widgets by position
      and keeps each of them. */
  lemma OrderByPositionFacts(kept: seq<(Option<int>, Widget)>)
    ensures OrderByPosition(kept).Failure? <==>
      (exists i :: 0 <= i < |kept| && "position" !in kept[i].1) ||
      (|kept| >= 2 && exists i :: 0 <= i < |kept| && kept[i].0.None?)
    ensures OrderByPosition(kept).Success? ==>
      StableSort.SortedBy(OrderByPosition(kept).value, PairKey) &&
      multiset(OrderByPosition(kept).value) == multiset(kept)
  {
    if OrderByPosition(kept).Success? {
      StableSort.SortFacts(kept, PairKey);
    }
  }

  /** A kept widget keeps every field but its banners, which come out
      ordered by position, without it, and are the same banners; it is
      paired with its position. */
  lemma TidyKeeps(w: Widget)
    requires Tidy(w).Success? && Tidy(w).value != []
    ensures |Tidy(w).value| == 1
    ensures Tidy(w).value[0].1.Keys == w.Keys
    ensures Tidy(w).value[0].0 == PositionOf(Tidy(w).value[0].1) == PositionOf(w)
    ensures forall k :: k in w && k != "banners" ==> Tidy(w).value[0].1[k] == w[k]
    ensures "banners" in w ==> Listed(w["banners"]).Some? && exists s ::
      StableSort.SortedBy(s, BannerKey) && multiset(s) == multiset(Listed(w["banners"]).value) &&
      Tidy(w).value[0].1["banners"] == FShown(Unplaced(s))
  {
    if "banners" in w {
      var f := w["banners"];
      assert Len(f).Some? && Len(f).value > 0 && !f.FShown? && Listed(f).Some?;
      var bs := Listed(f).value;
      StableSort.SortFacts(bs, BannerKey);
      var s := StableSort.Sort(bs, BannerKey);
      assert Tidy(w).value[0].1["banners"] == FShown(Unplaced(s));
    }
  }

  /** What the clean-up loop keeps: only widgets of the creation order,
      each paired with its own position and holding a non-empty banner
      list when it has one. */
  lemma {:induction false} PruneFacts(widgets: map<string, Widget>, order: seq<string>)
    requires forall c :: c in order ==> c in widgets
    requires Prune(widgets, order).Success?
    ensures |Prune(widgets, order).value| <= |order|
    ensures forall p :: p in Prune(widgets, order).value ==>
      p.0 == PositionOf(p.1) &&
      ("banners" in p.1 ==> p.1["banners"].FShown? && p.1["banners"].shown != []) &&
      exists c :: c in order && Tidy(widgets[c]) == Success([p])
  {
    if order != [] {
      var init := order[..|order| - 1];
      var last := order[|order| - 1];
      PruneFacts(widgets, init);
      var kept := Prune(widgets, init).value;
      var one := Tidy(widgets[last]).value;
      assert Prune(widgets, order).value == kept + one;
      if one != [] {
        TidyKeeps(widgets[last]);
        TidyDrops(widgets[last]);
        var w := widgets[last];
        if "banners" in w {
          assert Listed(w["banners"]).value != [];
          var s :| StableSort.SortedBy(s, BannerKey) && multiset(s) == multiset(Listed(w["banners"]).value) &&
            one[0].1["banners"] == FShown(Unplaced(s));
          assert |s| == |multiset(s)|;
        }
      }
      forall p | p in kept ensures exists c :: c in order && Tidy(widgets[c]) == Success([p]) {
        var c :| c in init && Tidy(widgets[c]) == Success([p]);
        assert c in order;
      }
      if one != [] {
        assert Tidy(widgets[last]) == Success([one[0]]);
      }
    }
  }

  /** A widget the clean-up kept, with its position, from one of the
      widgets created. */
  ghost predicate KeptFrom(p: (Option<int>, Widget), widgets: map<string, Widget>)
  {
    exists c :: c in widgets && Tidy(widgets[c]) == Success([p])
  }

  /** A page: the kept widgets ordered by position, without it; when
      there are two or more, every position is a number. */
  ghost predicate Paged(ws: seq<Widget>, widgets: map<string, Widget>)
  {
    (forall i :: 0 <= i < |ws| ==> "position" !in ws[i]) &&
    exists ps: seq<(Option<int>, Widget)> ::
      StableSort.SortedBy(ps, PairKey) && Unpositioned(ps) == ws &&
      (|ps| >= 2 ==> forall i :: 0 <= i < |ps| ==> ps[i].0.Some?) &&
      forall i :: 0 <= i < |ps| ==> KeptFrom(ps[i], widgets) && "position" in ps[i].1 && ps[i].0 == PositionOf(ps[i].1)
  }

  /** The page: widgets ordered by position, none showing its position,
      each one a widget created by a shown asset and kept by the clean-up. */
  lemma GetWidgetsFacts(assets: seq<Asset>, env: Env)
    requires GetWidgetsSpec(assets, env).Success?
    ensures Paged(GetWidgetsSpec(assets, env).value, Collect(assets, env).value.widgets)
  {
    var acc := Collect(assets, env).value;
    var kept := Prune(acc.widgets, acc.order).value;
    PruneFacts(acc.widgets, acc.order);
    OrderByPositionFacts(kept);
    var ps := OrderByPosition(kept).value;
    assert |ps| == |kept| by {
      assert |multiset(ps)| == |multiset(kept)|;
    }
    forall i | 0 <= i < |ps|
      ensures KeptFrom(ps[i], acc.widgets) && "position" in ps[i].1 && ps[i].0 == PositionOf(ps[i].1)
      ensures |ps| >= 2 ==> ps[i].0.Some?
    {
      assert ps[i] in multiset(ps);
      assert ps[i] in kept;
    }
    assert Unpositioned(ps) == GetWidgetsSpec(assets, env).value;
  }

  // ---------------------------------------------------------------------
  // The method

  lemma {:induction false} CollectFailsFrom(assets: seq<Asset>, n: nat, env: Env)
    requires n <= |assets| && Collect(assets[..n], env).Failure?
    ensures Collect(assets, env) == Collect(assets[..n], env)
    decreases |assets| - n
  {
    if n < |assets| {
      assert assets[..n + 1][..n] == assets[..n];
      CollectFailsFrom(assets, n + 1, env);
    } else {
      assert assets[..n] == assets;
    }
  }

  lemma {:induction false} PruneFailsFrom(widgets: map<string, Widget>, order: seq<string>, n: nat)
    requires forall c :: c in order ==> c in widgets
    requires n <= |order| && Prune(widgets, order[..n]).Failure?
    ensures Prune(widgets, order) == Prune(widgets, order[..n])
    decreases |order| - n
  {
    if n < |order| {
      assert order[..n + 1][..n] == order[..n];
      PruneFailsFrom(widgets, order, n + 1);
    } else {
      assert order[..n] == order;
    }
  }

  /** The assembly loop of `get_widgets`. */
  method CollectWidgets(assets: seq<Asset>, env: Env) returns (r: Result<Acc>)
    ensures r == Collect(assets, env)
  {
    var widgets: map<string, Widget> := map[];
    var order: seq<string> := [];
    for i := 0 to |assets|
      invariant Collect(assets[..i], env) == Success(Acc(widgets, order))
    {
      assert assets[..i + 1][..i] == assets[..i];
      var a := assets[i];
      if Shown(a, env) {
        if a.widgetCode !in widgets {
          widgets := widgets[a.widgetCode := NewWidget(a, env)];
          order := order + [a.widgetCode];
        }
        if Truthy(a.assetCode) {
          var added := AddBanner(widgets[a.widgetCode], a, env);
          if added.Failure? {
            CollectFailsFrom(assets, i + 1, env);
            return Failure(added.error);
          }
          widgets := widgets[a.widgetCode := added.value];
        }
      }
    }
    assert assets[..|assets|] == assets;
    return Success(Acc(widgets, order));
  }

  /** The clean-up loop of `get_widgets`. */
  method PruneWidgets(widgets: map<string, Widget>, order: seq<string>) returns (r: Result<seq<(Option<int>, Widget)>>)
    requires forall c :: c in order ==> c in widgets
    ensures r == Prune(widgets, order)
  {
    var kept: seq<(Option<int>, Widget)> := [];
    for k := 0 to |order|
      invariant Prune(widgets, order[..k]) == Success(kept)
    {
      assert order[..k + 1][..k] == order[..k];
      var one := Tidy(widgets[order[k]]);
      if one.Failure? {
        PruneFailsFrom(widgets, order, k + 1);
        return Failure(one.error);
      }
      kept := kept + one.value;
    }
    assert order[..|order|] == order;
    return Success(kept);
  }

  /** `get_widgets` over the fetched assets. */
  method GetWidgets(assets: seq<Asset>, env: Env) returns (r: Result<seq<Widget>>)
    ensures r == GetWidgetsSpec(assets, env)
  {
    var acc := CollectWidgets(assets, env);
    if acc.Failure? {
      return Failure(acc.error);
    }
    var kept := PruneWidgets(acc.value.widgets, acc.value.order);
    if kept.Failure? {
      return Failure(kept.error);
    }
    var ps := OrderByPosition(kept.value);
    if ps.Failure? {
      return Failure(ps.error);
    }
    r := Success(Unpositioned(ps.value));
  }
}
