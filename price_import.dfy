// The marketplace price import: four preprocessing stages that annotate
// each row in place and split off the invalid ones, the pipeline that chains
// them, and the execution step that upserts offer prices and publishes
// `(sku, wh_code)` pairs in chunks of 20.
module PriceImport {
  import opened Wrappers
  import Util
  import Chunks

  /** `id_partner` as it sits in a row: the uploaded text, the parsed
      integer, or `None`. */
  datatype Id = IdText(text: string) | IdNum(n: int) | IdNone

  /** `offer_price` likewise. */
  datatype Price = PriceText(text: string) | PriceNum(x: real) | PriceNone

  /** A row dict of the import. `line` is the row's identity (the dicts
      are shared between the lists); `msrp` is `None` both when the key is
      absent and when it holds `None`, which is what defaulting it makes
      them. */
  datatype Row = Row(line: nat, partnerSku: string, idPartner: Id, offerPrice: Price, msrp: Option<string>,
                     warehouseCode: string, countryCode: string, errorCode: Option<string>,
                     pskuCanonical: Option<string>, sku: Option<string>, whCode: Option<string>)

  /** The outside lookups: `safe_int` and `safe_float` on text, and the
      catalog sku of a partner sku (the enricher's join). */
  datatype Lookups = Lookups(parseInt: string -> Option<int>, parseFloat: string -> Option<real>,
                             catalogSku: (Id, string) -> Option<string>)

  const InvalidIdPartner := "Invalid id_partner"
  const InvalidOfferPrice := "Invalid offer_price"
  const PartnerMismatch := "Request id_partner does not match import id_partner"
  const InvalidPartnerSku := "Invalid partner sku"
  const NameErrorUtil := "NameError: name 'util' is not defined"
  const PublishChunk := 20

  /** `safe_int`: text is parsed, a number is kept, `None` stays `None`. */
  function SafeInt(v: Id, lk: Lookups): Id
  {
    match v
    case IdText(s) => (match lk.parseInt(s) case Some(n) => IdNum(n) case None => IdNone)
    case _ => v
  }

  function SafeFloat(p: Price, lk: Lookups): Price
  {
    match p
    case PriceText(s) => (match lk.parseFloat(s) case Some(x) => PriceNum(x) case None => PriceNone)
    case _ => p
  }

  /** Python's `not v`. */
  predicate IdFalsy(v: Id)
  {
    v == IdNone || v == IdNum(0) || v == IdText("")
  }

  predicate PriceFalsy(p: Price)
  {
    p == PriceNone || p == PriceNum(0.0) || p == PriceText("")
  }

  predicate SkuFalsy(s: Option<string>)
  {
    s == None || s == Some("")
  }

  // ---------------------------------------------------------------------
  // The stages: 0 column types, 1 partner, 2 partner sku, 3 warehouse

  /** `preprocess_column_types` on one row. The offer price check runs
      second, so its message wins when both fail. */
  function ColumnTyped(r: Row, lk: Lookups): Row
  {
    var id := SafeInt(r.idPartner, lk);
    var price := SafeFloat(r.offerPrice, lk);
    r.(idPartner := id, offerPrice := price,
       errorCode := if PriceFalsy(price) then Some(InvalidOfferPrice)
                    else if IdFalsy(id) then Some(InvalidIdPartner) else r.errorCode)
  }

  /** `preprocess_partner` on one row. */
  function Partnered(r: Row, partner: int): Row
  {
    if r.idPartner != IdNum(partner) then r.(errorCode := Some(PartnerMismatch)) else r
  }

  /** `preprocess_partner_sku` on one row, the error code included that
      the stage sets on its invalid rows after the split. */
  function Enriched(r: Row, lk: Lookups): Row
  {
    var canon := Util.Canonicalize(r.partnerSku);
    var id := SafeInt(r.idPartner, lk);
    var sku := lk.catalogSku(id, canon);
    r.(pskuCanonical := Some(canon), idPartner := id, sku := sku,
       errorCode := if SkuFalsy(sku) then Some(InvalidPartnerSku) else r.errorCode)
  }

  /** `preprocess_warehouse` on one row. */
  function Warehoused(r: Row): Row
  {
    r.(whCode := Some(r.warehouseCode))
  }

  /** A preprocessor: what it writes into each row, and which marked rows
      it passes on. */
  datatype Preprocessor = Preprocessor(mark: Row -> Row, keeps: Row -> bool)

  /** The `pre_processors` list. The partner-sku stage splits on the sku,
      the warehouse stage keeps everything, the others split on the error
      code. */
  function Preprocessors(partner: int, lk: Lookups): seq<Preprocessor>
  {
    [Preprocessor((r: Row) => ColumnTyped(r, lk), (r: Row) => r.errorCode.None?),
     Preprocessor((r: Row) => Partnered(r, partner), (r: Row) => r.errorCode.None?),
     Preprocessor((r: Row) => Enriched(r, lk), (r: Row) => !SkuFalsy(r.sku)),
     Preprocessor((r: Row) => Warehoused(r), (r: Row) => true)]
  }

  /** A preprocessor keeps each row's identity and gives every row it drops
      an error code. */
  ghost predicate WellBehaved(p: Preprocessor)
  {
    forall r :: p.mark(r).line == r.line && (!p.keeps(p.mark(r)) ==> p.mark(r).errorCode.Some?)
  }

  lemma PreprocessorsWellBehaved(partner: int, lk: Lookups)
    ensures forall k :: 0 <= k < |Preprocessors(partner, lk)| ==> WellBehaved(Preprocessors(partner, lk)[k])
  {
  }

  function MarkAll(p: Preprocessor, rs: seq<Row>): (out: seq<Row>)
    ensures |out| == |rs|
    ensures forall i :: 0 <= i < |rs| ==> out[i] == p.mark(rs[i])
  {
    if rs == [] then [] else MarkAll(p, rs[..|rs| - 1]) + [p.mark(rs[|rs| - 1])]
  }

  function Valid(p: Preprocessor, rs: seq<Row>): seq<Row>
  {
    if rs == [] then []
    else Valid(p, rs[..|rs| - 1]) + (if p.keeps(rs[|rs| - 1]) then [rs[|rs| - 1]] else [])
  }

  function Invalid(p: Preprocessor, rs: seq<Row>): seq<Row>
  {
    if rs == [] then []
    else Invalid(p, rs[..|rs| - 1]) + (if p.keeps(rs[|rs| - 1]) then [] else [rs[|rs| - 1]])
  }

  /** One stage: the valid and the invalid rows, each in input order. */
  function Stage(p: Preprocessor, rs: seq<Row>): (seq<Row>, seq<Row>)
  {
    var marked := MarkAll(p, rs);
    (Valid(p, marked), Invalid(p, marked))
  }

  /** The stages chained, with the invalid rows of each appended. */
  function Pipeline(rs: seq<Row>, ps: seq<Preprocessor>): (seq<Row>, seq<Row>)
  {
    if ps == [] then (rs, [])
    else
      var before := Pipeline(rs, ps[..|ps| - 1]);
      var st := Stage(ps[|ps| - 1], before.0);
      (st.0, before.1 + st.1)
  }

  /** `preexecute`: an empty import runs no stage. */
  function PreexecuteSpec(rs: seq<Row>, partner: int, lk: Lookups): (seq<Row>, seq<Row>)
  {
    if rs == [] then ([], []) else Pipeline(rs, Preprocessors(partner, lk))
  }

  /** `preexecute` as written: the column-type stage calls `util.safe_float`
      on the first row, and `util` is not imported, so any non-empty
      import stops there. */
  function PreexecuteAsWritten(rs: seq<Row>, partner: int, lk: Lookups): Result<(seq<Row>, seq<Row>)>
  {
    if rs == [] then Success(([], [])) else Failure(NameErrorUtil)
  }

  // ---------------------------------------------------------------------
  // One row's path through the stages

  /** The row after the stages, or `None` once a stage drops it. */
  function Survivor(r: Row, ps: seq<Preprocessor>): Option<Row>
  {
    if ps == [] then Some(r)
    else
      match Survivor(r, ps[..|ps| - 1])
      case None => None
      case Some(y) =>
        var m := ps[|ps| - 1].mark(y);
        if ps[|ps| - 1].keeps(m) then Some(m) else None
  }

  function AsSeq(o: Option<Row>): seq<Row>
  {
    match o case None => [] case Some(y) => [y]
  }

  /** The reference for what the import keeps: every row that survives all
      stages, in input order. */
  function Accepted(rs: seq<Row>, ps: seq<Preprocessor>): seq<Row>
  {
    if rs == [] then [] else Accepted(rs[..|rs| - 1], ps) + AsSeq(Survivor(rs[|rs| - 1], ps))
  }

  /** A row survives exactly when its id and price parse to non-zero
      values, the id is the import's partner and the catalog knows the
      partner sku; the survivor carries the parsed values, the canonical
      partner sku, the catalog sku and the warehouse code. */
  lemma SurvivorFacts(r: Row, partner: int, lk: Lookups)
    ensures Survivor(r, Preprocessors(partner, lk)).Some? <==>
      r.errorCode.None? && !PriceFalsy(SafeFloat(r.offerPrice, lk)) && SafeInt(r.idPartner, lk) == IdNum(partner) &&
      partner != 0 && !SkuFalsy(lk.catalogSku(IdNum(partner), Util.Canonicalize(r.partnerSku)))
    ensures Survivor(r, Preprocessors(partner, lk)).Some? ==>
      var y := Survivor(r, Preprocessors(partner, lk)).value;
      y.line == r.line && y.errorCode.None? && y.idPartner == IdNum(partner) &&
      y.offerPrice == SafeFloat(r.offerPrice, lk) && y.offerPrice.PriceNum? && y.offerPrice.x != 0.0 &&
      y.pskuCanonical == Some(Util.Canonicalize(r.partnerSku)) &&
      y.sku == lk.catalogSku(IdNum(partner), Util.Canonicalize(r.partnerSku)) && y.sku.Some? &&
      y.whCode == Some(r.warehouseCode) && y.msrp == r.msrp && y.countryCode == r.countryCode
  {
    var ps := Preprocessors(partner, lk);
    assert ps[..0] == [] && ps[..1][..0] == [] && ps[..2][..1] == ps[..1] && ps[..3][..2] == ps[..2] && ps[..4][..3] == ps[..3];
    assert ps[..4] == ps;
    var s0 := ColumnTyped(r, lk);
    assert Survivor(r, ps[..1]) == if s0.errorCode.None? then Some(s0) else None;
    var s1 := Partnered(s0, partner);
    assert Survivor(r, ps[..2]) == if s0.errorCode.None? && s1.errorCode.None? then Some(s1) else None;
    var s2 := Enriched(s1, lk);
    assert s0.errorCode.None? && s1.errorCode.None? ==> s1 == s0 && s1.idPartner == IdNum(partner);
    assert Survivor(r, ps[..3]) == if s0.errorCode.None? && s1.errorCode.None? && !SkuFalsy(s2.sku) then Some(s2) else None;
  }

  // ---------------------------------------------------------------------
  // Stage and pipeline lemmas

  lemma {:induction false} FilterAppend(p: Preprocessor, rs: seq<Row>, x: Row)
    ensures Valid(p, rs + [x]) == Valid(p, rs) + (if p.keeps(x) then [x] else [])
    ensures Invalid(p, rs + [x]) == Invalid(p, rs) + (if p.keeps(x) then [] else [x])
  {
    assert (rs + [x])[..|rs + [x]| - 1] == rs;
  }

  lemma MarkAllAppend(p: Preprocessor, rs: seq<Row>, x: Row)
    ensures MarkAll(p, rs + [x]) == MarkAll(p, rs) + [p.mark(x)]
  {
    assert (rs + [x])[..|rs|] == rs;
  }

  lemma StageAppend(p: Preprocessor, rs: seq<Row>, x: Row)
    ensures Stage(p, rs + [x]).0 == Stage(p, rs).0 + (if p.keeps(p.mark(x)) then [p.mark(x)] else [])
  {
    MarkAllAppend(p, rs, x);
    FilterAppend(p, MarkAll(p, rs), p.mark(x));
  }

  lemma {:induction false} PipelineEmpty(ps: seq<Preprocessor>)
    ensures Pipeline([], ps).0 == [] && Pipeline([], ps).1 == []
  {
    if ps != [] {
      PipelineEmpty(ps[..|ps| - 1]);
    }
  }

  /** A row added at the end of the input adds its survivor, if any, at
      the end of the kept rows. */
  lemma {:induction false} PipelineAppend(rs: seq<Row>, x: Row, ps: seq<Preprocessor>)
    ensures Pipeline(rs + [x], ps).0 == Pipeline(rs, ps).0 + AsSeq(Survivor(x, ps))
  {
    if ps != [] {
      var init := ps[..|ps| - 1];
      PipelineAppend(rs, x, init);
      var before := Pipeline(rs, init).0;
      match Survivor(x, init)
      case None =>
        assert Pipeline(rs + [x], init).0 == before;
      case Some(y) =>
        assert Pipeline(rs + [x], init).0 == before + [y];
        StageAppend(ps[|ps| - 1], before, y);
    }
  }

  /** The import keeps exactly the surviving rows, in input order. */
  lemma {:induction false} PipelineKeepsAccepted(rs: seq<Row>, ps: seq<Preprocessor>)
    ensures Pipeline(rs, ps).0 == Accepted(rs, ps)
  {
    if rs == [] {
      PipelineEmpty(ps);
    } else {
      var init := rs[..|rs| - 1];
      PipelineKeepsAccepted(init, ps);
      assert init + [rs[|rs| - 1]] == rs;
      PipelineAppend(init, rs[|rs| - 1], ps);
    }
  }

  /** The identities of some rows, with multiplicity. */
  function Lines(rs: seq<Row>): multiset<nat>
  {
    multiset(seq(|rs|, i requires 0 <= i < |rs| => rs[i].line))
  }

  lemma {:induction false} LinesAppend(a: seq<Row>, b: seq<Row>)
    ensures Lines(a + b) == Lines(a) + Lines(b)
  {
    var la := seq(|a|, i requires 0 <= i < |a| => a[i].line);
    var lb := seq(|b|, i requires 0 <= i < |b| => b[i].line);
    assert seq(|a + b|, i requires 0 <= i < |a + b| => (a + b)[i].line) == la + lb;
  }

  lemma {:induction false} MarkAllLines(p: Preprocessor, rs: seq<Row>)
    requires WellBehaved(p)
    ensures Lines(MarkAll(p, rs)) == Lines(rs)
  {
    var lm := seq(|rs|, i requires 0 <= i < |rs| => MarkAll(p, rs)[i].line);
    assert lm == seq(|rs|, i requires 0 <= i < |rs| => rs[i].line);
  }

  lemma {:induction false} FilterLines(p: Preprocessor, ms: seq<Row>)
    ensures Lines(Valid(p, ms)) + Lines(Invalid(p, ms)) == Lines(ms)
  {
    if ms != [] {
      var init := ms[..|ms| - 1];
      var m := ms[|ms| - 1];
      FilterLines(p, init);
      assert init + [m] == ms;
      LinesAppend(init, [m]);
      LinesAppend(Valid(p, init), if p.keeps(m) then [m] else []);
      LinesAppend(Invalid(p, init), if p.keeps(m) then [] else [m]);
    }
  }

  lemma StageLines(p: Preprocessor, rs: seq<Row>)
    requires WellBehaved(p)
    ensures Lines(Stage(p, rs).0) + Lines(Stage(p, rs).1) == Lines(rs)
  {
    FilterLines(p, MarkAll(p, rs));
    MarkAllLines(p, rs);
  }

  /** Rows rejected by any stage carry an error code. */
  predicate AllFlagged(rs: seq<Row>)
  {
    forall i :: 0 <= i < |rs| ==> rs[i].errorCode.Some?
  }

  lemma {:induction false} InvalidFlagged(p: Preprocessor, ms: seq<Row>)
    requires forall i :: 0 <= i < |ms| && !p.keeps(ms[i]) ==> ms[i].errorCode.Some?
    ensures AllFlagged(Invalid(p, ms))
  {
    if ms != [] {
      InvalidFlagged(p, ms[..|ms| - 1]);
    }
  }

  lemma StageFlagged(p: Preprocessor, rs: seq<Row>)
    requires WellBehaved(p)
    ensures AllFlagged(Stage(p, rs).1)
  {
    InvalidFlagged(p, MarkAll(p, rs));
  }

  lemma FlaggedAppend(a: seq<Row>, b: seq<Row>)
    requires AllFlagged(a) && AllFlagged(b)
    ensures AllFlagged(a + b)
  {
    assert forall i :: |a| <= i < |a + b| ==> (a + b)[i] == b[i - |a|];
  }

  lemma Regroup(x: multiset<nat>, y: multiset<nat>, z: multiset<nat>, w: multiset<nat>, t: multiset<nat>)
    requires x + y == z && z + w == t
    ensures x + (w + y) == t
  {
  }

  /** Every input row ends up once, either among the kept rows or among
      the errors, and every error carries its reason. */
  lemma {:induction false} PipelinePartition(rs: seq<Row>, ps: seq<Preprocessor>)
    requires forall k :: 0 <= k < |ps| ==> WellBehaved(ps[k])
    ensures Lines(Pipeline(rs, ps).0) + Lines(Pipeline(rs, ps).1) == Lines(rs)
    ensures AllFlagged(Pipeline(rs, ps).1)
  {
    if ps != [] {
      var init := ps[..|ps| - 1];
      var p := ps[|ps| - 1];
      PipelinePartition(rs, init);
      var before := Pipeline(rs, init);
      var st := Stage(p, before.0);
      StageLines(p, before.0);
      StageFlagged(p, before.0);
      LinesAppend(before.1, st.1);
      FlaggedAppend(before.1, st.1);
      Regroup(Lines(st.0), Lines(st.1), Lines(before.0), Lines(before.1), Lines(rs));
    }
  }

  /** What `preexecute` leaves behind: the surviving rows in order, every
      input row once among them or among the errors, and a reason on each
      error. */
  lemma PreexecuteFacts(rs: seq<Row>, partner: int, lk: Lookups)
    ensures PreexecuteSpec(rs, partner, lk).0 == Accepted(rs, Preprocessors(partner, lk))
    ensures Lines(PreexecuteSpec(rs, partner, lk).0) + Lines(PreexecuteSpec(rs, partner, lk).1) == Lines(rs)
    ensures AllFlagged(PreexecuteSpec(rs, partner, lk).1)
  {
    PipelineKeepsAccepted(rs, Preprocessors(partner, lk));
    PreprocessorsWellBehaved(partner, lk);
    PipelinePartition(rs, Preprocessors(partner, lk));
  }

  /** Ready for `execute`: every row has a parsed id and price, a sku and
      a warehouse code. */
  predicate Ready(r: Row)
  {
    r.idPartner.IdNum? && r.offerPrice.PriceNum? && r.sku.Some? && r.whCode.Some?
  }

  predicate Prepared(rs: seq<Row>)
  {
    forall i :: 0 <= i < |rs| ==> Ready(rs[i])
  }

  lemma {:induction false} AcceptedPrepared(rs: seq<Row>, partner: int, lk: Lookups)
    ensures Prepared(Accepted(rs, Preprocessors(partner, lk)))
  {
    if rs != [] {
      AcceptedPrepared(rs[..|rs| - 1], partner, lk);
      SurvivorFacts(rs[|rs| - 1], partner, lk);
    }
  }

  /** The fix: with `util` imported, a well-formed row is kept where the
      code as written stops with a `NameError`. */
  lemma NameErrorFinding()
    ensures var lk := Lookups(s => Some(7), s => Some(9.5), (id, p) => Some("Z123"));
      var row := Row(0, "abc-1", IdText("7"), PriceText("9.5"), None, "W1", "AE", None, None, None, None);
      PreexecuteAsWritten([row], 7, lk).Failure? && |PreexecuteSpec([row], 7, lk).0| == 1
  {
    var lk := Lookups(s => Some(7), s => Some(9.5), (id, p) => Some("Z123"));
    var row := Row(0, "abc-1", IdText("7"), PriceText("9.5"), None, "W1", "AE", None, None, None, None);
    SurvivorFacts(row, 7, lk);
    PreexecuteFacts([row], 7, lk);
    assert [row][..0] == [];
  }

  // ---------------------------------------------------------------------
  // Execution

  /** An `offer` row: keyed by `(sku, wh_code)`. */
  datatype Offer = Offer(countryCode: string, idPartner: int, offerPrice: real, msrp: Option<string>)

  function KeyOf(r: Row): (string, string)
    requires Ready(r)
  {
    (r.sku.value, r.whCode.value)
  }

  /** One upsert: a new key inserts the whole offer, an existing one only
      takes the price and the msrp. */
  function UpsertOne(m: map<(string, string), Offer>, r: Row): map<(string, string), Offer>
    requires Ready(r)
  {
    var k := KeyOf(r);
    if k in m then m[k := m[k].(offerPrice := r.offerPrice.x, msrp := r.msrp)]
    else m[k := Offer(r.countryCode, r.idPartner.n, r.offerPrice.x, r.msrp)]
  }

  function Upserted(m: map<(string, string), Offer>, rs: seq<Row>): map<(string, string), Offer>
    requires Prepared(rs)
  {
    if rs == [] then m else UpsertOne(Upserted(m, UpsertInit(rs)), rs[|rs| - 1])
  }

  /** The last row of the batch with a key. */
  predicate LastFor(rs: seq<Row>, i: int, k: (string, string))
    requires Prepared(rs)
  {
    0 <= i < |rs| && KeyOf(rs[i]) == k && forall j :: i < j < |rs| ==> KeyOf(rs[j]) != k
  }

  function UpsertInit(rs: seq<Row>): seq<Row>
    requires rs != [] && Prepared(rs)
    ensures Prepared(UpsertInit(rs))
  {
    rs[..|rs| - 1]
  }

  /** A key of the batch ends with the price and msrp of its last row. */
  lemma {:induction false} UpsertedLast(m: map<(string, string), Offer>, rs: seq<Row>, k: (string, string), i: int)
    requires Prepared(rs) && LastFor(rs, i, k)
    ensures k in Upserted(m, rs) && Upserted(m, rs)[k].offerPrice == rs[i].offerPrice.x && Upserted(m, rs)[k].msrp == rs[i].msrp
  {
    var last := |rs| - 1;
    if i < last {
      var init := UpsertInit(rs);
      assert LastFor(init, i, k) by {
        forall j | i < j < |init| ensures KeyOf(init[j]) != k {
          assert init[j] == rs[j];
        }
      }
      UpsertedLast(m, init, k, i);
    }
  }

  /** An offer keeps the country and partner it had. */
  lemma {:induction false} UpsertedKeeps(m: map<(string, string), Offer>, rs: seq<Row>, k: (string, string))
    requires Prepared(rs) && k in m
    ensures k in Upserted(m, rs) &&
      Upserted(m, rs)[k].countryCode == m[k].countryCode && Upserted(m, rs)[k].idPartner == m[k].idPartner
  {
    if rs != [] {
      UpsertedKeeps(m, UpsertInit(rs), k);
    }
  }

  /** Keys outside the batch are untouched. */
  lemma {:induction false} UpsertedOthers(m: map<(string, string), Offer>, rs: seq<Row>, k: (string, string))
    requires Prepared(rs)
    requires forall i :: 0 <= i < |rs| ==> KeyOf(rs[i]) != k
    ensures k in Upserted(m, rs) <==> k in m
    ensures k in m ==> Upserted(m, rs)[k] == m[k]
  {
    if rs != [] {
      var init := UpsertInit(rs);
      assert forall i :: 0 <= i < |init| ==> init[i] == rs[i];
      UpsertedOthers(m, init, k);
    }
  }

  function PublishPairs(rs: seq<Row>): (pairs: seq<(string, string)>)
    requires Prepared(rs)
    ensures |pairs| == |rs| && forall i :: 0 <= i < |rs| ==> pairs[i] == KeyOf(rs[i])
  {
    seq(|rs|, i requires 0 <= i < |rs| => KeyOf(rs[i]))
  }

  /** The messages `execute` publishes. */
  function Published(rs: seq<Row>): seq<seq<(string, string)>>
    requires Prepared(rs)
  {
    if rs == [] then [] else Chunks.Chunked(PublishPairs(rs), PublishChunk)
  }

  /** The messages carry every `(sku, wh_code)` once, in order, at most 20
      to a message; no rows, no messages. */
  lemma PublishedFacts(rs: seq<Row>)
    requires Prepared(rs)
    ensures Chunks.Flatten(Published(rs)) == PublishPairs(rs)
    ensures forall k :: 0 <= k < |Published(rs)| ==> 0 < |Published(rs)[k]| <= PublishChunk
    ensures Published(rs) == [] <==> rs == []
  {
    if rs != [] {
      Chunks.ChunkedFacts(PublishPairs(rs), PublishChunk);
      Chunks.ChunkCount(PublishPairs(rs), PublishChunk);
    }
  }

  /** The `offer` table. */
  class OfferTable {
    var offers: map<(string, string), Offer>

    constructor(init: map<(string, string), Offer>)
      ensures offers == init
    {
      offers := init;
    }
  }

  /** The import run: its rows, and the errors `preexecute` sets aside. */
  class PriceImporter {
    var rows: seq<Row>
    var errors: seq<Row>
    const partner: int

    constructor(input: seq<Row>, partner: int)
      ensures rows == input && errors == [] && this.partner == partner
    {
      rows := input;
      errors := [];
      this.partner := partner;
    }

    /** One preprocessor on the current rows: the rows are marked in
        place, then split. */
    static method RunStage(p: Preprocessor, rs: seq<Row>) returns (valid: seq<Row>, invalid: seq<Row>)
      ensures valid == Stage(p, rs).0 && invalid == Stage(p, rs).1
    {
      var a := new Row[|rs|](i requires 0 <= i < |rs| => rs[i]);
      for i := 0 to a.Length
        invariant forall j :: 0 <= j < i ==> a[j] == p.mark(rs[j])
        invariant forall j :: i <= j < a.Length ==> a[j] == rs[j]
      {
        a[i] := p.mark(a[i]);
      }
      assert a[..] == MarkAll(p, rs);
      valid := Valid(p, a[..]);
      invalid := Invalid(p, a[..]);
    }

    /** The loop of `preexecute` over the preprocessors: each one's valid
        rows feed the next, and its invalid rows are collected. */
    static method RunPipeline(rs: seq<Row>, ps: seq<Preprocessor>) returns (valid: seq<Row>, invalid: seq<Row>)
      ensures valid == Pipeline(rs, ps).0 && invalid == Pipeline(rs, ps).1
    {
      valid := rs;
      invalid := [];
      for k := 0 to |ps|
        invariant valid == Pipeline(rs, ps[..k]).0 && invalid == Pipeline(rs, ps[..k]).1
      {
        assert ps[..k + 1][..k] == ps[..k];
        var v, inv := RunStage(ps[k], valid);
        valid := v;
        invalid := invalid + inv;
      }
      assert ps[..|ps|] == ps;
    }

    /** `preexecute`. */
    method Preexecute(lk: Lookups)
      modifies this
      ensures rows == PreexecuteSpec(old(rows), partner, lk).0 && errors == PreexecuteSpec(old(rows), partner, lk).1
      ensures Prepared(rows)
    {
      var valid := rows;
      var invalid: seq<Row> := [];
      if rows != [] {
        valid, invalid := RunPipeline(rows, Preprocessors(partner, lk));
      }
      PreexecuteFacts(rows, partner, lk);
      AcceptedPrepared(rows, partner, lk);
      rows := valid;
      errors := invalid;
    }

    /** `execute`: the rows' prices go into the offer table and their
        keys are published. */
    method Execute(table: OfferTable) returns (published: seq<seq<(string, string)>>)
      requires Prepared(rows)
      modifies table
      ensures table.offers == Upserted(old(table.offers), rows)
      ensures published == Published(rows)
    {
      if rows == [] {
        return [];
      }
      for i := 0 to |rows|
        invariant Prepared(rows[..i])
        invariant table.offers == Upserted(old(table.offers), rows[..i])
      {
        assert rows[..i + 1][..i] == rows[..i];
        table.offers := UpsertOne(table.offers, rows[i]);
      }
      assert rows[..|rows|] == rows;
      published := Chunks.Chunked(PublishPairs(rows), PublishChunk);
    }
  }
}
