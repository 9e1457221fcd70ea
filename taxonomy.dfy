// The category taxonomy import: uploaded rows (code, parent code, names)
// are merged into the existing category tree, the categories whose parent
// changes and those whose path to the root passes through one of them are
// identified, and the merged tree is validated — every chain of parent
// codes must end, without revisiting a code, at a category that has no
// parent, and every parent it names must exist.
module Taxonomy {
  import opened Wrappers
  import Category

  /** Category code to its parent's code. */
  type CodeMap = map<string, Option<string>>

  /** The codes met following parent codes from `c` (itself first), or
      `None` when the walk meets a missing parent or does not end within
      `fuel` codes. An empty parent code ends the walk, as `while
      code_current:` does. */
  function Nodes(m: CodeMap, c: string, fuel: nat): Option<seq<string>>
    decreases fuel
  {
    if fuel == 0 || c !in m then None
    else
      match m[c]
      case None => Some([c])
      case Some(p) =>
        if p !in m then None
        else if p == "" then Some([c])
        else
          match Nodes(m, p, fuel - 1)
          case None => None
          case Some(rest) => Some([c] + rest)
  }

  /** The tree is valid: from every (non-empty) code the chain of parents
      ends within as many steps as there are codes, naming only codes that
      exist. */
  predicate TreeValid(m: CodeMap)
  {
    forall c :: c in m && c != "" ==> Nodes(m, c, |m|).Some?
  }

  const CycleError := "category parent relationship forms a cycle. Please check the category relationship again"

  function MissingParentError(c: string, p: string): string
  {
    "parent of " + c + ": " + p + " does not exist"
  }

  /** One walk of the validation loop, from `cur` with the codes already
      `visited`. */
  function Check(m: CodeMap, cur: string, visited: set<string>): Result<()>
    requires cur in m && visited <= m.Keys
    decreases |m.Keys - visited|
  {
    if cur in visited then Failure(CycleError)
    else
      match m[cur]
      case None => Success(())
      case Some(p) =>
        if p !in m then Failure(MissingParentError(cur, p))
        else if p == "" then Success(())
        else
          Shrink(m.Keys, visited, cur);
          Check(m, p, visited + {cur})
  }

  lemma Shrink(keys: set<string>, visited: set<string>, cur: string)
    requires cur in keys && cur !in visited
    ensures |keys - (visited + {cur})| < |keys - visited|
  {
    assert keys - (visited + {cur}) == (keys - visited) - {cur};
  }

  /** A walk that passes the check ends within the codes not yet visited. */
  lemma {:induction false} CheckSound(m: CodeMap, cur: string, visited: set<string>)
    requires cur in m && visited <= m.Keys
    requires Check(m, cur, visited).Success?
    ensures Nodes(m, cur, |m.Keys - visited|).Some?
    decreases |m.Keys - visited|
  {
    assert cur in m.Keys - visited;
    var p := m[cur];
    if p.Some? && p.value != "" {
      Shrink(m.Keys, visited, cur);
      CheckSound(m, p.value, visited + {cur});
      assert m.Keys - (visited + {cur}) == (m.Keys - visited) - {cur};
    }
  }

  /** A walk that ends within `f` steps still ends, the same way, with more. */
  lemma {:induction false} NodesMono(m: CodeMap, c: string, f: nat, g: nat)
    requires Nodes(m, c, f).Some? && f <= g
    ensures Nodes(m, c, g) == Nodes(m, c, f)
    decreases f
  {
    if m[c].Some? && m[c].value != "" {
      NodesMono(m, m[c].value, f - 1, g - 1);
    }
  }

  /** The walk from any code on a finished walk is the rest of that walk. */
  lemma {:induction false} NodesSuffix(m: CodeMap, c: string, f: nat, j: nat)
    requires Nodes(m, c, f).Some? && j < |Nodes(m, c, f).value|
    ensures j <= f && Nodes(m, Nodes(m, c, f).value[j], f - j) == Some(Nodes(m, c, f).value[j..])
    decreases f
  {
    var ns := Nodes(m, c, f).value;
    if j > 0 {
      var p := m[c].value;
      var rest := Nodes(m, p, f - 1).value;
      assert ns == [c] + rest;
      NodesSuffix(m, p, f - 1, j - 1);
      assert ns[j] == rest[j - 1] && ns[j..] == rest[j - 1..];
    }
  }

  /** A finished walk never meets a code twice. */
  lemma {:induction false} NodesDistinct(m: CodeMap, c: string, f: nat)
    requires Nodes(m, c, f).Some?
    ensures var ns := Nodes(m, c, f).value;
      forall i, j :: 0 <= i < j < |ns| ==> ns[i] != ns[j]
    decreases f
  {
    var ns := Nodes(m, c, f).value;
    if m[c].Some? && m[c].value != "" {
      var p := m[c].value;
      var rest := Nodes(m, p, f - 1).value;
      assert ns == [c] + rest;
      NodesDistinct(m, p, f - 1);
      if j :| 0 <= j < |rest| && rest[j] == c {
        NodesSuffix(m, p, f - 1, j);
        NodesMono(m, c, f - 1 - j, f);
        assert false;
      }
      forall i, j | 0 <= i < j < |ns| ensures ns[i] != ns[j] {
        if i > 0 {
          assert ns[i] == rest[i - 1] && ns[j] == rest[j - 1];
        } else {
          assert ns[j] == rest[j - 1];
        }
      }
    }
  }

  /** A walk that ends and meets no visited code passes the check. */
  lemma {:induction false} CheckComplete(m: CodeMap, cur: string, visited: set<string>, f: nat)
    requires cur in m && visited <= m.Keys
    requires Nodes(m, cur, f).Some?
    requires forall x :: x in Nodes(m, cur, f).value ==> x !in visited
    ensures Check(m, cur, visited).Success?
    decreases f
  {
    var ns := Nodes(m, cur, f).value;
    assert ns[0] == cur;
    if m[cur].Some? && m[cur].value != "" {
      var p := m[cur].value;
      var rest := Nodes(m, p, f - 1).value;
      assert ns == [cur] + rest;
      NodesDistinct(m, cur, f);
      forall x | x in rest ensures x !in visited + {cur} {
        var j :| 0 <= j < |rest| && rest[j] == x;
        assert ns[j + 1] == x;
      }
      CheckComplete(m, p, visited + {cur}, f - 1);
    }
  }

  /** The check from a code, started with nothing visited, passes exactly
      when the chain of parents from that code ends. */
  lemma CheckIff(m: CodeMap, c: string)
    requires c in m
    ensures Check(m, c, {}).Success? <==> Nodes(m, c, |m|).Some?
  {
    assert m.Keys - {} == m.Keys;
    assert |m.Keys| == |m|;
    if Check(m, c, {}).Success? {
      CheckSound(m, c, {});
    }
    if Nodes(m, c, |m|).Some? {
      CheckComplete(m, c, {}, |m|);
    }
  }

  /** The `visited` walk from one code. */
  method WalkFrom(m: CodeMap, start: string) returns (r: Result<()>)
    requires start in m && start != ""
    ensures r == Check(m, start, {})
  {
    var visited: set<string> := {};
    var cur: Option<string> := Some(start);
    while cur.Some? && cur.value != ""
      invariant visited <= m.Keys
      invariant cur.Some? && cur.value != "" ==> cur.value in m && Check(m, start, {}) == Check(m, cur.value, visited)
      invariant cur.None? || cur.value == "" ==> Check(m, start, {}) == Success(())
      decreases |m.Keys - visited|
    {
      var code := cur.value;
      if code in visited {
        return Failure(CycleError);
      }
      Shrink(m.Keys, visited, code);
      if m[code].Some? && m[code].value !in m {
        return Failure(MissingParentError(code, m[code].value));
      }
      visited := visited + {code};
      cur := m[code];
    }
    return Success(());
  }

  /** The validation loop of the import: for each code, follow parent
      codes with a fresh `visited` set. */
  method ValidateTree(m: CodeMap, order: seq<string>) returns (r: Result<()>)
    requires forall c :: c in m <==> c in order
    ensures r.Success? <==> TreeValid(m)
  {
    for i := 0 to |order|
      invariant forall k :: 0 <= k < i && order[k] != "" ==> Nodes(m, order[k], |m|).Some?
    {
      if order[i] != "" {
        r := WalkFrom(m, order[i]);
        CheckIff(m, order[i]);
        if r.Failure? {
          return r;
        }
      }
    }
    return Success(());
  }

  lemma {:induction false} SelfParentWalk(m: CodeMap, c: string, f: nat)
    requires c in m && c != "" && m[c] == Some(c)
    ensures Nodes(m, c, f).None?
    decreases f
  {
    if f > 0 {
      SelfParentWalk(m, c, f - 1);
    }
  }

  /** A category named as its own parent makes the tree invalid. */
  lemma SelfParentInvalid(m: CodeMap, c: string)
    requires c in m && c != "" && m[c] == Some(c)
    ensures !TreeValid(m)
  {
    SelfParentWalk(m, c, |m|);
  }

  lemma {:induction false} TwoCycleWalk(m: CodeMap, a: string, b: string, f: nat)
    requires a in m && b in m && a != "" && b != "" && m[a] == Some(b) && m[b] == Some(a)
    ensures Nodes(m, a, f).None? && Nodes(m, b, f).None?
    decreases f
  {
    if f > 0 {
      TwoCycleWalk(m, a, b, f - 1);
    }
  }

  /** Two categories naming each other as parent make the tree invalid. */
  lemma TwoCycleInvalid(m: CodeMap, a: string, b: string)
    requires a in m && b in m && a != "" && b != "" && m[a] == Some(b) && m[b] == Some(a)
    ensures !TreeValid(m)
  {
    TwoCycleWalk(m, a, b, |m|);
  }

  /** A parent code that names no category makes the tree invalid. */
  lemma MissingParentInvalid(m: CodeMap, c: string, p: string)
    requires c in m && c != "" && m[c] == Some(p) && p !in m
    ensures !TreeValid(m)
  {
    assert m.Keys != {};
    assert |m| > 0;
  }

  // ---------------------------------------------------------------------
  // The existing categories, keyed by code

  /** An existing category as the import sees it: its id and its parent's
      code. */
  datatype Known = Known(id: int, parentCode: Option<string>)

  type Existing = map<string, Known>

  /** The `parent_code` attribute of one table row: `None` without a
      (truthy) parent, else the code of the parent row, which must exist. */
  function ParentCodeOf(db: seq<Category.CategoryRow>, r: Category.CategoryRow): (pc: Result<Option<string>>)
    ensures pc.Success? <==> !Category.HasParent(r) || exists k :: 0 <= k < |db| && db[k].id == r.parent.value
    ensures pc.Success? ==> (pc.value.None? <==> !Category.HasParent(r))
    ensures pc.Success? && pc.value.Some? ==>
      exists k :: 0 <= k < |db| && db[k].id == r.parent.value && db[k].code == pc.value.value
  {
    if !Category.HasParent(r) then Success(None)
    else
      var p := Category.PositionOf(db, r.parent.value);
      if p == -1 then Failure(Category.KeyError) else Success(Some(db[p].code))
  }

  /** The first `n` rows keyed by code, a later row winning. */
  function ByCodeUpTo(db: seq<Category.CategoryRow>, n: nat): Result<Existing>
    requires n <= |db|
  {
    if n == 0 then Success(map[])
    else
      var m :- ByCodeUpTo(db, n - 1);
      var pc :- ParentCodeOf(db, db[n - 1]);
      Success(m[db[n - 1].code := Known(db[n - 1].id, pc)])
  }

  /** The `parent_code` loop and the re-keying by code. */
  function ByCode(db: seq<Category.CategoryRow>): Result<Existing>
  {
    ByCodeUpTo(db, |db|)
  }

  /** A row is the last one with its code among the first `n`. */
  predicate LastWithCode(db: seq<Category.CategoryRow>, i: nat, n: nat)
    requires i < n <= |db|
  {
    forall j :: i < j < n ==> db[j].code != db[i].code
  }

  /** Keying by code fails exactly when some row's parent id names no row. */
  lemma {:induction false} ByCodeUpToOk(db: seq<Category.CategoryRow>, n: nat)
    requires n <= |db|
    ensures ByCodeUpTo(db, n).Success? <==> forall i :: 0 <= i < n ==> ParentCodeOf(db, db[i]).Success?
  {
    if n > 0 {
      ByCodeUpToOk(db, n - 1);
    }
  }

  /** Otherwise it holds every code of the table, each with the id of a row
      carrying it. */
  lemma {:induction false} ByCodeUpToKeys(db: seq<Category.CategoryRow>, n: nat)
    requires n <= |db| && ByCodeUpTo(db, n).Success?
    ensures var m := ByCodeUpTo(db, n).value;
      (forall c :: c in m <==> exists i :: 0 <= i < n && db[i].code == c) &&
      (forall c :: c in m ==> exists i :: 0 <= i < n && db[i].code == c && m[c].id == db[i].id)
  {
    if n > 0 {
      ByCodeUpToKeys(db, n - 1);
    }
  }

  /** The row that wins a code is the last one carrying it. */
  lemma {:induction false} ByCodeUpToLast(db: seq<Category.CategoryRow>, n: nat, i: nat)
    requires i < n <= |db| && ByCodeUpTo(db, n).Success? && LastWithCode(db, i, n)
    ensures ParentCodeOf(db, db[i]).Success? && db[i].code in ByCodeUpTo(db, n).value &&
      ByCodeUpTo(db, n).value[db[i].code] == Known(db[i].id, ParentCodeOf(db, db[i]).value)
  {
    if i < n - 1 {
      assert LastWithCode(db, i, n - 1);
      ByCodeUpToLast(db, n - 1, i);
    }
  }

  /** The existing codes are the table's codes and their ids its ids. */
  lemma ByCodeFacts(db: seq<Category.CategoryRow>)
    ensures ByCode(db).Success? <==> forall i :: 0 <= i < |db| ==> ParentCodeOf(db, db[i]).Success?
    ensures ByCode(db).Success? ==>
      var m := ByCode(db).value;
      (forall c :: c in m <==> exists i :: 0 <= i < |db| && db[i].code == c) &&
      (forall c :: c in m ==> m[c].id in Category.ParentTable(db)) &&
      (forall i :: 0 <= i < |db| && LastWithCode(db, i, |db|) ==>
        m[db[i].code] == Known(db[i].id, ParentCodeOf(db, db[i]).value))
  {
    ByCodeUpToOk(db, |db|);
    if ByCode(db).Success? {
      ByCodeUpToKeys(db, |db|);
      forall i | 0 <= i < |db| && LastWithCode(db, i, |db|)
        ensures ByCode(db).value[db[i].code] == Known(db[i].id, ParentCodeOf(db, db[i]).value)
      {
        ByCodeUpToLast(db, |db|, i);
      }
    }
  }

  // ---------------------------------------------------------------------
  // The uploaded rows, keyed by code

  /** An uploaded row. */
  datatype TaxRow = TaxRow(code: string, parentCode: string, enName: string, arName: string)

  /** An uploaded row once keyed: an empty parent code reads as none. */
  datatype Incoming = Incoming(parentCode: Option<string>, enName: string, arName: string)

  function AsIncoming(t: TaxRow): Incoming
  {
    Incoming(if t.parentCode == "" then None else Some(t.parentCode), t.enName, t.arName)
  }

  /** `{r['code']: r for r in rows if r['code'] != ""}` and the
      `parent_code == ''` rewrite. */
  function RowsByCode(rows: seq<TaxRow>): map<string, Incoming>
  {
    if rows == [] then map[]
    else
      var last := rows[|rows| - 1];
      var m := RowsByCode(rows[..|rows| - 1]);
      if last.code == "" then m else m[last.code := AsIncoming(last)]
  }

  predicate LastRowWithCode(rows: seq<TaxRow>, j: nat)
    requires j < |rows|
  {
    forall k :: j < k < |rows| ==> rows[k].code != rows[j].code
  }

  /** Rows with an empty code are dropped, a later row wins, and no parent
      code is left empty. */
  lemma {:induction false} RowsByCodeFacts(rows: seq<TaxRow>)
    ensures forall c :: c in RowsByCode(rows) <==> c != "" && exists j :: 0 <= j < |rows| && rows[j].code == c
    ensures forall j :: 0 <= j < |rows| && rows[j].code != "" && LastRowWithCode(rows, j) ==>
      RowsByCode(rows)[rows[j].code] == AsIncoming(rows[j])
    ensures forall c :: c in RowsByCode(rows) ==> RowsByCode(rows)[c].parentCode != Some("")
  {
    if rows != [] {
      var init := rows[..|rows| - 1];
      RowsByCodeFacts(init);
      forall c | c != "" && (exists j :: 0 <= j < |rows| && rows[j].code == c)
        ensures c in RowsByCode(rows)
      {
        var j :| 0 <= j < |rows| && rows[j].code == c;
        if j < |rows| - 1 {
          assert init[j].code == c;
        }
      }
      forall j | 0 <= j < |rows| && rows[j].code != "" && LastRowWithCode(rows, j)
        ensures RowsByCode(rows)[rows[j].code] == AsIncoming(rows[j])
      {
        if j < |rows| - 1 {
          assert init[j] == rows[j];
          assert LastRowWithCode(init, j);
        }
      }
    }
  }

  // ---------------------------------------------------------------------
  // Updated and affected categories

  /** The ids of existing codes whose uploaded parent code differs. */
  function Updated(known: Existing, inc: map<string, Incoming>): set<int>
  {
    set c | c in inc && c in known && known[c].parentCode != inc[c].parentCode :: known[c].id
  }

  /** Some id of the chain was updated. */
  predicate Touches(chain: seq<int>, upd: set<int>)
  {
    exists k :: 0 <= k < |chain| && chain[k] in upd
  }

  /** `get_id_category_to_parent_ids_map` of the table. */
  function Chains(db: seq<Category.CategoryRow>): (m: map<int, seq<int>>)
    requires Category.Acyclic(Category.ParentTable(db))
  {
    map id | id in Category.ParentTable(db) :: Category.AncestorsSpec(Category.ParentTable(db), id)
  }

  /** The ids of existing categories with an updated id in their ancestor
      or self chain. */
  function AffectedSpec(known: Existing, chains: map<int, seq<int>>, upd: set<int>): set<int>
    requires forall c :: c in known ==> known[c].id in chains
  {
    set c | c in known && Touches(chains[known[c].id], upd) :: known[c].id
  }

  /** The inner `for parent_id in parent_ids` loop with its `break`. */
  method IsAffected(chain: seq<int>, upd: set<int>) returns (b: bool)
    ensures b <==> Touches(chain, upd)
  {
    var k := 0;
    while k < |chain|
      invariant 0 <= k <= |chain|
      invariant forall j :: 0 <= j < k ==> chain[j] !in upd
    {
      if chain[k] in upd {
        return true;
      }
      k := k + 1;
    }
    return false;
  }

  /** The affected-ids loop over the existing codes, in `order`. */
  method AffectedIds(known: Existing, order: seq<string>, chains: map<int, seq<int>>, upd: set<int>)
    returns (aff: seq<int>)
    requires forall c :: c in known <==> c in order
    requires forall c :: c in known ==> known[c].id in chains
    ensures forall x :: x in aff <==> x in AffectedSpec(known, chains, upd)
  {
    aff := [];
    for i := 0 to |order|
      invariant forall x :: x in aff ==> x in AffectedSpec(known, chains, upd)
      invariant forall k :: 0 <= k < i && Touches(chains[known[order[k]].id], upd) ==> known[order[k]].id in aff
    {
      var id := known[order[i]].id;
      var hit := IsAffected(chains[id], upd);
      if hit {
        aff := aff + [id];
      }
    }
    forall x | x in AffectedSpec(known, chains, upd) ensures x in aff {
      var c :| c in known && Touches(chains[known[c].id], upd) && x == known[c].id;
      var k :| 0 <= k < |order| && order[k] == c;
    }
  }

  /** The existing parent codes with the uploaded ones put over them. */
  function Merged(known: Existing, inc: map<string, Incoming>): CodeMap
  {
    (map c | c in known :: known[c].parentCode) + (map c | c in inc :: inc[c].parentCode)
  }

  // ---------------------------------------------------------------------
  // The import

  /** What an accepted import goes on to write: the updated and affected
      ids, and the keyed rows to upsert. */
  datatype Plan = Plan(updated: set<int>, affected: set<int>, upserts: map<string, Incoming>)

  const AssertionError := "AssertionError"

  /** `import_category_taxonomy` up to the database writes. */
  function ImportSpec(db: seq<Category.CategoryRow>, rows: seq<TaxRow>): Result<Plan>
    requires Category.Acyclic(Category.ParentTable(db))
  {
    var known :- ByCode(db);
    var inc := RowsByCode(rows);
    var upd := Updated(known, inc);
    ByCodeFacts(db);
    if TreeValid(Merged(known, inc)) then Success(Plan(upd, AffectedSpec(known, Chains(db), upd), inc))
    else Failure(AssertionError)
  }

  function DbCodes(db: seq<Category.CategoryRow>): (s: seq<string>)
    ensures forall c :: c in s <==> exists i :: 0 <= i < |db| && db[i].code == c
  {
    if db == [] then [] else DbCodes(db[..|db| - 1]) + [db[|db| - 1].code]
  }

  function RowCodes(rows: seq<TaxRow>): (s: seq<string>)
    ensures forall c :: c in s <==> c != "" && exists j :: 0 <= j < |rows| && rows[j].code == c
  {
    if rows == [] then []
    else RowCodes(rows[..|rows| - 1]) + (if rows[|rows| - 1].code == "" then [] else [rows[|rows| - 1].code])
  }

  /** `import_category_taxonomy`, up to the database writes: the parent
      ids map (which needs the table to be acyclic, or its walk never
      ends), the keyed maps, the updated and affected ids, the merge and
      the validation. */
  method ImportTaxonomy(db: seq<Category.CategoryRow>, rows: seq<TaxRow>) returns (r: Result<Plan>)
    requires Category.Acyclic(Category.ParentTable(db))
    ensures ByCode(db).Failure? ==> r == Failure(Category.KeyError)
    ensures r.Success? <==> ImportSpec(db, rows).Success?
    ensures r.Success? ==> r == ImportSpec(db, rows)
  {
    var chains := Category.ParentIdsMap(db);
    assert chains == Chains(db);
    var byCode := ByCode(db);
    if byCode.Failure? {
      return Failure(Category.KeyError);
    }
    var known := byCode.value;
    ByCodeFacts(db);
    RowsByCodeFacts(rows);
    var inc := RowsByCode(rows);
    var upd := Updated(known, inc);
    var aff := AffectedIds(known, DbCodes(db), chains, upd);
    var merged := Merged(known, inc);
    var v := ValidateTree(merged, DbCodes(db) + RowCodes(rows));
    ImportSpecOf(db, rows);
    if v.Failure? {
      return Failure(v.error);
    }
    SameElements(aff, AffectedSpec(known, chains, upd));
    return Success(Plan(upd, (set x | x in aff), inc));
  }

  lemma ImportSpecOf(db: seq<Category.CategoryRow>, rows: seq<TaxRow>)
    requires Category.Acyclic(Category.ParentTable(db)) && ByCode(db).Success?
    ensures var known := ByCode(db).value;
      var inc := RowsByCode(rows);
      var upd := Updated(known, inc);
      (forall c :: c in known ==> known[c].id in Chains(db)) &&
      ImportSpec(db, rows) ==
        if TreeValid(Merged(known, inc)) then Success(Plan(upd, AffectedSpec(known, Chains(db), upd), inc))
        else Failure(AssertionError)
  {
    ByCodeFacts(db);
  }

  lemma SameElements(s: seq<int>, t: set<int>)
    requires forall x :: x in s <==> x in t
    ensures (set x | x in s) == t
  {
    assert forall x :: x in (set y | y in s) <==> x in t;
  }

  // ---------------------------------------------------------------------
  // What an import decides

  /** Every updated category is itself affected: its chain ends with it. */
  lemma UpdatedAreAffected(db: seq<Category.CategoryRow>, rows: seq<TaxRow>)
    requires Category.Acyclic(Category.ParentTable(db))
    requires ImportSpec(db, rows).Success?
    ensures ImportSpec(db, rows).value.updated <= ImportSpec(db, rows).value.affected
  {
    var known := ByCode(db).value;
    var inc := RowsByCode(rows);
    ImportSpecOf(db, rows);
    var pm := Category.ParentTable(db);
    forall x | x in Updated(known, inc) ensures x in AffectedSpec(known, Chains(db), Updated(known, inc)) {
      var c :| c in inc && c in known && known[c].parentCode != inc[c].parentCode && known[c].id == x;
      Category.AncestorsFacts(pm, x);
      var a := Chains(db)[x];
      assert a[|a| - 1] == x;
    }
  }

  /** A category whose parent was updated is affected too. */
  lemma ChildOfUpdatedAffected(db: seq<Category.CategoryRow>, rows: seq<TaxRow>, c: string)
    requires Category.Acyclic(Category.ParentTable(db))
    requires ImportSpec(db, rows).Success?
    requires c in ByCode(db).value
    requires var p := Category.Get(Category.ParentTable(db), ByCode(db).value[c].id);
      p.Some? && p.value in ImportSpec(db, rows).value.updated
    ensures ByCode(db).value[c].id in ImportSpec(db, rows).value.affected
  {
    var known := ByCode(db).value;
    ImportSpecOf(db, rows);
    var pm := Category.ParentTable(db);
    var id := known[c].id;
    Category.AncestorsFacts(pm, id);
    var a := Chains(db)[id];
    assert a[0] in Updated(known, RowsByCode(rows));
  }

  /** Uploading only new codes, or existing codes with their current
      parents, updates and affects nothing. */
  lemma NoChangeNoUpdate(db: seq<Category.CategoryRow>, rows: seq<TaxRow>)
    requires Category.Acyclic(Category.ParentTable(db))
    requires ImportSpec(db, rows).Success?
    requires forall j :: 0 <= j < |rows| && rows[j].code in ByCode(db).value ==>
      AsIncoming(rows[j]).parentCode == ByCode(db).value[rows[j].code].parentCode
    ensures ImportSpec(db, rows).value.updated == {} && ImportSpec(db, rows).value.affected == {}
  {
    var known := ByCode(db).value;
    var inc := RowsByCode(rows);
    ImportSpecOf(db, rows);
    RowsByCodeFacts(rows);
    forall c | c in inc && c in known ensures known[c].parentCode == inc[c].parentCode {
      var j := LastIndexOf(rows, c);
    }
    assert Updated(known, inc) == {};
  }

  /** The last row carrying a code that some row carries. */
  function LastIndexOf(rows: seq<TaxRow>, c: string): (j: nat)
    requires exists j :: 0 <= j < |rows| && rows[j].code == c
    ensures j < |rows| && rows[j].code == c && LastRowWithCode(rows, j)
  {
    if rows[|rows| - 1].code == c then |rows| - 1
    else
      var init := rows[..|rows| - 1];
      var k :| 0 <= k < |rows| && rows[k].code == c;
      assert init[k].code == c;
      LastIndexOf(init, c)
  }

  /** An accepted import keeps every uploaded parent, keeps the parents of
      the existing codes it does not mention, and leaves a tree in which
      every chain of parents ends. */
  lemma AcceptedMerge(db: seq<Category.CategoryRow>, rows: seq<TaxRow>)
    requires Category.Acyclic(Category.ParentTable(db))
    requires ImportSpec(db, rows).Success?
    ensures var m := Merged(ByCode(db).value, RowsByCode(rows));
      TreeValid(m) &&
      (forall j :: 0 <= j < |rows| && rows[j].code != "" && LastRowWithCode(rows, j) ==>
        rows[j].code in m && m[rows[j].code] == AsIncoming(rows[j]).parentCode) &&
      (forall c :: c in ByCode(db).value && c !in RowsByCode(rows) ==>
        c in m && m[c] == ByCode(db).value[c].parentCode)
  {
    ImportSpecOf(db, rows);
    RowsByCodeFacts(rows);
  }

  /** An uploaded row naming itself as parent is rejected. */
  lemma SelfParentRejected(db: seq<Category.CategoryRow>, rows: seq<TaxRow>, j: nat)
    requires Category.Acyclic(Category.ParentTable(db))
    requires j < |rows| && rows[j].code != "" && rows[j].parentCode == rows[j].code && LastRowWithCode(rows, j)
    ensures ImportSpec(db, rows).Failure?
  {
    if ByCode(db).Success? {
      ImportSpecOf(db, rows);
      RowsByCodeFacts(rows);
      var m := Merged(ByCode(db).value, RowsByCode(rows));
      SelfParentInvalid(m, rows[j].code);
    }
  }

  /** An uploaded row naming a parent code that is neither in the table nor
      uploaded is rejected. */
  lemma MissingParentRejected(db: seq<Category.CategoryRow>, rows: seq<TaxRow>, j: nat)
    requires Category.Acyclic(Category.ParentTable(db))
    requires j < |rows| && rows[j].code != "" && rows[j].parentCode != "" && LastRowWithCode(rows, j)
    requires rows[j].parentCode !in DbCodes(db) && rows[j].parentCode !in RowCodes(rows)
    ensures ImportSpec(db, rows).Failure?
  {
    if ByCode(db).Success? {
      ImportSpecOf(db, rows);
      ByCodeFacts(db);
      RowsByCodeFacts(rows);
      var m := Merged(ByCode(db).value, RowsByCode(rows));
      MissingParentInvalid(m, rows[j].code, rows[j].parentCode);
    }
  }

  /** A table row whose parent id names no row makes the import fail with
      a `KeyError` before anything is compared. */
  lemma DanglingParentKeyError(db: seq<Category.CategoryRow>, rows: seq<TaxRow>, i: nat)
    requires Category.Acyclic(Category.ParentTable(db))
    requires i < |db| && Category.HasParent(db[i])
    requires forall k :: 0 <= k < |db| ==> db[k].id != db[i].parent.value
    ensures ImportSpec(db, rows) == Failure(Category.KeyError)
  {
    ByCodeFacts(db);
    assert ParentCodeOf(db, db[i]).Failure?;
    ByCodeFails(db, |db|);
  }

  lemma {:induction false} ByCodeFails(db: seq<Category.CategoryRow>, n: nat)
    requires n <= |db| && ByCodeUpTo(db, n).Failure?
    ensures ByCodeUpTo(db, n) == Failure(Category.KeyError)
  {
    if n > 0 && ByCodeUpTo(db, n - 1).Failure? {
      ByCodeFails(db, n - 1);
    }
  }
}
