// The category table and the maps the catalog derives from it: code to id,
// id to category with its `children`, the root categories, and each
// category's chain of ancestor ids.
module Category {
  import opened Wrappers

  /** A row of the category table. */
  datatype CategoryRow = CategoryRow(id: int, parent: Option<int>, code: string, enName: string, arName: string)

  /** A category object: its row and the `children` list the id map fills. */
  datatype Category = Category(row: CategoryRow, children: seq<int>)

  const KeyError := "KeyError"

  /** `category.name(lang)`: Arabic for `ar`, English otherwise. */
  function Name(r: CategoryRow, lang: string): string
  {
    if lang == "ar" then r.arName else r.enName
  }

  /** `if category.id_category_parent:` — a parent of 0 counts as none. */
  predicate HasParent(r: CategoryRow)
  {
    r.parent.Some? && r.parent.value != 0
  }

  /** `id_category` is the table's primary key. */
  predicate UniqueIds(rows: seq<CategoryRow>)
  {
    forall i, j :: 0 <= i < j < |rows| ==> rows[i].id != rows[j].id
  }

  function Rows(cats: seq<Category>): (rows: seq<CategoryRow>)
    ensures |rows| == |cats| && forall i :: 0 <= i < |cats| ==> rows[i] == cats[i].row
  {
    seq(|cats|, i requires 0 <= i < |cats| => cats[i].row)
  }

  // ---------------------------------------------------------------------
  // Code map

  /** `get_code_to_id_category_map()`: `{code: id}`, a later row winning. */
  function CodeToId(rows: seq<CategoryRow>): map<string, int>
  {
    if rows == [] then map[] else CodeToId(rows[..|rows| - 1])[rows[|rows| - 1].code := rows[|rows| - 1].id]
  }

  /** The code map holds exactly the table's codes, and each sends to the
      id of the last row with that code. */
  lemma {:induction false} CodeToIdFacts(rows: seq<CategoryRow>)
    ensures forall c :: c in CodeToId(rows) <==> exists i :: 0 <= i < |rows| && rows[i].code == c
    ensures forall i :: 0 <= i < |rows| && (forall j :: i < j < |rows| ==> rows[j].code != rows[i].code) ==>
      CodeToId(rows)[rows[i].code] == rows[i].id
  {
    if rows != [] {
      var init := rows[..|rows| - 1];
      CodeToIdFacts(init);
      forall c | c in CodeToId(rows) ensures exists i :: 0 <= i < |rows| && rows[i].code == c {
        if c != rows[|rows| - 1].code {
          assert c in CodeToId(init);
          var i :| 0 <= i < |init| && init[i].code == c;
          assert rows[i].code == c;
        }
      }
      forall i | 0 <= i < |rows| && (forall j :: i < j < |rows| ==> rows[j].code != rows[i].code)
        ensures CodeToId(rows)[rows[i].code] == rows[i].id
      {
        if i < |rows| - 1 {
          assert init[i] == rows[i];
        }
      }
    }
  }

  // ---------------------------------------------------------------------
  // Id map with children

  /** The position of the row with id `id`, or -1. */
  function PositionOf(rows: seq<CategoryRow>, id: int): (p: int)
    ensures p == -1 <==> forall k :: 0 <= k < |rows| ==> rows[k].id != id
    ensures p != -1 ==> 0 <= p < |rows| && rows[p].id == id
  {
    if rows == [] then -1
    else if rows[|rows| - 1].id == id && PositionOf(rows[..|rows| - 1], id) == -1 then |rows| - 1
    else PositionOf(rows[..|rows| - 1], id)
  }

  lemma PositionOfId(rows: seq<CategoryRow>, k: nat)
    requires UniqueIds(rows) && k < |rows|
    ensures PositionOf(rows, rows[k].id) == k
  {
  }

  /** The ids of the rows in positions `lo`..`hi` whose parent is `p`,
      in row order. */
  function ChildrenIn(rows: seq<CategoryRow>, p: int, lo: nat, hi: nat): (r: seq<int>)
    requires lo <= hi <= |rows|
    decreases hi
  {
    if hi == lo then []
    else ChildrenIn(rows, p, lo, hi - 1) +
         (if HasParent(rows[hi - 1]) && rows[hi - 1].parent.value == p then [rows[hi - 1].id] else [])
  }

  /** Some row names a parent no row has. */
  predicate MissingParent(rows: seq<CategoryRow>)
  {
    exists i :: 0 <= i < |rows| && HasParent(rows[i]) && PositionOf(rows, rows[i].parent.value) == -1
  }

  /** `get_id_category_to_category_map()`: every category in row order,
      whose children are the rows that name it as parent from its own
      position on — each list is reset when its category is reached, so
      children listed earlier are lost. A missing parent raises. */
  function CategoryMapSpec(rows: seq<CategoryRow>): Result<seq<Category>>
  {
    if MissingParent(rows) then Failure(KeyError)
    else Success(seq(|rows|, k requires 0 <= k < |rows| => Category(rows[k], ChildrenIn(rows, rows[k].id, k, |rows|))))
  }

  /** The categories before position `i` already hold the children the
      rows before `i` give them. */
  predicate Built(rows: seq<CategoryRow>, out: seq<Category>, i: nat)
    requires i <= |rows| == |out|
  {
    forall k :: 0 <= k < i ==> out[k].children == ChildrenIn(rows, rows[k].id, k, i)
  }

  /** Every category still holds its own row. */
  predicate RowsAre(rows: seq<CategoryRow>, out: seq<Category>)
  {
    |rows| == |out| && forall k :: 0 <= k < |out| ==> out[k].row == rows[k]
  }

  /** The rows before `i` with a parent found it. */
  predicate ParentsFound(rows: seq<CategoryRow>, i: nat)
    requires i <= |rows|
  {
    forall k :: 0 <= k < i && HasParent(rows[k]) ==> PositionOf(rows, rows[k].parent.value) != -1
  }

  lemma ParentsStep(rows: seq<CategoryRow>, i: nat)
    requires i < |rows| && ParentsFound(rows, i)
    requires HasParent(rows[i]) ==> PositionOf(rows, rows[i].parent.value) != -1
    ensures ParentsFound(rows, i + 1)
  {
  }

  /** The id map as the source builds it, on the category objects it was
      handed (which may still hold `children` from an earlier call): reset
      each category's list, then append it to its parent's. */
  method IdToCategoryMap(cats: seq<Category>) returns (r: Result<seq<Category>>)
    requires UniqueIds(Rows(cats))
    ensures r == CategoryMapSpec(Rows(cats))
  {
    var rows := Rows(cats);
    var out := cats;
    var i := 0;
    while i < |out|
      invariant 0 <= i <= |out| == |rows|
      invariant RowsAre(rows, out)
      invariant Built(rows, out, i)
      invariant ParentsFound(rows, i)
    {
      var reset := out[i := out[i].(children := [])];
      if HasParent(rows[i]) {
        var p := PositionOf(rows, rows[i].parent.value);
        if p == -1 {
          assert MissingParent(rows) by {
            assert HasParent(rows[i]) && PositionOf(rows, rows[i].parent.value) == -1;
          }
          return Failure(KeyError);
        }
        ParentsStep(rows, i);
        StepWithParent(rows, out, i, p);
        out := reset[p := reset[p].(children := reset[p].children + [rows[i].id])];
      } else {
        ParentsStep(rows, i);
        StepNoParent(rows, out, i);
        out := reset;
      }
      i := i + 1;
    }
    Finish(rows, out);
    return Success(out);
  }

  /** A row with a parent: its own list starts empty, its parent's grows. */
  lemma StepWithParent(rows: seq<CategoryRow>, out: seq<Category>, i: nat, p: nat)
    requires UniqueIds(rows) && i < |rows| == |out| && p < |rows|
    requires HasParent(rows[i]) && rows[p].id == rows[i].parent.value
    requires Built(rows, out, i) && RowsAre(rows, out)
    ensures var reset := out[i := out[i].(children := [])];
      var next := reset[p := reset[p].(children := reset[p].children + [rows[i].id])];
      Built(rows, next, i + 1) && RowsAre(rows, next)
  {
    var reset := out[i := out[i].(children := [])];
    var next := reset[p := reset[p].(children := reset[p].children + [rows[i].id])];
    forall k | 0 <= k <= i ensures next[k].children == ChildrenIn(rows, rows[k].id, k, i + 1) {
      if k != p {
        assert rows[k].id != rows[p].id;
      }
    }
  }

  /** A row without a parent: only its own list is reset. */
  lemma StepNoParent(rows: seq<CategoryRow>, out: seq<Category>, i: nat)
    requires i < |rows| == |out| && !HasParent(rows[i])
    requires Built(rows, out, i) && RowsAre(rows, out)
    ensures Built(rows, out[i := out[i].(children := [])], i + 1) && RowsAre(rows, out[i := out[i].(children := [])])
  {
    var next := out[i := out[i].(children := [])];
    forall k | 0 <= k <= i ensures next[k].children == ChildrenIn(rows, rows[k].id, k, i + 1) {
    }
  }

  /** After the last row, the objects are the specified map. */
  lemma Finish(rows: seq<CategoryRow>, out: seq<Category>)
    requires |rows| == |out| && Built(rows, out, |rows|)
    requires RowsAre(rows, out)
    requires ParentsFound(rows, |rows|)
    ensures CategoryMapSpec(rows) == Success(out)
  {
    var s := seq(|rows|, k requires 0 <= k < |rows| => Category(rows[k], ChildrenIn(rows, rows[k].id, k, |rows|)));
    forall k | 0 <= k < |rows| ensures out[k] == s[k] {
    }
    assert out == s;
  }

  /** A category's children are exactly the ids of the rows from its own
      position on that name it as their parent. */
  lemma {:induction false} ChildrenInIff(rows: seq<CategoryRow>, p: int, lo: nat, hi: nat, x: int)
    requires lo <= hi <= |rows|
    ensures x in ChildrenIn(rows, p, lo, hi) <==>
      exists j :: lo <= j < hi && rows[j].id == x && HasParent(rows[j]) && rows[j].parent.value == p
    decreases hi
  {
    if hi > lo {
      ChildrenInIff(rows, p, lo, hi - 1, x);
    }
  }

  /** The row-order quirk: a child whose row comes before its parent's is
      not in the parent's `children`. */
  lemma ChildBeforeParentLost(rows: seq<CategoryRow>, c: nat, p: nat)
    requires UniqueIds(rows) && c < p < |rows| && HasParent(rows[c]) && rows[c].parent.value == rows[p].id
    requires CategoryMapSpec(rows).Success?
    ensures rows[c].id !in CategoryMapSpec(rows).value[p].children
  {
    ChildrenInIff(rows, rows[p].id, p, |rows|, rows[c].id);
  }

  /** `get_id_category_to_category_map_for_root_categories()`. */
  function Roots(cats: seq<Category>): (r: seq<Category>)
    ensures forall c :: c in r <==> c in cats && !HasParent(c.row)
  {
    if cats == [] then []
    else Roots(cats[..|cats| - 1]) + (if HasParent(cats[|cats| - 1].row) then [] else [cats[|cats| - 1]])
  }

  // ---------------------------------------------------------------------
  // Ancestor ids

  /** `{id_category: id_category_parent}`. */
  function ParentTable(rows: seq<CategoryRow>): (pm: map<int, Option<int>>)
    ensures forall id :: id in pm <==> exists i :: 0 <= i < |rows| && rows[i].id == id
  {
    if rows == [] then map[]
    else ParentTable(rows[..|rows| - 1])[rows[|rows| - 1].id := rows[|rows| - 1].parent]
  }

  /** `rows.get(x)`. */
  function Get(pm: map<int, Option<int>>, x: int): Option<int>
  {
    if x in pm then pm[x] else None
  }

  /** The ids the ancestor walk collects from `p` on, if it stops within
      `fuel` steps. */
  function Walk(pm: map<int, Option<int>>, p: Option<int>, fuel: nat): Option<seq<int>>
    decreases fuel
  {
    if p.None? then Some([])
    else if fuel == 0 then None
    else
      match Walk(pm, Get(pm, p.value), fuel - 1)
      case None => None
      case Some(rest) => Some([p.value] + rest)
  }

  /** The walk from `id` ends: every chain of parents reaches one that has
      no parent or is not in the table, within as many steps as there are
      categories plus one. */
  predicate WalkEnds(pm: map<int, Option<int>>, id: int)
  {
    Walk(pm, Get(pm, id), |pm| + 1).Some?
  }

  predicate Acyclic(pm: map<int, Option<int>>)
  {
    forall id :: id in pm ==> WalkEnds(pm, id)
  }

  function AncestorsSpec(pm: map<int, Option<int>>, id: int): seq<int>
    requires WalkEnds(pm, id)
  {
    Walk(pm, Get(pm, id), |pm| + 1).value + [id]
  }

  /** The `while parent_id is not None` loop for one category. */
  method AncestorIds(pm: map<int, Option<int>>, id: int) returns (ids: seq<int>)
    requires WalkEnds(pm, id)
    ensures ids == AncestorsSpec(pm, id)
  {
    var all: seq<int> := [];
    var parent := Get(pm, id);
    ghost var fuel: nat := |pm| + 1;
    while parent.Some?
      invariant Walk(pm, parent, fuel).Some?
      invariant all + Walk(pm, parent, fuel).value == Walk(pm, Get(pm, id), |pm| + 1).value
      decreases fuel
    {
      assert [parent.value] + Walk(pm, Get(pm, parent.value), fuel - 1).value == Walk(pm, parent, fuel).value;
      all := all + [parent.value];
      parent := Get(pm, parent.value);
      fuel := fuel - 1;
    }
    ids := all + [id];
  }

  /** `get_id_category_to_parent_ids_map()`. */
  method ParentIdsMap(rows: seq<CategoryRow>) returns (m: map<int, seq<int>>)
    requires Acyclic(ParentTable(rows))
    ensures forall id :: id in m <==> id in ParentTable(rows)
    ensures forall id :: id in m ==> m[id] == AncestorsSpec(ParentTable(rows), id)
  {
    var pm := ParentTable(rows);
    m := map[];
    for i := 0 to |rows|
      invariant forall id :: id in m <==> exists j :: 0 <= j < i && rows[j].id == id
      invariant forall id :: id in m ==> id in pm && m[id] == AncestorsSpec(pm, id)
    {
      assert rows[i].id in pm;
      var ids := AncestorIds(pm, rows[i].id);
      m := m[rows[i].id := ids];
    }
  }

  /** What a finished walk collects: `p` first, then each id's parent, up to
      one with no parent in the table. */
  lemma {:induction false} WalkChain(pm: map<int, Option<int>>, p: Option<int>, fuel: nat)
    requires Walk(pm, p, fuel).Some?
    decreases fuel
    ensures var w := Walk(pm, p, fuel).value;
      (p.None? <==> w == []) &&
      (p.Some? ==> w[0] == p.value && Get(pm, w[|w| - 1]) == None) &&
      forall k :: 0 <= k < |w| - 1 ==> Get(pm, w[k]) == Some(w[k + 1])
  {
    if p.Some? {
      WalkChain(pm, Get(pm, p.value), fuel - 1);
      var rest := Walk(pm, Get(pm, p.value), fuel - 1).value;
      var w := [p.value] + rest;
      forall k | 0 <= k < |w| - 1 ensures Get(pm, w[k]) == Some(w[k + 1]) {
        if k > 0 {
          assert w[k] == rest[k - 1] && w[k + 1] == rest[k];
        }
      }
    }
  }

  /** Each entry lists the ancestors nearest first and ends with the
      category itself; a category without a parent maps to `[id]`. */
  lemma AncestorsFacts(pm: map<int, Option<int>>, id: int)
    requires WalkEnds(pm, id)
    ensures var a := AncestorsSpec(pm, id);
      a[|a| - 1] == id &&
      (Get(pm, id).None? <==> a == [id]) &&
      (Get(pm, id).Some? ==> a[0] == Get(pm, id).value && Get(pm, a[|a| - 2]) == None) &&
      forall k :: 0 <= k < |a| - 2 ==> Get(pm, a[k]) == Some(a[k + 1])
  {
    WalkChain(pm, Get(pm, id), |pm| + 1);
    var w := Walk(pm, Get(pm, id), |pm| + 1).value;
    var a := w + [id];
    forall k | 0 <= k < |a| - 2 ensures Get(pm, a[k]) == Some(a[k + 1]) {
      assert a[k] == w[k] && a[k + 1] == w[k + 1];
    }
  }

  /** The walk has no cycle guard: from a category that is its own parent
      it never stops, whatever the step budget. */
  lemma {:induction false} SelfParentNeverEnds(pm: map<int, Option<int>>, x: int, fuel: nat)
    requires x in pm && pm[x] == Some(x)
    ensures Walk(pm, Some(x), fuel).None?
    decreases fuel
  {
    if fuel > 0 {
      SelfParentNeverEnds(pm, x, fuel - 1);
    }
  }

  /** Such a table is not acyclic, and asking for its ancestor ids is outside
      what the walk can answer. */
  lemma SelfParentCyclic(pm: map<int, Option<int>>, x: int)
    requires x in pm && pm[x] == Some(x)
    ensures !WalkEnds(pm, x) && !Acyclic(pm)
  {
    SelfParentNeverEnds(pm, x, |pm| + 1);
  }
}
