// The generic status machine `Status`: one row of a table whose KEY column
// holds a status code. A transition `from -> to` is legal when the status
// class has a handler named `{from}_to_{to}`; a legal transition runs the
// handler, overwrites the KEY column, then runs the `after_{to}` hook and
// `called_after_status_change` when the class has them. The attribute names
// of the status class (`dir(cls)`, sorted) are the constant `names`.
module StatusMachine {
  import opened Wrappers
  import Text

  const Sep := "_to_"

  /** `'{}_to_{}'.format(from_state, to_state)`. */
  function TxName(from: string, to: string): string
  {
    from + Sep + to
  }

  /** Python's `s.replace(pat, '')` for a non-empty pattern: the
      non-overlapping occurrences, found left to right, are removed. */
  function RemoveAll(s: string, pat: string): (r: string)
    requires pat != []
    ensures |r| <= |s|
    decreases |s|
  {
    if |s| < |pat| then s
    else if s[..|pat|] == pat then RemoveAll(s[|pat|..], pat)
    else [s[0]] + RemoveAll(s[1..], pat)
  }

  predicate Occurs(pat: string, s: string)
  {
    exists i :: 0 <= i <= |s| && Text.IsPrefix(pat, s[i..])
  }

  /** `get_transitions(from_state)`: for every attribute name starting with
      `{from}_to_`, that name with the prefix replaced by nothing. */
  function GetTransitions(names: seq<string>, from: string): (r: seq<string>)
    ensures |r| <= |names|
  {
    if names == [] then []
    else TransitionOf(names[0], from) + GetTransitions(names[1..], from)
  }

  /** The transition handler attribute `name` contributes from `from`. */
  function TransitionOf(name: string, from: string): (r: seq<string>)
    ensures |r| <= 1
  {
    if Text.IsPrefix(from + Sep, name) then [RemoveAll(name, from + Sep)] else []
  }

  /** The transitions of two lists of names, one after the other, are the
      transitions of the first list followed by those of the second. */
  lemma {:induction false} TransitionsAppend(a: seq<string>, b: seq<string>, from: string)
    ensures GetTransitions(a + b, from) == GetTransitions(a, from) + GetTransitions(b, from)
  {
    if a == [] {
      assert a + b == b;
    } else {
      assert (a + b)[0] == a[0];
      assert (a + b)[1..] == a[1..] + b;
      TransitionsAppend(a[1..], b, from);
    }
  }

  /** `is_allowed(to_state)` once the current state is known: the handler
      attribute exists. */
  predicate IsAllowed(names: seq<string>, from: string, to: string)
  {
    TxName(from, to) in names
  }

  /** No handler name repeats the `{from}_to_` prefix after its start, so
      `replace` removes exactly the leading prefix. */
  predicate PlainHandlers(names: seq<string>, from: string)
  {
    forall k :: 0 <= k < |names| && Text.IsPrefix(from + Sep, names[k]) ==>
      !Occurs(from + Sep, names[k][|from + Sep|..])
  }

  lemma {:induction false} RemoveAllAbsent(s: string, pat: string)
    requires pat != [] && !Occurs(pat, s)
    ensures RemoveAll(s, pat) == s
    decreases |s|
  {
    if |s| >= |pat| {
      assert s[0..] == s;
      assert forall i :: 0 <= i <= |s[1..]| ==> s[1..][i..] == s[i + 1..];
      RemoveAllAbsent(s[1..], pat);
      assert [s[0]] + s[1..] == s;
    }
  }

  lemma RemovePrefix(p: string, rest: string)
    requires p != [] && !Occurs(p, rest)
    ensures RemoveAll(p + rest, p) == rest
  {
    assert (p + rest)[..|p|] == p;
    assert (p + rest)[|p|..] == rest;
    RemoveAllAbsent(rest, p);
  }

  /** `is_allowed(to)` holds exactly when `to` is among
      `get_transitions(from)`. */
  lemma {:induction false} AllowedIffListed(names: seq<string>, from: string, to: string)
    requires PlainHandlers(names, from)
    ensures IsAllowed(names, from, to) <==> to in GetTransitions(names, from)
  {
    var p := from + Sep;
    if names != [] {
      assert PlainHandlers(names[1..], from) by {
        forall k | 0 <= k < |names[1..]| && Text.IsPrefix(p, names[1..][k])
          ensures !Occurs(p, names[1..][k][|p|..])
        {
          assert names[1..][k] == names[k + 1];
        }
      }
      AllowedIffListed(names[1..], from, to);
      var n := names[0];
      assert TxName(from, to) == p + to;
      assert (p + to)[..|p|] == p;
      if Text.IsPrefix(p, n) {
        var rest := n[|p|..];
        assert n == p + rest;
        RemovePrefix(p, rest);
        assert RemoveAll(n, p) == rest;
        assert (rest == to) <==> (n == p + to);
      }
      assert names == [n] + names[1..];
    }
  }

  // ---------------------------------------------------------------------
  // transition

  datatype Flags = Flags(ignoreError: bool, allowNoop: bool, ignoreNotAllowed: bool)

  /** What the `{from}_to_{to}` handler does when called. */
  datatype HandlerOutcome = Returns | Asserts(msg: string) | Raises(msg: string)

  /** How `transition` ends when nothing is raised. */
  datatype Step =
    | Noop            // allow_noop and the target is the current state
    | Skipped         // no handler, ignore_not_allowed
    | Refused         // the handler asserted under ignore_error
    | Moved           // the KEY column now holds the target

  /** `get_state`: the KEY column of the row (None when NULL or when the row
      is missing); `lock` plays no part. */
  function GetState(col: Option<string>): (r: Result<string>)
    ensures r.Success? <==> col.Some? && col.value != ""
    ensures r.Success? ==> r.value == col.value
  {
    if col.Some? && col.value != "" then Success(col.value)
    else Failure("unknown code: " + (if col.Some? then col.value else "None"))
  }

  /** The decisions `transition` takes up to the write: `known` is the set of
      codes of the `status` table that `assert_state` joins against. */
  function Decide(col: Option<string>, to: string, names: seq<string>, known: set<string>,
                  handler: HandlerOutcome, flags: Flags, table: string, id: string): Result<Step>
  {
    var from :- GetState(col);
    if flags.allowNoop && to == from then Success(Noop)
    else if !IsAllowed(names, from, to) && flags.ignoreNotAllowed then Success(Skipped)
    else if !IsAllowed(names, from, to) then Failure("not allowed transition " + TxName(from, to))
    else if from !in known then Failure("invalid state " + table + " " + id + " " + from)
    else if handler.Asserts? && flags.ignoreError then Success(Refused)
    else if handler.Asserts? || handler.Raises? then Failure(handler.msg)
    else Success(Moved)
  }

  /** The value `transition` returns: None, False or True. */
  function Returned(s: Step): Option<bool>
  {
    match s
    case Noop => None
    case Skipped => None
    case Refused => Some(false)
    case Moved => Some(true)
  }

  const AfterChange := "called_after_status_change"

  /** The hooks run after a move to `to`, in order. */
  function Hooks(names: seq<string>, to: string): seq<string>
  {
    (if "after_" + to in names then ["after_" + to] else [])
    + (if AfterChange in names then [AfterChange] else [])
  }

  /** With allow_noop, asking for the current state does nothing. */
  lemma NoopDoesNothing(col: Option<string>, names: seq<string>, known: set<string>, handler: HandlerOutcome, flags: Flags, table: string, id: string)
    requires flags.allowNoop && col.Some? && col.value != ""
    ensures Decide(col, col.value, names, known, handler, flags, table, id) == Success(Noop)
  {
  }

  /** A missing handler is skipped only under ignore_not_allowed and fails
      "not allowed transition" otherwise; the handler is then never run. */
  lemma MissingHandler(col: Option<string>, to: string, names: seq<string>, known: set<string>, handler: HandlerOutcome, flags: Flags, table: string, id: string)
    requires col.Some? && col.value != "" && !(flags.allowNoop && to == col.value)
    requires !IsAllowed(names, col.value, to)
    ensures var d := Decide(col, to, names, known, handler, flags, table, id);
      (flags.ignoreNotAllowed ==> d == Success(Skipped)) &&
      (!flags.ignoreNotAllowed ==> d == Failure("not allowed transition " + col.value + "_to_" + to))
  {
  }

  /** The row moves exactly when its state is a known non-empty code, the
      call is not a no-op, the handler exists and the handler returned. */
  lemma MovesIff(col: Option<string>, to: string, names: seq<string>, known: set<string>, handler: HandlerOutcome, flags: Flags, table: string, id: string)
    ensures Decide(col, to, names, known, handler, flags, table, id) == Success(Moved) <==>
      col.Some? && col.value != "" && !(flags.allowNoop && to == col.value) &&
      IsAllowed(names, col.value, to) && col.value in known && handler == Returns
    ensures Decide(col, to, names, known, handler, flags, table, id) == Success(Refused) <==>
      col.Some? && col.value != "" && !(flags.allowNoop && to == col.value) &&
      IsAllowed(names, col.value, to) && col.value in known && handler.Asserts? && flags.ignoreError
  {
  }

  /** `new_to_new` is in every status class, so `new -> new` is legal. */
  lemma NewToNewLegal(names: seq<string>)
    requires "new_to_new" in names
    ensures IsAllowed(names, "new", "new")
  {
    assert TxName("new", "new") == "new_to_new";
  }

  /** One row under a status class: its KEY column and the hooks run so far. */
  class StatusRow {
    const table: string
    const id: string
    const names: seq<string>
    const known: set<string>
    var state: Option<string>
    var hooksRun: seq<string>

    constructor (table: string, id: string, names: seq<string>, known: set<string>, state: Option<string>)
      ensures this.table == table && this.id == id && this.names == names && this.known == known
      ensures this.state == state && hooksRun == []
    {
      this.table := table;
      this.id := id;
      this.names := names;
      this.known := known;
      this.state := state;
      hooksRun := [];
    }

    /** `update_state`: only the KEY column is set. */
    method UpdateState(to: string)
      modifies this
      ensures state == Some(to) && hooksRun == old(hooksRun)
    {
      state := Some(to);
    }

    /** `is_allowed(to_state)`. */
    method Allowed(to: string) returns (r: Result<bool>)
      ensures r.Success? <==> state.Some? && state.value != ""
      ensures r.Success? ==> (r.value <==> to in GetTransitions(names, state.value)) || !PlainHandlers(names, state.value)
      ensures r.Success? ==> (r.value <==> IsAllowed(names, state.value, to))
    {
      var from := GetState(state);
      if from.Failure? {
        return Failure(from.error);
      }
      if PlainHandlers(names, from.value) {
        AllowedIffListed(names, from.value, to);
      }
      return Success(TxName(from.value, to) in names);
    }

    /** `transition(to_state, ...)` with the handler's outcome given. */
    method Transition(to: string, flags: Flags, handler: HandlerOutcome) returns (r: Result<Option<bool>>)
      modifies this
      ensures var d := Decide(old(state), to, names, known, handler, flags, table, id);
        match d
        case Failure(e) => r == Failure(e) && state == old(state) && hooksRun == old(hooksRun)
        case Success(s) =>
          r == Success(Returned(s)) &&
          state == (if s == Moved then Some(to) else old(state)) &&
          hooksRun == old(hooksRun) + (if s == Moved then Hooks(names, to) else [])
    {
      var d := Decide(state, to, names, known, handler, flags, table, id);
      if d.Failure? {
        return Failure(d.error);
      }
      if d.value == Moved {
        UpdateState(to);
        if "after_" + to in names {
          hooksRun := hooksRun + ["after_" + to];
        }
        if AfterChange in names {
          hooksRun := hooksRun + [AfterChange];
        }
      }
      return Success(Returned(d.value));
    }
  }
}
