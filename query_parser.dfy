// The nested query-string parser: `a[b][0]=x&a[b][1]=y` becomes the nested
// dictionary {'a': {'b': {0: 'x', 1: 'y'}}}. Each `&`-separated element is
// split at its `=` into a key and a value, both decoded the way
// `application/x-www-form-urlencoded` data is (section 5.1 of the WHATWG URL
// Standard), the bracketed key is turned into a chain of one-entry
// dictionaries, and the chains are merged into one dictionary in order.
module QueryParser {
  import opened Wrappers
  import Text
  import UrlUnquote
  import UnicodeDigits

  /** A dictionary key: bracket keys that read as integers become ints. */
  datatype Key = Name(s: string) | Index(i: int)

  /** A parsed value. A dictionary keeps its keys in insertion order, as a
      Python dict does. */
  datatype Value = Str(s: string) | Int(i: int) | Dict(entries: seq<(Key, Value)>) | List(items: seq<Value>)

  const Malformed := "MalformedQueryStringError"
  const IndexError := "IndexError: string index out of range"
  const TypeError := "TypeError"
  const StopIteration := "StopIteration"
  const ValueError := "ValueError"

  // ---------------------------------------------------------------------
  // String primitives with Python's semantics

  /** `s.find(c, from)`: the first position at or after `from` holding `c`,
      or -1. */
  function Find(s: string, c: char, from: nat): (r: int)
    ensures r == -1 || (from <= r < |s| && s[r] == c)
    ensures r == -1 ==> forall k :: from <= k < |s| ==> s[k] != c
    ensures r != -1 ==> forall k :: from <= k < r ==> s[k] != c
    decreases |s| - from
  {
    if from >= |s| then -1 else if s[from] == c then from else Find(s, c, from + 1)
  }

  /** `s[i]` for `-|s| <= i < |s|`: a negative index counts from the end. */
  function At(s: string, i: int): char
    requires -|s| <= i < |s|
  {
    if i < 0 then s[|s| + i] else s[i]
  }

  /** `s[i:j]`: a negative end counts from the end, both ends are clamped to
      the string, and an empty range gives "". */
  function Slice(s: string, i: nat, j: int): (r: string)
    ensures |r| <= |s|
  {
    var e := if j < 0 then (if |s| + j < 0 then 0 else |s| + j) else (if j > |s| then |s| else j);
    if i >= e then "" else s[i..e]
  }

  // ---------------------------------------------------------------------
  // Key helpers

  /** `has_variable_name(s)`: a name stands before the first `[`. */
  predicate HasVariableName(s: string)
  {
    Find(s, '[', 0) > 0
  }

  /** The loop of `more_than_one_index(s, brackets)` run from position
      `start` with `n` pairs still to find. */
  function PairsFrom(s: string, start: nat, n: nat): bool
    decreases n
  {
    if n == 0 then true
    else
      var o := Find(s, '[', start);
      if o == -1 then false
      else
        var c := Find(s, ']', o);
        if c == -1 then false else PairsFrom(s, c, n - 1)
  }

  /** `more_than_one_index(s)`: two `[`…`]` pairs, one after the other. */
  predicate MoreThanOneIndex(s: string)
  {
    PairsFrom(s, 0, 2)
  }

  /** `more_than_one_index(s, brackets)` as the source runs it: alternately
      look for `[` and `]`, counting the pairs found. */
  method CountBracketPairs(s: string, brackets: nat) returns (found: bool)
    ensures found == PairsFrom(s, 0, brackets)
  {
    var start := 0;
    var num := 0;
    while start != -1 && num < brackets
      invariant 0 <= num <= brackets
      invariant start >= -1
      invariant start != -1 ==> PairsFrom(s, 0, brackets) == PairsFrom(s, start, brackets - num)
      invariant start == -1 ==> !PairsFrom(s, 0, brackets)
      decreases brackets - num, if start == -1 then 0 else 1
    {
      start := Find(s, '[', start);
      if start == -1 {
        break;
      }
      start := Find(s, ']', start);
      num := num + 1;
    }
    found := start != -1;
  }

  /** `get_key(s)`: the text between the first `[` and the first `]`, with
      a single quote just inside either bracket dropped; `None` when either
      bracket is missing. Reading past the end of `s` raises. */
  function GetKey(s: string): Result<Option<string>>
  {
    var start := Find(s, '[', 0);
    var end := Find(s, ']', 0);
    if start == -1 || end == -1 then Success(None)
    else if start + 1 >= |s| then Failure(IndexError)
    else
      var from := if s[start + 1] == '\'' then start + 1 else start;
      var upto := if At(s, end - 1) == '\'' then end - 1 else end;
      Success(Some(Slice(s, from + 1, upto)))
  }

  /** `s` without its leading sign, if it has one. */
  function Magnitude(s: string): (m: string)
    ensures |m| <= |s|
  {
    if |s| > 0 && (s[0] == '-' || s[0] == '+') then s[1..] else s
  }

  lemma MagnitudeSuffix(s: string)
    ensures Magnitude(s) == s[|s| - |Magnitude(s)|..]
  {
  }

  /** `is_number(s)`: an optional sign, then `str.isdigit`, which takes any
      Unicode digit, decimal or not. */
  predicate IsNumber(s: string)
  {
    UnicodeDigits.IsDigits(Magnitude(s))
  }

  /** `int(s)` for a string `IsNumber` accepts: decimal digits in any
      script give their value; a digit that is not decimal, such as a
      superscript, raises `ValueError`. */
  function ToInt(s: string): (r: Result<int>)
    requires IsNumber(s)
    ensures r.Success? <==> UnicodeDigits.AllDecimal(Magnitude(s))
    ensures r.Failure? ==> r.error == ValueError
  {
    var m := Magnitude(s);
    if !UnicodeDigits.AllDecimal(m) then Failure(ValueError)
    else if s[0] == '-' then Success(-(UnicodeDigits.DecimalsValue(m) as int))
    else Success(UnicodeDigits.DecimalsValue(m))
  }

  /** `int(k) if is_number(k) else k`. */
  function KeyOf(s: string): Result<Key>
  {
    if IsNumber(s) then
      var i :- ToInt(s);
      Success(Index(i))
    else Success(Name(s))
  }

  /** The value stored under a key: for the array key `[]`,
      `int(val) if is_number(val) else val`; otherwise `val` itself. */
  function LeafOf(arrayKey: bool, val: string): Result<Value>
  {
    if arrayKey && IsNumber(val) then
      var i :- ToInt(val);
      Success(Int(i))
    else Success(Str(val))
  }

  // ---------------------------------------------------------------------
  // One element

  /** What `parser_helper` returns, `{keys[0]: {keys[1]: ... leaf}}`,
      written as its key chain and its leaf. */
  datatype Chain = Chain(keys: seq<Key>, leaf: Value)

  /** The nested one-entry dictionaries a chain stands for below its first
      key. */
  function Nest(keys: seq<Key>, leaf: Value): (v: Value)
    ensures keys == [] ==> v == leaf
    ensures keys != [] ==> v.Dict? && |v.entries| == 1
  {
    if keys == [] then leaf else Dict([(keys[0], Nest(keys[1..], leaf))])
  }

  /** `parser_helper(key, val)`. */
  function ParserHelper(key: string, val: string): (r: Result<Chain>)
    ensures r.Success? ==> |r.value.keys| >= 1 && (r.value.leaf.Str? || r.value.leaf.Int?)
    decreases |key|
  {
    var sb := Find(key, '[', 0);
    var eb := Find(key, ']', 0);
    if sb > 0 then
      var rest :- ParserHelper(key[sb..], val);
      Success(Chain([Name(key[..sb])] + rest.keys, rest.leaf))
    else if MoreThanOneIndex(key) then
      var k :- GetKey(key);
      if k.None? then Failure(TypeError)
      else if eb == -1 then Failure(TypeError)
      else
        var first :- KeyOf(k.value);
        var rest :- ParserHelper(key[eb + 1..], val);
        Success(Chain([first] + rest.keys, rest.leaf))
    else
      var k :- if sb == -1 then Success(Some(key)) else GetKey(key);
      if k.None? then Failure(Malformed)
      else
        var first :- KeyOf(k.value);
        var leaf :- LeafOf(key == "[]", val);
        Success(Chain([first], leaf))
  }

  /** One element: `(var, val) = element.split("=")`, decoded when asked,
      then `parser_helper`. */
  function ElementChain(element: string, unquote: bool): Result<Chain>
  {
    var parts := Text.Split(element, '=');
    if |parts| != 2 then Failure(Malformed)
    else if unquote then ParserHelper(UrlUnquote.UnquotePlus(parts[0]), UrlUnquote.UnquotePlus(parts[1]))
    else ParserHelper(parts[0], parts[1])
  }

  /** The chains of all elements, in order; the first failure wins. */
  function Chains(elements: seq<string>, unquote: bool): (r: Result<seq<Chain>>)
    ensures r.Success? ==> |r.value| == |elements|
    ensures r.Success? ==> forall i :: 0 <= i < |r.value| ==> ElementChain(elements[i], unquote) == Success(r.value[i])
  {
    if elements == [] then Success([])
    else
      var init :- Chains(elements[..|elements| - 1], unquote);
      var last :- ElementChain(elements[|elements| - 1], unquote);
      Success(init + [last])
  }

  // ---------------------------------------------------------------------
  // Merging

  /** The position of key `k`, or -1. */
  function IndexOf(d: seq<(Key, Value)>, k: Key): (i: int)
    ensures i == -1 || (0 <= i < |d| && d[i].0 == k)
    ensures i == -1 <==> forall j :: 0 <= j < |d| ==> d[j].0 != k
  {
    if d == [] then -1
    else if d[|d| - 1].0 == k && IndexOf(d[..|d| - 1], k) == -1 then |d| - 1
    else IndexOf(d[..|d| - 1], k)
  }

  predicate UniqueKeys(d: seq<(Key, Value)>)
  {
    forall i, j :: 0 <= i < j < |d| ==> d[i].0 != d[j].0
  }

  /** One turn of the merge loop of `parse`: walk down the dictionaries
      the chain's keys already name; a new key takes the rest of the chain,
      a repeated last key turns its value into a list and appends. Walking
      into a key that holds no dictionary is a failure. */
  function Insert(d: seq<(Key, Value)>, keys: seq<Key>, leaf: Value): (r: Result<seq<(Key, Value)>>)
    requires |keys| >= 1
    ensures r.Success? ==> |r.value| >= |d|
    decreases |keys|
  {
    var k := keys[0];
    var i := IndexOf(d, k);
    if i == -1 then Success(d + [(k, Nest(keys[1..], leaf))])
    else if |keys| > 1 then
      if d[i].1.Dict? then
        var inner :- Insert(d[i].1.entries, keys[1..], leaf);
        Success(d[i := (k, Dict(inner))])
      else Failure(TypeError)
    else if d[i].1.List? then Success(d[i := (k, List(d[i].1.items + [leaf]))])
    else Success(d[i := (k, List([d[i].1, leaf]))])
  }

  /** The dictionary after merging `chains` in order into an empty one. */
  function MergeAll(chains: seq<Chain>): Result<seq<(Key, Value)>>
    requires forall i :: 0 <= i < |chains| ==> |chains[i].keys| >= 1
  {
    if chains == [] then Success([])
    else
      var d :- MergeAll(chains[..|chains| - 1]);
      Insert(d, chains[|chains| - 1].keys, chains[|chains| - 1].leaf)
  }

  // ---------------------------------------------------------------------
  // Normalisation

  /** `_normalize` with the branch for a dictionary whose first key is ''
      as the source has it (`v.values()[0]`, which Python 3 refuses) when
      `asWritten`, and as evidently intended (that first value) otherwise. */
  function Norm(v: Value, asWritten: bool): Result<Value>
    decreases v, 1
  {
    match v
    case Dict(es) =>
      var es2 :- NormEntries(v, es, asWritten);
      Success(Dict(es2))
    case _ => Success(v)
  }

  function NormEntries(parent: Value, es: seq<(Key, Value)>, asWritten: bool): (r: Result<seq<(Key, Value)>>)
    requires parent.Dict? && es <= parent.entries
    ensures r.Success? ==> |r.value| == |es|
    ensures r.Success? ==> forall i :: 0 <= i < |es| ==> r.value[i].0 == es[i].0
    decreases parent, 0, |es|
  {
    if es == [] then Success([])
    else
      var init :- NormEntries(parent, es[..|es| - 1], asWritten);
      var (k, v) := es[|es| - 1];
      assert es[|es| - 1] in parent.entries;
      var v2 :- NormMember(v, asWritten);
      Success(init + [(k, v2)])
  }

  /** What `newd[k]` becomes for a member value `v`. */
  function NormMember(v: Value, asWritten: bool): Result<Value>
    decreases v, 2
  {
    if !v.Dict? then Success(v)
    else if v.entries == [] then Failure(StopIteration)
    else if v.entries[0].0.Index? then
      var items :- NormValues(v, v.entries, asWritten);
      Success(List(items))
    else if v.entries[0].0 == Name("") then
      if asWritten then Failure(TypeError) else Success(v.entries[0].1)
    else Norm(v, asWritten)
  }

  /** `[_normalize(v1) for k1, v1 in v.items()]`. */
  function NormValues(parent: Value, es: seq<(Key, Value)>, asWritten: bool): (r: Result<seq<Value>>)
    requires parent.Dict? && es <= parent.entries
    ensures r.Success? ==> |r.value| == |es|
    decreases parent, 0, |es|
  {
    if es == [] then Success([])
    else
      var init :- NormValues(parent, es[..|es| - 1], asWritten);
      assert es[|es| - 1] in parent.entries;
      var v2 :- Norm(es[|es| - 1].1, asWritten);
      Success(init + [v2])
  }

  function NormalizeAsWritten(v: Value): Result<Value>
  {
    Norm(v, true)
  }

  function Normalize(v: Value): Result<Value>
  {
    Norm(v, false)
  }

  // ---------------------------------------------------------------------
  // parse

  /** `parse(query_string, unquote, normalized)`, with `_normalize` as
      written or as corrected. */
  function ParseWith(q: string, unquote: bool, normalized: bool, asWritten: bool): Result<Value>
  {
    if q == "" then Success(Dict([]))
    else
      var chains :- Chains(Text.Split(q, '&'), unquote);
      var d :- MergeAll(chains);
      if normalized then Norm(Dict(d), asWritten) else Success(Dict(d))
  }

  /** `parse` with the corrected `_normalize`. */
  function ParseSpec(q: string, unquote: bool, normalized: bool): Result<Value>
  {
    ParseWith(q, unquote, normalized, false)
  }

  /** `parse` as the source runs it: first every element's chain, then the
      merge, one chain at a time. */
  method Parse(q: string, unquote: bool, normalized: bool) returns (r: Result<Value>)
    ensures r == ParseSpec(q, unquote, normalized)
  {
    if q == "" {
      return Success(Dict([]));
    }
    var chains := ChainsOf(Text.Split(q, '&'), unquote);
    if chains.Failure? {
      return Failure(chains.error);
    }
    var d := Merge(chains.value);
    if d.Failure? {
      return Failure(d.error);
    }
    if normalized {
      r := Normalize(Dict(d.value));
    } else {
      r := Success(Dict(d.value));
    }
  }

  /** The first loop of `parse`: `plist.append(parser_helper(var, val))`
      for each element. */
  method ChainsOf(elements: seq<string>, unquote: bool) returns (r: Result<seq<Chain>>)
    ensures r == Chains(elements, unquote)
  {
    var chains: seq<Chain> := [];
    var i := 0;
    while i < |elements|
      invariant 0 <= i <= |elements|
      invariant Chains(elements[..i], unquote) == Success(chains)
    {
      var c := ElementChain(elements[i], unquote);
      ChainsStep(elements, i, unquote);
      if c.Failure? {
        ChainsFailurePersists(elements, i + 1, unquote);
        return Failure(c.error);
      }
      chains := chains + [c.value];
      i := i + 1;
    }
    assert elements[..i] == elements;
    return Success(chains);
  }

  lemma ChainsStep(elements: seq<string>, i: nat, unquote: bool)
    requires i < |elements|
    ensures Chains(elements[..i + 1], unquote) ==
      match Chains(elements[..i], unquote)
      case Failure(e) => Failure(e)
      case Success(init) =>
        match ElementChain(elements[i], unquote)
        case Failure(e) => Failure(e)
        case Success(last) => Success(init + [last])
  {
    assert elements[..i + 1][..i] == elements[..i];
  }

  /** The second loop of `parse`: each chain merged into `mydict`. */
  method Merge(chains: seq<Chain>) returns (r: Result<seq<(Key, Value)>>)
    requires forall i :: 0 <= i < |chains| ==> |chains[i].keys| >= 1
    ensures r == MergeAll(chains)
  {
    var d: seq<(Key, Value)> := [];
    var j := 0;
    while j < |chains|
      invariant 0 <= j <= |chains|
      invariant MergeAll(chains[..j]) == Success(d)
    {
      assert chains[..j + 1][..j] == chains[..j];
      var next := Insert(d, chains[j].keys, chains[j].leaf);
      if next.Failure? {
        MergeFailurePersists(chains, j + 1);
        return Failure(next.error);
      }
      d := next.value;
      j := j + 1;
    }
    assert chains[..j] == chains;
    return Success(d);
  }

  /** Once an element fails, the whole list of chains fails with the first
      failure. */
  lemma {:induction false} ChainsFailurePersists(elements: seq<string>, n: nat, unquote: bool)
    requires 1 <= n <= |elements|
    requires Chains(elements[..n - 1], unquote).Success? && ElementChain(elements[n - 1], unquote).Failure?
    ensures Chains(elements, unquote) == Failure(ElementChain(elements[n - 1], unquote).error)
    decreases |elements|
  {
    if n == |elements| {
      assert elements[..|elements| - 1] == elements[..n - 1];
    } else {
      var init := elements[..|elements| - 1];
      assert init[..n - 1] == elements[..n - 1];
      ChainsFailurePersists(init, n, unquote);
    }
  }

  /** Once a merge step fails, the whole merge fails with that error. */
  lemma {:induction false} MergeFailurePersists(chains: seq<Chain>, n: nat)
    requires forall i :: 0 <= i < |chains| ==> |chains[i].keys| >= 1
    requires 1 <= n <= |chains|
    requires MergeAll(chains[..n - 1]).Success?
    requires Insert(MergeAll(chains[..n - 1]).value, chains[n - 1].keys, chains[n - 1].leaf).Failure?
    ensures MergeAll(chains) == Failure(Insert(MergeAll(chains[..n - 1]).value, chains[n - 1].keys, chains[n - 1].leaf).error)
    decreases |chains|
  {
    if n == |chains| {
      assert chains[..|chains| - 1] == chains[..n - 1];
    } else {
      var init := chains[..|chains| - 1];
      assert init[..n - 1] == chains[..n - 1];
      MergeFailurePersists(init, n);
    }
  }

  // ---------------------------------------------------------------------
  // Key helpers: what they recognise

  /** A name stands before the brackets exactly when there is a `[` and the
      key does not start with it. */
  lemma HasVariableNameIff(s: string)
    ensures HasVariableName(s) <==> ('[' in s && s[0] != '[')
  {
    if '[' in s {
      var i :| 0 <= i < |s| && s[i] == '[';
      assert Find(s, '[', 0) != -1;
    }
  }

  /** `Find` reaches any later occurrence. */
  lemma FindReaches(s: string, c: char, from: nat, x: nat)
    requires from <= x < |s| && s[x] == c
    ensures Find(s, c, from) != -1 && Find(s, c, from) <= x
  {
  }

  /** Two pairs, one after the other. */
  predicate TwoPairs(s: string)
  {
    exists i, j, k, l :: 0 <= i < j < k < l < |s| && s[i] == '[' && s[j] == ']' && s[k] == '[' && s[l] == ']'
  }

  lemma MoreThanOneIndexSound(s: string)
    requires MoreThanOneIndex(s)
    ensures TwoPairs(s)
  {
    var i := Find(s, '[', 0);
    var j := Find(s, ']', i);
    var k := Find(s, '[', j);
    var l := Find(s, ']', k);
    assert 0 <= i < j < k < l < |s| && s[i] == '[' && s[j] == ']' && s[k] == '[' && s[l] == ']';
  }

  lemma MoreThanOneIndexComplete(s: string, i: nat, j: nat, k: nat, l: nat)
    requires i < j < k < l < |s| && s[i] == '[' && s[j] == ']' && s[k] == '[' && s[l] == ']'
    ensures MoreThanOneIndex(s)
  {
    FindReaches(s, '[', 0, i);
    var a := Find(s, '[', 0);
    FindReaches(s, ']', a, j);
    var b := Find(s, ']', a);
    FindReaches(s, '[', b, k);
    var c := Find(s, '[', b);
    FindReaches(s, ']', c, l);
    assert PairsFrom(s, b, 1);
  }

  /** `more_than_one_index(s)` holds exactly when `s` has a `[`, a `]`
      after it, another `[` after that and a `]` after that. */
  lemma MoreThanOneIndexIff(s: string)
    ensures MoreThanOneIndex(s) <==> TwoPairs(s)
  {
    if MoreThanOneIndex(s) {
      MoreThanOneIndexSound(s);
    }
    if TwoPairs(s) {
      var i, j, k, l :| 0 <= i < j < k < l < |s| && s[i] == '[' && s[j] == ']' && s[k] == '[' && s[l] == ']';
      MoreThanOneIndexComplete(s, i, j, k, l);
    }
  }

  /** `get_key` gives `None` exactly when a bracket is missing. */
  lemma GetKeyNoneIff(s: string)
    ensures GetKey(s) == Success(None) <==> ('[' !in s || ']' !in s)
  {
    if '[' in s {
      var i :| 0 <= i < |s| && s[i] == '[';
      FindReaches(s, '[', 0, i);
    }
    if ']' in s {
      var i :| 0 <= i < |s| && s[i] == ']';
      FindReaches(s, ']', 0, i);
    }
  }

  /** A bracket key reads back the text between the brackets, with or
      without single quotes around it. */
  lemma GetKeyReadsBack(k: string, rest: string)
    requires ']' !in k
    ensures GetKey("['" + k + "']" + rest) == Success(Some(k))
    ensures (k == [] || (k[0] != '\'' && k[|k| - 1] != '\'')) ==> GetKey("[" + k + "]" + rest) == Success(Some(k))
  {
    var q := "['" + k + "']" + rest;
    assert q[0] == '[' && q[1] == '\'';
    assert q[|k| + 3] == ']' && q[|k| + 2] == '\'';
    assert forall x :: 0 <= x < |k| + 3 ==> q[x] != ']' by {
      forall x | 0 <= x < |k| + 3 ensures q[x] != ']' {
        if 2 <= x < |k| + 2 {
          assert q[x] == k[x - 2];
        }
      }
    }
    assert Find(q, ']', 0) == |k| + 3;
    assert q[2..|k| + 2] == k;
    var p := "[" + k + "]" + rest;
    assert p[0] == '[' && p[|k| + 1] == ']';
    assert forall x :: 0 <= x < |k| + 1 ==> p[x] != ']' by {
      forall x | 0 <= x < |k| + 1 ensures p[x] != ']' {
        if 1 <= x < |k| + 1 {
          assert p[x] == k[x - 1];
        }
      }
    }
    assert Find(p, ']', 0) == |k| + 1;
    assert p[1..|k| + 1] == k;
  }

  /** Integer keys read back: the decimal text of any integer is a number
      and reads as that integer, so `a[3]` and `a[-3]` give int keys. */
  lemma KeyOfIntToString(i: int)
    ensures IsNumber(Text.IntToString(i)) && KeyOf(Text.IntToString(i)) == Success(Index(i))
  {
    var s := Text.IntToString(i);
    IntToStringMagnitude(i);
    Text.NatToStringRoundTrip(if i < 0 then -i else i);
    KeyOfAscii(s);
  }

  /** `str(i)` is the digits of `abs(i)`, with a `-` first when `i` is
      negative. */
  lemma IntToStringMagnitude(i: int)
    ensures var s := Text.IntToString(i);
      Magnitude(s) == Text.NatToString(if i < 0 then -i else i) && (s[0] == '-' <==> i < 0)
  {
    var n: nat := if i < 0 then -i else i;
    var t := Text.NatToString(n);
    var s := Text.IntToString(i);
    if i < 0 {
      assert s == "-" + t;
      assert ("-" + t)[1..] == t;
    } else {
      assert Text.IsDigit(t[0]);
    }
  }

  /** A key is an int exactly when it is a sign and digits that are all
      decimal; a sign and digits with one that is not decimal make `int()`
      raise `ValueError`; anything else stays a string key. */
  lemma KeyOfIff(s: string)
    ensures KeyOf(s).Success? && KeyOf(s).value.Index? <==> IsNumber(s) && UnicodeDigits.AllDecimal(Magnitude(s))
    ensures KeyOf(s).Failure? <==> IsNumber(s) && !UnicodeDigits.AllDecimal(Magnitude(s))
    ensures KeyOf(s).Failure? ==> KeyOf(s).error == ValueError
    ensures !IsNumber(s) ==> KeyOf(s) == Success(Name(s))
  {
  }

  /** A sign and ASCII digits read as the integer they spell. */
  lemma KeyOfAscii(s: string)
    requires |Magnitude(s)| > 0 && Text.AllDigits(Magnitude(s))
    ensures IsNumber(s)
    ensures var n: int := Text.DigitsValue(Magnitude(s));
      KeyOf(s) == Success(Index(if s[0] == '-' then -n else n))
  {
    var m := Magnitude(s);
    var n: int := Text.DigitsValue(m);
    UnicodeDigits.AsciiDecimal(m);
    assert IsNumber(s);
    assert ToInt(s) == Success(if s[0] == '-' then -n else n);
  }

  /** A key of one digit, in any script, is a number; it reads as the
      digit's value when the digit is decimal and raises `ValueError`
      otherwise. */
  lemma KeyOfOneDigit(c: char)
    requires UnicodeDigits.IsDigit(c)
    ensures IsNumber([c])
    ensures UnicodeDigits.IsDecimal(c) ==> KeyOf([c]) == Success(Index(UnicodeDigits.DecimalValue(c)))
    ensures !UnicodeDigits.IsDecimal(c) ==> KeyOf([c]) == Failure(ValueError)
  {
    OneDigitNumber(c);
    if UnicodeDigits.IsDecimal(c) {
      KeyOfOneDecimal(c);
    } else {
      KeyOfOtherDigit(c);
    }
  }

  lemma KeyOfOneDecimal(c: char)
    requires UnicodeDigits.IsDecimal(c)
    ensures KeyOf([c]) == Success(Index(UnicodeDigits.DecimalValue(c)))
  {
    UnicodeDigits.DigitNotSign(c);
    OneDigitNumber(c);
    UnicodeDigits.OneDecimal(c);
    assert ToInt([c]) == Success(UnicodeDigits.DecimalValue(c));
  }

  lemma KeyOfOtherDigit(c: char)
    requires UnicodeDigits.IsDigit(c) && !UnicodeDigits.IsDecimal(c)
    ensures KeyOf([c]) == Failure(ValueError)
  {
    OneDigitNumber(c);
    assert !UnicodeDigits.AllDecimal([c]);
  }

  lemma OneDigitNumber(c: char)
    requires UnicodeDigits.IsDigit(c)
    ensures Magnitude([c]) == [c] && IsNumber([c])
  {
    UnicodeDigits.DigitNotSign(c);
    assert Magnitude([c]) == [c];
  }

  /** A decimal digit of another script is read as its value. */
  lemma KeyOfArabicIndic()
    ensures KeyOf("\U{663}") == Success(Index(3))
  {
    UnicodeDigits.ArabicIndicThree();
    KeyOfOneDigit('\U{663}');
  }

  /** A superscript digit is a number to `is_number` but `int()` refuses
      it. */
  lemma KeyOfSuperscript()
    ensures IsNumber("\U{B2}") && KeyOf("\U{B2}") == Failure(ValueError)
  {
    UnicodeDigits.SuperscriptTwo();
    KeyOfOneDigit('\U{B2}');
  }

  /** A failing `int()` points at a digit that is not decimal. */
  lemma KeyOfFailure(s: string)
    requires KeyOf(s).Failure?
    ensures !UnicodeDigits.DecimalOnly(s)
  {
    var m := Magnitude(s);
    assert IsNumber(s) && !UnicodeDigits.AllDecimal(m);
    var x :| 0 <= x < |m| && !UnicodeDigits.IsDecimal(m[x]);
    assert UnicodeDigits.IsDigit(m[x]);
    MagnitudeSuffix(s);
    var y := |s| - |m| + x;
    assert s[y] == m[x];
    assert !(UnicodeDigits.IsDigit(s[y]) ==> UnicodeDigits.IsDecimal(s[y]));
  }

  lemma LeafOfFailure(arrayKey: bool, val: string)
    requires LeafOf(arrayKey, val).Failure?
    ensures !UnicodeDigits.DecimalOnly(val) && LeafOf(arrayKey, val).error == ValueError
  {
    KeyOfFailure(val);
  }

  // ---------------------------------------------------------------------
  // One element: what `parser_helper` builds

  /** A key without brackets is a single key, an int when it reads as one. */
  lemma ParserHelperPlain(key: string, val: string)
    requires '[' !in key
    ensures ParserHelper(key, val) == (var k :- KeyOf(key); Success(Chain([k], Str(val))))
  {
    assert Find(key, '[', 0) == -1;
    assert !PairsFrom(key, 0, 2);
  }

  /** A lone bracket key `[k]` is the single key `k`; for `[]` a numeric
      value becomes an int. */
  lemma ParserHelperBracket(k: string, val: string)
    requires '[' !in k && ']' !in k
    requires k == [] || (k[0] != '\'' && k[|k| - 1] != '\'')
    ensures ParserHelper("[" + k + "]", val) ==
      (var key :- KeyOf(k); var leaf :- LeafOf(k == [], val); Success(Chain([key], leaf)))
  {
    var tail := "[" + k + "]";
    assert tail == "[" + k + "]" + [];
    GetKeyReadsBack(k, []);
    assert Find(tail, '[', 0) == 0;
    assert forall x :: 1 <= x < |tail| ==> tail[x] != '[' by {
      forall x | 1 <= x < |tail| ensures tail[x] != '[' {
        if x < |k| + 1 {
          assert tail[x] == k[x - 1];
        }
      }
    }
    assert Find(tail, '[', |k| + 1) == -1;
    assert !PairsFrom(tail, 0, 2);
    assert tail == "[]" <==> k == [];
  }

  /** A name before the brackets becomes the outer key. */
  lemma ParserHelperName(name: string, rest: string, val: string)
    requires name != [] && '[' !in name && |rest| > 0 && rest[0] == '['
    ensures ParserHelper(name + rest, val) ==
      match ParserHelper(rest, val)
      case Failure(e) => Failure(e)
      case Success(c) => Success(Chain([Name(name)] + c.keys, c.leaf))
  {
    var key := name + rest;
    assert key[|name|] == '[';
    assert forall x :: 0 <= x < |name| ==> key[x] != '[' by {
      forall x | 0 <= x < |name| ensures key[x] != '[' {
        assert key[x] == name[x];
      }
    }
    assert Find(key, '[', 0) == |name|;
    assert key[|name|..] == rest && key[..|name|] == name;
  }

  /** `name[k]` nests one level: `{name: {k: val}}`. */
  lemma ParserHelperNested(name: string, k: string, val: string)
    requires name != [] && '[' !in name && '[' !in k && ']' !in k
    requires k == [] || (k[0] != '\'' && k[|k| - 1] != '\'')
    ensures ParserHelper(name + "[" + k + "]", val) ==
      (var key :- KeyOf(k); var leaf :- LeafOf(k == [], val); Success(Chain([Name(name), key], leaf)))
  {
    var tail := "[" + k + "]";
    Assoc3(name, "[", k, "]");
    ParserHelperBracket(k, val);
    ParserHelperName(name, tail, val);
    if KeyOf(k).Success? && LeafOf(k == [], val).Success? {
      assert [Name(name)] + [KeyOf(k).value] == [Name(name), KeyOf(k).value];
    }
  }

  lemma Assoc3<T>(a: seq<T>, b: seq<T>, c: seq<T>, d: seq<T>)
    ensures a + b + c + d == a + (b + c + d)
  {
  }

  /** Every failure of `parser_helper` is a malformed key or the
      `ValueError` of `int()`: the indexing and type errors its helpers
      could raise never happen on the keys it passes them, and `int()`
      fails only on a digit `isdigit` accepts but that is not decimal. */
  lemma ParserHelperErrors(key: string, val: string)
    ensures ParserHelper(key, val).Failure? ==> ParserHelper(key, val).error in {Malformed, ValueError}
    ensures ParserHelper(key, val).Failure? && ParserHelper(key, val).error == ValueError ==>
      !UnicodeDigits.DecimalOnly(key) || !UnicodeDigits.DecimalOnly(val)
  {
    ParserHelperExplained(key, val);
  }

  lemma {:induction false} ParserHelperExplained(key: string, val: string)
    ensures ExplainedFailure(ParserHelper(key, val), key, val)
    decreases |key|
  {
    var sb := Find(key, '[', 0);
    if sb > 0 {
      ParserHelperExplained(key[sb..], val);
      NamedKeyErrors(key, val);
    } else if MoreThanOneIndex(key) {
      NestedBracketCloses(key);
      ParserHelperExplained(key[Find(key, ']', 0) + 1..], val);
      NestedBracketErrors(key, val);
    } else {
      LastKeyErrors(key, val);
    }
  }

  /** The `var['key'][3]` branch: the error of the part after the name. */
  lemma NamedKeyErrors(key: string, val: string)
    requires 0 < Find(key, '[', 0)
    requires var rest := key[Find(key, '[', 0)..]; ExplainedFailure(ParserHelper(rest, val), rest, val)
    ensures ExplainedFailure(ParserHelper(key, val), key, val)
  {
    UnicodeDigits.DecimalOnlyInfix(key, Find(key, '[', 0), |key|);
  }

  /** A failure of `parser_helper(key, val)` that is a malformed key, or the
      `ValueError` of a digit in `key` or `val` that is not decimal. */
  predicate ExplainedFailure(r: Result<Chain>, key: string, val: string)
  {
    r.Failure? ==>
      r.error in {Malformed, ValueError} &&
      (r.error == ValueError ==> !UnicodeDigits.DecimalOnly(key) || !UnicodeDigits.DecimalOnly(val))
  }

  /** A key with two index pairs and no name opens at 0 and closes its
      first pair inside the key. */
  lemma NestedBracketCloses(key: string)
    requires Find(key, '[', 0) <= 0 && MoreThanOneIndex(key)
    ensures Find(key, '[', 0) == 0 && 1 <= Find(key, ']', 0) < |key|
  {
    var j := Find(key, ']', 0);
    var l := Find(key, ']', Find(key, '[', 0));
    FindReaches(key, ']', 0, l);
  }

  /** The `['key'][3]` branch: the bracket key's error or the rest's. */
  lemma NestedBracketErrors(key: string, val: string)
    requires Find(key, '[', 0) <= 0 && MoreThanOneIndex(key)
    requires 1 <= Find(key, ']', 0) < |key|
    requires var rest := key[Find(key, ']', 0) + 1..]; ExplainedFailure(ParserHelper(rest, val), rest, val)
    ensures ExplainedFailure(ParserHelper(key, val), key, val)
  {
    var eb := Find(key, ']', 0);
    var k := NestedBracketStep(key, val);
    UnicodeDigits.DecimalOnlyInfix(key, eb + 1, |key|);
    if KeyOf(k).Failure? {
      BracketKeyErrors(key);
    }
  }

  /** In the `['key'][3]` branch `parser_helper` fails with the bracket
      key's error, or else with the error of the part after it. */
  lemma NestedBracketStep(key: string, val: string) returns (k: string)
    requires Find(key, '[', 0) <= 0 && MoreThanOneIndex(key)
    ensures GetKey(key) == Success(Some(k))
    ensures var r := ParserHelper(key, val);
      r.Failure? ==>
        if KeyOf(k).Failure? then r.error == KeyOf(k).error
        else
          var rest := ParserHelper(key[Find(key, ']', 0) + 1..], val);
          rest.Failure? && r.error == rest.error
  {
    NestedBracketCloses(key);
    k := GetKey(key).value.value;
  }

  /** The `key = val` and `['key']` branch. */
  lemma LastKeyErrors(key: string, val: string)
    requires Find(key, '[', 0) <= 0 && !MoreThanOneIndex(key)
    ensures ExplainedFailure(ParserHelper(key, val), key, val)
  {
    var sb := Find(key, '[', 0);
    var eb := Find(key, ']', 0);
    if sb == 0 && eb != -1 {
      assert eb >= 1;
      var k := GetKey(key);
      if k.Success? && k.value.Some? && KeyOf(k.value.value).Failure? {
        BracketKeyErrors(key);
      }
    } else if sb == -1 && KeyOf(key).Failure? {
      KeyOfFailure(key);
    }
    if LeafOf(key == "[]", val).Failure? {
      LeafOfFailure(key == "[]", val);
    }
  }

  /** The bracket key of `get_key` fails to read as an int only on a digit
      of the whole key that is not decimal. */
  lemma BracketKeyErrors(key: string)
    requires GetKey(key).Success? && GetKey(key).value.Some? && KeyOf(GetKey(key).value.value).Failure?
    ensures KeyOf(GetKey(key).value.value).error == ValueError && !UnicodeDigits.DecimalOnly(key)
  {
    GetKeySlice(key);
    KeyOfFailure(GetKey(key).value.value);
  }

  /** The text `get_key` returns is a piece of its argument. */
  lemma GetKeySlice(s: string)
    requires GetKey(s).Success? && GetKey(s).value.Some?
    ensures UnicodeDigits.DecimalOnly(s) ==> UnicodeDigits.DecimalOnly(GetKey(s).value.value)
  {
    var i, j := GetKeyBounds(s);
    SliceDecimalOnly(s, i, j);
  }

  lemma GetKeyBounds(s: string) returns (i: nat, j: int)
    requires GetKey(s).Success? && GetKey(s).value.Some?
    ensures GetKey(s).value.value == Slice(s, i, j)
  {
    var start := Find(s, '[', 0);
    var end := Find(s, ']', 0);
    var from := if s[start + 1] == '\'' then start + 1 else start;
    i := from + 1;
    j := if At(s, end - 1) == '\'' then end - 1 else end;
  }

  lemma SliceDecimalOnly(s: string, i: nat, j: int)
    ensures UnicodeDigits.DecimalOnly(s) ==> UnicodeDigits.DecimalOnly(Slice(s, i, j))
  {
    var e := if j < 0 then (if |s| + j < 0 then 0 else |s| + j) else (if j > |s| then |s| else j);
    if i < e {
      UnicodeDigits.DecimalOnlyInfix(s, i, e);
    }
  }

  /** Every failure of an element is a malformed key, a missing `=`, or the
      `ValueError` of `int()` on a digit that is not decimal. */
  lemma {:induction false} ChainsErrors(elements: seq<string>, unquote: bool)
    ensures Chains(elements, unquote).Failure? ==> Chains(elements, unquote).error in {Malformed, ValueError}
  {
    if elements != [] {
      ChainsErrors(elements[..|elements| - 1], unquote);
      var e := elements[|elements| - 1];
      var parts := Text.Split(e, '=');
      if |parts| == 2 {
        if unquote {
          ParserHelperErrors(UrlUnquote.UnquotePlus(parts[0]), UrlUnquote.UnquotePlus(parts[1]));
        } else {
          ParserHelperErrors(parts[0], parts[1]);
        }
      }
    }
  }

  /** An element without exactly one `=` makes the whole query fail: with
      `MalformedQueryStringError`, unless an earlier element already
      raised the `ValueError` of `int()`. */
  lemma MalformedWithoutOneEquals(q: string, unquote: bool, normalized: bool, i: nat)
    requires q != "" && i < |Text.Split(q, '&')| && |Text.Split(Text.Split(q, '&')[i], '=')| != 2
    ensures ParseSpec(q, unquote, normalized).Failure?
    ensures ParseSpec(q, unquote, normalized).error in {Malformed, ValueError}
    ensures Chains(Text.Split(q, '&')[..i], unquote).Success? ==> ParseSpec(q, unquote, normalized) == Failure(Malformed)
  {
    var es := Text.Split(q, '&');
    ChainsErrors(es, unquote);
    ChainsFirstFailure(es, i + 1, unquote);
  }

  /** Once an element fails, the whole list of chains fails, with that
      failure or with an earlier one. */
  lemma {:induction false} ChainsFirstFailure(elements: seq<string>, n: nat, unquote: bool)
    requires 1 <= n <= |elements| && ElementChain(elements[n - 1], unquote).Failure?
    ensures Chains(elements, unquote).Failure?
    ensures Chains(elements[..n - 1], unquote).Success? ==>
      Chains(elements, unquote) == Failure(ElementChain(elements[n - 1], unquote).error)
    decreases |elements|
  {
    if n < |elements| {
      var init := elements[..|elements| - 1];
      assert init[n - 1] == elements[n - 1];
      ChainsFirstFailure(init, n, unquote);
    }
    if Chains(elements[..n - 1], unquote).Success? {
      ChainsFailurePersists(elements, n, unquote);
    }
  }

  // ---------------------------------------------------------------------
  // parse: what the query means

  /** The empty query is the empty dictionary. */
  lemma ParseEmpty(unquote: bool, normalized: bool)
    ensures ParseSpec("", unquote, normalized) == Success(Dict([]))
  {
  }

  /** A single plain `k=v` element is `{k: v}` after decoding. */
  lemma ParsePlain(k: string, v: string)
    requires '&' !in k && '&' !in v && '=' !in k && '=' !in v && '[' !in UrlUnquote.UnquotePlus(k)
    ensures ParseSpec(k + "=" + v, true, false) ==
      (var key :- KeyOf(UrlUnquote.UnquotePlus(k)); Success(Dict([(key, Str(UrlUnquote.UnquotePlus(v)))])))
  {
    var e := k + "=" + v;
    PlainElement(k, v);
    var es := [e];
    assert es[..0] == [] && es[|es| - 1] == e;
    assert Chains(es[..0], true) == Success([]);
    if KeyOf(UrlUnquote.UnquotePlus(k)).Success? {
      var c := Chain([KeyOf(UrlUnquote.UnquotePlus(k)).value], Str(UrlUnquote.UnquotePlus(v)));
      assert [] + [c] == [c];
      assert Chains(es, true) == Success([c]);
      SingleChain(c.keys[0], c.leaf);
    }
  }

  /** A plain `k=v` is one element whose chain is its decoded key. */
  lemma PlainElement(k: string, v: string)
    requires '&' !in k && '&' !in v && '=' !in k && '=' !in v && '[' !in UrlUnquote.UnquotePlus(k)
    ensures Text.Split(k + "=" + v, '&') == [k + "=" + v]
    ensures ElementChain(k + "=" + v, true) ==
      (var key :- KeyOf(UrlUnquote.UnquotePlus(k)); Success(Chain([key], Str(UrlUnquote.UnquotePlus(v)))))
  {
    ElementSplits(k, v);
    ParserHelperPlain(UrlUnquote.UnquotePlus(k), UrlUnquote.UnquotePlus(v));
  }

  /** `k=v` without `&` and with one `=` is one element of two parts. */
  lemma ElementSplits(k: string, v: string)
    requires '&' !in k && '&' !in v && '=' !in k && '=' !in v
    ensures Text.Split(k + "=" + v, '&') == [k + "=" + v]
    ensures Text.Split(k + "=" + v, '=') == [k, v]
  {
    var e := k + "=" + v;
    assert '&' !in e by {
      forall x | 0 <= x < |e| ensures e[x] != '&' {
        if x < |k| { assert e[x] == k[x]; } else if x > |k| { assert e[x] == v[x - |k| - 1]; }
      }
    }
    Text.SplitNoSep(e, '&');
    Text.SplitPrefix(k, '=', v);
    Text.SplitNoSep(v, '=');
    assert k + ['='] + v == e;
  }

  /** The chains of a single element are its own chain, or its failure. */
  lemma OneElementChains(e: string, unquote: bool)
    ensures Chains([e], unquote) == (var c :- ElementChain(e, unquote); Success([c]))
  {
    var es := [e];
    assert es[..0] == [] && es[|es| - 1] == e;
    assert Chains(es[..0], unquote) == Success([]);
    if ElementChain(e, unquote).Success? {
      assert [] + [ElementChain(e, unquote).value] == [ElementChain(e, unquote).value];
    }
  }

  /** `a[%D9%A3]=x`: the escapes decode to ARABIC-INDIC DIGIT THREE, a
      decimal digit, so the key is the int 3: {'a': {3: 'x'}}. */
  lemma ParseArabicIndicKey()
    ensures ParseSpec("a[%D9%A3]=x", true, false) == Success(Dict([(Name("a"), Dict([(Index(3), Str("x"))]))]))
  {
    var q := "a[%D9%A3]=x";
    ArabicIndicElement(q, "a[%D9%A3]");
    OneElementChains(q, true);
    MergeOneChain(Name("a"), Index(3), Str("x"));
  }

  lemma ArabicIndicElement(q: string, k: string)
    requires k == "a[%D9%A3]" && q == k + "=x"
    ensures Text.Split(q, '&') == [q]
    ensures ElementChain(q, true) == Success(Chain([Name("a"), Index(3)], Str("x")))
  {
    EscapedElement(k);
    UrlUnquote.ArabicIndicEscape();
    ArabicIndicHelper(UrlUnquote.UnquotePlus(k));
  }

  lemma ArabicIndicHelper(key: string)
    requires key == "a[\U{663}]"
    ensures ParserHelper(key, "x") == Success(Chain([Name("a"), Index(3)], Str("x")))
  {
    var c := key[2];
    assert c == '\U{663}';
    UnicodeDigits.ArabicIndicThree();
    KeyOfOneDigit(c);
    NestedOneChar(key, "x");
  }

  /** `a[c]` for one character `c` other than a bracket or a quote nests
      the key of `c` under `a`. */
  lemma NestedOneChar(key: string, val: string)
    requires |key| == 4 && key[..1] == "a" && key[1] == '[' && key[3] == ']'
    requires key[2] != '[' && key[2] != ']' && key[2] != '\''
    ensures ParserHelper(key, val) ==
      (var k :- KeyOf([key[2]]); var leaf :- LeafOf(false, val); Success(Chain([Name("a"), k], leaf)))
  {
    var c := key[2];
    var tail := key[1..];
    assert tail == "[" + [c] + "]";
    ParserHelperBracket([c], val);
    assert key == key[..1] + tail;
    ParserHelperName(key[..1], tail, val);
    if KeyOf([c]).Success? {
      assert [Name("a")] + [KeyOf([c]).value] == [Name("a"), KeyOf([c]).value];
    }
  }

  /** An escaped key `k` with the value `x` is one element, read as
      `parser_helper(unquote_plus(k), 'x')`. */
  lemma EscapedElement(k: string)
    requires '&' !in k && '=' !in k
    ensures Text.Split(k + "=x", '&') == [k + "=x"]
    ensures ElementChain(k + "=x", true) == ParserHelper(UrlUnquote.UnquotePlus(k), "x")
  {
    ElementSplits(k, "x");
    assert k + "=" + "x" == k + "=x";
    UrlUnquote.UnquotePlusPlain("x");
  }

  /** `a[%C2%B2]=x`: the escapes decode to SUPERSCRIPT TWO, which
      `is_number` accepts and `int()` refuses, so `parse` raises
      `ValueError`. */
  lemma ParseSuperscriptKey()
    ensures ParseSpec("a[%C2%B2]=x", true, false) == Failure(ValueError)
  {
    var q := "a[%C2%B2]=x";
    SuperscriptElement(q, "a[%C2%B2]");
    OneElementChains(q, true);
  }

  lemma SuperscriptElement(q: string, k: string)
    requires k == "a[%C2%B2]" && q == k + "=x"
    ensures Text.Split(q, '&') == [q]
    ensures ElementChain(q, true) == Failure(ValueError)
  {
    EscapedElement(k);
    UrlUnquote.SuperscriptEscape();
    SuperscriptHelper(UrlUnquote.UnquotePlus(k));
  }

  lemma SuperscriptHelper(key: string)
    requires key == "a[\U{B2}]"
    ensures ParserHelper(key, "x") == Failure(ValueError)
  {
    var c := key[2];
    assert c == '\U{B2}';
    UnicodeDigits.SuperscriptTwo();
    KeyOfOneDigit(c);
    NestedOneChar(key, "x");
  }

  /** A single chain of one key is a one-entry dictionary. */
  lemma SingleChain(k: Key, leaf: Value)
    ensures MergeAll([Chain([k], leaf)]) == Success([(k, leaf)])
  {
    assert [Chain([k], leaf)][..0] == [];
    var keys := [k];
    var none: seq<(Key, Value)> := [];
    assert keys[0] == k && keys[1..] == [];
    assert IndexOf(none, k) == -1;
    assert Nest(keys[1..], leaf) == leaf;
    assert none + [(k, leaf)] == [(k, leaf)];
    assert Insert(none, keys, leaf) == Success([(k, leaf)]);
  }

  /** The value a key holds after its occurrences with leaves `ls`: the
      leaf itself once, the list of all leaves in order when repeated. */
  function Collected(ls: seq<Value>): Value
    requires |ls| >= 1
  {
    if |ls| == 1 then ls[0] else List(ls)
  }

  /** Repeating a key collects its values into a list, in the order they
      appear. */
  lemma {:induction false} RepeatedKeyCollects(k: Key, ls: seq<Value>)
    requires |ls| >= 1 && forall i :: 0 <= i < |ls| ==> !ls[i].List?
    ensures MergeAll(seq(|ls|, i requires 0 <= i < |ls| => Chain([k], ls[i]))) == Success([(k, Collected(ls))])
  {
    var cs := seq(|ls|, i requires 0 <= i < |ls| => Chain([k], ls[i]));
    if |ls| == 1 {
      assert cs == [Chain([k], ls[0])];
      SingleChain(k, ls[0]);
    } else {
      var init := ls[..|ls| - 1];
      assert cs[..|cs| - 1] == seq(|init|, i requires 0 <= i < |init| => Chain([k], init[i]));
      RepeatedKeyCollects(k, init);
      var d := [(k, Collected(init))];
      var last := ls[|ls| - 1];
      var keys := [k];
      assert IndexOf(d, k) == 0 && keys[0] == k && |keys| == 1;
      assert cs[|cs| - 1] == Chain(keys, last);
      if |init| == 1 {
        assert ls == [init[0], last];
        assert d[0 := (k, List([d[0].1, last]))] == [(k, List(ls))];
      } else {
        assert init + [last] == ls;
        assert d[0 := (k, List(d[0].1.items + [last]))] == [(k, List(ls))];
      }
      assert Insert(d, keys, last) == Success([(k, Collected(ls))]);
    }
  }

  /** Two elements under the same first key merge into one dictionary under
      it; when their second keys are equal too, the values form a list. */
  lemma SharedPrefixMerges(a: Key, b: Key, c: Key, l1: Value, l2: Value)
    requires !l1.List? && !l1.Dict?
    ensures MergeAll([Chain([a, b], l1), Chain([a, c], l2)]) ==
      Success([(a, Dict(if b == c then [(b, List([l1, l2]))] else [(b, l1), (c, l2)]))])
  {
    var cs := [Chain([a, b], l1), Chain([a, c], l2)];
    var ac := [a, c];
    assert cs[..1] == [Chain([a, b], l1)];
    MergeOneChain(a, b, l1);
    var d := [(a, Dict([(b, l1)]))];
    assert IndexOf(d, a) == 0;
    assert ac[0] == a && ac[1..] == [c];
    var merged := if b == c then [(b, List([l1, l2]))] else [(b, l1), (c, l2)];
    InsertSecondKey(b, c, l1, l2);
    assert d[0 := (a, Dict(merged))] == [(a, Dict(merged))];
    assert d[0].1.entries == [(b, l1)];
    assert cs[|cs| - 1] == Chain(ac, l2);
  }

  lemma MergeOneChain(a: Key, b: Key, l1: Value)
    ensures MergeAll([Chain([a, b], l1)]) == Success([(a, Dict([(b, l1)]))])
  {
    var cs := [Chain([a, b], l1)];
    var ab := [a, b];
    var none: seq<(Key, Value)> := [];
    assert cs[..0] == [];
    assert ab[0] == a && ab[1..] == [b] && [b][1..] == [];
    assert Nest([b], l1) == Dict([(b, l1)]);
    assert IndexOf(none, a) == -1;
    assert none + [(a, Dict([(b, l1)]))] == [(a, Dict([(b, l1)]))];
    assert Insert(none, ab, l1) == Success([(a, Dict([(b, l1)]))]);
    assert MergeAll(cs[..0]) == Success([]);
  }

  lemma InsertSecondKey(b: Key, c: Key, l1: Value, l2: Value)
    requires !l1.List? && !l1.Dict?
    ensures Insert([(b, l1)], [c], l2) == Success(if b == c then [(b, List([l1, l2]))] else [(b, l1), (c, l2)])
  {
    var inner := [(b, l1)];
    var cs1 := [c];
    assert cs1[0] == c && |cs1| == 1 && cs1[1..] == [];
    if b == c {
      assert IndexOf(inner, c) == 0;
      assert inner[0 := (c, List([inner[0].1, l2]))] == [(b, List([l1, l2]))];
    } else {
      assert IndexOf(inner, c) == -1;
      assert Nest(cs1[1..], l2) == l2;
      assert inner + [(c, l2)] == [(b, l1), (c, l2)];
    }
  }

  /** Merging keeps a dictionary: keys stay distinct, existing keys keep
      their places and a new first key goes to the end. */
  lemma InsertKeepsKeys(d: seq<(Key, Value)>, keys: seq<Key>, leaf: Value)
    requires |keys| >= 1 && UniqueKeys(d)
    ensures Insert(d, keys, leaf).Success? ==>
      var r := Insert(d, keys, leaf).value;
      UniqueKeys(r) && (forall i :: 0 <= i < |d| ==> r[i].0 == d[i].0) &&
      |r| == |d| + (if IndexOf(d, keys[0]) == -1 then 1 else 0) &&
      (|r| > |d| ==> r[|d|].0 == keys[0])
  {
  }

  // ---------------------------------------------------------------------
  // Normalisation: the finding and the corrected definition

  predicate NoEmptyDict(v: Value)
  {
    match v
    case Dict(es) => es != [] && forall i :: 0 <= i < |es| ==> NoEmptyDict(es[i].1)
    case _ => true
  }

  /** `a[]=x` is the one chain `a`, '' with leaf `x`. */
  lemma AppendKeyChains()
    ensures Chains(Text.Split("a[]=x", '&'), true) == Success([Chain([Name("a"), Name("")], Str("x"))])
  {
    AppendKeySplits();
    AppendKeyElement();
    OneElementChains("a[]=x", true);
  }

  lemma AppendKeyElement()
    ensures ElementChain("a[]=x", true) == Success(Chain([Name("a"), Name("")], Str("x")))
  {
    AppendKeySplits();
    UrlUnquote.UnquotePlusPlain("a[]");
    UrlUnquote.UnquotePlusPlain("x");
    AppendKeyHelper();
  }

  lemma AppendKeyHelper()
    ensures ParserHelper("a[]", "x") == Success(Chain([Name("a"), Name("")], Str("x")))
  {
    AppendKeyLeaf();
    ParserHelperNested("a", "", "x");
    assert "a" + "[" + "" + "]" == "a[]";
  }

  lemma AppendKeyLeaf()
    ensures KeyOf("") == Success(Name("")) && LeafOf(true, "x") == Success(Str("x"))
  {
    EmptyKey();
    PlainLeaf();
  }

  lemma EmptyKey()
    ensures KeyOf("") == Success(Name(""))
  {
    assert !IsNumber("");
  }

  lemma PlainLeaf()
    ensures LeafOf(true, "x") == Success(Str("x"))
  {
    UnicodeDigits.LowDigits('x');
    assert Magnitude("x") == "x";
  }

  lemma AppendKeySplits()
    ensures Text.Split("a[]=x", '&') == ["a[]=x"] && Text.Split("a[]=x", '=') == ["a[]", "x"]
  {
    var e := "a[]=x";
    assert e == "a[]" + ['='] + "x";
    Text.SplitNoSep(e, '&');
    Text.SplitPrefix("a[]", '=', "x");
    Text.SplitNoSep("x", '=');
  }

  lemma AppendKeyMerge()
    ensures MergeAll([Chain([Name("a"), Name("")], Str("x"))]) == Success([(Name("a"), Dict([(Name(""), Str("x"))]))])
  {
    var c := Chain([Name("a"), Name("")], Str("x"));
    var keys := c.keys;
    var none: seq<(Key, Value)> := [];
    assert keys[0] == Name("a") && keys[1..] == [Name("")] && [Name("")][1..] == [];
    assert Nest(keys[1..], Str("x")) == Dict([(Name(""), Str("x"))]);
    assert IndexOf(none, Name("a")) == -1;
    assert none + [(Name("a"), Dict([(Name(""), Str("x"))]))] == [(Name("a"), Dict([(Name(""), Str("x"))]))];
    assert Insert(none, keys, Str("x")) == Success([(Name("a"), Dict([(Name(""), Str("x"))]))]);
    assert [c][..0] == [];
    assert MergeAll([c][..0]) == Success([]);
  }

  /** `a[]=x` parses to {'a': {'': 'x'}}. */
  lemma ParseAppendKey()
    ensures ParseWith("a[]=x", true, false, true) == Success(Dict([(Name("a"), Dict([(Name(""), Str("x"))]))]))
    ensures MergeAll(Chains(Text.Split("a[]=x", '&'), true).value) == Success([(Name("a"), Dict([(Name(""), Str("x"))]))])
  {
    AppendKeyChains();
    AppendKeyMerge();
  }

  /** As written, `parse("a[]=x", normalized=True)` raises: the value under
      the '' key is read with `values()[0]`, which Python 3 refuses. The
      corrected definition gives {'a': 'x'}. */
  lemma NormalizeEmptyKeyFinding()
    ensures ParseWith("a[]=x", true, true, true) == Failure(TypeError)
    ensures ParseSpec("a[]=x", true, true) == Success(Dict([(Name("a"), Str("x"))]))
  {
    ParseAppendKey();
    NormEmptyKeyAsWritten();
    NormEmptyKeyCorrected();
  }

  lemma NormEmptyKeyAsWritten()
    ensures Norm(Dict([(Name("a"), Dict([(Name(""), Str("x"))]))]), true) == Failure(TypeError)
  {
    var inner := Dict([(Name(""), Str("x"))]);
    var top := Dict([(Name("a"), inner)]);
    assert NormEntries(top, [], true) == Success([]);
    assert NormMember(inner, true) == Failure(TypeError);
    var es := top.entries;
    assert es[..|es| - 1] == [] && es[|es| - 1] == (Name("a"), inner);
    assert NormEntries(top, es, true) == Failure(TypeError);
  }

  lemma NormEmptyKeyCorrected()
    ensures Norm(Dict([(Name("a"), Dict([(Name(""), Str("x"))]))]), false) == Success(Dict([(Name("a"), Str("x"))]))
  {
    var inner := Dict([(Name(""), Str("x"))]);
    var top := Dict([(Name("a"), inner)]);
    assert NormEntries(top, [], false) == Success([]);
    assert NormMember(inner, false) == Success(Str("x"));
    var es := top.entries;
    assert es[..|es| - 1] == [] && es[|es| - 1] == (Name("a"), inner);
    assert [] + [(Name("a"), Str("x"))] == [(Name("a"), Str("x"))];
    assert NormEntries(top, es, false) == Success([(Name("a"), Str("x"))]);
  }

  /** The corrected normalisation never fails on a value without empty
      dictionaries. */
  lemma {:induction false} NormTotal(v: Value)
    requires NoEmptyDict(v)
    ensures Norm(v, false).Success?
    decreases v, 1
  {
    if v.Dict? {
      NormEntriesTotal(v, v.entries);
    }
  }

  lemma {:induction false} NormEntriesTotal(parent: Value, es: seq<(Key, Value)>)
    requires parent.Dict? && es <= parent.entries
    requires forall i :: 0 <= i < |es| ==> NoEmptyDict(es[i].1)
    ensures NormEntries(parent, es, false).Success?
    decreases parent, 0, |es|
  {
    if es != [] {
      NormEntriesTotal(parent, es[..|es| - 1]);
      assert es[|es| - 1] in parent.entries;
      NormMemberTotal(es[|es| - 1].1);
    }
  }

  lemma {:induction false} NormMemberTotal(v: Value)
    requires NoEmptyDict(v)
    ensures NormMember(v, false).Success?
    decreases v, 2
  {
    if v.Dict? && v.entries[0].0.Index? {
      NormValuesTotal(v, v.entries);
    } else if v.Dict? && v.entries[0].0 != Name("") {
      NormTotal(v);
    }
  }

  lemma {:induction false} NormValuesTotal(parent: Value, es: seq<(Key, Value)>)
    requires parent.Dict? && es <= parent.entries
    requires forall i :: 0 <= i < |es| ==> NoEmptyDict(es[i].1)
    ensures NormValues(parent, es, false).Success?
    decreases parent, 0, |es|
  {
    if es != [] {
      NormValuesTotal(parent, es[..|es| - 1]);
      assert es[|es| - 1] in parent.entries;
      NormTotal(es[|es| - 1].1);
    }
  }

  lemma {:induction false} NestNoEmpty(keys: seq<Key>, leaf: Value)
    requires NoEmptyDict(leaf)
    ensures NoEmptyDict(Nest(keys, leaf))
    decreases |keys|
  {
    if keys != [] {
      NestNoEmpty(keys[1..], leaf);
    }
  }

  /** Merging never creates an empty dictionary. */
  lemma {:induction false} InsertNoEmpty(d: seq<(Key, Value)>, keys: seq<Key>, leaf: Value)
    requires |keys| >= 1 && NoEmptyDict(leaf)
    requires forall i :: 0 <= i < |d| ==> NoEmptyDict(d[i].1)
    ensures Insert(d, keys, leaf).Success? ==>
      forall i :: 0 <= i < |Insert(d, keys, leaf).value| ==> NoEmptyDict(Insert(d, keys, leaf).value[i].1)
    decreases |keys|
  {
    var k := keys[0];
    var i := IndexOf(d, k);
    NestNoEmpty(keys[1..], leaf);
    if i != -1 && |keys| > 1 && d[i].1.Dict? {
      InsertNoEmpty(d[i].1.entries, keys[1..], leaf);
    }
  }

  lemma {:induction false} MergeAllNoEmpty(chains: seq<Chain>)
    requires forall i :: 0 <= i < |chains| ==> |chains[i].keys| >= 1 && NoEmptyDict(chains[i].leaf)
    ensures MergeAll(chains).Success? ==>
      forall i :: 0 <= i < |MergeAll(chains).value| ==> NoEmptyDict(MergeAll(chains).value[i].1)
  {
    if chains != [] {
      MergeAllNoEmpty(chains[..|chains| - 1]);
      if MergeAll(chains[..|chains| - 1]).Success? {
        InsertNoEmpty(MergeAll(chains[..|chains| - 1]).value, chains[|chains| - 1].keys, chains[|chains| - 1].leaf);
      }
    }
  }

  /** With the corrected normalisation, asking for normalised output never
      turns a query that parses into a failure. */
  lemma ParseNormalizedSucceeds(q: string, unquote: bool)
    ensures ParseSpec(q, unquote, false).Success? ==> ParseSpec(q, unquote, true).Success?
  {
    if q != "" && ParseSpec(q, unquote, false).Success? {
      var elements := Text.Split(q, '&');
      var chains := Chains(elements, unquote).value;
      forall i | 0 <= i < |chains|
        ensures |chains[i].keys| >= 1 && NoEmptyDict(chains[i].leaf)
      {
        assert ElementChain(elements[i], unquote) == Success(chains[i]);
      }
      MergeAllNoEmpty(chains);
      var d := MergeAll(chains).value;
      if d == [] {
        assert Normalize(Dict(d)) == Success(Dict([]));
      } else {
        NormTotal(Dict(d));
      }
    }
  }
}
