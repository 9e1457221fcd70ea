// The JSON text stored in an event's `data` column: Python's `json.dumps`
// (default separators ", " and ": ", ASCII-only output) applied to a flat
// object whose values are strings or null, and `json.loads` reading such a
// text back into an insertion-ordered dictionary.
module Json {
  import opened Wrappers

  /** A flat JSON object in insertion order; `None` is JSON null. */
  type Object = seq<(string, Option<string>)>

  function Keys(d: Object): seq<string>
  {
    if d == [] then [] else [d[0].0] + Keys(d[1..])
  }

  /** No member of d has key k. */
  predicate KeyAbsent(d: Object, k: string)
  {
    forall i :: 0 <= i < |d| ==> d[i].0 != k
  }

  /** No key occurs twice, as in a Python dict. */
  predicate DistinctKeys(d: Object)
  {
    d == [] || (KeyAbsent(d[1..], d[0].0) && DistinctKeys(d[1..]))
  }

  /** No key of d occurs in acc. */
  predicate KeysAbsent(acc: Object, d: Object)
  {
    d == [] || (KeyAbsent(acc, d[0].0) && KeysAbsent(acc, d[1..]))
  }

  // ---------------------------------------------------------------------
  // Encoding.

  function HexDigit(n: nat): char
    requires n < 16
  {
    if n < 10 then ('0' as int + n) as char else ('a' as int + n - 10) as char
  }

  /** Four lower-case hex digits. */
  function Hex4(n: nat): string
    requires n < 0x10000
  {
    [HexDigit(n / 16 / 16 / 16), HexDigit(n / 16 / 16 % 16), HexDigit(n / 16 % 16), HexDigit(n % 16)]
  }

  predicate Printable(c: char)
  {
    ' ' <= c <= '~'
  }

  /** One character of a string literal: the short escapes, the printable
      ASCII characters as themselves, everything else as `\uXXXX`, using a
      surrogate pair above U+FFFF. */
  function EncChar(c: char): (r: string)
    ensures |r| >= 1 && r[0] != '"'
  {
    match c
    case '"' => "\\\""
    case '\\' => "\\\\"
    case '\n' => "\\n"
    case '\r' => "\\r"
    case '\t' => "\\t"
    case '\U{8}' => "\\b"
    case '\U{C}' => "\\f"
    case _ =>
      if Printable(c) then [c]
      else if c as int < 0x10000 then "\\u" + Hex4(c as int)
      else "\\u" + SurrogatePair(c)
  }

  /** The two halves of a character above U+FFFF, as `XXXX\uXXXX`. */
  function SurrogatePair(c: char): string
    requires c as int >= 0x10000
  {
    var v := c as int - 0x10000;
    Hex4(0xD800 + v / 0x400) + "\\u" + Hex4(0xDC00 + v % 0x400)
  }

  function EncChars(s: string): string
  {
    if s == [] then "" else EncChar(s[0]) + EncChars(s[1..])
  }

  function EncString(s: string): string
  {
    "\"" + EncChars(s) + "\""
  }

  function EncValue(v: Option<string>): string
  {
    if v.None? then "null" else EncString(v.value)
  }

  function EncMember(m: (string, Option<string>)): string
  {
    EncString(m.0) + ": " + EncValue(m.1)
  }

  function EncMembers(d: Object): string
  {
    if d == [] then ""
    else if |d| == 1 then EncMember(d[0])
    else EncMember(d[0]) + ", " + EncMembers(d[1..])
  }

  /** `json.dumps(d)`. */
  function Dumps(d: Object): (r: string)
    ensures |r| >= 2 && r[0] == '{' && r[|r| - 1] == '}'
  {
    "{" + EncMembers(d) + "}"
  }

  // ---------------------------------------------------------------------
  // Decoding.

  function HexValue(c: char): Option<nat>
  {
    if '0' <= c <= '9' then Some(c as int - '0' as int)
    else if 'a' <= c <= 'f' then Some(c as int - 'a' as int + 10)
    else if 'A' <= c <= 'F' then Some(c as int - 'A' as int + 10)
    else None
  }

  function Parse4(t: string): (r: Option<nat>)
    requires |t| >= 4
    ensures r.Some? ==> r.value < 0x10000
  {
    match (HexValue(t[0]), HexValue(t[1]), HexValue(t[2]), HexValue(t[3]))
    case (Some(a), Some(b), Some(c), Some(d)) =>
      if a < 16 && b < 16 && c < 16 && d < 16 then Some(a * 0x1000 + b * 0x100 + c * 0x10 + d) else None
    case _ => None
  }

  predicate IsScalar(n: int)
  {
    0 <= n < 0xD800 || 0xE000 <= n < 0x110000
  }

  /** A `\uXXXX` escape (t starts after the `u`), joined with a following
      low surrogate when it is a high one. A lone surrogate is a Python
      string no `char` sequence can hold, and is rejected here. */
  function DecUnicode(t: string): (r: Option<(char, string)>)
    ensures r.Some? ==> |r.value.1| < |t|
  {
    if |t| < 4 then None
    else match Parse4(t)
      case None => None
      case Some(n) =>
        if IsScalar(n) then Some((n as char, t[4..]))
        else if 0xD800 <= n < 0xDC00 && |t| >= 10 && t[4] == '\\' && t[5] == 'u' then
          match Parse4(t[6..10])
          case Some(m) =>
            if 0xDC00 <= m < 0xE000 then
              var c := 0x10000 + (n - 0xD800) * 0x400 + (m - 0xDC00);
              Some((c as char, t[10..]))
            else None
          case None => None
        else None
  }

  /** One character of a string literal, not its closing quote. */
  function DecChar(t: string): (r: Option<(char, string)>)
    requires t != [] && t[0] != '"'
    ensures r.Some? ==> |r.value.1| < |t|
  {
    if t[0] != '\\' then (if t[0] < ' ' then None else Some((t[0], t[1..])))
    else if |t| < 2 then None
    else match t[1]
      case '"' => Some(('"', t[2..]))
      case '\\' => Some(('\\', t[2..]))
      case '/' => Some(('/', t[2..]))
      case 'b' => Some(('\U{8}', t[2..]))
      case 'f' => Some(('\U{C}', t[2..]))
      case 'n' => Some(('\n', t[2..]))
      case 'r' => Some(('\r', t[2..]))
      case 't' => Some(('\t', t[2..]))
      case 'u' => DecUnicode(t[2..])
      case _ => None
  }

  /** The characters of a string literal up to its closing quote, and the
      text after that quote. */
  function DecChars(t: string): (r: Option<(string, string)>)
    ensures r.Some? ==> |r.value.1| < |t|
    decreases |t|
  {
    if t == [] then None
    else if t[0] == '"' then Some(([], t[1..]))
    else match DecChar(t)
      case None => None
      case Some((c, rest)) =>
        match DecChars(rest)
        case None => None
        case Some((s, after)) => Some(([c] + s, after))
  }

  function DecString(t: string): (r: Option<(string, string)>)
    ensures r.Some? ==> |r.value.1| < |t|
  {
    if t == [] || t[0] != '"' then None else DecChars(t[1..])
  }

  function DecValue(t: string): (r: Option<(Option<string>, string)>)
    ensures r.Some? ==> |r.value.1| < |t|
  {
    if |t| >= 4 && t[0] == 'n' && t[1] == 'u' && t[2] == 'l' && t[3] == 'l' then Some((None, t[4..]))
    else match DecString(t)
      case None => None
      case Some((s, rest)) => Some((Some(s), rest))
  }

  /** `d[k] = v` on an insertion-ordered dictionary: a key already present
      keeps its place and takes the new value. */
  function Put(d: Object, k: string, v: Option<string>): (r: Object)
    ensures |r| == |d| || r == d + [(k, v)]
  {
    if d == [] then [(k, v)]
    else if d[0].0 == k then [(k, v)] + d[1..]
    else [d[0]] + Put(d[1..], k, v)
  }

  /** Members after the opening brace (or after a ", "), through the
      closing brace, added to `acc`. */
  function DecMembers(t: string, acc: Object): Option<(Object, string)>
    decreases |t|
  {
    match DecString(t)
    case None => None
    case Some((k, rest)) =>
      if |rest| < 2 || rest[0] != ':' || rest[1] != ' ' then None
      else match DecValue(rest[2..])
        case None => None
        case Some((v, after)) =>
          var acc' := Put(acc, k, v);
          if |after| >= 1 && after[0] == '}' then Some((acc', after[1..]))
          else if |after| >= 2 && after[0] == ',' && after[1] == ' ' then DecMembers(after[2..], acc')
          else None
  }

  /** `json.loads` on an object text with nothing after it. */
  function Loads(t: string): Option<Object>
  {
    if |t| < 2 || t[0] != '{' then None
    else if t[1] == '}' then (if |t| == 2 then Some([]) else None)
    else match DecMembers(t[1..], [])
      case Some((d, rest)) => if rest == [] then Some(d) else None
      case None => None
  }

  // ---------------------------------------------------------------------
  // The round trip.

  // Sequence facts used below, stated on plain variables so that each is
  // proved once, away from the encoder and decoder definitions.

  lemma Assoc3<T>(a: seq<T>, b: seq<T>, c: seq<T>)
    ensures a + b + c == a + (b + c)
  {
  }

  lemma Assoc4<T>(a: seq<T>, b: seq<T>, c: seq<T>, e: seq<T>)
    ensures a + b + c + e == a + (b + c + e)
  {
  }

  lemma Assoc5<T>(a: seq<T>, b: seq<T>, c: seq<T>, e: seq<T>, f: seq<T>)
    ensures a + b + c + e + f == a + (b + (c + e + f))
  {
  }

  lemma DropPrefix<T>(p: seq<T>, x: seq<T>)
    ensures (p + x)[|p|..] == x
  {
  }

  lemma DropAfter<T>(p: seq<T>, a: seq<T>, x: seq<T>)
    ensures (p + a + x)[|p|..] == a + x
  {
  }

  lemma TakeDrop<T>(t: seq<T>, k: nat)
    requires k <= |t|
    ensures t[..k] + t[k..] == t
  {
  }

  lemma ConsAppend<T>(d: seq<T>, x: seq<T>)
    requires d != []
    ensures [d[0]] + (d[1..] + x) == d + x
  {
  }

  lemma ConsSplit<T>(acc: seq<T>, d: seq<T>)
    requires d != []
    ensures (acc + [d[0]]) + d[1..] == acc + d
  {
  }

  lemma Singleton<T>(d: seq<T>)
    requires |d| == 1
    ensures [d[0]] == d
  {
  }

  lemma AppendEmpty<T>(x: seq<T>)
    ensures x + [] == x && [] + x == x
  {
  }

  // ---------------------------------------------------------------------
  // Hex digits and `\uXXXX` escapes.

  lemma HexDigitValue(n: nat)
    requires n < 16
    ensures HexValue(HexDigit(n)) == Some(n)
  {
  }

  lemma HexPlaces(n: nat)
    requires n < 0x10000
    ensures n / 16 / 16 / 16 * 0x1000 + n / 16 / 16 % 16 * 0x100 + n / 16 % 16 * 0x10 + n % 16 == n
  {
    var q1 := n / 16;
    var q2 := q1 / 16;
    assert n == q1 * 16 + n % 16;
    assert q1 == q2 * 16 + q1 % 16;
    assert q2 == q2 / 16 * 16 + q2 % 16;
  }

  lemma Parse4Hex4(n: nat)
    requires n < 0x10000
    ensures Parse4(Hex4(n)) == Some(n)
  {
    HexDigitValue(n / 16 / 16 / 16);
    HexDigitValue(n / 16 / 16 % 16);
    HexDigitValue(n / 16 % 16);
    HexDigitValue(n % 16);
    HexPlaces(n);
  }

  /** Parse4 looks at the first four characters only. */
  lemma Parse4Append(a: string, x: string)
    requires |a| == 4
    ensures Parse4(a + x) == Parse4(a)
  {
    assert (a + x)[0] == a[0] && (a + x)[1] == a[1] && (a + x)[2] == a[2] && (a + x)[3] == a[3];
  }

  lemma DecUnicodeBmp(c: char, rest: string)
    requires c as int < 0x10000
    ensures DecUnicode(Hex4(c as int) + rest) == Some((c, rest))
  {
    Parse4Hex4(c as int);
    Parse4Append(Hex4(c as int), rest);
    DropPrefix(Hex4(c as int), rest);
  }

  lemma SurrogateSplit(v: nat)
    requires v < 0x100000
    ensures 0 <= v / 0x400 < 0x400 && 0 <= v % 0x400 < 0x400
    ensures v / 0x400 * 0x400 + v % 0x400 == v
  {
  }

  lemma DecUnicodeJoin(t: string, n: nat, m: nat)
    requires |t| >= 10 && Parse4(t) == Some(n) && 0xD800 <= n < 0xDC00
    requires t[4] == '\\' && t[5] == 'u' && Parse4(t[6..10]) == Some(m) && 0xDC00 <= m < 0xE000
    ensures IsScalar(0x10000 + (n - 0xD800) * 0x400 + (m - 0xDC00))
    ensures DecUnicode(t) == Some(((0x10000 + (n - 0xD800) * 0x400 + (m - 0xDC00)) as char, t[10..]))
  {
  }

  lemma PairLayout(a: string, c: string, rest: string)
    requires |a| == 4 && |c| == 4
    ensures var t := a + "\\u" + c + rest;
      |t| >= 10 && t[4] == '\\' && t[5] == 'u' && t[6..10] == c && t[10..] == rest
  {
  }

  lemma DecUnicodePairOf(a: string, c: string, rest: string, n: nat, m: nat)
    requires |a| == 4 && |c| == 4 && Parse4(a) == Some(n) && Parse4(c) == Some(m)
    requires 0xD800 <= n < 0xDC00 && 0xDC00 <= m < 0xE000
    ensures IsScalar(0x10000 + (n - 0xD800) * 0x400 + (m - 0xDC00))
    ensures DecUnicode(a + "\\u" + c + rest)
      == Some(((0x10000 + (n - 0xD800) * 0x400 + (m - 0xDC00)) as char, rest))
  {
    var t := a + "\\u" + c + rest;
    PairLayout(a, c, rest);
    Assoc4(a, "\\u", c, rest);
    Parse4Append(a, "\\u" + c + rest);
    DecUnicodeJoin(t, n, m);
  }

  lemma SurrogateValue(v: int)
    requires 0 <= v < 0x100000
    ensures 0x10000 + ((0xD800 + v / 0x400) - 0xD800) * 0x400 + ((0xDC00 + v % 0x400) - 0xDC00) == 0x10000 + v
  {
  }

  /** The two halves of a surrogate pair, and the character they rebuild. */
  lemma SurrogateHalves(c: char) returns (hi: nat, lo: nat)
    requires c as int >= 0x10000
    ensures hi == 0xD800 + (c as int - 0x10000) / 0x400 && lo == 0xDC00 + (c as int - 0x10000) % 0x400
    ensures 0xD800 <= hi < 0xDC00 && 0xDC00 <= lo < 0xE000
    ensures 0x10000 + (hi - 0xD800) * 0x400 + (lo - 0xDC00) == c as int
  {
    var v := c as int - 0x10000;
    hi := 0xD800 + v / 0x400;
    lo := 0xDC00 + v % 0x400;
    SurrogateSplit(v);
    SurrogateValue(v);
  }

  lemma DecUnicodePair(c: char, rest: string)
    requires c as int >= 0x10000
    ensures DecUnicode(SurrogatePair(c) + rest) == Some((c, rest))
  {
    var hi, lo := SurrogateHalves(c);
    assert SurrogatePair(c) == Hex4(hi) + "\\u" + Hex4(lo);
    Parse4Hex4(hi);
    Parse4Hex4(lo);
    DecUnicodePairOf(Hex4(hi), Hex4(lo), rest, hi, lo);
  }

  // ---------------------------------------------------------------------
  // Characters and strings.

  lemma DecCharShort(c: char, rest: string)
    requires c in "\"\\\n\r\t\U{8}\U{C}"
    ensures EncChar(c) + rest != [] && (EncChar(c) + rest)[0] != '"'
    ensures DecChar(EncChar(c) + rest) == Some((c, rest))
  {
    DropPrefix(EncChar(c), rest);
  }

  lemma DecCharPrintable(c: char, rest: string)
    requires Printable(c) && c !in "\"\\"
    ensures EncChar(c) + rest != [] && (EncChar(c) + rest)[0] != '"'
    ensures DecChar(EncChar(c) + rest) == Some((c, rest))
  {
    assert EncChar(c) == [c];
    DropPrefix([c], rest);
  }

  lemma DecCharBmp(c: char, rest: string)
    requires !Printable(c) && c !in "\n\r\t\U{8}\U{C}" && c as int < 0x10000
    ensures EncChar(c) + rest != [] && (EncChar(c) + rest)[0] != '"'
    ensures DecChar(EncChar(c) + rest) == Some((c, rest))
  {
    assert EncChar(c) == "\\u" + Hex4(c as int);
    DropAfter("\\u", Hex4(c as int), rest);
    DecUnicodeBmp(c, rest);
  }

  lemma DecCharAstral(c: char, rest: string)
    requires c as int >= 0x10000
    ensures EncChar(c) + rest != [] && (EncChar(c) + rest)[0] != '"'
    ensures DecChar(EncChar(c) + rest) == Some((c, rest))
  {
    assert EncChar(c) == "\\u" + SurrogatePair(c);
    DropAfter("\\u", SurrogatePair(c), rest);
    DecUnicodePair(c, rest);
  }

  lemma DecCharEnc(c: char, rest: string)
    ensures EncChar(c) + rest != [] && (EncChar(c) + rest)[0] != '"'
    ensures DecChar(EncChar(c) + rest) == Some((c, rest))
  {
    if c in "\"\\\n\r\t\U{8}\U{C}" {
      DecCharShort(c, rest);
    } else if Printable(c) {
      DecCharPrintable(c, rest);
    } else if c as int < 0x10000 {
      DecCharBmp(c, rest);
    } else {
      DecCharAstral(c, rest);
    }
  }

  lemma {:induction false} DecCharsEnc(s: string, rest: string)
    ensures DecChars(EncChars(s) + "\"" + rest) == Some((s, rest))
  {
    if s == [] {
      AppendEmpty("\"");
      DropPrefix("\"", rest);
    } else {
      var tail := EncChars(s[1..]) + "\"" + rest;
      Assoc4(EncChar(s[0]), EncChars(s[1..]), "\"", rest);
      DecCharEnc(s[0], tail);
      DecCharsEnc(s[1..], rest);
      ConsAppend(s, []);
      AppendEmpty(s[1..]);
      AppendEmpty(s);
    }
  }

  lemma DecStringEnc(s: string, rest: string)
    ensures DecString(EncString(s) + rest) == Some((s, rest))
  {
    Assoc4("\"", EncChars(s), "\"", rest);
    DropPrefix("\"", EncChars(s) + "\"" + rest);
    DecCharsEnc(s, rest);
  }

  lemma DecValueEnc(v: Option<string>, rest: string)
    ensures DecValue(EncValue(v) + rest) == Some((v, rest))
  {
    if v.None? {
      DropPrefix("null", rest);
    } else {
      DecStringEnc(v.value, rest);
    }
  }

  // ---------------------------------------------------------------------
  // Members and objects.

  lemma DecMemberKey(m: (string, Option<string>), rest: string)
    ensures DecString(EncMember(m) + rest) == Some((m.0, ": " + EncValue(m.1) + rest))
  {
    Assoc4(EncString(m.0), ": ", EncValue(m.1), rest);
    DecStringEnc(m.0, ": " + EncValue(m.1) + rest);
  }

  lemma DecMemberValue(v: Option<string>, rest: string)
    ensures var r := ": " + EncValue(v) + rest;
      |r| >= 2 && r[0] == ':' && r[1] == ' ' && DecValue(r[2..]) == Some((v, rest))
  {
    DropAfter(": ", EncValue(v), rest);
    DecValueEnc(v, rest);
  }

  lemma PutAbsent(d: Object, k: string, v: Option<string>)
    requires KeyAbsent(d, k)
    ensures Put(d, k, v) == d + [(k, v)]
  {
    if d != [] {
      PutAbsent(d[1..], k, v);
      ConsAppend(d, [(k, v)]);
    }
  }

  /** One member followed by `tail` is read into the dictionary, and
      decoding carries on with `tail`. */
  lemma DecMembersStep(m: (string, Option<string>), acc: Object, tail: string)
    ensures DecMembers(EncMember(m) + tail, acc) ==
      var acc' := Put(acc, m.0, m.1);
      if |tail| >= 1 && tail[0] == '}' then Some((acc', tail[1..]))
      else if |tail| >= 2 && tail[0] == ',' && tail[1] == ' ' then DecMembers(tail[2..], acc')
      else None
  {
    DecMemberKey(m, tail);
    DecMemberValue(m.1, tail);
  }

  lemma DecMembersLast(m: (string, Option<string>), acc: Object, rest: string)
    ensures DecMembers(EncMember(m) + ("}" + rest), acc) == Some((Put(acc, m.0, m.1), rest))
  {
    DecMembersStep(m, acc, "}" + rest);
    DropPrefix("}", rest);
  }

  lemma DecMembersNext(m: (string, Option<string>), acc: Object, rest: string)
    ensures DecMembers(EncMember(m) + (", " + rest), acc) == DecMembers(rest, Put(acc, m.0, m.1))
  {
    DecMembersStep(m, acc, ", " + rest);
    DropPrefix(", ", rest);
  }

  lemma {:induction false} KeysAbsentShift(acc: Object, m: (string, Option<string>), d: Object)
    requires KeysAbsent(acc, d) && KeyAbsent(d, m.0)
    ensures KeysAbsent(acc + [m], d)
  {
    if d != [] {
      assert KeyAbsent(d[1..], m.0) by {
        forall i | 0 <= i < |d[1..]| ensures d[1..][i].0 != m.0 {
          assert d[1..][i] == d[i + 1];
        }
      }
      KeysAbsentShift(acc, m, d[1..]);
      assert d[0].0 != m.0;
    }
  }

  lemma EncMembersCons(d: Object, rest: string)
    requires |d| >= 2
    ensures EncMembers(d) + "}" + rest == EncMember(d[0]) + (", " + (EncMembers(d[1..]) + "}" + rest))
  {
    var a := EncMember(d[0]);
    var b := EncMembers(d[1..]);
    assert EncMembers(d) == a + ", " + b;
    Assoc5(a, ", ", b, "}", rest);
  }

  lemma DecMembersAdvance(d: Object, acc: Object, rest: string)
    requires |d| >= 2 && KeyAbsent(acc, d[0].0)
    ensures DecMembers(EncMembers(d) + "}" + rest, acc)
      == DecMembers(EncMembers(d[1..]) + "}" + rest, acc + [d[0]])
  {
    EncMembersCons(d, rest);
    DecMembersNext(d[0], acc, EncMembers(d[1..]) + "}" + rest);
    PutAbsent(acc, d[0].0, d[0].1);
  }

  lemma DecMembersFinal(d: Object, acc: Object, rest: string)
    requires |d| == 1 && KeyAbsent(acc, d[0].0)
    ensures DecMembers(EncMembers(d) + "}" + rest, acc) == Some((acc + d, rest))
  {
    assert EncMembers(d) == EncMember(d[0]);
    Assoc3(EncMember(d[0]), "}", rest);
    DecMembersLast(d[0], acc, rest);
    PutAbsent(acc, d[0].0, d[0].1);
    Singleton(d);
  }

  lemma {:induction false} DecMembersEnc(d: Object, acc: Object, rest: string)
    requires d != []
    requires DistinctKeys(d) && KeysAbsent(acc, d)
    ensures DecMembers(EncMembers(d) + "}" + rest, acc) == Some((acc + d, rest))
  {
    if |d| == 1 {
      DecMembersFinal(d, acc, rest);
    } else {
      DecMembersAdvance(d, acc, rest);
      KeysAbsentShift(acc, d[0], d[1..]);
      DecMembersEnc(d[1..], acc + [d[0]], rest);
      ConsSplit(acc, d);
    }
  }

  lemma {:induction false} NothingInEmpty(d: Object)
    ensures KeysAbsent([], d)
  {
    if d != [] {
      NothingInEmpty(d[1..]);
    }
  }

  /** `json.loads(json.dumps(d)) == d` for a dictionary (distinct keys). */
  lemma LoadsDumps(d: Object)
    requires DistinctKeys(d)
    ensures Loads(Dumps(d)) == Some(d)
  {
    if d != [] {
      var body := EncMembers(d);
      assert body[0] == '"' by {
        assert EncMember(d[0])[0] == '"';
        if |d| >= 2 {
          assert body[0] == EncMember(d[0])[0];
        }
      }
      var t := Dumps(d);
      assert t[1..] == body + "}" + [] by {
        DropAfter("{", body, "}");
        AppendEmpty(body + "}");
      }
      NothingInEmpty(d);
      DecMembersEnc(d, [], []);
      assert [] + d == d;
    }
  }

  /** Dumping is injective on dictionaries: two event payloads with the same
      text are the same payload. */
  lemma DumpsInjective(a: Object, b: Object)
    requires DistinctKeys(a) && DistinctKeys(b)
    requires Dumps(a) == Dumps(b)
    ensures a == b
  {
    LoadsDumps(a);
    LoadsDumps(b);
  }
}
