// `urllib.parse.unquote_plus(s)` as the query parser calls it, with its
// defaults (`encoding='utf-8'`, `errors='replace'`): every `+` becomes a
// space; then, within each run of ASCII characters, every `%XX` escape
// stands for one byte and every other character for its own byte, and the
// bytes are decoded as UTF-8, each ill-formed part becoming U+FFFD.
// Characters outside ASCII are kept as they are and end a run of bytes.
module UrlUnquote {
  const Replacement: char := '\U{FFFD}'

  /** A hexadecimal digit's value, or -1. */
  function HexValue(c: char): int
  {
    if '0' <= c <= '9' then c as int - '0' as int
    else if 'a' <= c <= 'f' then c as int - 'a' as int + 10
    else if 'A' <= c <= 'F' then c as int - 'A' as int + 10
    else -1
  }

  /** What the text stands for before UTF-8 decoding: a byte, or a
      character outside ASCII kept as it is. */
  datatype Unit = Octet(b: int) | Wide(c: char)

  predicate IsEscape(s: string)
  {
    |s| >= 3 && s[0] == '%' && HexValue(s[1]) >= 0 && HexValue(s[2]) >= 0
  }

  /** `unquote_to_bytes` over the ASCII runs: a `%` that starts no escape
      is kept as the byte of `%`. */
  function Units(s: string): (us: seq<Unit>)
    ensures |us| <= |s|
    ensures forall i :: 0 <= i < |us| && us[i].Octet? ==> 0 <= us[i].b < 256
  {
    if s == [] then []
    else if IsEscape(s) then [Octet(16 * HexValue(s[1]) + HexValue(s[2]))] + Units(s[3..])
    else if s[0] as int < 128 then [Octet(s[0] as int)] + Units(s[1..])
    else [Wide(s[0])] + Units(s[1..])
  }

  /** What a lead byte announces: the length of its sequence (0 for a byte
      that starts none) and the range allowed for the byte after it, which
      rules out overlong forms, surrogates and values above U+10FFFF. */
  datatype Shape = Shape(len: nat, lo: int, hi: int)

  function ShapeOf(b: int): (sh: Shape)
    ensures sh.len <= 4
  {
    if 0 <= b < 0x80 then Shape(1, 0, 0)
    else if 0xC2 <= b <= 0xDF then Shape(2, 0x80, 0xBF)
    else if b == 0xE0 then Shape(3, 0xA0, 0xBF)
    else if b == 0xED then Shape(3, 0x80, 0x9F)
    else if 0xE1 <= b <= 0xEF then Shape(3, 0x80, 0xBF)
    else if b == 0xF0 then Shape(4, 0x90, 0xBF)
    else if b == 0xF4 then Shape(4, 0x80, 0x8F)
    else if 0xF1 <= b <= 0xF3 then Shape(4, 0x80, 0xBF)
    else Shape(0, 0, 0)
  }

  predicate InRange(us: seq<Unit>, i: nat, lo: int, hi: int)
  {
    i < |us| && us[i].Octet? && lo <= us[i].b <= hi
  }

  /** How many bytes after the lead continue its sequence, stopping at the
      first that does not. */
  function Trail(us: seq<Unit>, sh: Shape): (k: nat)
    requires 1 <= sh.len <= 4
    ensures k < sh.len
    ensures k == 0 || k < |us|
  {
    if sh.len < 2 || !InRange(us, 1, sh.lo, sh.hi) then 0
    else if sh.len < 3 || !InRange(us, 2, 0x80, 0xBF) then 1
    else if sh.len < 4 || !InRange(us, 3, 0x80, 0xBF) then 2
    else 3
  }

  /** The code point of a complete sequence. */
  function Value(us: seq<Unit>, n: nat): int
    requires 1 <= n <= 4 && n <= |us| && forall i :: 0 <= i < n ==> us[i].Octet?
  {
    if n == 1 then us[0].b
    else if n == 2 then (us[0].b - 0xC0) * 64 + (us[1].b - 0x80)
    else if n == 3 then (us[0].b - 0xE0) * 4096 + (us[1].b - 0x80) * 64 + (us[2].b - 0x80)
    else (us[0].b - 0xF0) * 262144 + (us[1].b - 0x80) * 4096 + (us[2].b - 0x80) * 64 + (us[3].b - 0x80)
  }

  predicate IsScalar(v: int)
  {
    0 <= v < 0xD800 || 0xE000 <= v < 0x110000
  }

  /** A well-formed sequence stands for a Unicode scalar value. */
  lemma ValueIsScalar(us: seq<Unit>)
    requires us != [] && us[0].Octet? && 1 <= ShapeOf(us[0].b).len
    requires Trail(us, ShapeOf(us[0].b)) + 1 == ShapeOf(us[0].b).len
    ensures IsScalar(Value(us, ShapeOf(us[0].b).len))
  {
  }

  /** The character at the front of the units and how many units it takes:
      a kept character, the character of a well-formed sequence, or U+FFFD
      for a lead byte and the continuation bytes that followed it. */
  function Next(us: seq<Unit>): (r: (char, nat))
    requires us != []
    ensures 1 <= r.1 <= |us|
  {
    if us[0].Wide? then (us[0].c, 1)
    else
      var sh := ShapeOf(us[0].b);
      if sh.len == 0 then (Replacement, 1)
      else
        var k := Trail(us, sh);
        if k + 1 == sh.len then
          ValueIsScalar(us);
          (Value(us, sh.len) as char, sh.len)
        else (Replacement, 1 + k)
  }

  /** `bytes.decode('utf-8', 'replace')` over the bytes, kept characters
      passing through. */
  function Decode(us: seq<Unit>): (r: string)
    ensures |r| <= |us|
    decreases |us|
  {
    if us == [] then []
    else
      var (c, n) := Next(us);
      [c] + Decode(us[n..])
  }

  function Plus(s: string): (r: string)
    ensures |r| == |s|
    ensures forall i :: 0 <= i < |s| ==> r[i] == (if s[i] == '+' then ' ' else s[i])
  {
    seq(|s|, i requires 0 <= i < |s| => if s[i] == '+' then ' ' else s[i])
  }

  /** `urllib.parse.unquote_plus(s)`. */
  function UnquotePlus(s: string): string
  {
    Decode(Units(Plus(s)))
  }

  // ---------------------------------------------------------------------
  // The encoder it inverts

  /** The UTF-8 bytes of a character. */
  function Utf8(c: char): (bs: seq<int>)
    ensures 1 <= |bs| <= 4
    ensures forall i :: 0 <= i < |bs| ==> 0 <= bs[i] < 256
  {
    var v := c as int;
    if v < 0x80 then [v]
    else if v < 0x800 then [0xC0 + v / 64, 0x80 + v % 64]
    else if v < 0x10000 then [0xE0 + v / 4096, 0x80 + (v / 64) % 64, 0x80 + v % 64]
    else [0xF0 + v / 262144, 0x80 + (v / 4096) % 64, 0x80 + (v / 64) % 64, 0x80 + v % 64]
  }

  function HexDigit(n: nat): (c: char)
    requires n < 16
    ensures HexValue(c) == n
  {
    if n < 10 then ('0' as int + n) as char else ('A' as int + n - 10) as char
  }

  function EscapeBytes(bs: seq<int>): (r: string)
    requires forall i :: 0 <= i < |bs| ==> 0 <= bs[i] < 256
    ensures |r| == 3 * |bs|
    ensures forall i :: 0 <= i < |r| ==> r[i] != '+'
  {
    if bs == [] then []
    else ['%', HexDigit(bs[0] / 16), HexDigit(bs[0] % 16)] + EscapeBytes(bs[1..])
  }

  /** Every character written as the `%XX` escapes of its UTF-8 bytes, as
      a form encoder may send it. */
  function Quote(s: string): (r: string)
    ensures forall i :: 0 <= i < |r| ==> r[i] != '+'
  {
    if s == [] then [] else EscapeBytes(Utf8(s[0])) + Quote(s[1..])
  }

  function Octets(bs: seq<int>): (us: seq<Unit>)
    ensures |us| == |bs|
    ensures forall i :: 0 <= i < |bs| ==> us[i] == Octet(bs[i])
  {
    seq(|bs|, i requires 0 <= i < |bs| => Octet(bs[i]))
  }

  // ---------------------------------------------------------------------
  // Round trip

  /** The escapes of some bytes read back as those bytes. */
  lemma {:induction false} UnitsEscapeBytes(bs: seq<int>, t: string)
    requires forall i :: 0 <= i < |bs| ==> 0 <= bs[i] < 256
    ensures Units(EscapeBytes(bs) + t) == Octets(bs) + Units(t)
  {
    if bs != [] {
      var e := EscapeBytes(bs) + t;
      assert e[..3] == ['%', HexDigit(bs[0] / 16), HexDigit(bs[0] % 16)];
      assert IsEscape(e);
      assert 16 * HexValue(e[1]) + HexValue(e[2]) == bs[0];
      assert e[3..] == EscapeBytes(bs[1..]) + t;
      assert Units(e) == [Octet(bs[0])] + Units(e[3..]);
      UnitsEscapeBytes(bs[1..], t);
      assert Octets(bs) == [Octet(bs[0])] + Octets(bs[1..]);
      assert Octets(bs) + Units(t) == [Octet(bs[0])] + (Octets(bs[1..]) + Units(t));
    } else {
      assert EscapeBytes(bs) + t == t;
      assert Octets(bs) + Units(t) == Units(t);
    }
  }

  lemma DivSplit(v: int)
    requires v >= 0
    ensures v == (v / 64) * 64 + v % 64
    ensures v / 4096 == (v / 64) / 64
    ensures v / 262144 == (v / 4096) / 64
    ensures v / 4096 * 4096 + (v / 64) % 64 * 64 + v % 64 == v
    ensures v / 262144 * 262144 + (v / 4096) % 64 * 4096 + (v / 64) % 64 * 64 + v % 64 == v
  {
    var a := v / 64;
    var b := a / 64;
    var c := b / 64;
    assert v == a * 64 + v % 64;
    assert a == b * 64 + a % 64;
    assert b == c * 64 + b % 64;
    assert v == b * 4096 + (a % 64) * 64 + v % 64;
    assert v / 4096 == b;
    assert v == c * 262144 + (b % 64) * 4096 + (a % 64) * 64 + v % 64;
    assert v / 262144 == c;
  }

  /** The UTF-8 bytes of a character decode to that character, whatever
      follows them. */
  lemma NextUtf8(c: char, us: seq<Unit>)
    ensures Next(Octets(Utf8(c)) + us) == (c, |Utf8(c)|)
  {
    var v := c as int;
    var w := Octets(Utf8(c)) + us;
    DivSplit(v);
    if v < 0x80 {
    } else if v < 0x800 {
      assert w[0] == Octet(0xC0 + v / 64) && w[1] == Octet(0x80 + v % 64);
    } else if v < 0x10000 {
      assert w[0] == Octet(0xE0 + v / 4096) && w[1] == Octet(0x80 + (v / 64) % 64) && w[2] == Octet(0x80 + v % 64);
      if v < 0x1000 {
        assert v / 4096 == 0 && v / 64 == (v / 64) % 64 && v / 64 >= 32;
      } else if v / 4096 == 13 {
        assert v < 0xD800;
        assert (v / 64) / 64 == 13 && v / 64 < 0x360;
      }
    } else {
      assert w[0] == Octet(0xF0 + v / 262144) && w[1] == Octet(0x80 + (v / 4096) % 64);
      assert w[2] == Octet(0x80 + (v / 64) % 64) && w[3] == Octet(0x80 + v % 64);
      if v < 0x40000 {
        assert v / 262144 == 0 && v / 4096 >= 16 && v / 4096 == (v / 4096) % 64;
      } else if v / 262144 == 4 {
        assert (v / 4096) / 64 == 4 && v / 4096 < 0x110;
      }
    }
  }

  /** Decoding undoes the escapes: the text a form encoder sends for any
      string decodes back to that string. */
  lemma {:induction false} UnquotePlusQuote(s: string)
    ensures UnquotePlus(Quote(s)) == s
  {
    var q := Quote(s);
    assert Plus(q) == q;
    DecodeQuote(s);
  }

  lemma {:induction false} DecodeQuote(s: string)
    ensures Decode(Units(Quote(s))) == s
  {
    if s != [] {
      var bs := Utf8(s[0]);
      UnitsEscapeBytes(bs, Quote(s[1..]));
      var us := Units(Quote(s[1..]));
      var w := Octets(bs) + us;
      assert Units(Quote(s)) == w;
      NextUtf8(s[0], us);
      assert w[|bs|..] == us;
      DecodeQuote(s[1..]);
      assert [s[0]] + s[1..] == s;
    }
  }

  // ---------------------------------------------------------------------
  // Text without escapes

  /** ASCII text without `%` is one byte per character. */
  lemma {:induction false} UnitsPlain(s: string)
    requires '%' !in s
    ensures |Units(s)| == |s|
    ensures forall i :: 0 <= i < |s| ==> Units(s)[i] == if s[i] as int < 128 then Octet(s[i] as int) else Wide(s[i])
  {
    if s != [] {
      assert '%' !in s[1..];
      UnitsPlain(s[1..]);
    }
  }

  /** Bytes below 0x80 and kept characters each decode to themselves. */
  lemma {:induction false} DecodePlain(s: string, us: seq<Unit>)
    requires |us| == |s|
    requires forall i :: 0 <= i < |s| ==> us[i] == if s[i] as int < 128 then Octet(s[i] as int) else Wide(s[i])
    ensures Decode(us) == s
  {
    if s != [] {
      assert Next(us) == (s[0], 1);
      DecodePlain(s[1..], us[1..]);
      assert [s[0]] + s[1..] == s;
    }
  }

  /** Text without `%` decodes to itself with every `+` a space: the
      characters outside ASCII are kept. */
  lemma UnquotePlusNoEscape(s: string)
    requires '%' !in s
    ensures UnquotePlus(s) == Plus(s)
  {
    var p := Plus(s);
    assert '%' !in p by {
      forall i | 0 <= i < |p| ensures p[i] != '%' {
        assert s[i] != '%';
      }
    }
    UnitsPlain(p);
    DecodePlain(p, Units(p));
  }

  /** Text without `%` and `+` decodes to itself. */
  lemma UnquotePlusPlain(s: string)
    requires '%' !in s && '+' !in s
    ensures UnquotePlus(s) == s
  {
    UnquotePlusNoEscape(s);
    assert Plus(s) == s;
  }

  // ---------------------------------------------------------------------
  // Ill-formed input

  /** Two escapes forming one two-byte sequence give one character. */
  lemma TwoByteEscape()
    ensures UnquotePlus("%C3%A9") == "\U{E9}"
  {
    var s := "%C3%A9";
    assert Plus(s) == s;
    assert IsEscape(s) && s[3..] == "%A9" && IsEscape(s[3..]) && s[3..][3..] == [];
    assert Units(s) == [Octet(0xC3), Octet(0xA9)];
    var us := Units(s);
    assert Next(us) == ('\U{E9}', 2);
    assert us[2..] == [];
  }

  /** One escaped character between plain text decodes to that character
      between the same text. */
  lemma UnquoteEscapedChar(p: string, c: char, r: string)
    requires '%' !in p && '+' !in p && '%' !in r && '+' !in r
    ensures UnquotePlus(p + EscapeBytes(Utf8(c)) + r) == p + [c] + r
  {
    var bs := Utf8(c);
    var e := EscapeBytes(bs);
    var s := p + e + r;
    assert Plus(s) == s by {
      forall i | 0 <= i < |s| ensures s[i] != '+' {
        if i < |p| { assert s[i] == p[i]; }
        else if i < |p| + |e| { assert s[i] == e[i - |p|]; }
        else { assert s[i] == r[i - |p| - |e|]; }
      }
    }
    assert s == p + (e + r);
    UnitsPlainPrefix(p, e + r);
    UnitsEscapeBytes(bs, r);
    var us := Octets(bs) + Units(r);
    DecodePlainPrefix(p, us);
    NextUtf8(c, Units(r));
    assert us[|bs|..] == Units(r);
    UnquotePlusPlain(r);
    assert Plus(r) == r;
    assert Decode(us) == [c] + r;
  }

  /** Text without `%` reads one unit per character, whatever follows. */
  lemma {:induction false} UnitsPlainPrefix(p: string, t: string)
    requires '%' !in p
    ensures Units(p + t) == Units(p) + Units(t)
  {
    if p != [] {
      assert (p + t)[0] == p[0] && (p + t)[1..] == p[1..] + t;
      assert !IsEscape(p + t) && !IsEscape(p);
      UnitsPlainPrefix(p[1..], t);
    } else {
      assert p + t == t;
    }
  }

  /** The units of text without `%` decode to that text, whatever follows. */
  lemma {:induction false} DecodePlainPrefix(p: string, us: seq<Unit>)
    requires '%' !in p
    ensures Decode(Units(p) + us) == p + Decode(us)
  {
    if p != [] {
      assert !IsEscape(p);
      var w := Units(p) + us;
      assert w[0] == (if p[0] as int < 128 then Octet(p[0] as int) else Wide(p[0]));
      assert Next(w) == (p[0], 1);
      assert w[1..] == Units(p[1..]) + us;
      DecodePlainPrefix(p[1..], us);
      assert [p[0]] + (p[1..] + Decode(us)) == p + Decode(us);
    } else {
      assert Units(p) + us == us;
    }
  }

  /** Escaped UTF-8 inside a bracket key: ARABIC-INDIC DIGIT THREE is the
      two bytes D9 A3. */
  lemma ArabicIndicEscape()
    ensures UnquotePlus("a[%D9%A3]") == "a[\U{663}]"
  {
    var e := EscapeBytes(Utf8('\U{663}'));
    ArabicIndicBytes();
    UnquoteEscapedChar("a[", '\U{663}', "]");
    assert "a[" + e + "]" == "a[%D9%A3]";
  }

  lemma ArabicIndicBytes()
    ensures EscapeBytes(Utf8('\U{663}')) == "%D9%A3"
  {
    assert Utf8('\U{663}') == [0xD9, 0xA3];
  }

  /** SUPERSCRIPT TWO is the two bytes C2 B2. */
  lemma SuperscriptEscape()
    ensures UnquotePlus("a[%C2%B2]") == "a[\U{B2}]"
  {
    var e := EscapeBytes(Utf8('\U{B2}'));
    SuperscriptBytes();
    UnquoteEscapedChar("a[", '\U{B2}', "]");
    assert "a[" + e + "]" == "a[%C2%B2]";
  }

  lemma SuperscriptBytes()
    ensures EscapeBytes(Utf8('\U{B2}')) == "%C2%B2"
  {
    assert Utf8('\U{B2}') == [0xC2, 0xB2];
  }

  /** A lone byte above 0x7F is not UTF-8: it becomes U+FFFD. */
  lemma LoneByteReplaced()
    ensures UnquotePlus("%E9") == [Replacement]
  {
    var s := "%E9";
    assert Plus(s) == s;
    assert IsEscape(s) && s[3..] == [];
    assert Units(s) == [Octet(0xE9)];
    var us := Units(s);
    assert Next(us) == (Replacement, 1);
    assert us[1..] == [];
  }

  /** A sequence cut short becomes one U+FFFD; a lead byte followed by a
      byte outside its range becomes one U+FFFD, and the stray byte another. */
  lemma TruncatedAndStray()
    ensures UnquotePlus("%E1%80") == [Replacement]
    ensures UnquotePlus("%E0%80") == [Replacement, Replacement]
  {
    Truncated();
    Stray();
  }

  lemma Truncated()
    ensures UnquotePlus("%E1%80") == [Replacement]
  {
    var s := "%E1%80";
    assert Plus(s) == s;
    assert IsEscape(s) && s[3..] == "%80" && IsEscape(s[3..]) && s[3..][3..] == [];
    assert Units(s) == [Octet(0xE1), Octet(0x80)];
    var us := Units(s);
    assert Next(us) == (Replacement, 2);
    assert us[2..] == [];
  }

  lemma Stray()
    ensures UnquotePlus("%E0%80") == [Replacement, Replacement]
  {
    var t := "%E0%80";
    assert Plus(t) == t;
    assert IsEscape(t) && t[3..] == "%80" && IsEscape(t[3..]) && t[3..][3..] == [];
    assert Units(t) == [Octet(0xE0), Octet(0x80)];
    var vs := Units(t);
    assert Next(vs) == (Replacement, 1);
    assert vs[1..] == [Octet(0x80)];
    assert Next(vs[1..]) == (Replacement, 1);
    assert vs[1..][1..] == [];
  }
}
