// String and number helpers of the utility library: the order-number date
// code, the warehouse digest, card-mask helpers, partner-sku canonical form,
// money rounding, date formatting and time-zone offsets.
module Util {
  import opened Wrappers
  import opened Text

  // ---------------------------------------------------------------------
  // encode_date: one character each for year - 2010, month and day.

  /** `str(n)` below 10, otherwise the letter `chr(ord('A') + n - 10)`. */
  function NumToChar(n: int): string
    requires n < 10 || 65 + n - 10 < 0xD800
  {
    if n < 10 then IntToString(n) else [(65 + n - 10) as char]
  }

  /** The inverse of NumToChar on a single character. */
  function CharToNum(c: char): int
  {
    if IsDigit(c) then DigitValue(c) else c as int - 65 + 10
  }

  predicate ValidDate(year: int, month: int, day: int)
  {
    1 <= year <= 9999 && 1 <= month <= 12 && 1 <= day <= 31
  }

  function EncodeDate(year: int, month: int, day: int): (r: string)
    requires ValidDate(year, month, day)
  {
    NumToChar(year - 2020 + 10) + NumToChar(month) + NumToChar(day)
  }

  lemma NumToCharSingle(n: int)
    requires 0 <= n && 65 + n - 10 < 0xD800
    ensures |NumToChar(n)| == 1 && CharToNum(NumToChar(n)[0]) == n
  {
  }

  /** The code is three characters exactly from 2010 on, and each one
      decodes back to year - 2010, month and day. */
  lemma EncodeDateRoundTrip(year: int, month: int, day: int)
    requires ValidDate(year, month, day)
    ensures |EncodeDate(year, month, day)| == 3 <==> year >= 2010
    ensures year >= 2010 ==>
      var r := EncodeDate(year, month, day);
      CharToNum(r[0]) + 2010 == year && CharToNum(r[1]) == month && CharToNum(r[2]) == day
  {
    NumToCharSingle(month);
    NumToCharSingle(day);
    if year >= 2010 {
      NumToCharSingle(year - 2010);
    } else {
      assert |NumToChar(year - 2010)| >= 2;
    }
  }

  // ---------------------------------------------------------------------
  // get_digest: drop the five vowels, in either case. Python's
  // case-insensitive matching compares simple lower-case forms and also
  // treats the dotless i (U+0131) as a case variant of `i`, and the simple
  // lower-case form of the dotted capital I (U+0130) is `i`: both are
  // dropped too.

  predicate IsVowel(c: char)
  {
    c in "aeiouAEIOU" || c == '\U{0131}' || c == '\U{0130}'
  }

  function GetDigest(x: string): (r: string)
    ensures |r| <= |x|
  {
    if x == [] then [] else (if IsVowel(x[0]) then [] else [x[0]]) + GetDigest(x[1..])
  }

  function Count(s: string, c: char): nat
  {
    if s == [] then 0 else (if s[0] == c then 1 else 0) + Count(s[1..], c)
  }

  /** The digest drops every vowel and keeps every other character. */
  lemma {:induction false} DigestCounts(x: string, c: char)
    ensures Count(GetDigest(x), c) == if IsVowel(c) then 0 else Count(x, c)
  {
    if x != [] {
      DigestCounts(x[1..], c);
      CountAppend((if IsVowel(x[0]) then [] else [x[0]]), GetDigest(x[1..]), c);
    }
  }

  /** ... and keeps the others in their original order. */
  lemma {:induction false} DigestAppend(x: string, y: string)
    ensures GetDigest(x + y) == GetDigest(x) + GetDigest(y)
  {
    if x != [] {
      assert (x + y)[1..] == x[1..] + y;
      DigestAppend(x[1..], y);
    } else {
      assert x + y == y;
    }
  }

  lemma {:induction false} CountAppend(a: string, b: string, c: char)
    ensures Count(a + b, c) == Count(a, c) + Count(b, c)
  {
    if a != [] {
      assert (a + b)[1..] == a[1..] + b;
      CountAppend(a[1..], b, c);
    } else {
      assert a + b == b;
    }
  }

  // ---------------------------------------------------------------------
  // get_cc_bin and get_credit_card_type.

  /** `cc_mask[:6]`. */
  function GetCcBin(mask: string): (r: string)
    ensures IsPrefix(r, mask)
    ensures |r| == if |mask| < 6 then |mask| else 6
  {
    if |mask| < 6 then mask else mask[..6]
  }

  function CardTypeOf(first: char): Option<string>
  {
    match first
    case '2' => Some("MASTERCARD")
    case '3' => Some("AMEX")
    case '4' => Some("VISA")
    case '5' => Some("MASTERCARD")
    case '6' => Some("DISCOVER")
    case _ => None
  }

  /** A falsy mask has no type; otherwise only its first character counts. */
  function GetCreditCardType(mask: Option<string>): (r: Option<string>)
  {
    if mask.None? || mask.value == "" then None else CardTypeOf(mask.value[0])
  }

  lemma CreditCardTypeFacts(mask: Option<string>)
    ensures GetCreditCardType(mask).Some? <==> (mask.Some? && mask.value != "" && mask.value[0] in "23456")
    ensures mask.Some? && |mask.value| >= 1 ==>
      forall rest: string :: GetCreditCardType(Some([mask.value[0]] + rest)) == GetCreditCardType(mask)
    ensures GetCreditCardType(mask) in {None, Some("MASTERCARD"), Some("AMEX"), Some("VISA"), Some("DISCOVER")}
  {
  }

  // ---------------------------------------------------------------------
  // canonicalize: upper-case, keep [0-9A-Z], strip leading zeros.

  predicate IsCanonChar(c: char)
  {
    '0' <= c <= '9' || 'A' <= c <= 'Z'
  }

  /** The characters of Python's `c.upper()` that are in [0-9A-Z]. Outside
      ASCII, only the characters listed here have an upper-case form that
      contains an ASCII letter (the sharp s, the dotless i, the long s and
      the Latin ligatures, among others); every other character upper-cases
      to characters the filter drops. */
  function UpperCanonical(c: char): (r: string)
    ensures forall i :: 0 <= i < |r| ==> IsCanonChar(r[i])
  {
    if '0' <= c <= '9' || 'A' <= c <= 'Z' then [c]
    else if 'a' <= c <= 'z' then [(c as int - 32) as char]
    else match c
      case '\U{00DF}' => "SS"
      case '\U{0131}' => "I"
      case '\U{0149}' => "N"
      case '\U{017F}' => "S"
      case '\U{01F0}' => "J"
      case '\U{1E96}' => "H"
      case '\U{1E97}' => "T"
      case '\U{1E98}' => "W"
      case '\U{1E99}' => "Y"
      case '\U{1E9A}' => "A"
      case '\U{FB00}' => "FF"
      case '\U{FB01}' => "FI"
      case '\U{FB02}' => "FL"
      case '\U{FB03}' => "FFI"
      case '\U{FB04}' => "FFL"
      case '\U{FB05}' => "ST"
      case '\U{FB06}' => "ST"
      case _ => []
  }

  function KeepCanonical(s: string): (r: string)
    ensures forall i :: 0 <= i < |r| ==> IsCanonChar(r[i])
  {
    if s == [] then [] else UpperCanonical(s[0]) + KeepCanonical(s[1..])
  }

  function LStripZeros(s: string): (r: string)
    ensures r == [] || r[0] != '0'
    ensures |r| <= |s| && r == s[|s| - |r|..]
  {
    if s != [] && s[0] == '0' then LStripZeros(s[1..]) else s
  }

  function Canonicalize(psku: string): (r: string)
  {
    LStripZeros(KeepCanonical(psku))
  }

  lemma {:induction false} KeepCanonicalFixed(s: string)
    requires forall i :: 0 <= i < |s| ==> IsCanonChar(s[i])
    ensures KeepCanonical(s) == s
  {
    if s != [] {
      KeepCanonicalFixed(s[1..]);
      assert UpperCanonical(s[0]) == [s[0]];
      assert [s[0]] + s[1..] == s;
    }
  }

  /** The canonical form uses only [0-9A-Z], never starts with '0', and is
      its own canonical form. */
  lemma CanonicalizeIsFixedPoint(psku: string)
    ensures var r := Canonicalize(psku);
      (forall i :: 0 <= i < |r| ==> IsCanonChar(r[i])) && (r == [] || r[0] != '0')
      && Canonicalize(r) == r
  {
    var r := Canonicalize(psku);
    var k := KeepCanonical(psku);
    assert r == k[|k| - |r|..];
    assert forall i :: 0 <= i < |r| ==> r[i] == k[|k| - |r| + i];
    KeepCanonicalFixed(r);
  }

  // ---------------------------------------------------------------------
  // decimal_round: quantize to two places, ROUND_HALF_UP (ties away from
  // zero); values at or below the float 0.001 become 'FREE' on request.

  /** A decimal number `units * 10^-exp`. */
  datatype Dec = Dec(units: int, exp: nat)

  datatype Rounded = Free | Amount(cents: int)

  function Pow10(n: nat): (r: nat)
    ensures r >= 1
  {
    if n == 0 then 1 else 10 * Pow10(n - 1)
  }

  function Abs(x: int): nat
  {
    if x < 0 then -x else x
  }

  /** The float literal 0.001 is exactly 1152921504606847 / 2^60; Python
      compares a Decimal with it exactly. */
  predicate AtMostFloatMilli(v: Dec)
  {
    v.units * 1152921504606846976 <= 1152921504606847 * Pow10(v.exp)
  }

  /** `u / d` rounded to the nearest integer, halves away from zero. */
  function DivHalfUp(u: int, d: int): int
    requires d >= 1
  {
    var a := Abs(u);
    var m := if 2 * (a % d) >= d then a / d + 1 else a / d;
    if u < 0 then -m else m
  }

  function RoundHalfUpCents(v: Dec): int
  {
    if v.exp <= 2 then v.units * Pow10(2 - v.exp) else DivHalfUp(v.units, Pow10(v.exp - 2))
  }

  function DecimalRound(val: Option<Dec>, replaceZero: bool): (r: Option<Rounded>)
    ensures val.None? <==> r.None?
    ensures r == Some(Free) <==> (val.Some? && replaceZero && AtMostFloatMilli(val.value))
  {
    if val.None? then None
    else if replaceZero && AtMostFloatMilli(val.value) then Some(Free)
    else Some(Amount(RoundHalfUpCents(val.value)))
  }

  lemma Pow10Add(a: nat, b: nat)
    ensures Pow10(a + b) == Pow10(a) * Pow10(b)
  {
    if a > 0 {
      Pow10Add(a - 1, b);
    }
  }

  lemma HalfUpStep(a: nat, d: int)
    requires d >= 1
    ensures var m := if 2 * (a % d) >= d then a / d + 1 else a / d;
      2 * Abs(m * d - a) <= d && (2 * Abs(m * d - a) == d ==> m * d > a)
  {
    var q := a / d;
    var r := a % d;
    assert a == q * d + r;
    if 2 * r >= d {
      assert (q + 1) * d - a == d - r;
    } else {
      assert q * d - a == -r;
    }
  }

  /** The quotient is the nearest integer to u / d, and a tie goes away
      from zero. */
  lemma DivHalfUpNearest(u: int, d: int)
    requires d >= 1
    ensures var c := DivHalfUp(u, d);
      2 * Abs(c * d - u) <= d && (2 * Abs(c * d - u) == d ==> Abs(c) * d > Abs(u))
  {
    var a := Abs(u);
    var m: int := if 2 * (a % d) >= d then a / d + 1 else a / d;
    HalfUpStep(a, d);
    if u < 0 {
      assert DivHalfUp(u, d) * d - u == -(m * d - a);
    }
  }

  /** With two places or fewer the value is already a whole number of cents
      and is kept exactly; with more, the result is the nearest cent, and a
      tie goes away from zero. Here d = 10^(exp-2) is one cent on the
      value's own scale. */
  lemma RoundHalfUpNearest(v: Dec)
    ensures v.exp <= 2 ==> RoundHalfUpCents(v) * Pow10(v.exp) == v.units * 100
    ensures v.exp > 2 ==>
      var c := RoundHalfUpCents(v);
      var d := Pow10(v.exp - 2);
      2 * Abs(c * d - v.units) <= d
      && (2 * Abs(c * d - v.units) == d ==> Abs(c) * d > Abs(v.units))
  {
    if v.exp <= 2 {
      Pow10Add(2 - v.exp, v.exp);
      assert Pow10(2) == 100;
      assert RoundHalfUpCents(v) * Pow10(v.exp) == v.units * (Pow10(2 - v.exp) * Pow10(v.exp));
    } else {
      DivHalfUpNearest(v.units, Pow10(v.exp - 2));
    }
  }

  /** An amount already in cents is returned unchanged. */
  lemma RoundCentsIdentity(cents: int)
    ensures DecimalRound(Some(Dec(cents, 2)), false) == Some(Amount(cents))
  {
  }

  // ---------------------------------------------------------------------
  // format_date: '{day}{suffix} {Mon}, {year}'.

  function DaySuffix(day: int): string
  {
    if 11 <= day <= 13 then "th"
    else if day % 10 == 1 then "st"
    else if day % 10 == 2 then "nd"
    else if day % 10 == 3 then "rd"
    else "th"
  }

  /** English ordinal suffixes for the days of a month, listed one by one. */
  function OrdinalTable(day: int): string
    requires 1 <= day <= 31
  {
    if day in {1, 21, 31} then "st" else if day in {2, 22} then "nd" else if day in {3, 23} then "rd" else "th"
  }

  lemma DaySuffixIsOrdinal(day: int)
    requires 1 <= day <= 31
    ensures DaySuffix(day) == OrdinalTable(day)
  {
  }

  function MonthAbbrev(month: int): string
    requires 1 <= month <= 12
  {
    ["Jan", "Feb", "Mar", "Apr", "May", "Jun", "Jul", "Aug", "Sep", "Oct", "Nov", "Dec"][month - 1]
  }

  function FormatDate(year: int, month: int, day: int): (r: string)
    requires ValidDate(year, month, day)
  {
    NatToString(day) + DaySuffix(day) + " " + MonthAbbrev(month) + ", " + NatToString(year)
  }

  lemma FormatDateStartsWithDay(year: int, month: int, day: int)
    requires ValidDate(year, month, day)
    ensures var r := FormatDate(year, month, day);
      IsPrefix(NatToString(day) + OrdinalTable(day) + " ", r)
  {
    DaySuffixIsOrdinal(day);
    var r := FormatDate(year, month, day);
    var p := NatToString(day) + OrdinalTable(day) + " ";
    assert r == p + (MonthAbbrev(month) + ", " + NatToString(year));
  }

  // ---------------------------------------------------------------------
  // get_delta_from_tz: `(-|\+)?([0-9]+):([0-9]+)` matched at the start;
  // the result is the offset in minutes. No match raises AttributeError.

  /** Length of the longest run of digits at the start of s. */
  function DigitRun(s: string): (n: nat)
    ensures n <= |s| && AllDigits(s[..n])
    ensures n < |s| ==> !IsDigit(s[n])
  {
    if s != [] && IsDigit(s[0]) then
      var n := 1 + DigitRun(s[1..]);
      assert s[..n] == [s[0]] + s[1..][..n - 1];
      n
    else 0
  }

  /** `([0-9]+):([0-9]+)` at the start of s, as a number of minutes. */
  function ParseHoursMinutes(body: string): Option<nat>
  {
    var h := DigitRun(body);
    if h == 0 || h >= |body| || body[h] != ':' then None
    else
      var rest := body[h + 1..];
      var m := DigitRun(rest);
      if m == 0 then None
      else Some(DigitsValue(body[..h]) * 60 + DigitsValue(rest[..m]))
  }

  function GetDeltaFromTz(tz: string): (r: Result<int>)
  {
    var negative := tz != [] && tz[0] == '-';
    var start := if tz != [] && (tz[0] == '-' || tz[0] == '+') then 1 else 0;
    match ParseHoursMinutes(tz[start..])
    case None => Failure("'NoneType' object has no attribute 'group'")
    case Some(minutes) => Success(if negative then -(minutes as int) else minutes)
  }

  /** Renders an offset the way the database stores it. */
  function FormatTz(negative: bool, hours: nat, minutes: nat): string
  {
    (if negative then "-" else "+") + NatToString(hours) + ":" + NatToString(minutes)
  }

  lemma {:induction false} DigitRunOf(d: string, rest: string)
    requires AllDigits(d)
    requires rest == [] || !IsDigit(rest[0])
    ensures DigitRun(d + rest) == |d|
  {
    if d == [] {
      assert d + rest == rest;
    } else {
      assert (d + rest)[1..] == d[1..] + rest;
      DigitRunOf(d[1..], rest);
    }
  }

  lemma ParseAt(body: string)
    requires 0 < DigitRun(body) < |body| && body[DigitRun(body)] == ':'
    requires DigitRun(body[DigitRun(body) + 1..]) > 0
    ensures var h := DigitRun(body);
      var after := body[h + 1..];
      ParseHoursMinutes(body).Some?
      && ParseHoursMinutes(body).value == DigitsValue(body[..h]) * 60 + DigitsValue(after[..DigitRun(after)])
  {
  }

  lemma DigitRunToColon(hs: string, tail: string)
    requires |hs| >= 1 && AllDigits(hs) && |tail| >= 1 && tail[0] == ':'
    ensures var body := hs + tail;
      DigitRun(body) == |hs| && body[|hs|] == ':' && body[..|hs|] == hs && body[|hs| + 1..] == tail[1..]
  {
    DigitRunOf(hs, tail);
    assert (hs + tail)[..|hs|] == hs;
    assert (hs + tail)[|hs| + 1..] == tail[1..];
  }

  lemma ParseDigitsColonDigits(hs: string, ms: string, rest: string)
    requires |hs| >= 1 && AllDigits(hs) && |ms| >= 1 && AllDigits(ms)
    requires rest == [] || !IsDigit(rest[0])
    ensures var p := ParseHoursMinutes(hs + (":" + ms + rest));
      p.Some? && p.value == DigitsValue(hs) * 60 + DigitsValue(ms)
  {
    var tail := ":" + ms + rest;
    DigitRunToColon(hs, tail);
    assert tail[1..] == ms + rest;
    DigitRunOf(ms, rest);
    assert (ms + rest)[..|ms|] == ms;
    ParseAt(hs + tail);
  }

  /** Parsing a rendered offset gives back its signed number of minutes,
      whatever non-digit text follows it. */
  lemma TzRoundTrip(negative: bool, hours: nat, minutes: nat, rest: string)
    requires rest == [] || !IsDigit(rest[0])
    ensures var r := GetDeltaFromTz(FormatTz(negative, hours, minutes) + rest);
      r.Success? && r.value == if negative then -(hours * 60 + minutes) else hours * 60 + minutes
  {
    var hs := NatToString(hours);
    var ms := NatToString(minutes);
    var tz := FormatTz(negative, hours, minutes) + rest;
    assert tz[1..] == hs + (":" + ms + rest);
    ParseDigitsColonDigits(hs, ms, rest);
    NatToStringRoundTrip(hours);
    NatToStringRoundTrip(minutes);
  }
}
