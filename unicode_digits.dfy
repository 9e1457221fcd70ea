// The digits of Python's `str.isdigit` and `int()`, from the Unicode
// Character Database, version 15.0. A decimal digit (general category Nd)
// has a value that `int()` reads, in whatever script it is written. A few
// more characters, such as the superscripts and the circled digits, have
// numeric type Digit: `isdigit` accepts them and `int()` refuses them.
module UnicodeDigits {
  import opened Wrappers
  import Text

  /** The zeros of the runs of decimal digits in the Basic Multilingual
      Plane. Each run holds the digits 0 to 9 at ten consecutive code
      points. */
  const BmpZeros: seq<int> := [
    0x30, 0x660, 0x6F0, 0x7C0, 0x966, 0x9E6, 0xA66, 0xAE6, 0xB66, 0xBE6,
    0xC66, 0xCE6, 0xD66, 0xDE6, 0xE50, 0xED0, 0xF20, 0x1040, 0x1090, 0x17E0,
    0x1810, 0x1946, 0x19D0, 0x1A80, 0x1A90, 0x1B50, 0x1BB0, 0x1C40, 0x1C50, 0xA620,
    0xA8D0, 0xA900, 0xA9D0, 0xA9F0, 0xAA50, 0xABF0, 0xFF10]

  /** The zeros of the runs of decimal digits above the Basic Multilingual
      Plane. */
  const AstralZeros: seq<int> := [
    0x104A0, 0x10D30, 0x11066, 0x110F0, 0x11136, 0x111D0, 0x112F0, 0x11450, 0x114D0, 0x11650,
    0x116C0, 0x11730, 0x118E0, 0x11950, 0x11C50, 0x11D50, 0x11DA0, 0x11F50, 0x16A60, 0x16AC0,
    0x16B50, 0x1D7CE, 0x1D7D8, 0x1D7E2, 0x1D7EC, 0x1D7F6, 0x1E140, 0x1E2F0, 0x1E4F0, 0x1E950,
    0x1FBF0]

  /** The characters of numeric type Digit that are not decimal digits,
      as ranges of code points, both ends included. */
  const OtherDigits: seq<(int, int)> := [
    (0xB2, 0xB3), (0xB9, 0xB9), (0x1369, 0x1371), (0x19DA, 0x19DA), (0x2070, 0x2070),
    (0x2074, 0x2079), (0x2080, 0x2089), (0x2460, 0x2468), (0x2474, 0x247C), (0x2488, 0x2490),
    (0x24EA, 0x24EA), (0x24F5, 0x24FD), (0x24FF, 0x24FF), (0x2776, 0x277E), (0x2780, 0x2788),
    (0x278A, 0x2792), (0x10A40, 0x10A43), (0x10E60, 0x10E68), (0x11052, 0x1105A), (0x1F100, 0x1F10A)]

  /** The zero of the run of decimal digits holding `c`, if any. The zeros
      are listed in ascending order, so the search stops at the first zero
      above `c`. */
  function ZeroOf(c: char, zs: seq<int>): (r: Option<int>)
    ensures r.Some? ==> r.value <= c as int < r.value + 10
  {
    if zs == [] || c as int < zs[0] then None
    else if c as int < zs[0] + 10 then Some(zs[0])
    else ZeroOf(c, zs[1..])
  }

  /** Runs listed in ascending order, none overlapping the next. */
  predicate Ascending(zs: seq<int>)
  {
    forall i :: 0 < i < |zs| ==> zs[i - 1] + 10 <= zs[i]
  }

  /** The tables are in ascending order, as the searches expect. */
  lemma TablesAscending()
    ensures Ascending(BmpZeros) && Ascending(AstralZeros) && AscendingRanges(OtherDigits)
  {
    BmpAscending();
    AstralAscending();
    OtherAscending();
  }

  lemma BmpAscending()
    ensures Ascending(BmpZeros)
  {
  }

  lemma AstralAscending()
    ensures Ascending(AstralZeros)
  {
  }

  lemma OtherAscending()
    ensures AscendingRanges(OtherDigits)
  {
  }

  /** Over an ascending table the search misses no run: it finds a zero
      exactly when some run of the table holds `c`. */
  lemma {:induction false} ZeroOfComplete(c: char, zs: seq<int>)
    requires Ascending(zs)
    ensures ZeroOf(c, zs).Some? <==> exists i :: 0 <= i < |zs| && zs[i] <= c as int < zs[i] + 10
  {
    if zs != [] && zs[0] + 10 <= c as int {
      ZeroOfComplete(c, zs[1..]);
      assert forall i :: 1 <= i < |zs| ==> zs[i] == zs[1..][i - 1];
      if exists i :: 0 <= i < |zs| && zs[i] <= c as int < zs[i] + 10 {
        var i :| 0 <= i < |zs| && zs[i] <= c as int < zs[i] + 10;
        assert i != 0;
        assert zs[1..][i - 1] == zs[i];
      }
    } else if zs != [] && c as int < zs[0] {
      forall i | 0 < i < |zs| ensures zs[0] < zs[i] {
        AscendingFirst(zs, i);
      }
    }
  }

  lemma {:induction false} AscendingFirst(zs: seq<int>, i: int)
    requires Ascending(zs) && 0 < i < |zs|
    ensures zs[0] + 10 <= zs[i]
  {
    if i > 1 {
      AscendingFirst(zs, i - 1);
    }
  }

  /** The zero of the run holding `c`, in either table. */
  function Zero(c: char): Option<int>
  {
    if ZeroOf(c, BmpZeros).Some? then ZeroOf(c, BmpZeros) else ZeroOf(c, AstralZeros)
  }

  /** `c` lies in one of the ranges `rs`, which are listed in ascending
      order, so the search stops at the first range above `c`. */
  predicate InRanges(c: char, rs: seq<(int, int)>)
  {
    if rs == [] || c as int < rs[0].0 then false
    else c as int <= rs[0].1 || InRanges(c, rs[1..])
  }

  /** Ranges listed in ascending order, none overlapping the next. */
  predicate AscendingRanges(rs: seq<(int, int)>)
  {
    forall i :: 0 <= i < |rs| ==> rs[i].0 <= rs[i].1 && (i > 0 ==> rs[i - 1].1 < rs[i].0)
  }

  /** Over ascending ranges the search misses none: it succeeds exactly
      when some range holds `c`. */
  lemma {:induction false} InRangesComplete(c: char, rs: seq<(int, int)>)
    requires AscendingRanges(rs)
    ensures InRanges(c, rs) <==> exists i :: 0 <= i < |rs| && rs[i].0 <= c as int <= rs[i].1
  {
    if rs != [] && rs[0].1 < c as int {
      InRangesComplete(c, rs[1..]);
      assert forall i :: 1 <= i < |rs| ==> rs[i] == rs[1..][i - 1];
      if exists i :: 0 <= i < |rs| && rs[i].0 <= c as int <= rs[i].1 {
        var i :| 0 <= i < |rs| && rs[i].0 <= c as int <= rs[i].1;
        assert i != 0;
        assert rs[1..][i - 1] == rs[i];
      }
    } else if rs != [] && c as int < rs[0].0 {
      forall i | 0 < i < |rs| ensures rs[0].0 < rs[i].0 {
        RangesAscendingFirst(rs, i);
      }
    }
  }

  lemma {:induction false} RangesAscendingFirst(rs: seq<(int, int)>, i: int)
    requires AscendingRanges(rs) && 0 < i < |rs|
    ensures rs[0].1 < rs[i].0
  {
    if i > 1 {
      RangesAscendingFirst(rs, i - 1);
    }
  }

  /** A decimal digit: `int()` reads it. */
  predicate IsDecimal(c: char)
  {
    Zero(c).Some?
  }

  /** The value of a decimal digit: its distance from its run's zero. */
  function DecimalValue(c: char): (d: nat)
    requires IsDecimal(c)
    ensures d < 10
  {
    c as int - Zero(c).value
  }

  /** A character `str.isdigit` accepts. */
  predicate IsDigit(c: char)
  {
    IsDecimal(c) || InRanges(c, OtherDigits)
  }

  /** `s.isdigit()`: at least one character, every one a digit. */
  predicate IsDigits(s: string)
  {
    |s| > 0 && forall i :: 0 <= i < |s| ==> IsDigit(s[i])
  }

  predicate AllDecimal(s: string)
  {
    forall i :: 0 <= i < |s| ==> IsDecimal(s[i])
  }

  /** Every character of `s` that `isdigit` accepts is one `int()` reads. */
  predicate DecimalOnly(s: string)
  {
    forall i :: 0 <= i < |s| ==> IsDigit(s[i]) ==> IsDecimal(s[i])
  }

  lemma DecimalOnlyInfix(s: string, a: nat, b: nat)
    requires a <= b <= |s|
    ensures DecimalOnly(s) ==> DecimalOnly(s[a..b])
  {
    assert forall i :: 0 <= i < b - a ==> s[a..b][i] == s[a + i];
  }

  /** The value `int()` gives a string of decimal digits. */
  function DecimalsValue(s: string): nat
    requires AllDecimal(s)
  {
    if s == [] then 0 else DecimalsValue(s[..|s| - 1]) * 10 + DecimalValue(s[|s| - 1])
  }

  /** No digit is a sign. */
  lemma DigitNotSign(c: char)
    requires IsDigit(c)
    ensures c != '-' && c != '+'
  {
    if c as int < 0xB2 {
      LowDigits(c);
    }
  }

  /** One decimal digit reads as its value. */
  lemma OneDecimal(c: char)
    requires IsDecimal(c)
    ensures AllDecimal([c]) && DecimalsValue([c]) == DecimalValue(c)
  {
    assert [c][..0] == [];
  }

  /** The ASCII digits are decimal digits with their usual values. */
  lemma {:induction false} AsciiDecimal(s: string)
    requires Text.AllDigits(s)
    ensures AllDecimal(s) && (s != [] ==> IsDigits(s))
    ensures DecimalsValue(s) == Text.DigitsValue(s)
  {
    forall i | 0 <= i < |s| ensures IsDecimal(s[i]) && DecimalValue(s[i]) == Text.DigitValue(s[i]) {
      assert ZeroOf(s[i], BmpZeros) == Some(0x30);
    }
    if s != [] {
      AsciiDecimal(s[..|s| - 1]);
    }
  }

  /** Below SUPERSCRIPT TWO the only digits are the ASCII ones. */
  lemma LowDigits(c: char)
    requires c as int < 0xB2
    ensures IsDigit(c) <==> Text.IsDigit(c)
    ensures IsDecimal(c) <==> Text.IsDigit(c)
  {
    if c as int >= 0x3A {
      assert ZeroOf(c, BmpZeros) == ZeroOf(c, BmpZeros[1..]) == None;
    } else if c as int >= 0x30 {
      assert ZeroOf(c, BmpZeros) == Some(0x30);
    }
    assert ZeroOf(c, AstralZeros) == None;
  }

  /** A string of characters below SUPERSCRIPT TWO is a number exactly when
      it is ASCII digits. */
  lemma {:induction false} LowDigitsString(s: string)
    requires forall i :: 0 <= i < |s| ==> s[i] as int < 0xB2
    ensures IsDigits(s) <==> s != [] && Text.AllDigits(s)
  {
    forall i | 0 <= i < |s| ensures IsDigit(s[i]) <==> Text.IsDigit(s[i]) {
      LowDigits(s[i]);
    }
  }

  /** ARABIC-INDIC DIGIT THREE is the decimal digit 3. */
  lemma ArabicIndicThree()
    ensures IsDecimal('\U{663}') && DecimalValue('\U{663}') == 3
  {
    ZeroOfSecond('\U{663}', BmpZeros);
  }

  /** A character of the second run of a table is found in that run. */
  lemma ZeroOfSecond(c: char, zs: seq<int>)
    requires |zs| >= 2 && zs[0] + 10 <= zs[1] <= c as int < zs[1] + 10
    ensures ZeroOf(c, zs) == Some(zs[1])
  {
    assert zs[1..][0] == zs[1];
  }

  /** SUPERSCRIPT TWO is a digit to `isdigit` but not a decimal digit. */
  lemma SuperscriptTwo()
    ensures IsDigit('\U{B2}') && !IsDecimal('\U{B2}')
  {
    assert OtherDigits[0] == (0xB2, 0xB3);
    assert ZeroOf('\U{B2}', BmpZeros) == ZeroOf('\U{B2}', BmpZeros[1..]) == None;
    assert ZeroOf('\U{B2}', AstralZeros) == None;
  }
}
