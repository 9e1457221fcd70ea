// Error codes and the "E0001 - text" message format shared by the
// services: building a message, and reading its code and text back.
module Errors {
  import opened Wrappers
  import opened Text

  /** The declared errors. */
  datatype Error = InvalidPaymentMethod | TestError

  function Code(e: Error): string
  {
    match e
    case InvalidPaymentMethod => "E0001"
    case TestError => "E0149"
  }

  function ErrorText(e: Error): string
  {
    match e
    case InvalidPaymentMethod => "invalid payment method"
    case TestError => "TEST ERROR"
  }

  /** Every code is 'E' and four digits. */
  predicate WellFormedCode(code: string)
  {
    |code| == 5 && code[0] == 'E' && AllDigits(code[1..])
  }

  /** `error_msg`: the code, " - ", then the text. */
  function ErrorMsg(e: Error): (r: string)
    ensures IsPrefix(Code(e), r)
  {
    Code(e) + " - " + ErrorText(e)
  }

  /** The declared errors have well-formed, pairwise distinct codes. */
  lemma CodesUnique(a: Error, b: Error)
    ensures WellFormedCode(Code(a))
    ensures Code(a) == Code(b) ==> a == b
  {
  }

  // ---------------------------------------------------------------------
  // Python's `str.split()` with no argument: whitespace is every
  // character Python's `str.isspace` accepts.

  predicate IsSpace(c: char)
  {
    c in "\t\n\U{B}\U{C}\r\U{1C}\U{1D}\U{1E}\U{1F} \U{85}\U{A0}"
    || c == '\U{1680}' || ('\U{2000}' <= c <= '\U{200A}')
    || c == '\U{2028}' || c == '\U{2029}' || c == '\U{202F}' || c == '\U{205F}' || c == '\U{3000}'
  }

  function SkipSpace(s: string): (r: string)
    ensures |r| <= |s| && r == s[|s| - |r|..]
    ensures r == [] || !IsSpace(r[0])
    ensures forall i :: 0 <= i < |s| - |r| ==> IsSpace(s[i])
  {
    if s != [] && IsSpace(s[0]) then SkipSpace(s[1..]) else s
  }

  /** Length of the run of non-space characters at the start of s. */
  function WordLength(s: string): (n: nat)
    ensures n <= |s|
    ensures forall i :: 0 <= i < n ==> !IsSpace(s[i])
    ensures n < |s| ==> IsSpace(s[n])
  {
    if s != [] && !IsSpace(s[0]) then 1 + WordLength(s[1..]) else 0
  }

  /** `s.split()[0]`; a string of spaces only has no first word and the
      index raises. */
  function FirstWord(s: string): (r: Option<string>)
    ensures r.None? <==> forall i :: 0 <= i < |s| ==> IsSpace(s[i])
  {
    var t := SkipSpace(s);
    if t == [] then None else Some(t[..WordLength(t)])
  }

  /** `get_type`: the code of an error message, if it has one. The empty
      string has none; a string of whitespace only raises IndexError. */
  function GetType(error: string): (r: Result<Option<string>>)
    ensures r.Failure? <==> (error != [] && forall i :: 0 <= i < |error| ==> IsSpace(error[i]))
    ensures r.Success? && r.value.Some? ==> |r.value.value| == 5 && r.value.value[0] == 'E'
  {
    if error == [] then Success(None)
    else match FirstWord(error)
      case None => Failure("IndexError: list index out of range")
      case Some(code) => Success(if |code| != 5 || code[0] != 'E' then None else Some(code))
  }

  /** `get_msg`: the text after "Exxxx - ", or the whole string. */
  function GetMsg(error: string): (r: string)
    ensures |r| <= |error| && r == error[|error| - |r|..]
  {
    if |error| >= 8 && error[0] == 'E' && error[5..8] == " - " then error[8..] else error
  }

  /** Reading a message back gives its code and its text, for any code of
      five non-space characters starting with 'E' and any text. */
  lemma MessageRoundTrip(code: string, text: string)
    requires |code| == 5 && code[0] == 'E' && forall i :: 0 <= i < 5 ==> !IsSpace(code[i])
    ensures GetMsg(code + " - " + text) == text
    ensures GetType(code + " - " + text) == Success(Some(code))
  {
    var m := code + " - " + text;
    assert m[5..8] == " - ";
    assert m[8..] == text;
    assert !IsSpace(m[0]);
    assert SkipSpace(m) == m;
    assert m[5] == ' ';
    assert WordLength(m) == 5 by {
      WordLengthAt(m, 5);
    }
    assert m[..5] == code;
  }

  lemma WordLengthAt(s: string, n: nat)
    requires n < |s| && IsSpace(s[n]) && forall i :: 0 <= i < n ==> !IsSpace(s[i])
    ensures WordLength(s) == n
  {
  }

  /** In particular for the declared errors. */
  lemma ErrorMsgRoundTrip(e: Error)
    ensures GetMsg(ErrorMsg(e)) == ErrorText(e)
    ensures GetType(ErrorMsg(e)) == Success(Some(Code(e)))
  {
    CodesUnique(e, e);
    MessageRoundTrip(Code(e), ErrorText(e));
  }

  /** A string that is not a message comes back unchanged from GetMsg and
      carries no code. */
  lemma PlainTextHasNoCode(s: string)
    requires s != [] && !IsSpace(s[0]) && s[0] != 'E'
    ensures GetMsg(s) == s
    ensures GetType(s) == Success(None)
  {
    assert SkipSpace(s) == s;
  }
}
