/** JavaScript value semantics that the front end relies on: the `||`
    fallback on strings, `String.prototype.trim`, `split` on one
    character, and the decimal rendering of integers in template strings. */
module Js {

  datatype Option<+T> = None | Some(value: T)

  /** `x || d` where `x` is a string or undefined: the empty string and
      undefined are falsy, so both fall back to `d`. */
  function OrDefault(x: Option<string>, d: string): (r: string)
    ensures x.Some? && x.value != "" ==> r == x.value
    ensures x.None? || x.value == "" ==> r == d
  {
    if x.Some? && x.value != "" then x.value else d
  }

  /** Truthiness of a number that may be undefined: undefined and 0 are falsy. */
  predicate TruthyInt(x: Option<int>) {
    x.Some? && x.value != 0
  }

  // ---------------------------------------------------------------------
  // trim

  /** The characters `String.prototype.trim` removes: ECMAScript's
      WhiteSpace (TAB, VT, FF, SP, NBSP, ZWNBSP and the Unicode
      category Zs) and LineTerminator (LF, CR, LS, PS). */
  const WhiteSpaceChars: set<char> := {
    '\t', '\n', '\U{000B}', '\U{000C}', '\r', ' ', '\U{00A0}', '\U{1680}',
    '\U{2000}', '\U{2001}', '\U{2002}', '\U{2003}', '\U{2004}', '\U{2005}',
    '\U{2006}', '\U{2007}', '\U{2008}', '\U{2009}', '\U{200A}',
    '\U{2028}', '\U{2029}', '\U{202F}', '\U{205F}', '\U{3000}', '\U{FEFF}'}

  predicate IsWhiteSpace(c: char) {
    c in WhiteSpaceChars
  }

  predicate AllWhiteSpace(s: string) {
    forall i :: 0 <= i < |s| ==> IsWhiteSpace(s[i])
  }

  /** Scans forward from `i` past white space: everything skipped is
      white space, and the scan stops at the end or at a character that
      is not. */
  function SkipWhiteSpace(s: string, i: nat): (k: nat)
    requires i <= |s|
    ensures i <= k <= |s|
    ensures forall j :: i <= j < k ==> IsWhiteSpace(s[j])
    ensures k < |s| ==> !IsWhiteSpace(s[k])
    decreases |s| - i
  {
    if i < |s| && IsWhiteSpace(s[i]) then SkipWhiteSpace(s, i + 1) else i
  }

  /** Scans backward from `k` past white space: everything skipped is
      white space, and the scan stops at the start or just after a
      character that is not. */
  function SkipWhiteSpaceBack(s: string, k: nat): (i: nat)
    requires k <= |s|
    ensures i <= k
    ensures forall j :: i <= j < k ==> IsWhiteSpace(s[j])
    ensures i > 0 ==> !IsWhiteSpace(s[i - 1])
    decreases k
  {
    if k > 0 && IsWhiteSpace(s[k - 1]) then SkipWhiteSpaceBack(s, k - 1) else k
  }

  /** Drops leading white space. */
  function TrimStart(s: string): string {
    s[SkipWhiteSpace(s, 0)..]
  }

  /** Drops trailing white space. */
  function TrimEnd(s: string): string {
    s[..SkipWhiteSpaceBack(s, |s|)]
  }

  /** `String.prototype.trim`. */
  function Trim(s: string): string {
    TrimEnd(TrimStart(s))
  }

  /** `s.trim()` is the contiguous piece of `s` starting at `i`, with no
      white space at either end, and everything cut away around it is
      white space. */
  lemma TrimIsInfix(s: string) returns (i: nat)
    ensures i + |Trim(s)| <= |s| && Trim(s) == s[i..i + |Trim(s)|]
    ensures forall j :: 0 <= j < i ==> IsWhiteSpace(s[j])
    ensures forall j :: i + |Trim(s)| <= j < |s| ==> IsWhiteSpace(s[j])
    ensures Trim(s) != [] ==> !IsWhiteSpace(Trim(s)[0]) && !IsWhiteSpace(Trim(s)[|Trim(s)| - 1])
  {
    i := SkipWhiteSpace(s, 0);
    var u := s[i..];
    var k := SkipWhiteSpaceBack(u, |u|);
    assert Trim(s) == u[..k] == s[i..i + k];
    forall j | i + k <= j < |s| ensures IsWhiteSpace(s[j]) {
      assert s[j] == u[j - i];
    }
    if k > 0 {
      assert u[0] == s[i];
    }
  }

  /** `!s.trim()` holds exactly when `s` is empty or all white space. */
  lemma TrimEmptyIff(s: string)
    ensures Trim(s) == "" <==> AllWhiteSpace(s)
  {
    var i := SkipWhiteSpace(s, 0);
    var u := s[i..];
    if i < |s| {
      assert u[0] == s[i];
      assert SkipWhiteSpaceBack(u, |u|) > 0;
    }
  }

  /** Trimming twice is trimming once. */
  lemma TrimIdempotent(s: string)
    ensures Trim(Trim(s)) == Trim(s)
  {
    var t := Trim(s);
    var i := TrimIsInfix(s);
    if t != [] {
      assert SkipWhiteSpace(t, 0) == 0;
      assert TrimStart(t) == t;
      assert SkipWhiteSpaceBack(t, |t|) == |t|;
    }
  }

  /** White space around a piece that starts and ends with something
      else is exactly what `trim` removes. */
  lemma TrimPadded(a: string, x: string, b: string)
    requires AllWhiteSpace(a) && AllWhiteSpace(b)
    requires x != [] && !IsWhiteSpace(x[0]) && !IsWhiteSpace(x[|x| - 1])
    ensures Trim(a + x + b) == x
  {
    var s := a + x + b;
    assert s[|a|] == x[0];
    assert SkipWhiteSpace(s, 0) == |a|;
    var u := s[|a|..];
    assert u == x + b;
    assert u[|x| - 1] == x[|x| - 1];
    assert SkipWhiteSpaceBack(u, |u|) == |x|;
  }

  // ---------------------------------------------------------------------
  // split

  /** `s.split(sep)` for a one-character separator: the pieces between
      the separators, in order; joining them back with `sep` gives `s`. */
  function Split(s: string, sep: char): (parts: seq<string>)
    ensures |parts| >= 1
    ensures Join(parts, sep) == s
    ensures forall i :: 0 <= i < |parts| ==> sep !in parts[i]
    decreases |s|
  {
    if s == [] then [""]
    else if s[0] == sep then [""] + Split(s[1..], sep)
    else
      var rest := Split(s[1..], sep);
      [[s[0]] + rest[0]] + rest[1..]
  }

  /** The inverse of `Split`: `parts.join(sep)`. */
  function Join(parts: seq<string>, sep: char): string
    requires |parts| >= 1
  {
    if |parts| == 1 then parts[0] else parts[0] + [sep] + Join(parts[1..], sep)
  }

  /** Splitting a string with no separator in it gives that string alone. */
  lemma {:induction false} SplitNoSeparator(s: string, sep: char)
    requires sep !in s
    ensures Split(s, sep) == [s]
    decreases |s|
  {
    if s != [] {
      assert s[1..] == s[1..];
      assert sep !in s[1..] by {
        forall c | c in s[1..] ensures c != sep { }
      }
      SplitNoSeparator(s[1..], sep);
    }
  }

  /** Splitting `a + sep + b` splits `a` and `b` independently. */
  lemma {:induction false} SplitAppend(a: string, b: string, sep: char)
    ensures Split(a + [sep] + b, sep) == Split(a, sep) + Split(b, sep)
    decreases |a|
  {
    if a == [] {
      assert a + [sep] + b == [sep] + b;
      assert ([sep] + b)[1..] == b;
    } else {
      assert (a + [sep] + b)[0] == a[0];
      assert (a + [sep] + b)[1..] == a[1..] + [sep] + b;
      SplitAppend(a[1..], b, sep);
    }
  }

  /** The last piece of `Split`: the text after the last separator, or
      the whole string when there is none. */
  function LastPiece(s: string, sep: char): string {
    var parts := Split(s, sep);
    parts[|parts| - 1]
  }

  // ---------------------------------------------------------------------
  // integers in template strings

  function DigitChar(d: nat): char
    requires d < 10
  {
    "0123456789"[d]
  }

  function DigitValue(c: char): nat {
    if '0' <= c <= '9' then (c as int - '0' as int) as nat else 0
  }

  predicate IsDigit(c: char) {
    '0' <= c <= '9'
  }

  /** The decimal numeral of `n`, as `${n}` prints a non-negative integer. */
  function NatToString(n: nat): (s: string)
    ensures s != []
    ensures forall i :: 0 <= i < |s| ==> IsDigit(s[i])
    ensures |s| > 1 ==> s[0] != '0'
    decreases n
  {
    if n < 10 then [DigitChar(n)] else NatToString(n / 10) + [DigitChar(n % 10)]
  }

  /** The value of a string of decimal digits. */
  function DigitsValue(s: string): nat
    decreases |s|
  {
    if s == [] then 0 else 10 * DigitsValue(s[..|s| - 1]) + DigitValue(s[|s| - 1])
  }

  /** Reading the numeral back gives the number: `NatToString` loses nothing. */
  lemma {:induction false} NatToStringRoundTrip(n: nat)
    ensures DigitsValue(NatToString(n)) == n
    decreases n
  {
    var s := NatToString(n);
    if n >= 10 {
      NatToStringRoundTrip(n / 10);
      assert s[..|s| - 1] == NatToString(n / 10);
    }
  }

  /** `${x}` for a JavaScript integer: a minus sign before the magnitude
      when negative. */
  function IntToString(x: int): (s: string)
    ensures s != []
    ensures x < 0 <==> s[0] == '-'
  {
    if x < 0 then "-" + NatToString(-x) else NatToString(x)
  }
}
