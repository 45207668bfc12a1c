/** Small wrapper types shared by the modules. */
module Wrappers {
  datatype Option<+T> = None | Some(value: T)
}

/**
 * The character-level string operations the services rely on: Python's
 * `str.strip()`, `str.lower()`, `str.upper()` and the regular-expression
 * class `\w`.  Strings are sequences of Unicode scalar values.
 */
module Text {

  /** The characters Python's `str.isspace()` accepts, i.e. what `str.strip()` removes. */
  predicate IsSpace(c: char) {
    || ('\t' <= c <= '\r')                // \t \n \x0b \x0c \r
    || ('\U{1c}' <= c <= '\U{1f}')        // file, group, record and unit separators
    || c == ' '
    || c == '\U{85}' || c == '\U{a0}' || c == '\U{1680}'
    || ('\U{2000}' <= c <= '\U{200a}')
    || c == '\U{2028}' || c == '\U{2029}' || c == '\U{202f}' || c == '\U{205f}' || c == '\U{3000}'
  }

  predicate AllSpace(s: string) {
    forall i :: 0 <= i < |s| ==> IsSpace(s[i])
  }

  /** The number of leading whitespace characters of `s`. */
  function LeadingSpaces(s: string): (a: nat)
    ensures a <= |s|
    ensures forall i :: 0 <= i < a ==> IsSpace(s[i])
    ensures a < |s| ==> !IsSpace(s[a])
  {
    if s == [] || !IsSpace(s[0]) then 0 else 1 + LeadingSpaces(s[1..])
  }

  /** The length of `s` without its trailing whitespace. */
  function TrailingCut(s: string): (b: nat)
    ensures b <= |s|
    ensures forall i :: b <= i < |s| ==> IsSpace(s[i])
    ensures 0 < b ==> !IsSpace(s[b - 1])
  {
    if s == [] || !IsSpace(s[|s| - 1]) then |s| else TrailingCut(s[..|s| - 1])
  }

  /** `s[a..a + |r|] == r`: r occurs in s at offset a. */
  ghost predicate OccursAt(r: string, s: string, a: int) {
    0 <= a && a + |r| <= |s| && s[a..a + |r|] == r
  }

  /** `r` is `s` with only whitespace removed before offset `a` and after `r`. */
  ghost predicate TrimmedAt(r: string, s: string, a: int) {
    OccursAt(r, s, a) && AllSpace(s[..a]) && AllSpace(s[a + |r|..])
  }

  /**
   * Python's `s.strip()`: the slice of `s` between its first and last
   * non-whitespace characters, empty exactly when `s` is all whitespace.
   */
  function Strip(s: string): (r: string)
    ensures |r| <= |s|
    ensures exists a :: OccursAt(r, s, a)
    ensures exists a :: TrimmedAt(r, s, a)
    ensures r == [] <==> AllSpace(s)
    ensures r != [] ==> !IsSpace(r[0]) && !IsSpace(r[|r| - 1])
  {
    var a := LeadingSpaces(s);
    var b := TrailingCut(s);
    if a < b then
      assert OccursAt(s[a..b], s, a);
      assert TrimmedAt(s[a..b], s, a);
      s[a..b]
    else
      assert OccursAt([], s, 0);
      assert a == |s|;
      assert TrimmedAt([], s, 0);
      []
  }

  /** A string without whitespace at either end is its own `strip()`. */
  lemma StripKeepsTrimmed(s: string)
    requires s != [] ==> !IsSpace(s[0]) && !IsSpace(s[|s| - 1])
    ensures Strip(s) == s
  {
    if s != [] {
      assert LeadingSpaces(s) == 0;
      assert TrailingCut(s) == |s|;
    }
  }

  /** `strip()` is idempotent. */
  lemma StripIdempotent(s: string)
    ensures Strip(Strip(s)) == Strip(s)
  {
    StripKeepsTrimmed(Strip(s));
  }

  /** `str.lower()` on the ASCII and Latin-1 letters. */
  function LowerChar(c: char): (lower: char) {
    if 'A' <= c <= 'Z' || ('\U{c0}' <= c <= '\U{de}' && c != '\U{d7}') then (c as int + 32) as char else c
  }

  /**
   * `str.upper()` on the ASCII and Latin-1 letters, including `µ` (U+00B5)
   * and `ÿ` (U+00FF), whose capitals U+039C and U+0178 lie outside Latin-1.
   * `ß` (U+00DF), which Python turns into the two letters "SS", is left
   * unchanged: the model keeps one character per character.
   */
  function UpperChar(c: char): (upper: char) {
    if 'a' <= c <= 'z' || ('\U{e0}' <= c <= '\U{fe}' && c != '\U{f7}') then (c as int - 32) as char
    else if c == '\U{b5}' then '\U{39c}'
    else if c == '\U{ff}' then '\U{178}'
    else c
  }

  function Lower(s: string): (r: string)
    ensures |r| == |s|
  {
    seq(|s|, i requires 0 <= i < |s| => LowerChar(s[i]))
  }

  function Upper(s: string): (r: string)
    ensures |r| == |s|
  {
    seq(|s|, i requires 0 <= i < |s| => UpperChar(s[i]))
  }

  /** The regular-expression class `\w`: letters, digits and `_`, on the ASCII and Latin-1 ranges. */
  predicate IsWordChar(c: char) {
    || ('a' <= c <= 'z') || ('A' <= c <= 'Z') || ('0' <= c <= '9') || c == '_'
    || c == '\U{aa}' || c == '\U{b2}' || c == '\U{b3}' || c == '\U{b5}' || c == '\U{b9}' || c == '\U{ba}'
    || ('\U{bc}' <= c <= '\U{be}')
    || ('\U{c0}' <= c <= '\U{ff}' && c != '\U{d7}' && c != '\U{f7}')
  }

  predicate AllWordChars(s: string) {
    forall i :: 0 <= i < |s| ==> IsWordChar(s[i])
  }
}
