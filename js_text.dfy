/**
 * The JavaScript string primitives the contact form relies on: the `\s`
 * character class of regular expressions, `String.prototype.trim` and the
 * letter-case conversions. Strings are sequences of Unicode scalar values.
 */
module JsText {

  /** The ECMAScript `\s` class: the WhiteSpace and LineTerminator code points. `trim` strips exactly these. */
  predicate IsSpace(c: char) {
    c == '\t' || c == '\n' || c == '\U{0B}' || c == '\U{0C}' || c == '\r' || c == ' ' ||
    c == '\U{A0}' || c == '\U{1680}' || ('\U{2000}' <= c <= '\U{200A}') ||
    c == '\U{2028}' || c == '\U{2029}' || c == '\U{202F}' || c == '\U{205F}' ||
    c == '\U{3000}' || c == '\U{FEFF}'
  }

  /** Positions `lo` up to (not including) `hi` of `s` hold white space. */
  predicate SpaceBetween(s: string, lo: int, hi: int)
    requires 0 <= lo <= hi <= |s|
  {
    forall i :: lo <= i < hi ==> IsSpace(s[i])
  }

  /** Every character of `s` is white space (this includes the empty string). */
  predicate AllSpace(s: string) {
    SpaceBetween(s, 0, |s|)
  }

  /** `toLowerCase` on one character, restricted to the ASCII letters. */
  function LowerChar(c: char): (r: char)
    ensures IsSpace(r) == IsSpace(c)
    ensures r == '@' <==> c == '@'
    ensures r == '.' <==> c == '.'
    ensures 'A' <= c <= 'Z' ==> 'a' <= r <= 'z'
    ensures !('A' <= c <= 'Z') ==> r == c
  {
    if 'A' <= c <= 'Z' then (c as int - 'A' as int + 'a' as int) as char else c
  }

  /** `toUpperCase` on one character, restricted to the ASCII letters. */
  function UpperChar(c: char): (r: char)
    ensures IsSpace(r) == IsSpace(c)
    ensures r == '@' <==> c == '@'
    ensures r == '.' <==> c == '.'
    ensures 'a' <= c <= 'z' ==> 'A' <= r <= 'Z'
    ensures !('a' <= c <= 'z') ==> r == c
  {
    if 'a' <= c <= 'z' then (c as int - 'a' as int + 'A' as int) as char else c
  }

  function ToLowerCase(s: string): (r: string)
    ensures |r| == |s|
  {
    seq(|s|, i requires 0 <= i < |s| => LowerChar(s[i]))
  }

  function ToUpperCase(s: string): (r: string)
    ensures |r| == |s|
  {
    seq(|s|, i requires 0 <= i < |s| => UpperChar(s[i]))
  }

  /** The first position at or after `i` that does not hold white space (or the end). */
  function SkipSpaceFrom(s: string, i: nat): (k: nat)
    requires i <= |s|
    ensures i <= k <= |s| && SpaceBetween(s, i, k)
    ensures k < |s| ==> !IsSpace(s[k])
    decreases |s| - i
  {
    if i < |s| && IsSpace(s[i]) then SkipSpaceFrom(s, i + 1) else i
  }

  /** The end of `s[lo..j]` once its trailing white space is dropped. */
  function SkipSpaceBack(s: string, lo: nat, j: nat): (k: nat)
    requires lo <= j <= |s|
    ensures lo <= k <= j && SpaceBetween(s, k, j)
    ensures lo < k ==> !IsSpace(s[k - 1])
    decreases j
  {
    if lo < j && IsSpace(s[j - 1]) then SkipSpaceBack(s, lo, j - 1) else j
  }

  /**
   * `String.prototype.trim`: the infix of `s` left after removing white space
   * at both ends. It is empty exactly when `s` is white space only.
   */
  function Trim(s: string): (r: string)
    ensures r == [] <==> AllSpace(s)
    ensures r != [] ==> !IsSpace(r[0]) && !IsSpace(r[|r| - 1])
  {
    var a := SkipSpaceFrom(s, 0);
    var b := SkipSpaceBack(s, a, |s|);
    assert a < |s| ==> a < b;
    s[a..b]
  }

  /** `trim` removes only white space, and only at the two ends: the result is an infix of `s` framed by white space. */
  lemma TrimIsInfix(s: string)
    ensures exists a, b :: 0 <= a <= b <= |s| && s[a..b] == Trim(s) && SpaceBetween(s, 0, a) && SpaceBetween(s, b, |s|)
  {
    var a := SkipSpaceFrom(s, 0);
    var b := SkipSpaceBack(s, a, |s|);
    assert s[a..b] == Trim(s);
  }

  /** A string that neither starts nor ends with white space is left as it is. */
  lemma TrimKeepsFramed(s: string)
    requires s != [] && !IsSpace(s[0]) && !IsSpace(s[|s| - 1])
    ensures Trim(s) == s
  {
    assert SkipSpaceFrom(s, 0) == 0;
    assert SkipSpaceBack(s, 0, |s|) == |s|;
    assert s[0..|s|] == s;
  }

  /** Trimming twice is the same as trimming once. */
  lemma TrimIdempotent(s: string)
    ensures Trim(Trim(s)) == Trim(s)
  {
    var r := Trim(s);
    if r != [] {
      TrimKeepsFramed(r);
    }
  }
}
