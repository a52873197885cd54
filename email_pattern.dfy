/**
 * `validateEmail`: the string, lower-cased, is tested against the regular
 * expression `^[^\s@]+@[^\s@]+\.[^\s@]+$`. The expression is modelled as
 * written (a split into three runs of the class `[^\s@]`), beside an explicit
 * description of the accepted shape, and the two are proved equal.
 */
module EmailPattern {
  import opened JsText

  /** A member of the class `[^\s@]`. */
  predicate Plain(c: char) {
    !IsSpace(c) && c != '@'
  }

  /** Positions `lo` up to (not including) `hi` of `s` form a run of `[^\s@]` (possibly empty). */
  predicate PlainBetween(s: string, lo: int, hi: int)
    requires 0 <= lo <= hi <= |s|
  {
    forall k :: lo <= k < hi ==> Plain(s[k])
  }

  /**
   * The regular expression as written: `s` is u '@' v '.' w with u, v, w
   * non-empty runs of `[^\s@]`. Position i is the '@', position j the '.'.
   */
  predicate EmailRegex(s: string) {
    exists i, j | 0 < i < j < |s| ::
      i + 1 < j && j + 1 < |s| && s[i] == '@' && s[j] == '.' &&
      PlainBetween(s, 0, i) && PlainBetween(s, i + 1, j) && PlainBetween(s, j + 1, |s|)
  }

  /**
   * The accepted shape stated directly: no white space, exactly one '@', a
   * non-empty local part before it, and after it a '.' that is neither the
   * first character after the '@' nor the last character of the string.
   */
  predicate IsEmailShape(s: string) {
    AllNonSpace(s) &&
    Occurrences(s, '@') == 1 &&
    exists i, j | 0 < i < j < |s| - 1 :: i + 1 < j && s[i] == '@' && s[j] == '.'
  }

  /** How many times `c` occurs in `s`. */
  function Occurrences(s: string, c: char): (n: nat)
    ensures n == 0 <==> c !in s
    ensures n <= |s|
  {
    if s == [] then 0 else Occurrences(s[1..], c) + (if s[0] == c then 1 else 0)
  }

  lemma {:induction false} OccurrencesConcat(a: string, b: string, c: char)
    ensures Occurrences(a + b, c) == Occurrences(a, c) + Occurrences(b, c)
  {
    if a != [] {
      assert (a + b)[1..] == a[1..] + b;
      OccurrencesConcat(a[1..], b, c);
    } else {
      assert a + b == b;
    }
  }

  predicate AllNonSpace(s: string) {
    forall i :: 0 <= i < |s| ==> !IsSpace(s[i])
  }

  /** Two characters that fall in the same class as far as the expression can tell. */
  predicate SameClass(a: char, b: char) {
    IsSpace(a) == IsSpace(b) && (a == '@' <==> b == '@') && (a == '.' <==> b == '.')
  }

  /** `validateEmail`: lower-case, then test the regular expression. */
  function ValidateEmail(email: string): (ok: bool)
    ensures ok == IsEmailShape(email)
  {
    LowerKeepsMatch(email);
    RegexIffShape(email);
    EmailRegex(ToLowerCase(email))
  }

  /** In a string with a single '@', every other position holds something else. */
  lemma SingleAt(s: string, i: int)
    requires Occurrences(s, '@') == 1
    requires 0 <= i < |s| && s[i] == '@'
    ensures forall k :: 0 <= k < |s| && k != i ==> s[k] != '@'
  {
    var rest := [s[i]] + s[i + 1..];
    assert s == s[..i] + rest;
    OccurrencesConcat(s[..i], rest, '@');
    assert rest[1..] == s[i + 1..];
    assert Occurrences(rest, '@') == Occurrences(s[i + 1..], '@') + 1;
    forall k | 0 <= k < |s| && k != i ensures s[k] != '@' {
      if k < i { assert s[..i][k] == s[k]; } else { assert s[i + 1..][k - i - 1] == s[k]; }
    }
  }

  /** The regular expression accepts exactly the strings of the stated shape. */
  lemma RegexIffShape(s: string)
    ensures EmailRegex(s) <==> IsEmailShape(s)
  {
    if EmailRegex(s) { RegexHasShape(s); }
    if IsEmailShape(s) { ShapeMatchesRegex(s); }
  }

  lemma RegexHasShape(s: string)
    requires EmailRegex(s)
    ensures IsEmailShape(s)
  {
    var i, j :| 0 < i < j < |s| && i + 1 < j && j + 1 < |s| && s[i] == '@' && s[j] == '.' &&
      PlainBetween(s, 0, i) && PlainBetween(s, i + 1, j) && PlainBetween(s, j + 1, |s|);
    assert forall k :: 0 <= k < |s| && k != i && k != j ==> Plain(s[k]);
    OnlyAt(s, i);
  }

  /** An '@' at position i with none anywhere else is the only one. */
  lemma OnlyAt(s: string, i: int)
    requires 0 <= i < |s| && s[i] == '@'
    requires forall k :: 0 <= k < |s| && k != i ==> s[k] != '@'
    ensures Occurrences(s, '@') == 1
  {
    var rest := [s[i]] + s[i + 1..];
    assert s == s[..i] + rest;
    assert '@' !in s[..i];
    assert '@' !in s[i + 1..];
    OccurrencesConcat(s[..i], rest, '@');
    assert rest[1..] == s[i + 1..];
    assert Occurrences(rest, '@') == Occurrences(s[i + 1..], '@') + 1;
  }

  lemma ShapeMatchesRegex(s: string)
    requires IsEmailShape(s)
    ensures EmailRegex(s)
  {
    var i, j :| 0 < i < j < |s| - 1 && i + 1 < j && s[i] == '@' && s[j] == '.';
    SingleAt(s, i);
    assert PlainBetween(s, 0, i) && PlainBetween(s, i + 1, j) && PlainBetween(s, j + 1, |s|);
  }

  /** Strings that agree class by class agree on the expression. */
  lemma SameClassesSameMatch(s: string, t: string)
    requires |s| == |t|
    requires forall k :: 0 <= k < |s| ==> SameClass(s[k], t[k])
    ensures EmailRegex(s) == EmailRegex(t)
  {
    if EmailRegex(s) { MatchTransfers(s, t); }
    if EmailRegex(t) { MatchTransfers(t, s); }
  }

  lemma MatchTransfers(s: string, t: string)
    requires |s| == |t|
    requires forall k :: 0 <= k < |s| ==> SameClass(s[k], t[k])
    requires EmailRegex(s)
    ensures EmailRegex(t)
  {
    var i, j :| 0 < i < j < |s| && i + 1 < j && j + 1 < |s| && s[i] == '@' && s[j] == '.' &&
      PlainBetween(s, 0, i) && PlainBetween(s, i + 1, j) && PlainBetween(s, j + 1, |s|);
    assert SameClass(s[i], t[i]) && SameClass(s[j], t[j]);
    assert PlainBetween(t, 0, i) && PlainBetween(t, i + 1, j) && PlainBetween(t, j + 1, |t|);
  }

  /** Lower-casing keeps every character's class, so it does not change the match. */
  lemma LowerKeepsMatch(s: string)
    ensures EmailRegex(ToLowerCase(s)) == EmailRegex(s)
  {
    var l := ToLowerCase(s);
    forall k | 0 <= k < |s| ensures SameClass(s[k], l[k]) {
      assert l[k] == LowerChar(s[k]);
    }
    SameClassesSameMatch(s, l);
  }

  /** The answer does not depend on letter case: an upper-cased address is judged like the original. */
  lemma CaseInsensitive(s: string)
    ensures ValidateEmail(ToUpperCase(s)) == ValidateEmail(s)
  {
    var u := ToUpperCase(s);
    forall k | 0 <= k < |s| ensures SameClass(s[k], u[k]) {
      assert u[k] == UpperChar(s[k]);
    }
    SameClassesSameMatch(s, u);
    RegexIffShape(s);
    RegexIffShape(u);
  }

  /** A boundary case that passes although written in capitals. */
  lemma AcceptsCapitals()
    ensures ValidateEmail("A@B.COM")
  {
    var s := "A@B.COM";
    assert PlainBetween(s, 0, 1) && PlainBetween(s, 2, 3) && PlainBetween(s, 4, |s|);
    assert s[1] == '@' && s[3] == '.';
    RegexHasShape(s);
  }

  /** The shortest boundary case that passes: one character in each part. */
  lemma AcceptsShortest()
    ensures ValidateEmail("a@b.c")
  {
    var s := "a@b.c";
    assert PlainBetween(s, 0, 1) && PlainBetween(s, 2, 3) && PlainBetween(s, 4, |s|);
    assert s[1] == '@' && s[3] == '.';
    RegexHasShape(s);
  }

  /** An ordinary address passes. */
  lemma AcceptsOrdinary()
    ensures ValidateEmail("a@b.com")
  {
    var s := "a@b.com";
    assert PlainBetween(s, 0, 1) && PlainBetween(s, 2, 3) && PlainBetween(s, 4, |s|);
    assert s[1] == '@' && s[3] == '.';
    RegexHasShape(s);
  }

  /** The boundary cases that fail: `a@b` (no dot), `a @b.com` (a space) and `not-an-email` (no '@'). */
  lemma RejectedExamples()
    ensures !ValidateEmail("a@b")
    ensures !ValidateEmail("a @b.com")
    ensures !ValidateEmail("not-an-email")
  {
    assert IsSpace("a @b.com"[1]);
    assert '@' !in "not-an-email";
  }
}
