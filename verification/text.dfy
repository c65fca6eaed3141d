/**
 The string primitives both front-ends rely on, stated the way Python
 evaluates them: `str.strip()` with no argument, the substring test
 `needle in haystack`, and `str.lower()` restricted to ASCII letters.
 */
module Text {

  /** Python's `str.isspace()` set: every code point `str.strip()` removes. */
  predicate IsWhitespace(c: char) {
    || ('\t' <= c <= '\r')                 // tab, line feed, vertical tab, form feed, carriage return
    || ('\U{1C}' <= c <= '\U{1F}')         // file, group, record and unit separators
    || c == ' '
    || c == '\U{85}' || c == '\U{A0}' || c == '\U{1680}'
    || ('\U{2000}' <= c <= '\U{200A}')
    || c == '\U{2028}' || c == '\U{2029}' || c == '\U{202F}' || c == '\U{205F}'
    || c == '\U{3000}'
  }

  predicate AllWhitespace(s: string) {
    forall i :: 0 <= i < |s| ==> IsWhitespace(s[i])
  }

  /** Index of the first non-whitespace character at or after `i`, or |s| when there is none. */
  function SkipForward(s: string, i: nat): (k: nat)
    requires i <= |s|
    ensures i <= k <= |s|
    ensures forall j :: i <= j < k ==> IsWhitespace(s[j])
    ensures k < |s| ==> !IsWhitespace(s[k])
    decreases |s| - i
  {
    if i == |s| || !IsWhitespace(s[i]) then i else SkipForward(s, i + 1)
  }

  /** One past the last non-whitespace character before `k`, or 0 when there is none. */
  function SkipBackward(s: string, k: nat): (e: nat)
    requires k <= |s|
    ensures e <= k
    ensures forall j :: e <= j < k ==> IsWhitespace(s[j])
    ensures e > 0 ==> !IsWhitespace(s[e - 1])
  {
    if k == 0 || !IsWhitespace(s[k - 1]) then k else SkipBackward(s, k - 1)
  }

  /** `r` is what remains of `s` after cutting whitespace-only runs off both ends. */
  ghost predicate TrimmedAt(s: string, r: string, k: int) {
    && 0 <= k && k + |r| <= |s|
    && s[k..k + |r|] == r
    && (forall i :: 0 <= i < k ==> IsWhitespace(s[i]))
    && (forall i :: k + |r| <= i < |s| ==> IsWhitespace(s[i]))
  }

  /** Neither end of `r` is whitespace (vacuous for the empty string). */
  predicate Tight(r: string) {
    |r| > 0 ==> !IsWhitespace(r[0]) && !IsWhitespace(r[|r| - 1])
  }

  /** Python's `s.strip()`. */
  function Strip(s: string): (r: string)
    ensures Tight(r)
    ensures |r| == 0 <==> AllWhitespace(s)
  {
    var a := SkipForward(s, 0);
    var b := SkipBackward(s, |s|);
    if a == |s| then []
    else
      assert a < b;
      s[a..b]
  }

  /** What Strip returns is `s` with whitespace-only runs cut off both ends. */
  lemma StripTrims(s: string)
    ensures exists k :: TrimmedAt(s, Strip(s), k)
  {
    var a := SkipForward(s, 0);
    if a == |s| {
      assert Strip(s) == [];
      assert TrimmedAt(s, [], |s|);
    } else {
      assert Strip(s) == s[a..SkipBackward(s, |s|)];
      assert TrimmedAt(s, Strip(s), a);
    }
  }

  /** Strip is the ONLY tight trimming of `s`: any other description of
      "s without its surrounding whitespace" denotes the same string. */
  lemma StripUnique(s: string, r: string, k: int)
    requires Tight(r)
    requires TrimmedAt(s, r, k)
    ensures r == Strip(s)
  {
  }

  /** A string with no whitespace at either end is left unchanged. */
  lemma StripTight(s: string)
    requires Tight(s)
    ensures Strip(s) == s
  {
  }

  lemma StripIdempotent(s: string)
    ensures Strip(Strip(s)) == Strip(s)
  {
  }

  /** `t` occurs in `s` starting at index `i`. */
  ghost predicate OccursAt(s: string, t: string, i: int) {
    0 <= i && i + |t| <= |s| && s[i..i + |t|] == t
  }

  /** Python's `t in s` for strings. */
  function Contains(s: string, t: string): (r: bool)
    ensures r <==> exists i :: OccursAt(s, t, i)
  {
    ContainsFrom(s, t, 0)
  }

  /** `t` occurs in `s` at index `i` or later. */
  function ContainsFrom(s: string, t: string, i: nat): (r: bool)
    ensures r <==> exists j :: i <= j && OccursAt(s, t, j)
    decreases |s| - i
  {
    if i + |t| > |s| then false
    else if s[i..i + |t|] == t then
      assert OccursAt(s, t, i);
      true
    else
      var r := ContainsFrom(s, t, i + 1);
      assert forall j :: i <= j && OccursAt(s, t, j) ==> i + 1 <= j;
      r
  }

  /** A string contains every piece it is built from. */
  lemma ContainsMiddle(a: string, t: string, b: string)
    ensures Contains(a + t + b, t)
  {
    assert OccursAt(a + t + b, t, |a|);
  }

  /** `s.startswith(prefix)`. */
  predicate StartsWith(s: string, prefix: string) {
    |prefix| <= |s| && s[..|prefix|] == prefix
  }

  /** A string in which the first letter of `t` never appears cannot contain `t`. */
  lemma MissingFirstLetter(s: string, t: string)
    requires |t| > 0 && t[0] !in s
    ensures !Contains(s, t)
  {
  }

  /** ASCII-only version of Python's `str.lower()`, one character. */
  function LowerChar(c: char): (d: char)
    ensures 'A' <= c <= 'Z' ==> 'a' <= d <= 'z' && d as int - c as int == 32
    ensures !('A' <= c <= 'Z') ==> d == c
  {
    if 'A' <= c <= 'Z' then (c as int + 32) as char else c
  }

  /** ASCII-only version of Python's `str.lower()`. */
  function Lower(s: string): (r: string)
    ensures |r| == |s|
    ensures forall i :: 0 <= i < |s| ==> r[i] == LowerChar(s[i])
  {
    seq(|s|, i requires 0 <= i < |s| => LowerChar(s[i]))
  }

  /** Lower-casing twice changes nothing more, and lower-case text is a fixed point. */
  lemma LowerIdempotent(s: string)
    ensures Lower(Lower(s)) == Lower(s)
    ensures (forall i :: 0 <= i < |s| ==> !('A' <= s[i] <= 'Z')) ==> Lower(s) == s
  {
  }
}
