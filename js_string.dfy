/** The parts of JavaScript's string semantics that the normaliser and the
    handler rely on: `String.prototype.trim`, and the character classes that
    the normaliser's regular expressions test (`\d`, and ASCII letters under
    the `i` flag). */
module JsString {

  /** WhiteSpace and LineTerminator code points of ECMAScript (sections 12.2
      and 12.3 of ECMA-262), which is exactly what `trim` removes. */
  predicate IsWhitespace(c: char) {
    || ('\U{0009}' <= c <= '\U{000D}')
    || c == ' '
    || c == '\U{00A0}'
    || c == '\U{1680}'
    || ('\U{2000}' <= c <= '\U{200A}')
    || c == '\U{2028}'
    || c == '\U{2029}'
    || c == '\U{202F}'
    || c == '\U{205F}'
    || c == '\U{3000}'
    || c == '\U{FEFF}'
  }

  predicate NoWhitespace(s: string) {
    forall k :: 0 <= k < |s| ==> !IsWhitespace(s[k])
  }

  predicate EndsWithWhitespace(s: string) {
    |s| > 0 && IsWhitespace(s[|s| - 1])
  }

  /** `\d` of a regular expression without the `u` flag: an ASCII digit. */
  predicate IsDigit(c: char) {
    '0' <= c <= '9'
  }

  /** The index of the first non-whitespace character of `s` at or after
      `i`, or `|s|` when there is none. */
  function SkipWhitespace(s: string, i: nat): (k: nat)
    requires i <= |s|
    ensures i <= k <= |s|
    ensures k == |s| || !IsWhitespace(s[k])
    decreases |s| - i
  {
    if i < |s| && IsWhitespace(s[i]) then SkipWhitespace(s, i + 1) else i
  }

  /** The end of `s[lo..j]` once its trailing whitespace is removed. */
  function SkipWhitespaceBack(s: string, lo: nat, j: nat): (k: nat)
    requires lo <= j <= |s|
    ensures lo <= k <= j
    ensures k == lo || !IsWhitespace(s[k - 1])
    decreases j
  {
    if lo < j && IsWhitespace(s[j - 1]) then SkipWhitespaceBack(s, lo, j - 1) else j
  }

  /** `String.prototype.trim`: a slice of `s` that neither starts nor ends
      with whitespace. */
  function Trim(s: string): (r: string)
    ensures |r| <= |s|
    ensures r == [] || (!IsWhitespace(r[0]) && !IsWhitespace(r[|r| - 1]))
  {
    var lo := SkipWhitespace(s, 0);
    s[lo..SkipWhitespaceBack(s, lo, |s|)]
  }

  /** Everything `SkipWhitespace` passes over is whitespace. */
  lemma {:induction false} SkipWhitespaceSkipsOnlyWhitespace(s: string, i: nat)
    requires i <= |s|
    ensures forall k :: i <= k < SkipWhitespace(s, i) ==> IsWhitespace(s[k])
    decreases |s| - i
  {
    if i < |s| && IsWhitespace(s[i]) {
      SkipWhitespaceSkipsOnlyWhitespace(s, i + 1);
    }
  }

  /** Everything `SkipWhitespaceBack` passes over is whitespace. */
  lemma {:induction false} SkipWhitespaceBackSkipsOnlyWhitespace(s: string, lo: nat, j: nat)
    requires lo <= j <= |s|
    ensures forall k :: SkipWhitespaceBack(s, lo, j) <= k < j ==> IsWhitespace(s[k])
    decreases j
  {
    if lo < j && IsWhitespace(s[j - 1]) {
      SkipWhitespaceBackSkipsOnlyWhitespace(s, lo, j - 1);
    }
  }

  /** `trim` removes whitespace at the two ends and nothing else: its result
      is the slice of `s` between a leading and a trailing run of
      whitespace. Together with `Trim`'s own contract, which says the slice
      neither starts nor ends with whitespace, this pins the result down. */
  lemma TrimRemovesOnlyEdgeWhitespace(s: string)
    ensures exists lo, hi ::
              && 0 <= lo <= hi <= |s| && Trim(s) == s[lo..hi]
              && (forall k :: 0 <= k < lo ==> IsWhitespace(s[k]))
              && (forall k :: hi <= k < |s| ==> IsWhitespace(s[k]))
  {
    var lo := SkipWhitespace(s, 0);
    var hi := SkipWhitespaceBack(s, lo, |s|);
    SkipWhitespaceSkipsOnlyWhitespace(s, 0);
    SkipWhitespaceBackSkipsOnlyWhitespace(s, lo, |s|);
    assert Trim(s) == s[lo..hi];
  }

  /** `trim` yields the empty string exactly when its input is all
      whitespace. */
  lemma TrimEmptyIff(s: string)
    ensures Trim(s) == [] <==> forall k :: 0 <= k < |s| ==> IsWhitespace(s[k])
  {
    var lo := SkipWhitespace(s, 0);
    SkipWhitespaceSkipsOnlyWhitespace(s, 0);
    SkipWhitespaceBackSkipsOnlyWhitespace(s, lo, |s|);
  }

  /** A string with no whitespace at either end is its own trim. */
  lemma TrimIdentity(s: string)
    requires s == [] || (!IsWhitespace(s[0]) && !IsWhitespace(s[|s| - 1]))
    ensures Trim(s) == s
  {
    if s != [] {
      assert SkipWhitespace(s, 0) == 0;
      assert SkipWhitespaceBack(s, 0, |s|) == |s|;
      assert s[0..|s|] == s;
    }
  }

  /** Trimming a string that ends in whitespace makes it strictly shorter. */
  lemma TrimShortens(s: string)
    requires EndsWithWhitespace(s)
    ensures |Trim(s)| < |s|
  {
  }

  /** Trimming a string padded with one whitespace character on the right
      gives back the unpadded string when that one has no whitespace at its
      ends. */
  lemma TrimOfPadded(s: string, c: char)
    requires s != [] && !IsWhitespace(s[0]) && !IsWhitespace(s[|s| - 1])
    requires IsWhitespace(c)
    ensures Trim(s + [c]) == s
  {
    var p := s + [c];
    assert p[0] == s[0];
    assert SkipWhitespace(p, 0) == 0;
    assert p[|p| - 2] == s[|s| - 1];
    assert SkipWhitespaceBack(p, 0, |p|) == SkipWhitespaceBack(p, 0, |s|) == |s|;
    assert p[0..|s|] == s;
  }
}
