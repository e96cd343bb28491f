/** `String.prototype.trim`: remove leading and trailing white space, where
    white space is the ECMAScript WhiteSpace and LineTerminator code points
    (ECMA-262, sections 12.2 and 12.3). */
module Text {

  predicate IsWhiteSpace(c: char)
  {
    || c == '\t' || c == '\n' || c == '\U{000B}' || c == '\U{000C}' || c == '\r' || c == ' '
    || c == '\U{00A0}' || c == '\U{1680}'
    || ('\U{2000}' <= c <= '\U{200A}')
    || c == '\U{2028}' || c == '\U{2029}' || c == '\U{202F}' || c == '\U{205F}'
    || c == '\U{3000}' || c == '\U{FEFF}'
  }

  /** Every character of `s[i..j]` is white space. */
  predicate BlankBetween(s: string, i: int, j: int)
  {
    forall k :: i <= k < j && 0 <= k < |s| ==> IsWhiteSpace(s[k])
  }

  /** Every character is white space (the empty string included). */
  predicate Blank(s: string)
  {
    BlankBetween(s, 0, |s|)
  }

  /** Where `trimStart` stops when scanning from `i`: the first position at
      or after `i` that is not white space. */
  function TrimStartIndex(s: string, i: nat): (p: nat)
    requires i <= |s|
    ensures i <= p <= |s|
    ensures BlankBetween(s, i, p)
    ensures p == |s| || !IsWhiteSpace(s[p])
    decreases |s| - i
  {
    if i == |s| || !IsWhiteSpace(s[i]) then i else TrimStartIndex(s, i + 1)
  }

  /** Where `trimEnd` stops when scanning down from `j` but not below `lo`:
      the end of the last character in `s[lo..j]` that is not white space. */
  function TrimEndIndex(s: string, lo: nat, j: nat): (q: nat)
    requires lo <= j <= |s|
    ensures lo <= q <= j
    ensures BlankBetween(s, q, j)
    ensures q == lo || !IsWhiteSpace(s[q - 1])
    decreases j
  {
    if j == lo || !IsWhiteSpace(s[j - 1]) then j else TrimEndIndex(s, lo, j - 1)
  }

  /** Both ends trimmed: `s` is blank prefix, then `r`, then blank suffix,
      and `r` neither starts nor ends with white space. */
  function Trim(s: string): (r: string)
    ensures exists p :: 0 <= p && p + |r| <= |s| && r == s[p..p + |r|] && BlankBetween(s, 0, p) && BlankBetween(s, p + |r|, |s|)
    ensures r == [] || (!IsWhiteSpace(r[0]) && !IsWhiteSpace(r[|r| - 1]))
  {
    var p := TrimStartIndex(s, 0);
    var q := TrimEndIndex(s, p, |s|);
    assert q > p ==> s[p..q][0] == s[p] && s[p..q][q - p - 1] == s[q - 1];
    s[p..q]
  }

  /** Trimming leaves nothing exactly when the string is blank: `trim()` is
      falsy iff there is no visible character. */
  lemma TrimEmptyIffBlank(s: string)
    ensures Trim(s) == [] <==> Blank(s)
  {
    var p := TrimStartIndex(s, 0);
    var q := TrimEndIndex(s, p, |s|);
    assert Trim(s) == s[p..q];
    if Blank(s) {
      assert p == |s|;
    }
  }
}
