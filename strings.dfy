/** The part of Go's `strings` package the handler relies on: `TrimSpace`,
    which removes leading and trailing white space as `unicode.IsSpace`
    defines it. */
module Strings {

  /** Go's `unicode.IsSpace`: the ASCII white space '\t' to '\r' and ' ',
      NEL, NO-BREAK SPACE and the other characters Unicode marks White_Space. */
  predicate IsSpace(c: char) {
    c == ' ' || '\t' <= c <= '\r' || c == '\U{0085}' || c == '\U{00A0}' || c == '\U{1680}'
    || '\U{2000}' <= c <= '\U{200A}' || c == '\U{2028}' || c == '\U{2029}'
    || c == '\U{202F}' || c == '\U{205F}' || c == '\U{3000}'
  }

  /** The characters of `s` at positions `lo` up to `hi` are white space. */
  predicate SpaceBetween(s: string, lo: int, hi: int)
    requires 0 <= lo && hi <= |s|
  {
    forall k :: lo <= k < hi ==> IsSpace(s[k])
  }

  /** Every character of `s` is white space (true of the empty string). */
  predicate AllSpace(s: string) {
    SpaceBetween(s, 0, |s|)
  }

  /** `s` neither starts nor ends with white space. */
  predicate Trimmed(s: string) {
    s == [] || (!IsSpace(s[0]) && !IsSpace(s[|s| - 1]))
  }

  /** The index of the first character at or after `i` that is not white
      space, or |s| if there is none. */
  function SkipSpace(s: string, i: nat): (k: nat)
    requires i <= |s|
    ensures i <= k <= |s| && SpaceBetween(s, i, k)
    ensures k == |s| || !IsSpace(s[k])
    decreases |s| - i
  {
    if i < |s| && IsSpace(s[i]) then SkipSpace(s, i + 1) else i
  }

  /** The end of `s[lo..j]` once its trailing white space is cut off. */
  function SkipSpaceBack(s: string, lo: nat, j: nat): (e: nat)
    requires lo <= j <= |s|
    ensures lo <= e <= j && SpaceBetween(s, e, j)
    ensures e == lo || !IsSpace(s[e - 1])
  {
    if lo < j && IsSpace(s[j - 1]) then SkipSpaceBack(s, lo, j - 1) else j
  }

  /** Where `strings.TrimSpace` cuts `s`: everything before `lo` and from
      `hi` on is white space, and `s[lo..hi]` neither starts nor ends with it. */
  function TrimBounds(s: string): (b: (nat, nat))
    ensures b.0 <= b.1 <= |s|
    ensures SpaceBetween(s, 0, b.0) && SpaceBetween(s, b.1, |s|)
    ensures b.0 < b.1 ==> !IsSpace(s[b.0]) && !IsSpace(s[b.1 - 1])
  {
    var lo := SkipSpace(s, 0);
    (lo, SkipSpaceBack(s, lo, |s|))
  }

  /** `strings.TrimSpace`: the piece of `s` left when the white space at
      both ends is cut off, which neither starts nor ends with white space. */
  function TrimSpace(s: string): (r: string)
    ensures Trimmed(r) && |r| <= |s|
  {
    var b := TrimBounds(s);
    s[b.0..b.1]
  }

  /** The trailing white space of `s` cut off, as when `s` follows a
      non-space character in a path. */
  function TrimRight(s: string): (r: string)
    ensures r == [] || !IsSpace(r[|r| - 1])
    ensures |r| <= |s| && r == s[..|r|] && SpaceBetween(s, |r|, |s|)
  {
    s[..SkipSpaceBack(s, 0, |s|)]
  }

  /** SkipSpace stops at the first non-space character and nowhere else. */
  lemma SkipSpaceStopsAt(s: string, i: nat, k: nat)
    requires i <= k <= |s| && SpaceBetween(s, i, k)
    requires k == |s| || !IsSpace(s[k])
    ensures SkipSpace(s, i) == k
  {
  }

  /** SkipSpaceBack stops after the last non-space character and nowhere else. */
  lemma SkipSpaceBackStopsAt(s: string, lo: nat, j: nat, e: nat)
    requires lo <= e <= j <= |s| && SpaceBetween(s, e, j)
    requires e == lo || !IsSpace(s[e - 1])
    ensures SkipSpaceBack(s, lo, j) == e
  {
  }

  /** The converse of TrimSpace's contract: cutting white space `p` and `q`
      off the two ends of a string `t` that is already trimmed gives back
      `t`, so TrimSpace cuts off exactly the white space at the two ends. */
  lemma TrimSpaceUnique(p: string, t: string, q: string)
    requires AllSpace(p) && AllSpace(q) && Trimmed(t)
    ensures TrimSpace(p + t + q) == t
  {
    var s := p + t + q;
    var lo, hi := |p|, |p| + |t|;
    assert forall k :: 0 <= k < lo ==> s[k] == p[k];
    assert forall k :: lo <= k < hi ==> s[k] == t[k - lo];
    assert forall k :: hi <= k < |s| ==> s[k] == q[k - hi];
    if t == [] {
      SkipSpaceStopsAt(s, 0, |s|);
      SkipSpaceBackStopsAt(s, |s|, |s|, |s|);
    } else {
      SkipSpaceStopsAt(s, 0, lo);
      SkipSpaceBackStopsAt(s, lo, |s|, hi);
      assert s[lo..hi] == t;
    }
  }
}
