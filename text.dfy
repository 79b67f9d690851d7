/** String behaviour of JavaScript that the handlers rely on: the white-space class shared by the
    regular-expression escape `\s` and `String.prototype.trim`, trimming, and lower-casing. */
module Text {

  /** White space and line terminators as ECMAScript defines them. */
  predicate IsSpace(c: char) {
    c == ' ' || ('\t' <= c <= '\r')
    || c == '\U{A0}' || c == '\U{1680}' || ('\U{2000}' <= c <= '\U{200A}')
    || c == '\U{2028}' || c == '\U{2029}' || c == '\U{202F}' || c == '\U{205F}'
    || c == '\U{3000}' || c == '\U{FEFF}'
  }

  /** Every character of `s` from `lo` up to `hi` is white space. */
  predicate SpaceIn(s: string, lo: nat, hi: nat)
    requires lo <= hi <= |s|
  {
    forall i :: lo <= i < hi ==> IsSpace(s[i])
  }

  /** Every character of `s` is white space (the empty string included). */
  predicate AllSpace(s: string) {
    SpaceIn(s, 0, |s|)
  }

  /** The first position at or after `i` that does not hold white space, or the end of `s`. */
  function StartFrom(s: string, i: nat): (k: nat)
    requires i <= |s|
    ensures i <= k <= |s| && SpaceIn(s, i, k)
    ensures k == |s| || !IsSpace(s[k])
    decreases |s| - i
  {
    if i == |s| || !IsSpace(s[i]) then i else StartFrom(s, i + 1)
  }

  /** The last position at or before `j`, and after `lo`, that follows a character other than white
      space, or `lo`. */
  function EndFrom(s: string, lo: nat, j: nat): (e: nat)
    requires lo <= j <= |s|
    ensures lo <= e <= j && SpaceIn(s, e, j)
    ensures e == lo || !IsSpace(s[e - 1])
    decreases j
  {
    if j == lo || !IsSpace(s[j - 1]) then j else EndFrom(s, lo, j - 1)
  }

  /** `String.prototype.trim`: the part of `s` between its leading and its trailing white space. */
  function Trim(s: string): (r: string)
    ensures r == [] || (!IsSpace(r[0]) && !IsSpace(r[|r| - 1]))
    ensures exists k :: 0 <= k <= |s| - |r| && r == s[k..k + |r|] && SpaceIn(s, 0, k) && SpaceIn(s, k + |r|, |s|)
  {
    var k := StartFrom(s, 0);
    var e := EndFrom(s, k, |s|);
    assert s[k..e] == s[k..k + |s[k..e]|];
    s[k..e]
  }

  /** A string is truthy after trimming exactly when it holds a character that is not white space. */
  lemma {:induction false} TrimEmptyIff(s: string)
    ensures Trim(s) == [] <==> AllSpace(s)
  {
    var k := StartFrom(s, 0);
    var e := EndFrom(s, k, |s|);
    if e == k {
      assert SpaceIn(s, 0, k) && SpaceIn(s, k, |s|);
      assert AllSpace(s);
    } else {
      assert !IsSpace(s[k]);
    }
  }

  /** ASCII lower-casing of one character. */
  function LowerChar(c: char): (r: char)
    ensures 'A' <= c <= 'Z' ==> 'a' <= r <= 'z' && r as int == c as int + 32
    ensures !('A' <= c <= 'Z') ==> r == c
  {
    if 'A' <= c <= 'Z' then (c as int + 32) as char else c
  }

  /** `String.prototype.toLowerCase`, restricted to the ASCII letters. */
  function Lower(s: string): (r: string)
    ensures |r| == |s|
    ensures forall i :: 0 <= i < |s| ==> r[i] == LowerChar(s[i])
  {
    if s == [] then [] else [LowerChar(s[0])] + Lower(s[1..])
  }
}
