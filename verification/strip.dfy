/**
 Python's `str.strip()` with no argument: removes leading and trailing
 whitespace, where whitespace is the fixed set of characters for which
 Python's `str.isspace()` holds.
 */
module Whitespace {

  /** The characters Python classifies as whitespace: the bidirectional
      classes WS, B and S plus the space separators (category Zs). */
  predicate IsSpace(c: char)
  {
    || ('\t' <= c <= '\r')
    || ('\U{1C}' <= c <= '\U{1F}')
    || c == ' '
    || c == '\U{85}'
    || c == '\U{A0}'
    || c == '\U{1680}'
    || ('\U{2000}' <= c <= '\U{200A}')
    || c == '\U{2028}'
    || c == '\U{2029}'
    || c == '\U{202F}'
    || c == '\U{205F}'
    || c == '\U{3000}'
  }

  /** Every character of `s` is whitespace (vacuously so for ""). */
  predicate Blank(s: string)
  {
    forall k :: 0 <= k < |s| ==> IsSpace(s[k])
  }

  /** No whitespace at either end. */
  predicate Trimmed(s: string)
  {
    s == [] || (!IsSpace(s[0]) && !IsSpace(s[|s| - 1]))
  }

  /** The index of the first non-whitespace character of `s` at or after
      `i`, or `|s|` if there is none. */
  function SkipForward(s: string, i: nat): (j: nat)
    requires i <= |s|
    ensures i <= j <= |s|
    ensures forall k :: i <= k < j ==> IsSpace(s[k])
    ensures j < |s| ==> !IsSpace(s[j])
    decreases |s| - i
  {
    if i < |s| && IsSpace(s[i]) then SkipForward(s, i + 1) else i
  }

  /** The index just past the last non-whitespace character of `s` in
      `[lo, j)`, or `lo` if there is none. */
  function SkipBackward(s: string, lo: nat, j: nat): (e: nat)
    requires lo <= j <= |s|
    ensures lo <= e <= j
    ensures forall k :: e <= k < j ==> IsSpace(s[k])
    ensures e > lo ==> !IsSpace(s[e - 1])
    decreases j
  {
    if j > lo && IsSpace(s[j - 1]) then SkipBackward(s, lo, j - 1) else j
  }

  /** `s.strip()`: no whitespace is left at either end, and the result is
      empty exactly when `s` is blank. */
  function Strip(s: string): (r: string)
    ensures |r| <= |s|
    ensures Trimmed(r)
    ensures r == [] <==> Blank(s)
  {
    var lo := SkipForward(s, 0);
    var hi := SkipBackward(s, lo, |s|);
    s[lo..hi]
  }

  /** `s.strip()` only cuts off whitespace: `s` is the stripped text with a
      blank prefix and a blank suffix around it. */
  lemma StripDecompose(s: string) returns (a: string, b: string)
    ensures Blank(a) && Blank(b)
    ensures s == a + Strip(s) + b
  {
    var lo := SkipForward(s, 0);
    var hi := SkipBackward(s, lo, |s|);
    a, b := s[..lo], s[hi..];
    forall k | 0 <= k < |a| ensures IsSpace(a[k]) {
      assert a[k] == s[k];
    }
    forall k | 0 <= k < |b| ensures IsSpace(b[k]) {
      assert b[k] == s[hi + k];
    }
    SplitThree(s, lo, hi);
  }

  lemma SplitThree(s: string, lo: nat, hi: nat)
    requires lo <= hi <= |s|
    ensures s == s[..lo] + s[lo..hi] + s[hi..]
  {
    assert s[..lo] + s[lo..hi] == s[..hi];
  }

  /** Skipping forward from `i` stops at `j` when `[i, j)` is whitespace and
      `s[j]` is not (or `j` is the end). */
  lemma SkipForwardStops(s: string, i: nat, j: nat)
    requires i <= j <= |s|
    requires forall k :: i <= k < j ==> IsSpace(s[k])
    requires j < |s| ==> !IsSpace(s[j])
    ensures SkipForward(s, i) == j
  {
  }

  /** Skipping backward from `j` stops at `e` when `[e, j)` is whitespace
      and `s[e - 1]` is not (or `e` is `lo`). */
  lemma SkipBackwardStops(s: string, lo: nat, e: nat, j: nat)
    requires lo <= e <= j <= |s|
    requires forall k :: e <= k < j ==> IsSpace(s[k])
    requires e > lo ==> !IsSpace(s[e - 1])
    ensures SkipBackward(s, lo, j) == e
  {
  }

  /** Stripping is determined by what it promises: if `s` is `a + m + b`
      with `a` and `b` blank and `m` trimmed, then `s.strip()` is `m`. */
  lemma StripUnique(a: string, m: string, b: string)
    requires Blank(a) && Blank(b) && Trimmed(m)
    ensures Strip(a + m + b) == m
  {
    var s := a + m + b;
    assert forall k :: 0 <= k < |a| ==> s[k] == a[k];
    assert forall k :: 0 <= k < |m| ==> s[|a| + k] == m[k];
    assert forall k :: 0 <= k < |b| ==> s[|a| + |m| + k] == b[k];
    if m == [] {
      assert Blank(s) by {
        forall k | 0 <= k < |s| ensures IsSpace(s[k]) {
          if k >= |a| { assert s[k] == b[k - |a|]; }
        }
      }
    } else {
      var hi := |a| + |m|;
      SkipForwardStops(s, 0, |a|);
      forall k | hi <= k < |s| ensures IsSpace(s[k]) {
        assert s[k] == b[k - hi];
      }
      SkipBackwardStops(s, |a|, hi, |s|);
      assert s[|a|..hi] == m;
    }
  }

  /** `strip` is idempotent. */
  lemma StripIdempotent(s: string)
    ensures Strip(Strip(s)) == Strip(s)
  {
    var m := Strip(s);
    StripUnique([], m, []);
    assert [] + m + [] == m;
  }
}
