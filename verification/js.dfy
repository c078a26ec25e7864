/**
 The JavaScript value shapes that the add-in and its server rely on:
 values that may be null or undefined, awaited calls that either settle with a
 value or throw, JavaScript truthiness of strings, and the two string
 operations the code applies to file names and shortcut contents
 (`endsWith` and `trim`).
 */
module Js {

  /** A value that may be null or undefined. The code never distinguishes the
      two for names, ids and query parameters, so one `None` stands for both. */
  datatype Option<+T> = None | Some(value: T)

  /** How an awaited call settles: it throws, or it returns a value. */
  datatype Call<+T> = Throws | Returns(value: T)

  /** `s || ''` for a string that may be null or undefined. */
  function OrEmpty(s: Option<string>): string {
    if s.Some? then s.value else ""
  }

  /** JavaScript truthiness of a possibly missing string: present and non-empty. */
  predicate Truthy(s: Option<string>) {
    s.Some? && s.value != ""
  }

  /** `s.endsWith(suffix)`: a case-sensitive comparison of the last characters. */
  predicate EndsWith(s: string, suffix: string) {
    |suffix| <= |s| && s[|s| - |suffix|..] == suffix
  }

  /** The LineTerminator characters of ECMA-262: `.` in a regular expression
      never matches one of them. */
  predicate IsLineTerminator(c: char) {
    c == '\n' || c == '\r' || c == '\U{2028}' || c == '\U{2029}'
  }

  /** The WhiteSpace characters of ECMA-262: tab, vertical tab, form feed,
      the byte order mark and every space separator (category Zs). */
  predicate IsWhiteSpace(c: char) {
    || c == '\t' || c == '\U{000B}' || c == '\U{000C}' || c == '\U{FEFF}'
    || c == ' ' || c == '\U{00A0}' || c == '\U{1680}'
    || ('\U{2000}' <= c <= '\U{200A}')
    || c == '\U{202F}' || c == '\U{205F}' || c == '\U{3000}'
  }

  /** What `String.prototype.trim` removes from both ends. */
  predicate IsTrimmable(c: char) {
    IsWhiteSpace(c) || IsLineTerminator(c)
  }

  predicate AllTrimmable(s: string) {
    forall k :: 0 <= k < |s| ==> IsTrimmable(s[k])
  }

  /** Every character of `s` outside the index range [a, b) is trimmable. */
  predicate TrimmableOutside(s: string, a: int, b: int) {
    && (forall k :: 0 <= k < a && k < |s| ==> IsTrimmable(s[k]))
    && (forall k :: 0 <= b <= k < |s| ==> IsTrimmable(s[k]))
  }

  /** A string `trim` leaves alone: empty, or neither end is trimmable. */
  predicate IsTrimmed(s: string) {
    |s| == 0 || (!IsTrimmable(s[0]) && !IsTrimmable(s[|s| - 1]))
  }

  predicate NoLineTerminator(s: string) {
    forall k :: 0 <= k < |s| ==> !IsLineTerminator(s[k])
  }

  /** Where `trim` starts keeping characters: the first index at or after `i`
      that is not trimmable, or the end of `s`. */
  function KeepFrom(s: string, i: nat): (r: nat)
    requires i <= |s|
    ensures i <= r <= |s|
    ensures forall k :: i <= k < r ==> IsTrimmable(s[k])
    ensures r < |s| ==> !IsTrimmable(s[r])
    decreases |s| - i
  {
    if i == |s| || !IsTrimmable(s[i]) then i else KeepFrom(s, i + 1)
  }

  /** Where `trim` stops keeping characters: the least index `r` not below
      `lo` such that everything from `r` up to `j` is trimmable. */
  function KeepUntil(s: string, lo: nat, j: nat): (r: nat)
    requires lo <= j <= |s|
    ensures lo <= r <= j
    ensures forall k :: r <= k < j ==> IsTrimmable(s[k])
    ensures r > lo ==> !IsTrimmable(s[r - 1])
    decreases j - lo
  {
    if j == lo || !IsTrimmable(s[j - 1]) then j else KeepUntil(s, lo, j - 1)
  }

  /** `String.prototype.trim`: a contiguous piece of `s` with trimmable
      characters only on either side of it and none at its own ends. */
  function Trim(s: string): (r: string)
    ensures IsTrimmed(r)
    ensures exists a :: IsPieceAt(s, a, r)
  {
    var a := KeepFrom(s, 0);
    var b := KeepUntil(s, a, |s|);
    assert IsPieceAt(s, a, s[a..b]);
    s[a..b]
  }

  /** `r` occurs in `s` at index `a`, and only trimmable characters surround it. */
  predicate IsPieceAt(s: string, a: int, r: string) {
    0 <= a <= |s| - |r| && r == s[a..a + |r|] && TrimmableOutside(s, a, a + |r|)
  }

  /** `KeepFrom` is the first index that is not trimmable. */
  lemma {:induction false} KeepFromAt(s: string, i: nat, e: nat)
    requires i <= e <= |s|
    requires forall k :: i <= k < e ==> IsTrimmable(s[k])
    requires e == |s| || !IsTrimmable(s[e])
    ensures KeepFrom(s, i) == e
    decreases e - i
  {
    if i < e {
      KeepFromAt(s, i + 1, e);
    }
  }

  /** `KeepUntil` is the end of the last character that is not trimmable. */
  lemma {:induction false} KeepUntilAt(s: string, lo: nat, j: nat, e: nat)
    requires lo <= e <= j <= |s|
    requires forall k :: e <= k < j ==> IsTrimmable(s[k])
    requires e == lo || !IsTrimmable(s[e - 1])
    ensures KeepUntil(s, lo, j) == e
    decreases j - e
  {
    if e < j {
      KeepUntilAt(s, lo, j - 1, e);
    }
  }

  /** Trim is determined by the decomposition: whatever is surrounded by
      trimmable characters and has no trimmable ends is what trim returns. */
  lemma TrimOfPadded(p: string, m: string, q: string)
    requires AllTrimmable(p) && AllTrimmable(q) && IsTrimmed(m)
    ensures Trim(p + m + q) == m
  {
    if |m| == 0 {
      TrimOfBlank(p, q);
      assert p + m + q == p + q;
    } else {
      TrimOfPaddedText(p, m, q);
    }
  }

  lemma TrimOfBlank(p: string, q: string)
    requires AllTrimmable(p) && AllTrimmable(q)
    ensures Trim(p + q) == ""
  {
    var s := p + q;
    TrimmableConcat(p, q);
    KeepFromAt(s, 0, |s|);
    KeepUntilAt(s, |s|, |s|, |s|);
  }

  lemma TrimOfPaddedText(p: string, m: string, q: string)
    requires AllTrimmable(p) && AllTrimmable(q) && |m| > 0 && IsTrimmed(m)
    ensures Trim(p + m + q) == m
  {
    var s := p + m + q;
    var a, b := |p|, |p| + |m|;
    PaddedIndices(p, m, q);
    KeepFromAt(s, 0, a);
    KeepUntilAt(s, a, |s|, b);
    assert s[a..b] == m;
  }

  /** What the characters of `p + m + q` are, by part. */
  lemma PaddedIndices(p: string, m: string, q: string)
    requires AllTrimmable(p) && AllTrimmable(q) && |m| > 0 && IsTrimmed(m)
    ensures var s := p + m + q;
      && (forall k :: 0 <= k < |p| ==> IsTrimmable(s[k]))
      && !IsTrimmable(s[|p|]) && !IsTrimmable(s[|p| + |m| - 1])
      && (forall k :: |p| + |m| <= k < |s| ==> IsTrimmable(s[k]))
  {
    var s := p + m + q;
    assert s[|p|] == m[0] && s[|p| + |m| - 1] == m[|m| - 1];
    forall k | 0 <= k < |p|
      ensures IsTrimmable(s[k])
    {
      assert s[k] == p[k];
    }
    forall k | |p| + |m| <= k < |s|
      ensures IsTrimmable(s[k])
    {
      assert s[k] == q[k - |p| - |m|];
    }
  }

  lemma TrimmableConcat(p: string, q: string)
    requires AllTrimmable(p) && AllTrimmable(q)
    ensures AllTrimmable(p + q)
  {
    forall k | 0 <= k < |p + q|
      ensures IsTrimmable((p + q)[k])
    {
      if k < |p| {
        assert (p + q)[k] == p[k];
      } else {
        assert (p + q)[k] == q[k - |p|];
      }
    }
  }

  /** `trim` of a one-line text is one line. */
  lemma TrimKeepsOneLine(s: string)
    requires NoLineTerminator(s)
    ensures NoLineTerminator(Trim(s))
  {
    var r := Trim(s);
    var a :| IsPieceAt(s, a, r);
    SliceKeepsOneLine(s, a, r);
  }

  lemma SliceKeepsOneLine(s: string, a: int, r: string)
    requires NoLineTerminator(s) && IsPieceAt(s, a, r)
    ensures NoLineTerminator(r)
  {
    forall k | 0 <= k < |r|
      ensures !IsLineTerminator(r[k])
    {
      assert r[k] == s[a + k];
    }
  }
}
