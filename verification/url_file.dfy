/**
 Reading the target out of a `.url` shortcut file: the server runs
 `content.match(/URL=(.*)/i)` over the downloaded text and trims the capture.
 The match is not anchored to a line start and the key is matched without
 regard to case; `.` stops at the first line terminator.
 */
module UrlFile {
  import opened Js

  const KeyLength := 4

  /** The key `URL=` starts at index `i` of `s`. Without the `u` flag the
      `i` flag folds case with `toUpperCase` and never maps a non-ASCII
      character onto an ASCII one, so the letters match only their own two
      ASCII cases. */
  predicate KeyAt(s: string, i: int) {
    && 0 <= i && i + KeyLength <= |s|
    && (s[i] == 'U' || s[i] == 'u')
    && (s[i + 1] == 'R' || s[i + 1] == 'r')
    && (s[i + 2] == 'L' || s[i + 2] == 'l')
    && s[i + 3] == '='
  }

  /** The regular expression finds no match anywhere in `s`. */
  predicate NoKey(s: string) {
    forall i :: 0 <= i < |s| ==> !KeyAt(s, i)
  }

  /** The leftmost occurrence of the key at or after `from`. */
  function FirstKey(s: string, from: nat): (r: Option<nat>)
    ensures r.Some? ==> from <= r.value && KeyAt(s, r.value)
    ensures r.Some? ==> forall j :: from <= j < r.value ==> !KeyAt(s, j)
    ensures r.None? ==> forall j :: from <= j < |s| ==> !KeyAt(s, j)
    decreases |s| - from
  {
    if |s| < from + KeyLength then None
    else if KeyAt(s, from) then Some(from)
    else FirstKey(s, from + 1)
  }

  /** How far `.*` reaches from `from`: up to the first line terminator, or the end. */
  function LineEnd(s: string, from: nat): (r: nat)
    requires from <= |s|
    ensures from <= r <= |s|
    ensures forall k :: from <= k < r ==> !IsLineTerminator(s[k])
    ensures r < |s| ==> IsLineTerminator(s[r])
    decreases |s| - from
  {
    if from == |s| || IsLineTerminator(s[from]) then from else LineEnd(s, from + 1)
  }

  /** The first capture group of `s.match(/URL=(.*)/i)`; `None` when the match is null. */
  function MatchUrlLine(s: string): (r: Option<string>)
    ensures r.None? <==> NoKey(s)
    ensures r.Some? ==> NoLineTerminator(r.value)
    ensures r.Some? ==> exists i :: CaptureAt(s, i, r.value)
  {
    match FirstKey(s, 0)
    case None => None
    case Some(i) =>
      var g := s[i + KeyLength..LineEnd(s, i + KeyLength)];
      assert CaptureAt(s, i, g);
      Some(g)
  }

  /** `g` is what `.*` captures after a key at `i`: the rest of that line. */
  predicate CaptureAt(s: string, i: int, g: string) {
    && KeyAt(s, i)
    && i + KeyLength + |g| <= |s|
    && g == s[i + KeyLength..i + KeyLength + |g|]
    && (i + KeyLength + |g| == |s| || IsLineTerminator(s[i + KeyLength + |g|]))
  }

  /** What `ResolveShortcut` keeps from a downloaded text that `match` could
      be called on: the trimmed capture, or `''` when there is no `URL=` line. */
  function ShortcutTarget(content: string): (r: string)
    ensures NoKey(content) ==> r == ""
    ensures IsTrimmed(r) && NoLineTerminator(r)
  {
    match MatchUrlLine(content)
    case None => ""
    case Some(g) =>
      TrimKeepsOneLine(g);
      Trim(g)
  }

  /** A key written right after text that holds none is the match, and the
      capture runs to the end of its line. The prefix cannot end in part of
      a key that the written key completes: only the last key character is `=`. */
  lemma {:induction false} MatchAfterPrefix(prefix: string, key: string, line: string, rest: string)
    requires NoKey(prefix)
    requires |key| == KeyLength && KeyAt(key, 0)
    requires NoLineTerminator(line)
    requires |rest| == 0 || IsLineTerminator(rest[0])
    ensures MatchUrlLine(prefix + key + line + rest) == Some(line)
    ensures ShortcutTarget(prefix + key + line + rest) == Trim(line)
  {
    var s := prefix + key + line + rest;
    var p := |prefix|;
    NoKeyBeforeWritten(prefix, key, line + rest);
    assert s == prefix + key + (line + rest);
    assert KeyAt(s, p) by {
      assert s[p..p + KeyLength] == key;
    }
    FirstKeyAt(s, 0, p);
    LineEndAfterKey(prefix + key, line, rest);
    assert s[p + KeyLength..p + KeyLength + |line|] == line;
  }

  /** `FirstKey` finds a key that no earlier key precedes. */
  lemma {:induction false} FirstKeyAt(s: string, from: nat, e: nat)
    requires from <= e && KeyAt(s, e)
    requires forall j :: from <= j < e ==> !KeyAt(s, j)
    ensures FirstKey(s, from) == Some(e)
    decreases e - from
  {
    if from < e {
      FirstKeyAt(s, from + 1, e);
    }
  }

  /** No key starts inside text that holds none, even when a key follows it:
      only the last key character is `=`. */
  lemma NoKeyBeforeWritten(prefix: string, key: string, tail: string)
    requires NoKey(prefix)
    requires |key| == KeyLength && KeyAt(key, 0)
    ensures forall j :: 0 <= j < |prefix| ==> !KeyAt(prefix + key + tail, j)
  {
    var s := prefix + key + tail;
    var p := |prefix|;
    forall j | 0 <= j < p
      ensures !KeyAt(s, j)
    {
      if j + KeyLength <= p {
        assert !KeyAt(prefix, j);
        assert s[j..j + KeyLength] == prefix[j..j + KeyLength];
      } else {
        assert s[j + 3] == key[j + 3 - p];
      }
    }
  }

  /** `.*` started after `head` runs through a one-line `line` and stops
      before `rest`, which is empty or starts with a line terminator. */
  lemma LineEndAfterKey(head: string, line: string, rest: string)
    requires NoLineTerminator(line)
    requires |rest| == 0 || IsLineTerminator(rest[0])
    ensures LineEnd(head + line + rest, |head|) == |head| + |line|
  {
    var s := head + line + rest;
    var e := |head| + |line|;
    forall k | |head| <= k < e
      ensures !IsLineTerminator(s[k])
    {
      assert s[k] == line[k - |head|];
    }
    if e < |s| {
      assert s[e] == rest[0];
    }
    LineEndAt(s, |head|, e);
  }

  /** `LineEnd` is the first line terminator at or after `from`. */
  lemma LineEndAt(s: string, from: nat, e: nat)
    requires from <= e <= |s|
    requires forall k :: from <= k < e ==> !IsLineTerminator(s[k])
    requires e == |s| || IsLineTerminator(s[e])
    ensures LineEnd(s, from) == e
  {
  }

  /** The text of a `.url` file as Windows writes it for `target`. */
  function UrlFileText(target: string): string {
    "[InternetShortcut]\r\nURL=" + target + "\r\n"
  }

  /** Reading back a written shortcut file gives its target, provided the
      target is one line without surrounding blanks. */
  lemma UrlFileRoundTrip(target: string)
    requires NoLineTerminator(target) && IsTrimmed(target)
    ensures ShortcutTarget(UrlFileText(target)) == target
  {
    var header := "[InternetShortcut]\r\n";
    assert forall k :: 0 <= k < |header| ==> header[k] != '=';
    assert UrlFileText(target) == header + "URL=" + ("" + target + "") + "\r\n";
    PaddedLineReadsBack(header, "URL=", "", target, "", "\r\n");
  }

  /** Nothing anchors the key: `BASEURL=` holds it too. */
  lemma KeyNotAnchored(target: string)
    requires NoLineTerminator(target) && IsTrimmed(target)
    ensures ShortcutTarget("BASEURL=" + target) == target
  {
    var before := "BASE";
    assert forall k :: 0 <= k < |before| ==> before[k] != '=';
    assert "BASEURL=" + target == before + "URL=" + target + "";
    MatchAfterPrefix(before, "URL=", target, "");
    TrimOfPadded("", target, "");
    assert "" + target + "" == target;
  }

  /** The key matches in lower case, and blanks around the target are trimmed. */
  lemma KeyIgnoresCase(target: string)
    requires NoLineTerminator(target) && IsTrimmed(target)
    ensures ShortcutTarget("url= " + target + " \r\n") == target
  {
    var line := " " + target + " ";
    SpacedLine(target);
    LowerCaseLine(target);
    PaddedLineReadsBack("", "url=", " ", target, " ", "\r\n");
  }

  /** A key after key-free text, followed by a one-line target padded with
      trimmable characters, reads back as the target. */
  lemma PaddedLineReadsBack(prefix: string, key: string, p: string, target: string, q: string, rest: string)
    requires NoKey(prefix) && |key| == KeyLength && KeyAt(key, 0)
    requires AllTrimmable(p) && AllTrimmable(q) && IsTrimmed(target) && NoLineTerminator(p + target + q)
    requires |rest| == 0 || IsLineTerminator(rest[0])
    ensures ShortcutTarget(prefix + key + (p + target + q) + rest) == target
  {
    MatchAfterPrefix(prefix, key, p + target + q, rest);
    TrimOfPadded(p, target, q);
  }

  lemma LowerCaseLine(target: string)
    ensures "url= " + target + " \r\n" == "" + "url=" + (" " + target + " ") + "\r\n"
  {
  }

  /** One blank on each side of a one-line text keeps it one line. */
  lemma SpacedLine(target: string)
    requires NoLineTerminator(target)
    ensures NoLineTerminator(" " + target + " ")
  {
    var line := " " + target + " ";
    forall k | 0 <= k < |line|
      ensures !IsLineTerminator(line[k])
    {
      if 0 < k < |line| - 1 {
        assert line[k] == target[k - 1];
      }
    }
  }
}
