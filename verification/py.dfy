/** The Python `str` methods the language service's reply clean-up relies on: `strip()`,
    `split()`, `replace(old, new)` and `startswith`, on sequences of Unicode code points. */
module Py {
  import opened Js

  /** `str.isspace()` for one character: what `strip()` and `split()` with no argument treat as
      whitespace. */
  predicate IsPySpace(c: char) {
    || ('\t' <= c <= '\r') || ('\U{001C}' <= c <= '\U{001F}') || c == ' ' || c == '\U{0085}'
    || c == '\U{00A0}' || c == '\U{1680}' || ('\U{2000}' <= c <= '\U{200A}')
    || c == '\U{2028}' || c == '\U{2029}' || c == '\U{202F}' || c == '\U{205F}' || c == '\U{3000}'
  }

  predicate AllPySpace(s: string) {
    forall i :: 0 <= i < |s| ==> IsPySpace(s[i])
  }

  /** Length of the longest whitespace prefix. */
  function LeadingWs(s: string): (n: nat)
    ensures n <= |s|
    ensures forall i :: 0 <= i < n ==> IsPySpace(s[i])
    ensures n < |s| ==> !IsPySpace(s[n])
  {
    if s == [] || !IsPySpace(s[0]) then 0 else 1 + LeadingWs(s[1..])
  }

  /** Length of the longest whitespace suffix. */
  function TrailingWs(s: string): (n: nat)
    ensures n <= |s|
    ensures forall i :: |s| - n <= i < |s| ==> IsPySpace(s[i])
    ensures n < |s| ==> !IsPySpace(s[|s| - n - 1])
  {
    if s == [] || !IsPySpace(s[|s| - 1]) then 0 else 1 + TrailingWs(s[..|s| - 1])
  }

  /** Length of the longest prefix without whitespace. */
  function TokenLength(s: string): (n: nat)
    ensures n <= |s|
    ensures forall i :: 0 <= i < n ==> !IsPySpace(s[i])
    ensures n < |s| ==> IsPySpace(s[n])
  {
    if s == [] || IsPySpace(s[0]) then 0 else 1 + TokenLength(s[1..])
  }

  /** `s.strip()`: the text between the leading and the trailing whitespace. */
  function Strip(s: string): (r: string)
    ensures LeadingWs(s) + |r| <= |s|
    ensures forall k :: 0 <= k < |r| ==> r[k] == s[LeadingWs(s) + k]
    ensures r == [] <==> AllPySpace(s)
    ensures r == [] || (!IsPySpace(r[0]) && !IsPySpace(r[|r| - 1]))
  {
    var i := LeadingWs(s);
    var t := s[i..];
    assert AllPySpace(s) ==> i == |s|;
    t[..|t| - TrailingWs(t)]
  }

  /** A word: at least one character, none of them whitespace. */
  predicate IsWord(w: string) {
    w != [] && forall k :: 0 <= k < |w| ==> !IsPySpace(w[k])
  }

  /** `s.split()`: the maximal runs of non-whitespace, in order; no empty piece. */
  function Split(s: string): (parts: seq<string>)
    ensures forall i :: 0 <= i < |parts| ==> IsWord(parts[i])
    ensures parts == [] <==> AllPySpace(s)
    decreases |s|
  {
    var i := LeadingWs(s);
    if i == |s| then
      []
    else
      var t := s[i..];
      var n := TokenLength(t);
      assert !IsPySpace(s[i]);
      assert IsWord(t[..n]) by {
        assert t[0] == s[i];
      }
      [t[..n]] + Split(t[n..])
  }

  /** The first piece of `split()` is where `strip()` starts. */
  lemma FirstTokenStartsStripped(s: string)
    requires !AllPySpace(s)
    ensures Split(s) != [] && StartsWith(Strip(s), Split(s)[0])
  {
    var n := SplitHead(s);
    assert n <= |Strip(s)| by {
      StripTail(s);
    }
    StripPrefix(s, n);
  }

  /** The first `n` characters `strip()` keeps. */
  lemma StripPrefix(s: string, n: nat)
    requires n <= |Strip(s)|
    ensures Strip(s)[..n] == s[LeadingWs(s)..LeadingWs(s) + n]
  {
  }

  /** The first piece of `split()` is the `n` characters after the leading whitespace, the last
      of which is not whitespace. */
  lemma SplitHead(s: string) returns (n: nat)
    requires !AllPySpace(s)
    ensures n >= 1 && LeadingWs(s) + n <= |s| && !IsPySpace(s[LeadingWs(s) + n - 1])
    ensures Split(s) != [] && Split(s)[0] == s[LeadingWs(s)..LeadingWs(s) + n]
  {
    var i := LeadingWs(s);
    var t := s[i..];
    n := TokenLength(t);
    assert t[0] == s[i];
    assert t[n - 1] == s[i + n - 1];
    assert t[..n] == s[i..i + n];
  }

  /** What `strip()` cuts at the end is whitespace. */
  lemma StripTail(s: string)
    ensures forall j :: LeadingWs(s) + |Strip(s)| <= j < |s| ==> IsPySpace(s[j])
  {
    var i := LeadingWs(s);
    var t := s[i..];
    var m := TrailingWs(t);
    assert Strip(s) == t[..|t| - m];
    forall j | i + |Strip(s)| <= j < |s| ensures IsPySpace(s[j]) {
      assert s[j] == t[j - i];
    }
  }

  /** `s.replace(pat, rep)`: every occurrence of `pat`, scanning left to right without overlap,
      becomes `rep`; an empty `pat` matches before every character and at the end. */
  function Replace(s: string, pat: string, rep: string): string
    decreases |s|
  {
    if pat == [] then
      if s == [] then rep else rep + [s[0]] + Replace(s[1..], pat, rep)
    else if |s| < |pat| then s
    else if s[..|pat|] == pat then rep + Replace(s[|pat|..], pat, rep)
    else [s[0]] + Replace(s[1..], pat, rep)
  }

  /** `.replace("", "")` changes nothing. */
  lemma {:induction false} ReplaceEmptyIsIdentity(s: string)
    ensures Replace(s, "", "") == s
  {
    if s != [] {
      ReplaceEmptyIsIdentity(s[1..]);
      assert [] + [s[0]] + s[1..] == s;
    }
  }

  /** `startswith("")` holds for every string. */
  lemma StartsWithEmpty(s: string)
    ensures StartsWith(s, "")
  {
  }

  /** The triple backtick that opens and closes a code block. */
  const Fence := "```"

  /** Three backticks in a row start at position `i`. */
  predicate FenceAt(s: string, i: nat)
    requires i + 2 < |s|
  {
    s[i] == '`' && s[i + 1] == '`' && s[i + 2] == '`'
  }

  /** No three backticks in a row. */
  predicate NoFence(s: string) {
    forall i: nat :: i + 2 < |s| ==> !FenceAt(s, i)
  }

  /** Removing every triple backtick leaves none: a removal never joins backticks into a new
      one, since the text before a removed fence never ends with a backtick. */
  lemma NoFenceAfterRemoval(s: string)
    ensures NoFence(Replace(s, Fence, ""))
  {
    FenceRemoval(s);
  }

  /** The induction behind it: the result has no fence, and starts with one or two backticks
      only where the input does. */
  lemma {:induction false} FenceRemoval(s: string)
    ensures NoFence(Replace(s, Fence, ""))
    ensures var r := Replace(s, Fence, ""); r != [] && r[0] == '`' ==> s != [] && s[0] == '`'
    ensures var r := Replace(s, Fence, ""); |r| >= 2 && r[0] == '`' && r[1] == '`' ==> |s| >= 2 && s[0] == '`' && s[1] == '`'
    decreases |s|
  {
    var r := Replace(s, Fence, "");
    if |s| < 3 {
      assert r == s;
    } else if s[..3] == Fence {
      FenceRemoval(s[3..]);
      assert r == Replace(s[3..], Fence, "");
      assert s[0] == '`' && s[1] == '`';
    } else {
      var rest := Replace(s[1..], Fence, "");
      FenceRemoval(s[1..]);
      assert r == [s[0]] + rest;
      assert |r| >= 3 ==> !FenceAt(r, 0) by {
        assert s[..3] == [s[0], s[1], s[2]];
        assert |rest| >= 2 ==> r[1] == rest[0] && r[2] == rest[1];
      }
      forall i: nat | 1 <= i && i + 2 < |r| ensures !FenceAt(r, i) {
        assert r[i] == rest[i - 1] && r[i + 1] == rest[i] && r[i + 2] == rest[i + 1];
        assert !FenceAt(rest, i - 1);
      }
      assert |r| >= 2 ==> r[1] == rest[0];
    }
  }

  /** `strip()` cannot bring a fence back. */
  lemma StripKeepsNoFence(s: string)
    requires NoFence(s)
    ensures NoFence(Strip(s))
  {
    var i := LeadingWs(s);
    var r := Strip(s);
    forall j: nat | j + 2 < |r| ensures !FenceAt(r, j) {
      assert r[j] == s[i + j] && r[j + 1] == s[i + j + 1] && r[j + 2] == s[i + j + 2];
      assert !FenceAt(s, i + j);
    }
  }

  /** Removing "json" in one pass can join its neighbours into a new "json". */
  lemma JsonCanReform()
    ensures Replace("jsjsonon", "json", "") == "json"
  {
    var s := "jsjsonon";
    assert s[..4] != "json" by { assert s[2] != 's'; }
    assert s[1..][..4] != "json" by { assert s[1] != 'j'; }
    assert s[2..][..4] == "json";
    assert s[2..][4..] == "on";
    assert Replace("on", "json", "") == "on";
    assert s[1..][1..] == s[2..];
  }
}
