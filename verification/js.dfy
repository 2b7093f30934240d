/** The JavaScript string primitives the Node services and the React pages rely on, written out
    character by character: the whitespace that `\s` matches and `String.prototype.trim` removes,
    `split`, `toLowerCase` on ASCII, `includes`, `parseInt` on decimal text, and the truthiness
    of the values a parsed JSON request body carries.
    A string is a sequence of Unicode scalar values. */
module Js {
  import opened Wrappers

  /** ECMAScript WhiteSpace and LineTerminator: what `\s` matches and `trim` removes. */
  predicate IsSpace(c: char) {
    || c == '\t' || c == '\n' || c == '\U{000B}' || c == '\U{000C}' || c == '\r' || c == ' '
    || c == '\U{00A0}' || c == '\U{1680}' || ('\U{2000}' <= c <= '\U{200A}')
    || c == '\U{2028}' || c == '\U{2029}' || c == '\U{202F}' || c == '\U{205F}'
    || c == '\U{3000}' || c == '\U{FEFF}'
  }

  /** The characters a regular-expression `.` does not match. */
  predicate IsLineTerminator(c: char) {
    c == '\n' || c == '\r' || c == '\U{2028}' || c == '\U{2029}'
  }

  /** `\d` without the `u` flag: ASCII digits only. */
  predicate IsDigit(c: char) {
    '0' <= c <= '9'
  }

  predicate AllSpace(s: string) {
    forall i :: 0 <= i < |s| ==> IsSpace(s[i])
  }

  predicate AllDigits(s: string) {
    forall i :: 0 <= i < |s| ==> IsDigit(s[i])
  }

  /** No whitespace at either end: what `trim` returns. */
  predicate IsTrimmed(s: string) {
    s == [] || (!IsSpace(s[0]) && !IsSpace(s[|s| - 1]))
  }

  /** Length of the longest whitespace prefix. */
  function LeadingSpaces(s: string): (n: nat)
    ensures n <= |s|
    ensures forall i :: 0 <= i < n ==> IsSpace(s[i])
    ensures n < |s| ==> !IsSpace(s[n])
  {
    if s == [] || !IsSpace(s[0]) then 0 else 1 + LeadingSpaces(s[1..])
  }

  /** Length of the longest whitespace suffix. */
  function TrailingSpaces(s: string): (n: nat)
    ensures n <= |s|
    ensures forall i :: |s| - n <= i < |s| ==> IsSpace(s[i])
    ensures n < |s| ==> !IsSpace(s[|s| - n - 1])
  {
    if s == [] || !IsSpace(s[|s| - 1]) then 0 else 1 + TrailingSpaces(s[..|s| - 1])
  }

  /** Length of the longest prefix of ASCII digits. */
  function LeadingDigits(s: string): (n: nat)
    ensures n <= |s|
    ensures forall i :: 0 <= i < n ==> IsDigit(s[i])
    ensures n < |s| ==> !IsDigit(s[n])
  {
    if s == [] || !IsDigit(s[0]) then 0 else 1 + LeadingDigits(s[1..])
  }

  /** The run of whitespace at the front of `s` is `n` characters long when the `n` first are
      whitespace and the next is not. */
  lemma LeadingSpacesExact(s: string, n: nat)
    requires n <= |s| && (forall i :: 0 <= i < n ==> IsSpace(s[i])) && (n < |s| ==> !IsSpace(s[n]))
    ensures LeadingSpaces(s) == n
  {
  }

  /** The same for the run of digits. */
  lemma LeadingDigitsExact(s: string, n: nat)
    requires n <= |s| && (forall i :: 0 <= i < n ==> IsDigit(s[i])) && (n < |s| ==> !IsDigit(s[n]))
    ensures LeadingDigits(s) == n
  {
  }

  /** `s` without its leading whitespace: what a trailing `\s*` consumes, and `trimStart`. */
  function DropSpaces(s: string): (r: string)
    ensures |r| <= |s| && r == s[|s| - |r|..]
    ensures forall i :: 0 <= i < |s| - |r| ==> IsSpace(s[i])
    ensures r == [] || !IsSpace(r[0])
  {
    s[LeadingSpaces(s)..]
  }

  /** `String.prototype.trim`: the text between the leading and the trailing whitespace. */
  function Trim(s: string): (r: string)
    ensures LeadingSpaces(s) + |r| <= |s|
    ensures r == s[LeadingSpaces(s)..LeadingSpaces(s) + |r|]
    ensures forall i :: LeadingSpaces(s) + |r| <= i < |s| ==> IsSpace(s[i])
    ensures IsTrimmed(r)
    ensures r == [] <==> AllSpace(s)
  {
    var i := LeadingSpaces(s);
    var t := s[i..];
    var r := t[..|t| - TrailingSpaces(t)];
    assert AllSpace(s) ==> i == |s|;
    r
  }

  /** Every non-blank character of `s` survives `trim`. */
  lemma {:induction false} TrimKeeps(s: string, k: nat)
    requires k < |s| && !IsSpace(s[k])
    ensures s[k] in Trim(s)
  {
    var i, r := LeadingSpaces(s), Trim(s);
    assert s[k] == r[k - i];
  }

  /** `trim` leaves a trimmed string alone. */
  lemma TrimTrimmed(s: string)
    requires IsTrimmed(s)
    ensures Trim(s) == s
  {
    if s != [] {
      assert LeadingSpaces(s) == 0;
      assert TrailingSpaces(s) == 0;
    }
  }

  /** ASCII `toLowerCase` of one character. */
  function LowerChar(c: char): char {
    if 'A' <= c <= 'Z' then (c as int + 32) as char else c
  }

  /** `toLowerCase`, on ASCII letters. */
  function Lower(s: string): (r: string)
    ensures |r| == |s|
    ensures forall i :: 0 <= i < |s| ==> r[i] == LowerChar(s[i])
  {
    seq(|s|, i requires 0 <= i < |s| => LowerChar(s[i]))
  }

  /** `parts.join(sep)`. */
  function Join(parts: seq<string>, sep: char): string {
    if parts == [] then []
    else if |parts| == 1 then parts[0]
    else parts[0] + [sep] + Join(parts[1..], sep)
  }

  /** `s.split(sep)` for a one-character separator: the pieces between separators, which joined
      back with the separator give `s` again. */
  function SplitOn(s: string, sep: char): (parts: seq<string>)
    ensures |parts| >= 1
    ensures forall i :: 0 <= i < |parts| ==> sep !in parts[i]
    ensures Join(parts, sep) == s
  {
    if s == [] then [[]]
    else
      var rest := SplitOn(s[1..], sep);
      if s[0] == sep then
        assert ([[]] + rest)[1..] == rest;
        [[]] + rest
      else
        var parts := [[s[0]] + rest[0]] + rest[1..];
        assert parts[1..] == rest[1..];
        assert |rest| > 1 ==> Join(rest, sep) == rest[0] + [sep] + Join(rest[1..], sep);
        parts
  }

  /** A character of a joined string is the separator or a character of one of the parts. */
  lemma {:induction false} JoinChars(parts: seq<string>, sep: char, c: char)
    requires c in Join(parts, sep)
    ensures c == sep || exists i :: 0 <= i < |parts| && c in parts[i]
  {
    if |parts| > 1 {
      var tail := Join(parts[1..], sep);
      assert Join(parts, sep) == parts[0] + [sep] + tail;
      if c !in parts[0] && c != sep {
        assert c in tail;
        JoinChars(parts[1..], sep, c);
        var i :| 0 <= i < |parts| - 1 && c in parts[1..][i];
        assert c in parts[i + 1];
      }
    }
  }

  /** `s.split(/\s+/)`: the pieces between maximal whitespace runs; a run at either end yields an
      empty piece there, and `""` yields `[""]`. Every piece is made of non-blank characters of `s`. */
  function SplitWs(s: string): (parts: seq<string>)
    ensures |parts| >= 1
    ensures forall i, k :: 0 <= i < |parts| && 0 <= k < |parts[i]| ==> !IsSpace(parts[i][k]) && parts[i][k] in s
  {
    if s == [] then [[]]
    else
      var rest := SplitWs(s[1..]);
      if !IsSpace(s[0]) then
        var parts := [[s[0]] + rest[0]] + rest[1..];
        assert forall i :: 1 <= i < |parts| ==> parts[i] == rest[i];
        parts
      else if |s| > 1 && IsSpace(s[1]) then rest
      else [[]] + rest
  }

  /** `s.startsWith(prefix)`. */
  predicate StartsWith(s: string, prefix: string) {
    |prefix| <= |s| && s[..|prefix|] == prefix
  }

  /** `s.includes(sub)`. */
  predicate Includes(s: string, sub: string)
    decreases |s|
  {
    StartsWith(s, sub) || (s != [] && Includes(s[1..], sub))
  }

  /** `sub` occurs in `s` at position `i`. */
  predicate OccursAt(s: string, sub: string, i: nat) {
    i + |sub| <= |s| && s[i..i + |sub|] == sub
  }

  /** `includes` finds exactly the positions where the string occurs. */
  lemma {:induction false} IncludesIffOccurs(s: string, sub: string)
    ensures Includes(s, sub) <==> exists i: nat :: OccursAt(s, sub, i)
    decreases |s|
  {
    if s == [] {
      if sub == [] { assert OccursAt(s, sub, 0); }
    } else {
      IncludesIffOccurs(s[1..], sub);
      if Includes(s, sub) {
        if StartsWith(s, sub) {
          assert OccursAt(s, sub, 0);
        } else {
          var j: nat :| OccursAt(s[1..], sub, j);
          assert s[1..][j..j + |sub|] == s[j + 1..j + 1 + |sub|];
          assert OccursAt(s, sub, j + 1);
        }
      }
      if exists i: nat :: OccursAt(s, sub, i) {
        var i: nat :| OccursAt(s, sub, i);
        if i == 0 {
          assert StartsWith(s, sub);
        } else {
          assert s[1..][i - 1..i - 1 + |sub|] == s[i..i + |sub|];
          assert OccursAt(s[1..], sub, i - 1);
        }
      }
    }
  }

  /** Nothing includes a longer string. */
  lemma {:induction false} IncludesLonger(s: string, sub: string)
    requires |s| < |sub|
    ensures !Includes(s, sub)
    decreases |s|
  {
    if s != [] {
      IncludesLonger(s[1..], sub);
    }
  }

  /** The value of a string of ASCII digits, read in base ten. */
  function DigitsValue(d: string): nat
    requires AllDigits(d)
  {
    if d == [] then 0 else 10 * DigitsValue(d[..|d| - 1]) + (d[|d| - 1] as int - '0' as int)
  }

  /** A digit of base sixteen, in either case. */
  predicate IsHexDigit(c: char) {
    IsDigit(c) || ('a' <= c <= 'f') || ('A' <= c <= 'F')
  }

  function HexDigitValue(c: char): nat
    requires IsHexDigit(c)
  {
    if IsDigit(c) then c as int - '0' as int
    else if 'a' <= c <= 'f' then c as int - 'a' as int + 10
    else c as int - 'A' as int + 10
  }

  /** Length of the longest prefix of hexadecimal digits. */
  function LeadingHexDigits(s: string): (n: nat)
    ensures n <= |s|
    ensures forall i :: 0 <= i < n ==> IsHexDigit(s[i])
    ensures n < |s| ==> !IsHexDigit(s[n])
  {
    if s == [] || !IsHexDigit(s[0]) then 0 else 1 + LeadingHexDigits(s[1..])
  }

  /** The value of a string of hexadecimal digits, read in base sixteen. */
  function HexValue(d: string): nat
    requires forall i :: 0 <= i < |d| ==> IsHexDigit(d[i])
  {
    if d == [] then 0 else 16 * HexValue(d[..|d| - 1]) + HexDigitValue(d[|d| - 1])
  }

  /** Text that starts with "0x" or "0X", which `parseInt` with no radix reads in base sixteen. */
  predicate HexPrefixed(u: string) {
    |u| >= 2 && u[0] == '0' && (u[1] == 'x' || u[1] == 'X')
  }

  /** `parseInt(s)` with no radix: leading whitespace, an optional sign, then the longest run of
      hexadecimal digits after a "0x" or "0X", or else the longest run of decimal digits; `None`
      stands for `NaN` (no digit in that run). */
  function ParseInt(s: string): (r: Option<int>)
    ensures var u := SignStripped(DropSpaces(s));
      r.None? <==> if HexPrefixed(u) then LeadingHexDigits(u[2..]) == 0 else LeadingDigits(u) == 0
  {
    var t := DropSpaces(s);
    var u := SignStripped(t);
    var v: Option<nat> :=
      if HexPrefixed(u) then
        var h := u[2..];
        var n := LeadingHexDigits(h);
        if n == 0 then None else Some(HexValue(h[..n]))
      else
        var n := LeadingDigits(u);
        if n == 0 then None else Some(DigitsValue(u[..n]));
    match v
    case None => None
    case Some(x) => if t[0] == '-' then Some(-(x as int)) else Some(x)
  }

  /** Decimal digits, followed by anything but a digit, read back as their value, unless
      they make a "0x" prefix. */
  lemma ParseIntOfDigits(d: string, rest: string)
    requires d != [] && AllDigits(d) && (rest == [] || !IsDigit(rest[0]))
    requires !HexPrefixed(d + rest)
    ensures ParseInt(d + rest) == Some(DigitsValue(d))
  {
    var s := d + rest;
    assert DropSpaces(s) == s by {
      assert s[0] == d[0];
      assert LeadingSpaces(s) == 0;
    }
    assert SignStripped(s) == s by { assert s[0] == d[0]; }
    LeadingDigitsExact(s, |d|);
    assert s[..|d|] == d;
  }

  /** A minus sign in front of text that starts with a digit negates its value. */
  lemma MinusNegates(u: string, x: int)
    requires u != [] && IsDigit(u[0]) && ParseInt(u) == Some(x)
    ensures ParseInt("-" + u) == Some(-x)
  {
    var s := "-" + u;
    assert LeadingSpaces(s) == 0 && DropSpaces(s) == s;
    assert s[0] == '-' && s[1..] == u;
    assert LeadingSpaces(u) == 0 && DropSpaces(u) == u;
    assert SignStripped(u) == u;
  }

  /** "0x1A" is read in base sixteen, and "0x" alone, with no digit after the prefix, is `NaN`. */
  lemma ParseIntOfHex()
    ensures ParseInt("0x1A") == Some(26)
    ensures ParseInt("0x") == None
  {
    assert LeadingSpaces("0x1A") == 0;
    assert DropSpaces("0x1A") == "0x1A";
    assert "0x1A"[2..] == "1A";
    assert LeadingHexDigits("1A") == 2;
    assert "1A"[..2] == "1A";
    assert HexValue("1A") == 26 by {
      assert "1A"[..1] == "1";
      assert "1"[..0] == [];
    }
    assert LeadingSpaces("0x") == 0;
    assert DropSpaces("0x") == "0x";
    assert "0x"[2..] == [];
  }

  /** `t` without one leading sign character. */
  function SignStripped(t: string): string {
    if t != [] && (t[0] == '-' || t[0] == '+') then t[1..] else t
  }

  /** A value found in a parsed JSON request body: `undefined` when the key is missing, a string,
      or any other value (null, a number, a boolean, an object or an array) with its truthiness. */
  datatype JsValue = Undefined | Str(s: string) | NonString(truthy: bool)

  /** JavaScript truthiness (`!v` is false). */
  predicate Truthy(v: JsValue) {
    match v
    case Undefined => false
    case Str(s) => s != []
    case NonString(t) => t
  }
}
