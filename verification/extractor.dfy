/** The Node NLP service's `POST /api/extract-products` (nlp-service/server.js): a shopping list
    typed as free text becomes an ordered list of {name, quantity} entries, an image request gets
    a canned answer, and a request without a type or data is refused. */
module Extractor {
  import opened Wrappers
  import opened Js

  /** One extracted item. */
  datatype Entry = Entry(name: string, quantity: nat)

  /** The two fields of the request body the handler reads: `type` and `data`. */
  datatype Request = Request(kind: JsValue, data: JsValue)

  /** 400 "Invalid input", 500 "Failed to extract products", or 200 with the product list. */
  datatype Response = BadRequest | ServerError | Ok(products: seq<Entry>)

  // ----- The quantity pattern /^(\d+)\s*(.+)$/ -----

  /** What `(.+)$` accepts: one character or more, none of them a line terminator. */
  predicate DotPlusToEnd(r: string) {
    r != [] && forall i :: 0 <= i < |r| ==> !IsLineTerminator(r[i])
  }

  /** With `k` digits matched and `w` whitespace characters after them, `\s*` first takes all
      `w` and then backtracks to fewer; `(.+)$` must take the rest. The result is where the
      second group starts. */
  function TrySpaces(t: string, k: nat, w: nat): (j: Option<nat>)
    requires k + w <= |t|
    ensures j.Some? ==> k <= j.value <= k + w
    decreases w
  {
    if DotPlusToEnd(t[k + w..]) then Some(k + w)
    else if w == 0 then None
    else TrySpaces(t, k, w - 1)
  }

  /** `(\d+)` first takes `k` digits and then backtracks to fewer. The result is the number of
      digits in the first group and where the second group starts; between them lies whitespace
      only. */
  function TryDigits(t: string, k: nat): (m: Option<(nat, nat)>)
    requires k <= LeadingDigits(t)
    ensures m.Some? ==> 1 <= m.value.0 <= k && m.value.0 <= m.value.1 <= |t|
    decreases k
  {
    if k == 0 then None
    else match TrySpaces(t, k, LeadingSpaces(t[k..]))
      case Some(j) => Some((k, j))
      case None => TryDigits(t, k - 1)
  }

  /** `t.match(/^(\d+)\s*(.+)$/)`: the two groups of the first match in backtracking order, a
      non-empty prefix of digits and the suffix that `(.+)` takes (QuantityMatchOfTrimmed says
      which they are). */
  function QuantityMatch(t: string): (m: Option<(string, string)>)
    ensures m.Some? ==> m.value.0 != [] && AllDigits(m.value.0)
  {
    match TryDigits(t, LeadingDigits(t))
    case None => None
    case Some((k, j)) =>
      Some((t[..k], t[j..]))
  }

  lemma {:induction false} TrySpacesBlocked(t: string, k: nat, w: nat, p: nat)
    requires k + w <= p < |t| && IsLineTerminator(t[p])
    ensures TrySpaces(t, k, w) == None
    decreases w
  {
    assert t[k + w..][p - k - w] == t[p];
    if w > 0 {
      TrySpacesBlocked(t, k, w - 1, p);
    }
  }

  lemma {:induction false} TryDigitsBlocked(t: string, k: nat, p: nat)
    requires k <= LeadingDigits(t)
    requires LeadingDigits(t) + LeadingSpaces(t[LeadingDigits(t)..]) <= p < |t| && IsLineTerminator(t[p])
    ensures TryDigits(t, k) == None
    decreases k
  {
    if k > 0 {
      var w := LeadingSpaces(t[k..]);
      if k < LeadingDigits(t) {
        assert t[k..][0] == t[k] && IsDigit(t[k]);
      }
      TrySpacesBlocked(t, k, w, p);
      TryDigitsBlocked(t, k - 1, p);
    }
  }

  /** What the quantity pattern does to a trimmed line, read off the regular expression: with
      `n` leading digits and `w` spaces after them, a line with text after the spaces matches with
      all `n` digits and that text, unless the text holds a line terminator; a line of digits only
      gives up its last digit to `(.+)`, so `"12"` is the quantity 1 and the name `"2"`, and a
      single digit does not match. */
  lemma QuantityMatchOfTrimmed(t: string, n: nat, w: nat)
    requires t != [] && IsTrimmed(t)
    requires n == LeadingDigits(t) && w == LeadingSpaces(t[n..])
    ensures n == 0 ==> QuantityMatch(t) == None
    ensures n > 0 && n + w < |t| && DotPlusToEnd(t[n + w..]) ==> QuantityMatch(t) == Some((t[..n], t[n + w..]))
    ensures n > 0 && n + w < |t| && !DotPlusToEnd(t[n + w..]) ==> QuantityMatch(t) == None
    ensures n + w == |t| && n >= 2 ==> QuantityMatch(t) == Some((t[..n - 1], t[n - 1..]))
    ensures n + w == |t| && n == 1 ==> QuantityMatch(t) == None
  {
    if n == 0 {
      assert QuantityMatch(t) == None;
    } else if n + w < |t| {
      if DotPlusToEnd(t[n + w..]) {
        TakeAllSpaces(t, n, w);
        QuantityMatchOf(t, n, n + w);
      } else {
        MatchBlocked(t, n, w);
      }
    } else {
      if w > 0 { assert false; }
      MatchDigitsOnly(t);
    }
  }

  /** The groups of a match found by the backtracking search. */
  lemma QuantityMatchOf(t: string, k: nat, j: nat)
    requires TryDigits(t, LeadingDigits(t)) == Some((k, j))
    ensures QuantityMatch(t) == Some((t[..k], t[j..]))
  {
  }

  /** Text after the spaces: the match takes all digits and all the spaces. */
  lemma TakeAllSpaces(t: string, n: nat, w: nat)
    requires 0 < n <= LeadingDigits(t) && w == LeadingSpaces(t[n..]) && n + w < |t| && DotPlusToEnd(t[n + w..])
    ensures TryDigits(t, n) == Some((n, n + w))
  {
    assert TrySpaces(t, n, w) == Some(n + w);
  }

  /** A line terminator after the spaces: no split of the digits and spaces gets past it. */
  lemma MatchBlocked(t: string, n: nat, w: nat)
    requires 0 < n == LeadingDigits(t) && w == LeadingSpaces(t[n..]) && n + w < |t| && !DotPlusToEnd(t[n + w..])
    ensures QuantityMatch(t) == None
  {
    var p :| n + w <= p < |t| && IsLineTerminator(t[p]) by {
      var q :| 0 <= q < |t[n + w..]| && IsLineTerminator(t[n + w..][q]);
      assert t[n + w + q] == t[n + w..][q];
    }
    TryDigitsBlocked(t, n, p);
  }

  /** A line of digits only: the last digit goes to the second group. */
  lemma MatchDigitsOnly(t: string)
    requires t != [] && LeadingDigits(t) == |t|
    ensures QuantityMatch(t) == if |t| >= 2 then Some((t[..|t| - 1], t[|t| - 1..])) else None
  {
    assert TryDigits(t, |t|) == if |t| >= 2 then Some((|t| - 1, |t| - 1)) else None by {
      GiveUpLastDigit(t);
    }
  }

  lemma GiveUpLastDigit(t: string)
    requires t != [] && LeadingDigits(t) == |t|
    ensures TryDigits(t, |t|) == if |t| >= 2 then Some((|t| - 1, |t| - 1)) else None
  {
    NothingAfterDigits(t);
    if |t| >= 2 {
      LastDigitAsName(t);
    }
  }

  lemma LastDigitAsName(t: string)
    requires |t| >= 2 && LeadingDigits(t) == |t|
    ensures TryDigits(t, |t| - 1) == Some((|t| - 1, |t| - 1))
  {
    assert LeadingSpaces(t[|t| - 1..]) == 0 && DotPlusToEnd(t[|t| - 1..]) by { DigitTail(t); }
    TakeAllSpaces(t, |t| - 1, 0);
  }

  lemma DigitTail(t: string)
    requires |t| >= 1 && IsDigit(t[|t| - 1])
    ensures LeadingSpaces(t[|t| - 1..]) == 0 && DotPlusToEnd(t[|t| - 1..])
  {
    assert t[|t| - 1..] == [t[|t| - 1]];
  }

  lemma NothingAfterDigits(t: string)
    requires t != [] && LeadingDigits(t) == |t|
    ensures TryDigits(t, |t|) == TryDigits(t, |t| - 1)
  {
    assert t[|t|..] == [];
    assert TrySpaces(t, |t|, 0) == None;
  }

  // ----- The connector words /^(x|of|bottles?|cans?|packs?|boxes?)\s*/i -----

  /** The alternatives in the order the matcher tries them; a greedy `s?` tries the longer form
      first, and `boxes?` spells "boxe" or "boxes" (so "box" is not one of them). */
  const Connectors: seq<string> := ["x", "of", "bottles", "bottle", "cans", "can", "packs", "pack", "boxes", "boxe"]

  /** `s` starts with the lower-case word `w`, ignoring ASCII case (the `i` flag). */
  predicate StartsWithIgnoringCase(s: string, w: string) {
    |w| <= |s| && forall i :: 0 <= i < |w| ==> LowerChar(s[i]) == w[i]
  }

  /** Position of the first alternative, from position `j` of Connectors on, that `s` starts
      with; `|Connectors|` when none of them does. */
  function FirstConnector(s: string, j: nat): (i: nat)
    requires j <= |Connectors|
    ensures j <= i <= |Connectors|
    ensures i < |Connectors| ==> StartsWithIgnoringCase(s, Connectors[i])
    ensures forall k :: j <= k < i ==> !StartsWithIgnoringCase(s, Connectors[k])
    decreases |Connectors| - j
  {
    if j == |Connectors| then j
    else if StartsWithIgnoringCase(s, Connectors[j]) then j
    else FirstConnector(s, j + 1)
  }

  /** `s.replace(/^(x|of|bottles?|cans?|packs?|boxes?)\s*\/i, '')`: the first alternative `s`
      starts with and the whitespace after it go; there is no word boundary, so "xylophones"
      loses its "x". Without such an alternative `s` stays. */
  function StripConnector(s: string): (r: string)
    ensures |r| <= |s| && r == s[|s| - |r|..]
    ensures FirstConnector(s, 0) == |Connectors| ==> r == s
    ensures FirstConnector(s, 0) < |Connectors| ==>
      var n := |Connectors[FirstConnector(s, 0)]|;
      n <= |s| && r == s[n + LeadingSpaces(s[n..])..]
  {
    var i := FirstConnector(s, 0);
    if i == |Connectors| then s
    else DropSpaces(s[|Connectors[i]|..])
  }

  // ----- The bullet class /^[-â€¢*]\s*/ -----

  /** The class as the source file spells it: its characters are '-', 'â', '€', '¢' and '*'
      (the UTF-8 bytes of '•' read as Windows-1252), so '•' itself is not among them. */
  predicate IsBullet(c: char) {
    c == '-' || c == '\U{00E2}' || c == '\U{20AC}' || c == '\U{00A2}' || c == '*'
  }

  /** `t.replace(/^[-â€¢*]\s*\/, '')`: one leading bullet character and the whitespace after it. */
  function StripBullet(t: string): (r: string)
    ensures |r| <= |t| && r == t[|t| - |r|..]
    ensures t != [] && IsBullet(t[0]) ==> r == t[1 + LeadingSpaces(t[1..])..]
    ensures !(t != [] && IsBullet(t[0])) ==> r == t
  {
    if t != [] && IsBullet(t[0]) then DropSpaces(t[1..]) else t
  }

  // ----- One line, all lines -----

  /** One iteration of the loop over lines: a blank line gives nothing; a line the quantity
      pattern matches gives its digits' value and the rest less one connector (even when nothing
      is left); any other line gives itself less one bullet, with quantity 1, unless nothing is left. */
  function ParseLine(line: string): Option<Entry> {
    var t := Trim(line);
    if t == [] then None
    else match QuantityMatch(t)
      case Some(m) => Some(Entry(Trim(StripConnector(m.1)), DigitsValue(m.0)))
      case None =>
        var name := Trim(StripBullet(t));
        if name == [] then None else Some(Entry(name, 1))
  }

  function OptionToSeq<T>(o: Option<T>): seq<T> {
    match o
    case Some(x) => [x]
    case None => []
  }

  /** The entries of the lines, pushed in line order. */
  function ParseLines(lines: seq<string>): seq<Entry> {
    if lines == [] then []
    else ParseLines(lines[..|lines| - 1]) + OptionToSeq(ParseLine(lines[|lines| - 1]))
  }

  /** `lines.filter(line => line.trim())`. */
  function NonBlank(lines: seq<string>): seq<string> {
    if lines == [] then []
    else NonBlank(lines[..|lines| - 1]) + (if Trim(lines[|lines| - 1]) != [] then [lines[|lines| - 1]] else [])
  }

  // ----- The vocabulary fallback -----

  /** The fixed vocabulary of the fallback pass. */
  const Vocabulary: seq<string> := ["milk", "bread", "eggs", "butter", "cheese", "apple", "banana", "toothpaste", "shampoo"]

  /** `words.filter(w => commonProducts.includes(w)).map(w => ({name: w, quantity: 1}))`. */
  function Fallback(words: seq<string>): seq<Entry> {
    if words == [] then []
    else
      var w := words[|words| - 1];
      Fallback(words[..|words| - 1]) + (if w in Vocabulary then [Entry(w, 1)] else [])
  }

  /** The products of a text request: the line pass, or, when it finds nothing, the vocabulary
      words among the whitespace-separated tokens of the lower-cased text. */
  function TextProducts(content: string): seq<Entry> {
    var found := ParseLines(SplitOn(content, '\n'));
    if found == [] then Fallback(SplitWs(Lower(content))) else found
  }

  /** The canned answer to an image request. */
  const ImageProducts: seq<Entry> := [Entry("milk", 1), Entry("bread", 1), Entry("eggs", 1)]

  // ----- The handler -----

  /** The text branch of the handler: push an entry per line in a loop, then, if none was pushed,
      replace the list by the fallback's. */
  method ExtractText(content: string) returns (products: seq<Entry>)
    ensures products == TextProducts(content)
  {
    var all := SplitOn(content, '\n');
    var lines := NonBlank(all);
    products := [];
    var i := 0;
    while i < |lines|
      invariant 0 <= i <= |lines|
      invariant products == ParseLines(lines[..i])
    {
      ParseLinesPrefix(lines, i);
      var entry := ParseLine(lines[i]);
      if entry.Some? {
        products := products + [entry.value];
      }
      i := i + 1;
    }
    assert products == ParseLines(all) by {
      assert lines[..i] == lines;
      NonBlankParse(all);
    }
    if products == [] {
      products := Fallback(SplitWs(Lower(content)));
    }
  }

  /** One more line of the loop. */
  lemma ParseLinesPrefix(lines: seq<string>, i: nat)
    requires i < |lines|
    ensures ParseLines(lines[..i + 1]) == ParseLines(lines[..i]) + OptionToSeq(ParseLine(lines[i]))
  {
    assert lines[..i + 1][..i] == lines[..i];
  }

  /** `POST /api/extract-products`. */
  method ExtractProducts(req: Request) returns (resp: Response)
    ensures resp == BadRequest <==> !Truthy(req.kind) || !Truthy(req.data)
    ensures resp == ServerError <==> Truthy(req.data) && req.kind == Str("text") && !req.data.Str?
    ensures req.kind == Str("text") && req.data.Str? && req.data.s != [] ==> resp == Ok(TextProducts(req.data.s))
    ensures req.kind == Str("image") && Truthy(req.data) ==> resp == Ok(ImageProducts)
    ensures Truthy(req.kind) && Truthy(req.data) && req.kind != Str("text") && req.kind != Str("image") ==> resp == Ok([])
  {
    if !Truthy(req.kind) || !Truthy(req.data) {
      return BadRequest;
    }
    var products: seq<Entry> := [];
    if req.kind == Str("text") {
      if !req.data.Str? {
        // `content.split` is not a function: the handler's catch answers 500
        return ServerError;
      }
      products := ExtractText(req.data.s);
    } else if req.kind == Str("image") {
      products := ImageProducts;
    }
    return Ok(products);
  }

  // ----- Properties -----

  /** Dropping blank lines first changes nothing: they contribute no entry. */
  lemma {:induction false} NonBlankParse(lines: seq<string>)
    ensures ParseLines(NonBlank(lines)) == ParseLines(lines)
  {
    if lines != [] {
      var init, last := lines[..|lines| - 1], lines[|lines| - 1];
      assert init + [last] == lines;
      NonBlankParse(init);
      if Trim(last) != [] {
        assert NonBlank(lines) == NonBlank(init) + [last];
        ParseLinesAppend(NonBlank(init), [last]);
        assert [last][..0] == [];
        assert ParseLines([last]) == OptionToSeq(ParseLine(last));
      } else {
        assert NonBlank(lines) == NonBlank(init);
        assert ParseLine(last) == None;
      }
    }
  }

  /** The line pass is a concatenation over lines: the entries of `a + b` are those of `a`
      followed by those of `b`. */
  lemma {:induction false} ParseLinesAppend(a: seq<string>, b: seq<string>)
    ensures ParseLines(a + b) == ParseLines(a) + ParseLines(b)
    decreases |b|
  {
    if b == [] {
      assert a + b == a;
    } else {
      var init := b[..|b| - 1];
      assert (a + b)[..|a + b| - 1] == a + init;
      ParseLinesAppend(a, init);
    }
  }

  /** In line order, at most one entry per line. */
  lemma {:induction false} ParseLinesAtMostOnePerLine(lines: seq<string>)
    ensures |ParseLines(lines)| <= |lines|
  {
    if lines != [] {
      ParseLinesAtMostOnePerLine(lines[..|lines| - 1]);
    }
  }

  /** A blank line contributes nothing, wherever it stands. */
  lemma BlankLineContributesNothing(a: seq<string>, blank: string, b: seq<string>)
    requires AllSpace(blank)
    ensures ParseLines(a + [blank] + b) == ParseLines(a) + ParseLines(b)
  {
    var ab := a + [blank];
    assert ParseLines(a + [blank] + b) == ParseLines(ab) + ParseLines(b) by { ParseLinesAppend(ab, b); }
    assert ParseLines(ab) == ParseLines(a) by {
      ParseLinesAppend(a, [blank]);
      ParseLinesSingle(blank);
      BlankLineNone(blank);
    }
  }

  lemma BlankLineNone(blank: string)
    requires AllSpace(blank)
    ensures ParseLine(blank) == None
  {
  }

  lemma ParseLinesSingle(line: string)
    ensures ParseLines([line]) == OptionToSeq(ParseLine(line))
  {
    assert [line][..0] == [];
  }

  /** The quantity branch on a line "digits, whitespace, name": the digits' value is the
      quantity and the name, less one connector, is the name. */
  lemma QuantityLine(digits: string, spaces: string, name: string)
    requires digits != [] && AllDigits(digits) && AllSpace(spaces)
    requires name != [] && !IsDigit(name[0]) && IsTrimmed(name)
    requires forall i :: 0 <= i < |name| ==> !IsLineTerminator(name[i])
    ensures ParseLine(digits + spaces + name) == Some(Entry(Trim(StripConnector(name)), DigitsValue(digits)))
  {
    QuantityLineMatch(digits, spaces, name);
    ParseLineOfMatch(digits + spaces + name, digits, name);
  }

  lemma QuantityLineMatch(digits: string, spaces: string, name: string)
    requires digits != [] && AllDigits(digits) && AllSpace(spaces)
    requires name != [] && !IsDigit(name[0]) && IsTrimmed(name)
    requires forall i :: 0 <= i < |name| ==> !IsLineTerminator(name[i])
    ensures var t := digits + spaces + name; t != [] && Trim(t) == t && QuantityMatch(t) == Some((digits, name))
  {
    LineTrimmed(digits, spaces, name);
    LineMatch(digits, spaces, name);
  }

  lemma LineMatch(digits: string, spaces: string, name: string)
    requires digits != [] && AllDigits(digits) && AllSpace(spaces)
    requires name != [] && !IsDigit(name[0]) && !IsSpace(name[0]) && DotPlusToEnd(name)
    ensures QuantityMatch(digits + spaces + name) == Some((digits, name))
  {
    LineDigits(digits, spaces, name);
    LineParts(digits, spaces, name);
    TakeAllSpaces(digits + spaces + name, |digits|, |spaces|);
    QuantityMatchOf(digits + spaces + name, |digits|, |digits| + |spaces|);
  }

  lemma LineTrimmed(digits: string, spaces: string, name: string)
    requires digits != [] && !IsSpace(digits[0]) && name != [] && !IsSpace(name[|name| - 1])
    ensures var t := digits + spaces + name; Trim(t) == t
  {
    var t := digits + spaces + name;
    assert t[0] == digits[0] && t[|t| - 1] == name[|name| - 1];
    TrimTrimmed(t);
  }

  lemma LineDigits(digits: string, spaces: string, name: string)
    requires AllDigits(digits) && AllSpace(spaces) && name != [] && !IsDigit(name[0])
    ensures LeadingDigits(digits + spaces + name) == |digits|
  {
    var t := digits + spaces + name;
    var n := |digits|;
    assert n < |t| && !IsDigit(t[n]) by {
      if |spaces| > 0 { assert t[n] == spaces[0]; } else { assert t[n] == name[0]; }
    }
    LeadingDigitsExact(t, n);
  }

  lemma LineParts(digits: string, spaces: string, name: string)
    requires AllSpace(spaces) && name != [] && !IsSpace(name[0])
    ensures var t := digits + spaces + name;
      LeadingSpaces(t[|digits|..]) == |spaces| && t[..|digits|] == digits && t[|digits| + |spaces|..] == name
  {
    var rest := spaces + name;
    var t := digits + rest;
    assert digits + spaces + name == t;
    var n, w := |digits|, |spaces|;
    assert t[..n] == digits && t[n..] == rest by { Halves(digits, rest); }
    assert rest[..w] == spaces && rest[w..] == name by { Halves(spaces, name); }
    assert LeadingSpaces(rest) == w by {
      assert rest[w] == name[0];
      LeadingSpacesExact(rest, w);
    }
    assert t[n + w..] == name by { assert t[n + w..] == rest[w..]; }
  }

  /** A trimmed line the quantity pattern matches. */
  lemma ParseLineOfMatch(t: string, digits: string, name: string)
    requires Trim(t) == t && t != [] && QuantityMatch(t) == Some((digits, name))
    ensures ParseLine(t) == Some(Entry(Trim(StripConnector(name)), DigitsValue(digits)))
  {
  }

  /** The two halves of a concatenation. */
  lemma Halves<T>(a: seq<T>, b: seq<T>)
    ensures (a + b)[..|a|] == a && (a + b)[|a|..] == b
  {
  }

  /** A line of digits only: two or more give the last digit as the name and the others as the
      quantity (`"12"` is 1 × "2"); a single digit is a name with quantity 1. */
  lemma DigitsOnlyLine(d: string)
    requires d != [] && AllDigits(d)
    ensures |d| >= 2 ==> ParseLine(d) == Some(Entry(d[|d| - 1..], DigitsValue(d[..|d| - 1])))
    ensures |d| == 1 ==> ParseLine(d) == Some(Entry(d, 1))
  {
    if |d| >= 2 {
      SeveralDigitsLine(d);
    } else {
      assert d == [d[0]];
      OneDigitLine(d[0]);
    }
  }

  lemma SeveralDigitsLine(d: string)
    requires |d| >= 2 && AllDigits(d)
    ensures ParseLine(d) == Some(Entry(d[|d| - 1..], DigitsValue(d[..|d| - 1])))
  {
    TrimTrimmed(d);
    LeadingDigitsExact(d, |d|);
    MatchDigitsOnly(d);
    DigitNoConnector(d[|d| - 1..]);
    ParseLineOfMatch(d, d[..|d| - 1], d[|d| - 1..]);
  }

  lemma OneDigitLine(c: char)
    requires IsDigit(c)
    ensures ParseLine([c]) == Some(Entry([c], 1))
  {
    assert Trim([c]) == [c] by { TrimTrimmed([c]); }
    assert QuantityMatch([c]) == None by {
      LeadingDigitsExact([c], 1);
      MatchDigitsOnly([c]);
    }
    ParseLineOfNoMatch([c]);
  }

  /** A trimmed line the quantity pattern does not match and that starts with no bullet. */
  lemma ParseLineOfNoMatch(t: string)
    requires Trim(t) == t && t != [] && QuantityMatch(t) == None && !IsBullet(t[0])
    ensures ParseLine(t) == Some(Entry(t, 1))
  {
  }

  /** A digit starts no connector word. */
  lemma DigitNoConnector(s: string)
    requires |s| == 1 && IsDigit(s[0])
    ensures Trim(StripConnector(s)) == s
  {
    assert FirstConnector(s, 0) == |Connectors| by { NoConnectorFrom(s, 0); }
    TrimTrimmed(s);
  }

  lemma {:induction false} NoConnectorFrom(s: string, j: nat)
    requires j <= |Connectors| && s != [] && IsDigit(s[0])
    ensures FirstConnector(s, j) == |Connectors|
    decreases |Connectors| - j
  {
    if j < |Connectors| {
      assert Connectors[j][0] != LowerChar(s[0]);
      NoConnectorFrom(s, j + 1);
    }
  }

  /** A line that is blank or, once trimmed, a single bullet character. */
  predicate YieldsNothing(line: string) {
    var t := Trim(line);
    t == [] || (|t| == 1 && IsBullet(t[0]))
  }

  /** A line gives no entry exactly when it is blank or, once trimmed, a single bullet character:
      every other line gives one, even a bullet followed by text. */
  lemma ParseLineNone(line: string)
    ensures ParseLine(line) == None <==> YieldsNothing(line)
  {
    var t := Trim(line);
    if t != [] {
      if |t| == 1 && IsBullet(t[0]) {
        assert LeadingDigits(t) == 0;
        assert QuantityMatch(t) == None;
        assert StripBullet(t) == [];
      } else if QuantityMatch(t) == None {
        var s := StripBullet(t);
        if IsBullet(t[0]) {
          assert s != [] by {
            assert |t| > 1;
            assert t[1..][|t| - 2] == t[|t| - 1];
          }
        }
        assert Trim(s) != [] by {
          assert s != [] && !IsSpace(s[0]);
        }
      }
    }
  }

  /** Every line yields nothing. */
  predicate NoneYield(lines: seq<string>) {
    lines == [] || (NoneYield(lines[..|lines| - 1]) && YieldsNothing(lines[|lines| - 1]))
  }

  /** The line pass finds nothing exactly when every line yields nothing. */
  lemma {:induction false} ParseLinesEmpty(lines: seq<string>)
    ensures ParseLines(lines) == [] <==> NoneYield(lines)
  {
    if lines != [] {
      var init, last := lines[..|lines| - 1], lines[|lines| - 1];
      assert ParseLines(lines) == ParseLines(init) + OptionToSeq(ParseLine(last));
      assert ParseLines(init) == [] <==> NoneYield(init) by {
        ParseLinesEmpty(init);
      }
      assert ParseLine(last) == None <==> YieldsNothing(last) by {
        ParseLineNone(last);
      }
    }
  }

  lemma {:induction false} NoneYieldAt(lines: seq<string>, i: nat)
    requires NoneYield(lines) && i < |lines|
    ensures YieldsNothing(lines[i])
  {
    if i < |lines| - 1 {
      NoneYieldAt(lines[..|lines| - 1], i);
    }
  }

  /** When the line pass finds nothing, every non-blank character of the text is a bullet character. */
  lemma OnlyBulletsLeft(content: string, c: char)
    requires ParseLines(SplitOn(content, '\n')) == []
    requires c in content && !IsSpace(c)
    ensures IsBullet(c)
  {
    NothingYields(SplitOn(content, '\n'));
    NoneYieldBullets(content, c);
  }

  lemma NothingYields(lines: seq<string>)
    requires ParseLines(lines) == []
    ensures NoneYield(lines)
  {
    ParseLinesEmpty(lines);
  }

  lemma NoneYieldBullets(content: string, c: char)
    requires NoneYield(SplitOn(content, '\n'))
    requires c in content && !IsSpace(c)
    ensures IsBullet(c)
  {
    var lines := SplitOn(content, '\n');
    var i := LineHolding(lines, c);
    assert YieldsNothing(lines[i]) by { NoneYieldAt(lines, i); }
    var j :| 0 <= j < |lines[i]| && lines[i][j] == c;
    BulletLine(lines[i], j);
  }

  /** A line holding `c`, when `c` is not the separator. */
  lemma LineHolding(lines: seq<string>, c: char) returns (i: nat)
    requires c in Join(lines, '\n') && c != '\n'
    ensures i < |lines| && c in lines[i]
  {
    JoinChars(lines, '\n', c);
    i :| 0 <= i < |lines| && c in lines[i];
  }

  /** The only non-blank character of a line that yields nothing is a bullet. */
  lemma BulletLine(line: string, j: nat)
    requires YieldsNothing(line) && j < |line| && !IsSpace(line[j])
    ensures IsBullet(line[j])
  {
    var t := Trim(line);
    assert line[j] in t by { TrimKeeps(line, j); }
    assert t == [t[0]];
  }

  /** The fallback finds nothing among tokens that are not vocabulary words. */
  lemma {:induction false} FallbackOfNonWords(words: seq<string>)
    requires forall i :: 0 <= i < |words| ==> words[i] !in Vocabulary
    ensures Fallback(words) == []
  {
    if words != [] {
      FallbackOfNonWords(words[..|words| - 1]);
    }
  }

  /** The fallback can never find anything: it runs only when every non-blank character of the
      text is a bullet character, and a token made of such characters is no vocabulary word.
      This holds for any tokenizer whose tokens are made of non-blank characters of the
      lower-cased text, the natural library's WordTokenizer as much as the `split(/\s+/)` path. */
  lemma FallbackFindsNothing(content: string, tokens: seq<string>)
    requires ParseLines(SplitOn(content, '\n')) == []
    requires forall i, k :: 0 <= i < |tokens| && 0 <= k < |tokens[i]| ==> !IsSpace(tokens[i][k]) && tokens[i][k] in Lower(content)
    ensures Fallback(tokens) == []
  {
    assert NoneYield(SplitOn(content, '\n')) by { ParseLinesEmpty(SplitOn(content, '\n')); }
    forall i | 0 <= i < |tokens| ensures tokens[i] !in Vocabulary {
      if tokens[i] != [] {
        assert IsBullet(tokens[i][0]) by { LowerBullet(content, tokens[i][0]); }
      }
      NotAWord(tokens[i]);
    }
    FallbackOfNonWords(tokens);
  }

  /** Every vocabulary word starts with a letter. */
  lemma NotAWord(w: string)
    requires w == [] || IsBullet(w[0])
    ensures w !in Vocabulary
  {
  }

  /** A non-blank character of the lower-cased text is a bullet when the line pass finds nothing. */
  lemma LowerBullet(content: string, x: char)
    requires NoneYield(SplitOn(content, '\n'))
    requires x in Lower(content) && !IsSpace(x)
    ensures IsBullet(x)
  {
    var lower := Lower(content);
    var k :| 0 <= k < |lower| && lower[k] == x;
    assert !IsSpace(content[k]);
    NoneYieldBullets(content, content[k]);
  }

  /** So the products of a text request are exactly those of the line pass. */
  lemma TextProductsAreLinePass(content: string)
    ensures TextProducts(content) == ParseLines(SplitOn(content, '\n'))
  {
    if ParseLines(SplitOn(content, '\n')) == [] {
      FallbackFindsNothing(content, SplitWs(Lower(content)));
    }
  }

  /** The fallback keeps vocabulary words in token order, duplicates included. */
  lemma {:induction false} FallbackAppend(a: seq<string>, b: seq<string>)
    ensures Fallback(a + b) == Fallback(a) + Fallback(b)
    decreases |b|
  {
    if b == [] {
      assert a + b == a;
    } else {
      assert (a + b)[..|a + b| - 1] == a + b[..|b| - 1];
      FallbackAppend(a, b[..|b| - 1]);
    }
  }

  /** Every fallback entry is a vocabulary word with quantity 1, and there is one per such token. */
  lemma {:induction false} FallbackEntries(words: seq<string>)
    ensures |Fallback(words)| <= |words|
    ensures forall e :: e in Fallback(words) ==> e.name in Vocabulary && e.quantity == 1
  {
    if words != [] {
      FallbackEntries(words[..|words| - 1]);
    }
  }
}
