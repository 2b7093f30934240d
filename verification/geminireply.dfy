/** The Python language service (nlp-service/main.py): the conversion of reply lines into
    `{name, query}` records, the clean-up of the model's reply text before `json.loads`, and the
    dispatch of `/api/extract-products` with its one retry. The model's reply text is a
    parameter, and so is `json.loads`, as a function that gives `None` where it would raise. */
module GeminiReply {
  import opened Wrappers
  import opened Js
  import opened Py
  import opened Seqs

  /** `{"name": name, "query": query}`. */
  datatype Record = Record(name: string, query: string)

  /** The record of a line that is not blank: its first word and the stripped line, which starts
      with that word. */
  function RecordOf(line: string): (r: Record)
    requires !AllPySpace(line)
    ensures IsWord(r.name) && StartsWith(r.query, r.name)
    ensures r.query == Strip(line) && r.query != []
    ensures r.name == Split(line)[0]
  {
    FirstTokenStartsStripped(line);
    Record(Split(line)[0], Strip(line))
  }

  /** The records one line contributes: none when it is blank after `strip`. */
  function LineRecords(line: string): seq<Record> {
    if AllPySpace(line) then [] else [RecordOf(line)]
  }

  /** What `convert_to_final_format` returns: a record per line, the blank ones skipped. */
  function FinalFormat(items: seq<string>): seq<Record> {
    if items == [] then []
    else FinalFormat(items[..|items| - 1]) + LineRecords(items[|items| - 1])
  }

  /** `convert_to_final_format(items)`. */
  method ConvertToFinalFormat(items: seq<string>) returns (result: seq<Record>)
    ensures result == FinalFormat(items)
  {
    result := [];
    for k := 0 to |items|
      invariant result == FinalFormat(items[..k])
    {
      var line := items[k];
      assert items[..k + 1][..k] == items[..k];
      if Strip(line) != [] {
        var name := Split(line)[0];
        var query := Strip(line);
        result := result + [Record(name, query)];
      }
    }
    assert items[..|items|] == items;
  }

  /** The lines that are not blank, in order: the reference the records are read against. */
  function NonBlank(items: seq<string>): (r: seq<string>)
    ensures forall j :: 0 <= j < |r| ==> !AllPySpace(r[j])
  {
    if items == [] then []
    else
      var line := items[|items| - 1];
      NonBlank(items[..|items| - 1]) + (if AllPySpace(line) then [] else [line])
  }

  /** The kept lines are exactly the lines that `strip` does not empty. */
  lemma {:induction false} NonBlankMembers(items: seq<string>, line: string)
    ensures line in NonBlank(items) <==> line in items && Strip(line) != []
  {
    if items != [] {
      var init := items[..|items| - 1];
      NonBlankMembers(init, line);
      assert items == init + [items[|items| - 1]];
    }
  }

  /** One record per line that is not blank, in input order: record `j` is made from the `j`-th
      such line. */
  lemma {:induction false} OneRecordPerLine(items: seq<string>)
    ensures |FinalFormat(items)| == |NonBlank(items)|
    ensures forall j :: 0 <= j < |NonBlank(items)| ==> FinalFormat(items)[j] == RecordOf(NonBlank(items)[j])
  {
    if items != [] {
      OneRecordPerLine(items[..|items| - 1]);
    }
  }

  /** The records of two lists of lines in a row are the records of each, in a row. */
  lemma {:induction false} FinalFormatAppend(a: seq<string>, b: seq<string>)
    ensures FinalFormat(a + b) == FinalFormat(a) + FinalFormat(b)
    decreases |b|
  {
    if b == [] {
      assert a + b == a;
    } else {
      InitOfAppend(a, b);
      FinalFormatAppend(a, b[..|b| - 1]);
      AppendAssoc(FinalFormat(a), FinalFormat(b[..|b| - 1]), LineRecords(b[|b| - 1]));
    }
  }

  /** A blank line adds no record. */
  lemma BlankLineSkipped(items: seq<string>, line: string)
    requires AllPySpace(line)
    ensures FinalFormat(items + [line]) == FinalFormat(items)
  {
    assert (items + [line])[..|items|] == items;
  }

  /** Every record has a one-word name that its query starts with, and a query with no
      whitespace at either end. */
  lemma {:induction false} RecordsWellFormed(items: seq<string>)
    ensures forall j :: 0 <= j < |FinalFormat(items)| ==>
      IsWord(FinalFormat(items)[j].name) && StartsWith(FinalFormat(items)[j].query, FinalFormat(items)[j].name)
  {
    if items != [] {
      RecordsWellFormed(items[..|items| - 1]);
    }
  }

  /** The message of a reply that `json.loads` refused. */
  const ParseFailed := "Failed to parse Gemini response"
  const ParseFailedAfterCleaning := "Failed to parse Gemini response after cleaning"

  /** What a handler returns: the parsed JSON, or `{"error": error, "raw": raw}`. */
  datatype Reply<J> = Parsed(value: J) | ParseError(error: string, raw: string)

  /** `json.loads(content)`, with the error dictionary in place of the exception. */
  function Load<J>(content: string, loads: string -> Option<J>, message: string): (r: Reply<J>)
    ensures r.Parsed? <==> loads(content).Some?
    ensures r.Parsed? ==> r.value == loads(content).value
    ensures r.ParseError? ==> r.error == message && r.raw == content
  {
    match loads(content)
    case Some(v) => Parsed(v)
    case None => ParseError(message, content)
  }

  /** The text `handle_text_input` gives to `json.loads`. */
  function TextContent(reply: string): string {
    var content := Strip(reply);
    if StartsWith(content, "json") then Strip(Replace(Replace(content, "json", ""), "", ""))
    else if StartsWith(content, "") then Strip(Replace(content, Fence, ""))
    else content
  }

  /** `handle_text_input`, after the model has replied. */
  function HandleText<J>(reply: string, loads: string -> Option<J>): Reply<J> {
    Load(TextContent(reply), loads, ParseFailed)
  }

  /** A reply starting with "json" loses its "json"s and keeps every backtick. */
  lemma TextJsonBranch(reply: string)
    requires StartsWith(Strip(reply), "json")
    ensures TextContent(reply) == Strip(Replace(Strip(reply), "json", ""))
    ensures Backticks(TextContent(reply)) == Backticks(reply)
  {
    var content := Strip(reply);
    ReplaceEmptyIsIdentity(Replace(content, "json", ""));
    BackticksStrip(reply);
    BackticksJsonRemoval(content);
    BackticksStrip(Replace(content, "json", ""));
  }

  /** Any other reply loses every triple backtick. */
  lemma TextOtherBranch(reply: string)
    requires !StartsWith(Strip(reply), "json")
    ensures TextContent(reply) == Strip(Replace(Strip(reply), Fence, ""))
    ensures NoFence(TextContent(reply))
  {
    StartsWithEmpty(Strip(reply));
    NoFenceAfterRemoval(Strip(reply));
    StripKeepsNoFence(Replace(Strip(reply), Fence, ""));
  }

  /** The text `handle_list_input` gives to `json.loads`. */
  function ListContent(reply: string): string {
    var c0 := Strip(reply);
    var c1 := if StartsWith(c0, "json") then Strip(Replace(Replace(c0, "json", ""), "", "")) else c0;
    var c2 := if StartsWith(c1, "```json") then Strip(Replace(c1, "```json", "")) else c1;
    var c3 := if StartsWith(c2, Fence) then Strip(Replace(c2, Fence, "")) else c2;
    if StartsWith(c3, "") then Strip(Replace(c3, Fence, "")) else c3
  }

  /** `handle_list_input`, after the model has replied. */
  function HandleList<J>(reply: string, loads: string -> Option<J>): Reply<J> {
    Load(ListContent(reply), loads, ParseFailed)
  }

  /** The last step always runs, so what the list handler parses never holds a triple
      backtick. */
  lemma ListContentNoFence(reply: string)
    ensures NoFence(ListContent(reply))
  {
    var c0 := Strip(reply);
    var c1 := if StartsWith(c0, "json") then Strip(Replace(Replace(c0, "json", ""), "", "")) else c0;
    var c2 := if StartsWith(c1, "```json") then Strip(Replace(c1, "```json", "")) else c1;
    var c3 := if StartsWith(c2, Fence) then Strip(Replace(c2, Fence, "")) else c2;
    StartsWithEmpty(c3);
    NoFenceAfterRemoval(c3);
    StripKeepsNoFence(Replace(c3, Fence, ""));
  }

  /** The second clean-up in `process_input`: every "json" and then every triple backtick
      removed, then stripped. */
  function RetryContent(raw: string): (cleaned: string)
    ensures NoFence(cleaned)
  {
    NoFenceAfterRemoval(Replace(raw, "json", ""));
    StripKeepsNoFence(Replace(Replace(raw, "json", ""), Fence, ""));
    Strip(Replace(Replace(raw, "json", ""), Fence, ""))
  }

  /** A "json" can survive the second clean-up: removing the fence joins its halves. */
  lemma RetryCanLeaveJson()
    ensures RetryContent("js```on") == "json"
  {
    SplitJsonHasNoJson();
    SplitJsonJoins();
    StripJson();
  }

  lemma StripJson()
    ensures Strip("json") == "json"
  {
    assert LeadingWs("json") == 0;
    assert TrailingWs("json") == 0;
  }

  lemma SplitJsonHasNoJson()
    ensures Replace("js```on", "json", "") == "js```on"
  {
    var s := "js```on";
    assert s[..4] != "json" by { assert s[2] != 'o'; }
    assert s[1..][..4] != "json" by { assert s[1] != 'j'; }
    assert s[2..][..4] != "json" by { assert s[2] != 'j'; }
    assert s[3..][..4] != "json" by { assert s[3] != 'j'; }
    assert |s[4..]| < 4;
    assert s[1..][1..] == s[2..] && s[2..][1..] == s[3..] && s[3..][1..] == s[4..];
  }

  lemma SplitJsonJoins()
    ensures Replace("js```on", Fence, "") == "json"
  {
    var s := "js```on";
    assert s[..3] != Fence by { assert s[0] != '`'; }
    assert s[1..][..3] != Fence by { assert s[1] != '`'; }
    assert s[2..][..3] == Fence;
    assert s[2..][3..] == "on";
    assert s[1..][1..] == s[2..];
  }

  /** The `type` and `content` of the request body, as `InputPayload` reads them. */
  datatype Content = Text(text: string) | List | OtherJson
  datatype Payload = Payload(kind: string, content: Content)

  /** `InputPayload`: the type is one of the three literals and the content a string or a list. */
  predicate ValidPayload(p: Payload) {
    (p.kind == "image" || p.kind == "text" || p.kind == "list") && !p.content.OtherJson?
  }

  /** What the retry test sees in a parsed reply: not a dictionary with both "error" and "raw",
      one whose "raw" is a string, or one whose "raw" is something else. */
  datatype RawField = NoRaw | RawText(text: string) | RawOther

  /** The answer of `/api/extract-products`. */
  datatype Response<J> = Unprocessable | ServerError | BadRequest | Ok(body: Reply<J>)

  /** `process_input(payload)`, with the model's reply `reply`. The request is refused with 422
      before the handler runs when the body does not fit `InputPayload`; `handle_image_input`
      reads `image` before it is assigned, so an image request ends in a 500; a text reply that
      fails to parse is cleaned once more and parsed again. */
  function ProcessInput<J>(p: Payload, reply: string, loads: string -> Option<J>, inspect: J -> RawField): (r: Response<J>)
    ensures r == Unprocessable <==> !ValidPayload(p)
    ensures r != BadRequest
    ensures ValidPayload(p) && p.kind == "image" ==> r == ServerError
    ensures ValidPayload(p) && p.kind == "list" ==> r == Ok(HandleList(reply, loads))
  {
    if !ValidPayload(p) then Unprocessable
    else if p.kind == "image" then ServerError
    else if p.kind == "text" then
      match HandleText(reply, loads)
      case ParseError(_, raw) => Ok(Load(RetryContent(raw), loads, ParseFailedAfterCleaning))
      case Parsed(v) =>
        match inspect(v)
        case NoRaw => Ok(Parsed(v))
        case RawText(s) => Ok(Load(RetryContent(s), loads, ParseFailedAfterCleaning))
        case RawOther => ServerError
    else if p.kind == "list" then Ok(HandleList(reply, loads))
    else BadRequest
  }

  /** A text reply that does not parse is parsed once more, cleaned of every fence; if that also
      fails, the answer carries the cleaned text. */
  lemma TextRetried<J>(p: Payload, reply: string, loads: string -> Option<J>, inspect: J -> RawField)
    requires ValidPayload(p) && p.kind == "text" && loads(TextContent(reply)).None?
    ensures var cleaned := RetryContent(TextContent(reply));
      NoFence(cleaned) &&
      ProcessInput(p, reply, loads, inspect) ==
        if loads(cleaned).Some? then Ok(Parsed(loads(cleaned).value)) else Ok(ParseError(ParseFailedAfterCleaning, cleaned))
  {
  }

  /** A text reply that parses to anything but an error dictionary is the answer as it is. */
  lemma TextParsed<J>(p: Payload, reply: string, loads: string -> Option<J>, inspect: J -> RawField)
    requires ValidPayload(p) && p.kind == "text" && loads(TextContent(reply)).Some?
    requires inspect(loads(TextContent(reply)).value) == NoRaw
    ensures ProcessInput(p, reply, loads, inspect) == Ok(Parsed(loads(TextContent(reply)).value))
  {
  }

  /** A text reply that parses to a dictionary holding both "error" and "raw" is retried on its
      "raw" when that is a string; any other "raw" makes `.replace` raise, and the answer is a 500. */
  lemma TextErrorDictionary<J>(p: Payload, reply: string, loads: string -> Option<J>, inspect: J -> RawField)
    requires ValidPayload(p) && p.kind == "text" && loads(TextContent(reply)).Some?
    requires !inspect(loads(TextContent(reply)).value).NoRaw?
    ensures var field := inspect(loads(TextContent(reply)).value);
      field.RawOther? ==> ProcessInput(p, reply, loads, inspect) == ServerError
    ensures var field := inspect(loads(TextContent(reply)).value);
      field.RawText? ==>
        var cleaned := RetryContent(field.text);
        NoFence(cleaned) &&
        ProcessInput(p, reply, loads, inspect) ==
          if loads(cleaned).Some? then Ok(Parsed(loads(cleaned).value)) else Ok(ParseError(ParseFailedAfterCleaning, cleaned))
  {
  }

  /** The number of backticks in `s`. */
  function Backticks(s: string): nat {
    if s == [] then 0 else (if s[0] == '`' then 1 else 0) + Backticks(s[1..])
  }

  lemma {:induction false} BackticksAppend(a: string, b: string)
    ensures Backticks(a + b) == Backticks(a) + Backticks(b)
  {
    if a == [] {
      assert a + b == b;
    } else {
      assert (a + b)[0] == a[0] && (a + b)[1..] == a[1..] + b;
      BackticksAppend(a[1..], b);
    }
  }

  /** Whitespace holds no backtick. */
  lemma {:induction false} BackticksOfSpace(s: string)
    requires AllPySpace(s)
    ensures Backticks(s) == 0
  {
    if s != [] {
      assert AllPySpace(s[1..]) by {
        forall i | 0 <= i < |s[1..]| ensures IsPySpace(s[1..][i]) {
          assert s[1..][i] == s[i + 1];
        }
      }
      BackticksOfSpace(s[1..]);
    }
  }

  /** Stripping removes only whitespace, so no backtick. */
  lemma BackticksStrip(s: string)
    ensures Backticks(Strip(s)) == Backticks(s)
  {
    var i := LeadingWs(s);
    var r := Strip(s);
    var j := i + |r|;
    var front, back := s[..i], s[j..];
    assert Backticks(s) == Backticks(front) + Backticks(r) + Backticks(back) by {
      assert s == (front + r) + back;
      BackticksAppend(front + r, back);
      BackticksAppend(front, r);
    }
    assert AllPySpace(front) by {
      forall k | 0 <= k < i ensures IsPySpace(front[k]) {
        assert front[k] == s[k];
      }
    }
    assert AllPySpace(back) by {
      StripTail(s);
      forall k | 0 <= k < |s| - j ensures IsPySpace(back[k]) {
        assert back[k] == s[j + k];
      }
    }
    BackticksOfSpace(front);
    BackticksOfSpace(back);
  }

  /** Removing "json" removes no backtick. */
  lemma {:induction false} BackticksJsonRemoval(s: string)
    ensures Backticks(Replace(s, "json", "")) == Backticks(s)
    decreases |s|
  {
    if |s| < 4 {
      assert |s| < |"json"|;
      assert Replace(s, "json", "") == s;
    } else {
      if s[..4] == "json" {
        BackticksJsonRemoval(s[4..]);
        assert Replace(s, "json", "") == "" + Replace(s[4..], "json", "");
        assert "" + Replace(s[4..], "json", "") == Replace(s[4..], "json", "");
        assert s == s[..4] + s[4..];
        BackticksAppend(s[..4], s[4..]);
        assert Backticks(s[..4]) == 0 by {
          assert s[..4] == "json";
          assert Backticks("json") == 0;
        }
      } else {
        BackticksJsonRemoval(s[1..]);
        var rest := Replace(s[1..], "json", "");
        assert Replace(s, "json", "") == [s[0]] + rest;
        assert ([s[0]] + rest)[0] == s[0] && ([s[0]] + rest)[1..] == rest;
      }
    }
  }
}
