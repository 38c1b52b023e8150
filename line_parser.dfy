/**
 * parseHTTPFile: one forward pass over the lines of a `.http` file that builds
 * a Postman v2.1.0 collection. The accumulator (verb, url, headers, the body
 * buffer and the body flag) is updated line by line and an item is appended
 * to the collection whenever verb and url are both set after a line.
 */
module HttpFileParser {
  import opened GoStrings
  import opened UrlDecomposer

  datatype Header = Header(key: string, value: string)

  /** `mode` is "raw" when a body was accumulated; both fields are "" otherwise. */
  datatype Body = Body(mode: string, raw: string)

  datatype Request = Request(verb: string, header: seq<Header>, body: Body, url: Url)

  datatype Item = Item(name: string, request: Request)

  datatype Info = Info(name: string, schema: string)

  datatype Collection = Collection(info: Info, item: seq<Item>)

  const CollectionName: string := "Generated Collection"
  const SchemaURL: string := "https://schema.getpostman.com/json/collection/v2.1.0/collection.json"

  const Verbs: seq<string> := ["GET", "POST", "PUT", "DELETE", "PATCH"]

  /** The pattern `^(GET|POST|PUT|DELETE|PATCH) `: a verb and one literal space
      at the very start of the line. */
  predicate IsMethodLine(line: string) {
    HasPrefix(line, "GET ") || HasPrefix(line, "POST ") || HasPrefix(line, "PUT ")
    || HasPrefix(line, "DELETE ") || HasPrefix(line, "PATCH ")
  }

  /** The verb a method line starts with. */
  function MatchedVerb(line: string): (v: string)
    requires IsMethodLine(line)
    ensures v in Verbs && HasPrefix(line, v + " ")
  {
    if HasPrefix(line, "GET ") then "GET"
    else if HasPrefix(line, "POST ") then "POST"
    else if HasPrefix(line, "PUT ") then "PUT"
    else if HasPrefix(line, "DELETE ") then "DELETE"
    else "PATCH"
  }

  /** The request target of a method line: the first word after the verb. */
  function Target(line: string): string
    requires IsMethodLine(line)
  {
    Word(TrimLeft(line[|MatchedVerb(line)| + 1..]))
  }

  /** A header line is cut at its first ':' and both halves are trimmed. */
  function ParseHeader(line: string): (h: Header)
    requires ':' in line
    ensures exists k :: 0 <= k < |line| && line[k] == ':' && ':' !in line[..k]
                        && h == Header(TrimSpace(line[..k]), TrimSpace(line[k + 1..]))
  {
    var (key, value) := SplitFirst(line, ':');
    assert line[|key|] == ':' && line[..|key|] == key && line[|key| + 1..] == value;
    Header(TrimSpace(key), TrimSpace(value))
  }

  /** The item built from the accumulator (main.go:118-136). */
  function BuildItem(verb: string, url: string, headers: seq<Header>, requestBody: string): Item
  {
    Item(url, Request(verb, headers,
                      if |requestBody| > 0 then Body("raw", requestBody) else Body("", ""),
                      ParseURL(url)))
  }

  /** The item a method line ends up as: no header, no body. */
  function BareItem(verb: string, url: string): Item
  {
    Item(url, Request(verb, [], Body("", ""), ParseURL(url)))
  }

  /** The accumulator of the line loop, and the items appended so far. */
  datatype State = State(verb: string, url: string, headers: seq<Header>,
                         requestBody: string, isBody: bool, items: seq<Item>)

  const Initial: State := State("", "", [], "", false, [])

  /** Between two lines no request is pending. */
  predicate Idle(s: State) {
    s.verb == "" && s.url == ""
  }

  /** The precedence chain of main.go:98-115 on a trimmed line. */
  function Dispatch(s: State, line: string): (r: State)
    ensures r.items == s.items
  {
    if IsMethodLine(line) then
      var parts := Fields(line);
      if |parts| >= 2 then
        s.(verb := parts[0], url := parts[1], headers := [], isBody := false, requestBody := "")
      else s
    else if ':' in line && !s.isBody then
      s.(headers := s.headers + [ParseHeader(line)])
    else if HasPrefix(line, "{") then
      s.(isBody := true, requestBody := s.requestBody + line)
    else if s.isBody then
      s.(requestBody := s.requestBody + line)
    else s
  }

  /** The emission check of main.go:117-141: when verb and url are both set,
      the item built from the accumulator is appended and verb, url, headers
      and body are cleared (body mode is kept); otherwise nothing changes. */
  function Emit(s: State): (r: State)
    ensures !(r.verb != "" && r.url != "")
    ensures r.isBody == s.isBody
    ensures s.verb != "" && s.url != "" ==>
              r == s.(items := s.items + [BuildItem(s.verb, s.url, s.headers, s.requestBody)],
                      verb := "", url := "", headers := [], requestBody := "")
    ensures !(s.verb != "" && s.url != "") ==> r == s
  {
    if s.verb != "" && s.url != "" then
      s.(items := s.items + [BuildItem(s.verb, s.url, s.headers, s.requestBody)],
         verb := "", url := "", headers := [], requestBody := "")
    else s
  }

  /** One iteration of the loop on the scanner's raw line `text`. */
  function Step(s: State, text: string): State
  {
    var line := TrimSpace(text);
    if HasPrefix(line, "###") then s else Emit(Dispatch(s, line))
  }

  /** The state after the loop has consumed `lines` in order. */
  function Parse(lines: seq<string>): State
  {
    if lines == [] then Initial
    else Step(Parse(lines[..|lines| - 1]), lines[|lines| - 1])
  }

  /** What the collection holds for `lines`: for each method line, in order, a
      bare item named by its target, with its verb and its decomposed URL. */
  function RequestItems(lines: seq<string>): seq<Item>
  {
    if lines == [] then []
    else
      var line := TrimSpace(lines[|lines| - 1]);
      RequestItems(lines[..|lines| - 1])
      + if IsMethodLine(line) then [BareItem(MatchedVerb(line), Target(line))] else []
  }

  /** No verb holds whitespace. */
  lemma VerbHasNoSpace(v: string)
    requires v in Verbs
    ensures |v| > 0 && NoSpace(v)
  {
  }

  /** A method line is its verb, one space and the rest of the line, and on
      a trimmed line that rest holds a non-space character. */
  lemma MethodLineShape(line: string)
    requires IsTrimmed(line) && IsMethodLine(line)
    ensures var v := MatchedVerb(line);
            && line == v + " " + line[|v| + 1..]
            && TrimLeft(line[|v| + 1..]) != []
  {
    var v := MatchedVerb(line);
    var rest := line[|v| + 1..];
    assert line == v + " " + rest;
    assert rest != [] && !IsSpace(rest[|rest| - 1]) by {
      assert line[|line| - 1] == if rest == [] then ' ' else rest[|rest| - 1];
    }
    NonSpaceSurvivesTrimLeft(rest);
  }

  /** On a trimmed method line `strings.Fields` yields at least two fields (so
      the length test at main.go:100 always passes): the verb, then the first
      word after it, which is never empty. */
  lemma MethodLineFields(line: string)
    requires IsTrimmed(line) && IsMethodLine(line)
    ensures |Fields(line)| >= 2
    ensures Fields(line)[0] == MatchedVerb(line)
    ensures Fields(line)[1] == Target(line) != ""
  {
    var v := MatchedVerb(line);
    VerbHasNoSpace(v);
    MethodLineShape(line);
    SecondField(line, v, line[|v| + 1..]);
  }

  /** A separator line changes no accumulator field and appends no item. */
  lemma SeparatorLine(s: State, text: string)
    requires HasPrefix(TrimSpace(text), "###")
    ensures Step(s, text) == s
  {
  }

  /** A method line never starts with "###". */
  lemma MethodLineIsNoSeparator(line: string)
    ensures IsMethodLine(line) ==> !HasPrefix(line, "###")
  {
    if IsMethodLine(line) {
      var v := MatchedVerb(line);
      assert line[0] == v[0] != '#';
    }
  }

  /** A trimmed method line sets verb and url and resets the rest of the
      request accumulator. */
  lemma DispatchMethodLine(s: State, line: string)
    requires IsTrimmed(line) && IsMethodLine(line)
    ensures Dispatch(s, line)
         == s.(verb := MatchedVerb(line), url := Target(line), headers := [], isBody := false, requestBody := "")
  {
    MethodLineFields(line);
  }

  /** A method line, whatever the state before it, appends exactly one item,
      bare (no header, no body) because the line's own reset precedes the
      emission check; afterwards verb, url, headers and body are empty and
      body mode is off. */
  lemma MethodLine(s: State, text: string)
    requires IsMethodLine(TrimSpace(text))
    ensures MatchedVerb(TrimSpace(text)) in Verbs
    ensures Step(s, text).items
         == s.items + [BareItem(MatchedVerb(TrimSpace(text)), Target(TrimSpace(text)))]
    ensures Step(s, text) == s.(verb := "", url := "", headers := [], requestBody := "", isBody := false,
                                items := Step(s, text).items)
  {
    var line := TrimSpace(text);
    var v, url := MatchedVerb(line), Target(line);
    assert v != "" && url != "" by {
      MethodLineFields(line);
      VerbHasNoSpace(v);
    }
    var d := s.(verb := v, url := url, headers := [], isBody := false, requestBody := "");
    assert Step(s, text) == Emit(d) by {
      MethodLineIsNoSeparator(line);
      DispatchMethodLine(s, line);
    }
  }

  /** Outside body mode, a non-method line holding ':' is a header: it is cut
      at its first ':', both halves trimmed, and appended after the earlier
      headers; this wins over a leading '{'. Nothing else changes. */
  lemma HeaderLine(s: State, text: string)
    requires Idle(s) && !s.isBody
    requires var line := TrimSpace(text);
             !HasPrefix(line, "###") && !IsMethodLine(line) && ':' in line
    ensures Step(s, text) == s.(headers := s.headers + [ParseHeader(TrimSpace(text))])
  {
  }

  /** A line opening with '{' (that is not taken as a header), or any line while
      body mode is on, is appended to the body with no separator; body mode is
      then on. Nothing else changes. */
  lemma BodyLine(s: State, text: string)
    requires Idle(s)
    requires var line := TrimSpace(text);
             && !HasPrefix(line, "###") && !IsMethodLine(line)
             && (':' !in line || s.isBody)
             && (HasPrefix(line, "{") || s.isBody)
    ensures Step(s, text) == s.(isBody := true, requestBody := s.requestBody + TrimSpace(text))
  {
  }

  /** Every other line (a blank line or stray text outside body mode) is
      ignored. */
  lemma IgnoredLine(s: State, text: string)
    requires Idle(s) && !s.isBody
    requires var line := TrimSpace(text);
             !IsMethodLine(line) && ':' !in line && !HasPrefix(line, "{")
    ensures Step(s, text) == s
  {
  }

  /** From an idle state, a line that is not a method line appends no item
      and leaves no request pending. */
  lemma OtherLine(s: State, text: string)
    requires Idle(s)
    requires !IsMethodLine(TrimSpace(text))
    ensures Step(s, text).items == s.items
    ensures Idle(Step(s, text))
  {
    var line := TrimSpace(text);
    if !HasPrefix(line, "###") {
      assert Idle(Dispatch(s, line));
    }
  }

  /** The whole pass: no request is ever pending after a line, and the items
      are exactly one bare item per method line, in input order. */
  lemma {:induction false} ParseItems(lines: seq<string>)
    ensures Idle(Parse(lines))
    ensures Parse(lines).items == RequestItems(lines)
  {
    if lines != [] {
      var prefix := lines[..|lines| - 1];
      var text := lines[|lines| - 1];
      ParseItems(prefix);
      var s := Parse(prefix);
      if IsMethodLine(TrimSpace(text)) {
        MethodLine(s, text);
      } else {
        OtherLine(s, text);
      }
    }
  }

  /** An item as the parser emits it: one of the five verbs, no header, no
      body, and the decomposition of the URL it is named by. */
  predicate IsBare(it: Item) {
    && it.request.verb in Verbs
    && it.request.header == []
    && it.request.body == Body("", "")
    && it.request.url == ParseURL(it.name)
  }

  /** Every item carries one of the five verbs, no header and no body, and is
      named by the raw URL it decomposes. */
  lemma {:induction false} ItemsAreBare(lines: seq<string>)
    ensures forall i :: 0 <= i < |RequestItems(lines)| ==> IsBare(RequestItems(lines)[i])
  {
    if lines != [] {
      var prefix := lines[..|lines| - 1];
      var line := TrimSpace(lines[|lines| - 1]);
      ItemsAreBare(prefix);
      var items := RequestItems(prefix);
      var extra := if IsMethodLine(line) then [BareItem(MatchedVerb(line), Target(line))] else [];
      assert RequestItems(lines) == items + extra;
      forall i | 0 <= i < |items + extra|
        ensures IsBare((items + extra)[i])
      {
        if i >= |items| {
          assert (items + extra)[i] == extra[0];
        }
      }
    }
  }

  /** One line appends at most one item and never changes earlier ones. */
  lemma StepAppends(s: State, text: string)
    ensures s.items <= Step(s, text).items
    ensures |Step(s, text).items| <= |s.items| + 1
  {
    var line := TrimSpace(text);
    if !HasPrefix(line, "###") {
      var d := Dispatch(s, line);
      assert Step(s, text) == Emit(d);
    }
  }

  /** The item list only grows by appending: the items after any prefix of
      the input are a prefix of the final items. */
  lemma {:induction false} ItemsOnlyGrow(lines: seq<string>, j: nat)
    requires j <= |lines|
    ensures Parse(lines[..j]).items <= Parse(lines).items
    decreases |lines|
  {
    if j < |lines| {
      var prefix := lines[..|lines| - 1];
      assert lines[..j] == prefix[..j];
      ItemsOnlyGrow(prefix, j);
      StepAppends(Parse(prefix), lines[|lines| - 1]);
    } else {
      assert lines[..j] == lines;
    }
  }

  /** Input without a method line yields no item. */
  lemma {:induction false} NoMethodLineNoItem(lines: seq<string>)
    requires forall i :: 0 <= i < |lines| ==> !IsMethodLine(TrimSpace(lines[i]))
    ensures RequestItems(lines) == []
    ensures Parse(lines).items == []
  {
    ParseItems(lines);
    if lines != [] {
      NoMethodLineNoItem(lines[..|lines| - 1]);
    }
  }

  /** Headers after a method line are accumulated but never reach the
      collection: from any idle state, a method line followed by a header line
      appends one bare item, and the header is left behind in the
      accumulator. */
  lemma HeaderAfterRequestIsDropped(s: State, request: string, header: string)
    requires Idle(s)
    requires IsMethodLine(TrimSpace(request))
    requires var line := TrimSpace(header);
             !HasPrefix(line, "###") && !IsMethodLine(line) && ':' in line
    ensures Step(Step(s, request), header).items
         == s.items + [BareItem(MatchedVerb(TrimSpace(request)), Target(TrimSpace(request)))]
    ensures Step(Step(s, request), header).headers == [ParseHeader(TrimSpace(header))]
  {
    var first := Step(s, request);
    MethodLine(s, request);
    HeaderLine(first, header);
  }

  /** The copy of the accumulated headers into the item (main.go:126-131). */
  method CopyHeaders(headers: seq<Header>) returns (header: seq<Header>)
    ensures header == headers
  {
    header := [];
    for j := 0 to |headers|
      invariant header == headers[..j]
    {
      header := header + [headers[j]];
    }
  }

  /** The loop of parseHTTPFile over the scanner's lines. */
  method ParseHTTPFile(lines: seq<string>) returns (postman: Collection)
    ensures postman.info == Info(CollectionName, SchemaURL)
    ensures postman.item == RequestItems(lines)
  {
    postman := Collection(Info(CollectionName, SchemaURL), []);
    var verb, url := "", "";
    var headers: seq<Header> := [];
    var requestBody := "";
    var isBody := false;

    for i := 0 to |lines|
      invariant postman.info == Info(CollectionName, SchemaURL)
      invariant State(verb, url, headers, requestBody, isBody, postman.item) == Parse(lines[..i])
    {
      ghost var before := State(verb, url, headers, requestBody, isBody, postman.item);
      var line := TrimSpace(lines[i]);
      assert Parse(lines[..i + 1]) == Step(before, lines[i]) by {
        assert lines[..i + 1][..i] == lines[..i];
      }

      if HasPrefix(line, "###") {
        continue;
      }

      if IsMethodLine(line) {
        var parts := Fields(line);
        if |parts| >= 2 {
          verb, url := parts[0], parts[1];
          headers := [];
          isBody := false;
          requestBody := "";
        }
      } else if ':' in line && !isBody {
        var (key, value) := SplitFirst(line, ':');
        assert ParseHeader(line) == Header(TrimSpace(key), TrimSpace(value));
        headers := headers + [Header(TrimSpace(key), TrimSpace(value))];
      } else if HasPrefix(line, "{") {
        isBody := true;
        requestBody := requestBody + line;
      } else if isBody {
        requestBody := requestBody + line;
      }

      if verb != "" && url != "" {
        var header := CopyHeaders(headers);
        var body := Body("", "");
        if |requestBody| > 0 {
          body := Body("raw", requestBody);
        }
        var item := Item(url, Request(verb, header, body, ParseURL(url)));
        postman := postman.(item := postman.item + [item]);
        verb, url, headers := "", "", [];
        requestBody := "";
      }
    }

    assert lines[..|lines|] == lines;
    ParseItems(lines);
  }
}
