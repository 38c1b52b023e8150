# httptopostman in Dafny

httptopostman reads a `.http` request file line by line and converts it into a
Postman v2.1.0 collection. This project models the two core parts of
`main.go`:

- `parseURL` splits a request URL into its raw text, its protocol, a one-element
  host list and the path segments after it.
- The line loop of `parseHTTPFile` trims each line and dispatches on it in a
  fixed order: a `###` separator, a method line (`GET`, `POST`, `PUT`, `DELETE`
  or `PATCH` followed by a space), a header line (`key: value`), a body-opening
  `{` line, and a body continuation. After every line it checks whether a
  request is pending. If one is, it appends an item and clears the
  accumulator.

Three modules:

- `GoStrings` (`go_strings.dfy`) restates the Go `strings` functions the
  converter calls, over `seq<char>`. These are `HasPrefix`, `TrimPrefix`,
  `Split`, `SplitN(_, _, 2)`, `TrimSpace` and `Fields`; `strings.Contains`
  with a one-character argument (main.go:106) is Dafny's `in`. `HasPrefix` is
  stated by its definition (a length test and a comparison of the leading
  slice); each of the others has lemmas saying what it computes.
- `UrlDecomposer` (`url_decomposer.dfy`) models `parseURL` as a pure function
  with a `Url` datatype. It proves which protocol is reported and what the
  host and path are. It also proves that host and path, joined with `/` behind
  the scheme, give back the input, and the converse round trip for
  well-formed URL objects.
- `HttpFileParser` (`line_parser.dfy`) holds the record shapes (`Header`,
  `Body`, `Request`, `Item`, `Info`, `Collection`) and three views of the loop:
  - The imperative method `ParseHTTPFile` keeps the Go loop's local variables
    (`verb`, `url`, `headers`, `requestBody`, `isBody`) and its branch order.
    (`method` is a Dafny keyword, so the Go variable `method` is called
    `verb`.)
  - A fold `Parse` applies one `Step` per line to a `State` record.
  - `RequestItems` is the reference definition: one item per method line.

The central result is about what the collection holds. The emission check
runs right after a method line has reset the accumulator, so every method line
yields exactly one item. That item is named by the line's URL and carries the
line's verb, no header and no body. Headers and bodies that follow are
accumulated, but they are discarded or overwritten before the next emission.
The model reproduces this behaviour as the code has it:

- `ParseHTTPFile` is proved to return `RequestItems(lines)`.
- `ParseItems` proves that the `Step` fold produces the same items.
- `ItemsAreBare` and `HeaderAfterRequestIsDropped` state the consequence.

Two guards in the loop can never matter:

- The test `len(parts) >= 2` (main.go:100) always holds on a trimmed method
  line (`MethodLineFields`).
- Lines 139-140 do not reset `isBody`. This cannot be observed, because an
  item is only ever emitted right after a method line has set `isBody` to
  false (`MethodLine`).

## Model

| member | source | states |
|---|---|---|
| GoStrings.TrimPrefix | main.go:53-58 | with the prefix present, prefix plus result is the input; otherwise the input is returned unchanged |
| GoStrings.IndexByte | main.go:107 | the result is -1 exactly when the character is absent; otherwise it is the position of the character's first occurrence |
| GoStrings.SplitFirst | main.go:107-108 | on text holding the separator: before + separator + after is the text, and `before` holds no separator (the cut is at the first one) |
| GoStrings.Split | main.go:60 | at least one part; no part holds the separator; joining the parts with the separator gives the text back |
| GoStrings.SplitJoin | main.go:60 | splitting the join of a non-empty list of separator-free parts gives the list back, empty parts included |
| GoStrings.LeadingSpaces | main.go:92 | the count of leading characters stops at the length or at a non-whitespace character |
| GoStrings.LeadingAreSpace | main.go:92 | every character LeadingSpaces counts is whitespace |
| GoStrings.TrailingSpaces | main.go:92 | the count of trailing characters stops at the length or at a non-whitespace character |
| GoStrings.TrailingAreSpace | main.go:92 | every character TrailingSpaces counts is whitespace |
| GoStrings.TrimSpace | main.go:92 | the result neither starts nor ends with whitespace |
| GoStrings.TrimSpaceStripsEnds | main.go:92 | the input is its leading whitespace, then the TrimSpace result, then whitespace only: nothing inside is removed |
| GoStrings.TrimSpaceOfTrimmed | main.go:92 | a string with no whitespace at either end is its own TrimSpace (trimming twice is trimming once) |
| GoStrings.WordLength | main.go:99 | the first word ends at the end of the text or at a whitespace character |
| GoStrings.WordHasNoSpace | main.go:99 | the first word holds no whitespace |
| GoStrings.WordOf | main.go:99 | a whitespace-free text followed by whitespace or by nothing is exactly the first word |
| GoStrings.FieldsAreWords | main.go:99 | every field is non-empty and holds no whitespace |
| GoStrings.FieldsKeepText | main.go:99 | the fields put back together are the input with its whitespace removed: no other character is lost, reordered or added |
| GoStrings.SqueezeAppend | main.go:99 | removing whitespace distributes over concatenation |
| GoStrings.SqueezeAll | main.go:99 | removing whitespace from all-whitespace text leaves nothing, and from whitespace-free text leaves it unchanged |
| GoStrings.FieldsSkipSpace | main.go:99 | a leading whitespace character does not change the fields |
| GoStrings.FieldsAfterWord | main.go:99 | a word and a whitespace character followed by more text: the word is the first field, then come the fields of the rest |
| GoStrings.FieldsOfWord | main.go:99 | a non-empty word with nothing after it is the only field |
| GoStrings.LeadingSpacesOfSpace | main.go:92-99 | in text made of whitespace only, every character is leading whitespace |
| GoStrings.FieldsOfSpace | main.go:99 | text made of whitespace only has no field; with FieldsSkipSpace, FieldsAfterWord and FieldsOfWord this determines Fields on every input |
| GoStrings.FieldsHead | main.go:99 | text with a non-space character has a first field, the first word after the leading whitespace |
| GoStrings.SecondField | main.go:99-101 | for a word, a space and text with a non-space character: at least two fields, the word first and the first word of that text second |
| GoStrings.NonSpaceSurvivesTrimLeft | main.go:92-99 | text ending in a non-space character is not emptied by removing leading whitespace |
| UrlDecomposer.ParseURL | main.go:45-66 | the raw text is the input, the host list has exactly one element, the protocol is "", "http" or "https" |
| UrlDecomposer.ProtocolOf | main.go:53-59 | the protocol is "http" iff the URL starts with "http://", "https" iff it starts with "https://", and "" iff neither |
| UrlDecomposer.SchemeRemoved | main.go:53-59 | the URL is the prefix of the reported protocol followed by the text that is split |
| UrlDecomposer.SplitHead | main.go:60-62 | the first part is a prefix of the text, followed by a separator when shorter; there is one part iff no separator occurs |
| UrlDecomposer.HostAndPath | main.go:60-64 | after the scheme: the host is the text before the first '/', the path is empty iff there is no '/', segments hold no '/', and host and path joined by '/' are the text |
| UrlDecomposer.UnparseParse | main.go:45-66 | writing the decomposed URL back (scheme, then host and path joined by '/') gives the input |
| UrlDecomposer.SchemeRecovered | main.go:53-59 | the scheme split recovers the protocol written in front of a text, and the text after it |
| UrlDecomposer.ParseUnparse | main.go:45-66 | a URL object with one host, '/'-free segments, a consistent protocol and its own rendering as raw text decomposes back to itself |
| UrlDecomposer.NoSchemeKeepsText | main.go:53-64 | without a scheme the protocol is "" and host and path joined are the whole input |
| UrlDecomposer.SecureTwoSegments | main.go:45-66 | "https://" + host + "/" + a + "/" + b decomposes into protocol "https", host [host] and path [a, b] |
| UrlDecomposer.BareHost | main.go:60-64 | a '/'-free URL with no scheme is its own single host, with no protocol and no path |
| UrlDecomposer.EmptyExample | main.go:60-64 | the empty URL has one empty host and no path |
| HttpFileParser.MatchedVerb | main.go:12 | the verb a method line starts with is one of the five, followed by a space |
| HttpFileParser.VerbHasNoSpace | main.go:12 | each of the five verbs is non-empty and holds no whitespace |
| HttpFileParser.ParseHeader | main.go:106-109 | the key is the trimmed text before the first ':', the value the trimmed text after it |
| HttpFileParser.Dispatch | main.go:98-115 | dispatching a line never touches the item list |
| HttpFileParser.Emit | main.go:117-141 | when verb and url are both non-empty, the item built from the accumulator is appended and verb, url, headers and body are cleared while body mode is kept; otherwise the state is unchanged |
| HttpFileParser.MethodLineShape | main.go:98-99 | a trimmed method line is its verb, a space and a rest that keeps a non-space character after leading whitespace is removed |
| HttpFileParser.MethodLineFields | main.go:99-101 | on a trimmed method line there are at least two fields, the verb and a non-empty target, so the length test always passes |
| HttpFileParser.SeparatorLine | main.go:94-96 | a line starting with "###" after trimming changes nothing |
| HttpFileParser.MethodLineIsNoSeparator | main.go:94-98 | a method line never starts with "###" |
| HttpFileParser.DispatchMethodLine | main.go:98-105 | a method line sets verb and url from its first two fields and clears headers, body mode and body |
| HttpFileParser.MethodLine | main.go:98-141 | from any state a method line appends exactly one item with its verb, its target and no header or body; afterwards verb, url, headers and body are empty and body mode is off |
| HttpFileParser.HeaderLine | main.go:106-109 | from an idle state (which `ParseItems` shows every between-line state is) with body mode off, a trimmed line that does not start with "###", is not a method line and holds ':' appends its parsed header after the earlier ones and changes nothing else, even when it starts with '{' |
| HttpFileParser.BodyLine | main.go:110-115 | from an idle state (which `ParseItems` shows every between-line state is), a trimmed line that does not start with "###", is not a method line, and either holds no ':' or comes in body mode, and either starts with '{' or comes in body mode, is appended to the body with no separator and turns body mode on; nothing else changes |
| HttpFileParser.IgnoredLine | main.go:98-115 | from an idle state with body mode off, a trimmed line that is not a method line, holds no ':' and does not start with '{' changes nothing |
| HttpFileParser.OtherLine | main.go:94-141 | with no request pending, a non-method line appends no item and leaves no request pending |
| HttpFileParser.ParseItems | main.go:91-142 | after any sequence of lines no request is pending, and the items are exactly one bare item per method line, in input order |
| HttpFileParser.ItemsAreBare | main.go:117-138 | every item has one of the five verbs, no header, no body, and the decomposition of the URL it is named by |
| HttpFileParser.StepAppends | main.go:138 | one line keeps the earlier items as a prefix and adds at most one |
| HttpFileParser.ItemsOnlyGrow | main.go:138 | the items after any prefix of the input are a prefix of the final items |
| HttpFileParser.NoMethodLineNoItem | main.go:91-142 | input without a method line yields no item |
| HttpFileParser.HeaderAfterRequestIsDropped | main.go:98-141 | a method line followed by a header line emits the bare item; the header is left in the accumulator and never reaches that item |
| HttpFileParser.CopyHeaders | main.go:126-131 | the copied header list equals the accumulated one, element for element and in order |
| HttpFileParser.ParseHTTPFile | main.go:75-148 | the collection info is "Generated Collection" with the v2.1.0 schema URL, and the items are exactly `RequestItems(lines)`; the loop keeps its locals and the items equal to the `Parse` fold of the lines read so far |
| HttpFileParser.IsMethodLine | main.go:12 | no contract of its own: the prefix form of the pattern; `MatchedVerb`, `MethodLineShape` and `MethodLineIsNoSeparator` state what it accepts |
| HttpFileParser.Target | main.go:99-101 | no contract of its own: the first word after the verb; `MethodLineFields` shows it is the second field and never empty |
| HttpFileParser.BuildItem | main.go:118-136 | no contract of its own: the item built from the accumulator; `Emit` states when it is appended and `ItemsAreBare` what it holds in practice |
| HttpFileParser.Step | main.go:92-141 | no contract of its own: one loop iteration; `SeparatorLine`, `MethodLine`, `HeaderLine`, `BodyLine`, `IgnoredLine`, `OtherLine` and `StepAppends` state its behaviour per kind of line |
| HttpFileParser.Parse | main.go:91-142 | no contract of its own: the fold of `Step` over the lines; `ParseItems`, `ItemsOnlyGrow` and `NoMethodLineNoItem` state its behaviour, and `ParseHTTPFile` keeps its loop equal to it |
| HttpFileParser.RequestItems | main.go:91-142 | no contract of its own: the reference definition, one bare item per method line in order; `ParseItems`, `ItemsAreBare` and `ParseHTTPFile` relate it to the loop |
| UrlDecomposer.SplitScheme | main.go:53-59 | no contract of its own: the scheme test; `ProtocolOf`, `SchemeRemoved` and `SchemeRecovered` state what it returns |
| GoStrings.HasPrefix | main.go:53-56 | no contract of its own: `strings.HasPrefix`, the length test and the comparison of the leading slice; also used at main.go:94 and 110 |
| GoStrings.Fields | main.go:99 | no contract of its own: `strings.Fields` over the ASCII whitespace set; `FieldsOfSpace`, `FieldsSkipSpace`, `FieldsAfterWord` and `FieldsOfWord` fix it on every input, `FieldsAreWords` and `FieldsKeepText` state what it returns |

## Left out

- Opening and closing the file (main.go:69-73) and the scanner's error check (main.go:144-146) are not modelled. `ParseHTTPFile` takes the lines as a sequence and has no error result.
- `bufio.Scanner` is not modelled: neither how it splits lines nor its line-length limit.
- The regular expression `^(GET|POST|PUT|DELETE|PATCH) ` is not executed by a regexp engine. `IsMethodLine` is the equivalent prefix test: one of the five verbs, then one space, at the start of the line.
- JSON encoding, struct tags and `omitempty`, and `main` (main.go:151-171) are not modelled. A field that Go leaves at its zero value is `""` or `[]` in the model. Go's `nil` and empty slices are not distinguished.
- GoStrings.TrimSpace: whitespace is the six ASCII characters `' '`, `'\t'`, `'\n'`, `'\v'`, `'\f'` and `'\r'`. Go's `unicode.IsSpace` also accepts U+0085, U+00A0 and other Unicode spaces, which are ordinary characters here. The same holds for GoStrings.Fields.
- Headers are accumulated as `map[string]string` values and copied into structs (main.go:109, 126-131). Both are the `Header` record here.
- The `strings.Builder` body buffer is a `string`.
- Go strings are byte sequences; the model uses `seq<char>`. The two agree on valid UTF-8 input, because every delimiter the code tests (`/`, `:`, `{`, `###` and ASCII whitespace) is ASCII. Invalid UTF-8 input cannot be represented.
