/**
 * The parts of Go's `strings` package that the converter relies on, restated
 * over `seq<char>`. Whitespace is the ASCII set that `unicode.IsSpace`
 * accepts below 0x80.
 */
module GoStrings {

  /** ' ', '\t', '\n', '\v', '\f', '\r' */
  predicate IsSpace(c: char) {
    c == ' ' || c == '\t' || c == '\n' || c == '\r' || c == 11 as char || c == 12 as char
  }

  predicate AllSpace(s: string) {
    forall i :: 0 <= i < |s| ==> IsSpace(s[i])
  }

  predicate NoSpace(s: string) {
    forall i :: 0 <= i < |s| ==> !IsSpace(s[i])
  }

  /** Neither end of `s` is whitespace. */
  predicate IsTrimmed(s: string) {
    s == [] || (!IsSpace(s[0]) && !IsSpace(s[|s| - 1]))
  }

  /** strings.HasPrefix */
  predicate HasPrefix(s: string, prefix: string) {
    |prefix| <= |s| && s[..|prefix|] == prefix
  }

  /** strings.TrimPrefix */
  function TrimPrefix(s: string, prefix: string): (r: string)
    ensures HasPrefix(s, prefix) ==> prefix + r == s
    ensures !HasPrefix(s, prefix) ==> r == s
  {
    if HasPrefix(s, prefix) then s[|prefix|..] else s
  }

  /** strings.IndexByte: the first position of `c` in `s`, or -1. */
  function IndexByte(s: string, c: char): (k: int)
    ensures -1 <= k < |s|
    ensures k == -1 <==> c !in s
    ensures 0 <= k ==> s[k] == c && c !in s[..k]
  {
    if |s| == 0 then -1
    else if s[0] == c then 0
    else
      var k := IndexByte(s[1..], c);
      if k == -1 then -1 else k + 1
  }

  /** strings.SplitN(s, sep, 2) on a string that holds `sep`: the text before
      and after its first occurrence. */
  function SplitFirst(s: string, sep: char): (parts: (string, string))
    requires sep in s
    ensures parts.0 + [sep] + parts.1 == s
    ensures sep !in parts.0
  {
    var k := IndexByte(s, sep);
    (s[..k], s[k + 1..])
  }

  /** strings.Join with a one-character separator. */
  function Join(parts: seq<string>, sep: char): string
  {
    if |parts| == 0 then ""
    else if |parts| == 1 then parts[0]
    else parts[0] + [sep] + Join(parts[1..], sep)
  }

  /** strings.Split with a one-character separator: never empty, no part holds
      the separator, and joining the parts gives `s` back. */
  function Split(s: string, sep: char): (parts: seq<string>)
    ensures |parts| >= 1
    ensures forall i :: 0 <= i < |parts| ==> sep !in parts[i]
    ensures Join(parts, sep) == s
    decreases |s|
  {
    var k := IndexByte(s, sep);
    if k < 0 then [s]
    else
      var head := s[..k];
      var rest := Split(s[k + 1..], sep);
      var parts := [head] + rest;
      assert parts[0] == head && parts[1..] == rest;
      assert Join(parts, sep) == head + [sep] + Join(rest, sep);
      assert s == head + [sep] + s[k + 1..];
      assert forall i :: 1 <= i < |parts| ==> parts[i] == rest[i - 1];
      parts
  }

  /** Split inverts Join on every non-empty list of separator-free parts. */
  lemma {:induction false} SplitJoin(parts: seq<string>, sep: char)
    requires |parts| >= 1
    requires forall i :: 0 <= i < |parts| ==> sep !in parts[i]
    ensures Split(Join(parts, sep), sep) == parts
  {
    if |parts| > 1 {
      var s := Join(parts, sep);
      var tail := Join(parts[1..], sep);
      assert s == parts[0] + [sep] + tail;
      assert s[..|parts[0]|] == parts[0];
      assert s[|parts[0]|] == sep;
      var k := IndexByte(s, sep);
      assert k == |parts[0]|;
      assert s[k + 1..] == tail;
      SplitJoin(parts[1..], sep);
    }
  }

  /** The number of whitespace characters `s` starts with. */
  function LeadingSpaces(s: string): (n: nat)
    ensures n <= |s|
    ensures n == |s| || !IsSpace(s[n])
  {
    if |s| > 0 && IsSpace(s[0]) then 1 + LeadingSpaces(s[1..]) else 0
  }

  /** The characters LeadingSpaces counts are all whitespace. */
  lemma {:induction false} LeadingAreSpace(s: string)
    ensures AllSpace(s[..LeadingSpaces(s)])
  {
    if |s| > 0 && IsSpace(s[0]) {
      LeadingAreSpace(s[1..]);
      assert s[..LeadingSpaces(s)] == [s[0]] + s[1..][..LeadingSpaces(s[1..])];
    }
  }

  /** The number of whitespace characters `s` ends with. */
  function TrailingSpaces(s: string): (n: nat)
    ensures n <= |s|
    ensures n == |s| || !IsSpace(s[|s| - n - 1])
  {
    if |s| > 0 && IsSpace(s[|s| - 1]) then 1 + TrailingSpaces(s[..|s| - 1]) else 0
  }

  /** The characters TrailingSpaces counts are all whitespace. */
  lemma {:induction false} TrailingAreSpace(s: string)
    ensures AllSpace(s[|s| - TrailingSpaces(s)..])
  {
    if |s| > 0 && IsSpace(s[|s| - 1]) {
      var u := s[..|s| - 1];
      TrailingAreSpace(u);
      assert s[|s| - TrailingSpaces(s)..] == u[|u| - TrailingSpaces(u)..] + [s[|s| - 1]];
    }
  }

  /** strings.TrimLeft(s, whitespace) */
  function TrimLeft(s: string): string
  {
    s[LeadingSpaces(s)..]
  }

  /** strings.TrimRight(s, whitespace) */
  function TrimRight(s: string): string
  {
    s[..|s| - TrailingSpaces(s)]
  }

  /** strings.TrimSpace: `s` with its leading and trailing whitespace removed. */
  function TrimSpace(s: string): (r: string)
    ensures IsTrimmed(r)
  {
    TrimRight(TrimLeft(s))
  }

  /** Cutting `s` at `n` and a prefix `r` of the rest at its length. */
  lemma Sandwich(s: string, n: nat, t: string, r: string)
    requires n <= |s| && t == s[n..] && |r| <= |t| && r == t[..|r|]
    ensures n + |r| <= |s|
    ensures s == s[..n] + r + s[n + |r|..]
    ensures s[n + |r|..] == t[|r|..]
  {
  }

  /** TrimSpace removes whitespace only, and only at the two ends: `s` is its
      leading whitespace, then TrimSpace(s), then nothing but whitespace. */
  lemma TrimSpaceStripsEnds(s: string)
    ensures var n, r := LeadingSpaces(s), TrimSpace(s);
            && n + |r| <= |s|
            && s == s[..n] + r + s[n + |r|..]
            && AllSpace(s[..n]) && AllSpace(s[n + |r|..])
  {
    var n, t := LeadingSpaces(s), TrimLeft(s);
    LeadingAreSpace(s);
    TrailingAreSpace(t);
    Sandwich(s, n, t, TrimRight(t));
  }

  /** A trimmed string is its own TrimSpace. */
  lemma TrimSpaceOfTrimmed(s: string)
    requires IsTrimmed(s)
    ensures TrimSpace(s) == s
  {
    assert LeadingSpaces(s) == 0 && TrailingSpaces(s) == 0;
    assert s[0..] == s && s[..|s|] == s;
  }

  /** The length of the longest prefix of `s` free of whitespace. */
  function WordLength(s: string): (n: nat)
    ensures n <= |s|
    ensures n == |s| || IsSpace(s[n])
  {
    if |s| == 0 || IsSpace(s[0]) then 0 else 1 + WordLength(s[1..])
  }

  /** The longest prefix of `s` free of whitespace. */
  function Word(s: string): string
  {
    s[..WordLength(s)]
  }

  /** Word holds no whitespace. */
  lemma {:induction false} WordHasNoSpace(s: string)
    ensures NoSpace(Word(s))
  {
    if |s| > 0 && !IsSpace(s[0]) {
      WordHasNoSpace(s[1..]);
      assert Word(s) == [s[0]] + Word(s[1..]);
    }
  }

  /** A word followed by whitespace (or by nothing) is the leading Word. */
  lemma {:induction false} WordOf(w: string, rest: string)
    requires NoSpace(w)
    requires rest == [] || IsSpace(rest[0])
    ensures WordLength(w + rest) == |w|
    ensures Word(w + rest) == w
  {
    if w == [] {
      assert w + rest == rest;
    } else {
      WordOf(w[1..], rest);
      assert (w + rest)[1..] == w[1..] + rest;
    }
    assert (w + rest)[..|w|] == w;
  }

  /** strings.Fields: the maximal runs of non-whitespace characters, in order. */
  function Fields(s: string): seq<string>
    decreases |s|
  {
    var t := TrimLeft(s);
    if t == [] then []
    else
      var n := WordLength(t);
      assert n > 0 by {
        assert t[0] == s[LeadingSpaces(s)];
      }
      [t[..n]] + Fields(t[n..])
  }

  /** Prepending a non-empty word to a list of non-empty words. */
  lemma ConsWord(w: string, rest: seq<string>)
    requires |w| > 0 && NoSpace(w)
    requires forall i :: 0 <= i < |rest| ==> |rest[i]| > 0 && NoSpace(rest[i])
    ensures forall i :: 0 <= i < |[w] + rest| ==> |([w] + rest)[i]| > 0 && NoSpace(([w] + rest)[i])
  {
    forall i | 0 < i < |[w] + rest|
      ensures ([w] + rest)[i] == rest[i - 1]
    {
    }
  }

  /** Every field is a non-empty run of non-whitespace characters. */
  lemma {:induction false} FieldsAreWords(s: string)
    ensures forall i :: 0 <= i < |Fields(s)| ==> |Fields(s)[i]| > 0 && NoSpace(Fields(s)[i])
    decreases |s|
  {
    var t := TrimLeft(s);
    if t != [] {
      var n := WordLength(t);
      assert n > 0 by {
        assert t[0] == s[LeadingSpaces(s)];
      }
      FieldsAreWords(t[n..]);
      WordHasNoSpace(t);
      ConsWord(t[..n], Fields(t[n..]));
    }
  }

  /** `s` with every whitespace character removed. */
  function Squeeze(s: string): string
  {
    if s == [] then []
    else (if IsSpace(s[0]) then [] else [s[0]]) + Squeeze(s[1..])
  }

  function Concat(parts: seq<string>): string
  {
    if parts == [] then [] else parts[0] + Concat(parts[1..])
  }

  lemma {:induction false} SqueezeAppend(a: string, b: string)
    ensures Squeeze(a + b) == Squeeze(a) + Squeeze(b)
  {
    if a != [] {
      assert (a + b)[1..] == a[1..] + b;
      SqueezeAppend(a[1..], b);
    } else {
      assert a + b == b;
    }
  }

  lemma {:induction false} SqueezeAll(s: string)
    ensures AllSpace(s) ==> Squeeze(s) == []
    ensures NoSpace(s) ==> Squeeze(s) == s
  {
    if s != [] {
      SqueezeAll(s[1..]);
    }
  }

  /** Cutting `s` at `n`. */
  lemma CutAt(s: string, n: nat)
    requires n <= |s|
    ensures s == s[..n] + s[n..]
  {
  }

  /** One round of FieldsKeepText: whitespace, a word, and text whose fields
      keep its text. */
  lemma KeepTextStep(s: string, lead: string, t: string, w: string, rest: string, fields: seq<string>)
    requires s == lead + t && t == w + rest
    requires Squeeze(lead) == [] && Squeeze(w) == w
    requires Concat(fields) == Squeeze(rest)
    ensures Concat([w] + fields) == Squeeze(s)
  {
    SqueezeAppend(lead, t);
    SqueezeAppend(w, rest);
    assert ([w] + fields)[1..] == fields;
  }

  /** Fields loses exactly the whitespace of `s`: the fields, put back together,
      are `s` without its whitespace characters. */
  lemma {:induction false} FieldsKeepText(s: string)
    ensures Concat(Fields(s)) == Squeeze(s)
    decreases |s|
  {
    var m, t := LeadingSpaces(s), TrimLeft(s);
    var lead := s[..m];
    LeadingAreSpace(s);
    SqueezeAll(lead);
    CutAt(s, m);
    if t != [] {
      var n := WordLength(t);
      assert n > 0 by {
        assert t[0] == s[m];
      }
      var w, rest := t[..n], t[n..];
      WordHasNoSpace(t);
      SqueezeAll(w);
      CutAt(t, n);
      FieldsKeepText(rest);
      KeepTextStep(s, lead, t, w, rest, Fields(rest));
    } else {
      assert |t| == |s| - m == 0;
      assert s == lead;
    }
  }

  /** A leading whitespace character does not change the fields. */
  lemma FieldsSkipSpace(c: char, s: string)
    requires IsSpace(c)
    ensures Fields([c] + s) == Fields(s)
  {
    assert ([c] + s)[1..] == s;
    assert TrimLeft([c] + s) == TrimLeft(s);
  }

  /** A word followed by a whitespace character is the first field, and the
      fields of the text after that character follow it. */
  lemma FieldsAfterWord(w: string, c: char, rest: string)
    requires |w| > 0 && NoSpace(w) && IsSpace(c)
    ensures Fields(w + [c] + rest) == [w] + Fields(rest)
  {
    var s := w + [c] + rest;
    assert s == w + ([c] + rest);
    assert LeadingSpaces(s) == 0;
    WordOf(w, [c] + rest);
    assert s[|w|..] == [c] + rest;
    FieldsSkipSpace(c, rest);
  }

  /** A word with nothing after it is the only field. */
  lemma FieldsOfWord(w: string)
    requires |w| > 0 && NoSpace(w)
    ensures Fields(w) == [w]
  {
    assert LeadingSpaces(w) == 0;
    WordOf(w, []);
    assert w + [] == w;
  }

  /** Text made of whitespace only counts entirely as leading whitespace. */
  lemma {:induction false} LeadingSpacesOfSpace(s: string)
    requires AllSpace(s)
    ensures LeadingSpaces(s) == |s|
  {
    if s != [] {
      LeadingSpacesOfSpace(s[1..]);
    }
  }

  /** Text made of whitespace only has no field. */
  lemma FieldsOfSpace(s: string)
    requires AllSpace(s)
    ensures Fields(s) == []
  {
    LeadingSpacesOfSpace(s);
  }

  /** Text holding a non-space character has a first field: the first word
      after the leading whitespace. */
  lemma FieldsHead(s: string)
    requires TrimLeft(s) != []
    ensures |Fields(s)| >= 1 && Fields(s)[0] == Word(TrimLeft(s)) != []
  {
    assert TrimLeft(s)[0] == s[LeadingSpaces(s)];
  }

  /** In a word, a space and a text holding a non-space character, the second
      field is the first word of that text. */
  lemma SecondField(s: string, w: string, rest: string)
    requires s == w + " " + rest
    requires |w| > 0 && NoSpace(w) && TrimLeft(rest) != []
    ensures |Fields(s)| >= 2
    ensures Fields(s)[0] == w
    ensures Fields(s)[1] == Word(TrimLeft(rest)) != []
  {
    FieldsHead(rest);
    FieldsAfterWord(w, ' ', rest);
    ConsSecond(Fields(s), w, Fields(rest));
  }

  /** The first two elements of a list with a known head and tail. */
  lemma ConsSecond(all: seq<string>, w: string, tail: seq<string>)
    requires all == [w] + tail && |tail| >= 1
    ensures |all| >= 2 && all[0] == w && all[1] == tail[0]
  {
  }

  /** A text ending in a non-space character keeps something after TrimLeft. */
  lemma {:induction false} NonSpaceSurvivesTrimLeft(s: string)
    requires s != [] && !IsSpace(s[|s| - 1])
    ensures TrimLeft(s) != []
    decreases |s|
  {
    if IsSpace(s[0]) {
      assert s[1..][|s| - 2] == s[|s| - 1];
      NonSpaceSurvivesTrimLeft(s[1..]);
    }
  }
}
