/**
 * parseURL: splits a request URL into the raw text, the scheme, the host and
 * the path segments of a Postman URL object.
 */
module UrlDecomposer {
  import opened GoStrings

  /** The `url` object of a Postman request. An absent protocol is "" (Go's
      zero value, dropped by `omitempty`), an absent path is []. */
  datatype Url = Url(raw: string, protocol: string, host: seq<string>, path: seq<string>)

  /** The text a protocol stands for at the head of a URL. */
  function SchemePrefix(protocol: string): string
  {
    if protocol == "" then "" else protocol + "://"
  }

  /** Splits off an exact, case-sensitive "http://" or "https://" prefix. */
  function SplitScheme(url: string): (r: (string, string))
  {
    if HasPrefix(url, "http://") then ("http", TrimPrefix(url, "http://"))
    else if HasPrefix(url, "https://") then ("https", TrimPrefix(url, "https://"))
    else ("", url)
  }

  function ParseURL(url: string): (u: Url)
    ensures u.raw == url
    ensures |u.host| == 1
    ensures u.protocol == "" || u.protocol == "http" || u.protocol == "https"
  {
    var (protocol, rest) := SplitScheme(url);
    var parts := Split(rest, '/');
    Url(url, protocol, [parts[0]], if |parts| > 1 then parts[1..] else [])
  }

  /** Writes a URL object back as text: the scheme, then host and path joined
      by '/'. */
  function Unparse(u: Url): string
  {
    SchemePrefix(u.protocol) + Join(u.host + u.path, '/')
  }

  /** The protocol is "http" exactly when the URL starts with "http://", "https"
      exactly when it starts with "https://", and empty otherwise. */
  lemma ProtocolOf(url: string)
    ensures ParseURL(url).protocol == "http" <==> HasPrefix(url, "http://")
    ensures ParseURL(url).protocol == "https" <==> HasPrefix(url, "https://")
    ensures ParseURL(url).protocol == "" <==> !HasPrefix(url, "http://") && !HasPrefix(url, "https://")
  {
    if HasPrefix(url, "https://") {
      assert url[4] == "https://"[4];
    }
  }

  /** The scheme SplitScheme removes is the one it reports. */
  lemma SchemeRemoved(url: string)
    ensures url == SchemePrefix(SplitScheme(url).0) + SplitScheme(url).1
  {
    if HasPrefix(url, "http://") {
      assert SchemePrefix("http") == "http://";
    } else if HasPrefix(url, "https://") {
      assert SchemePrefix("https") == "https://";
    }
  }

  /** The first part of a split is the text before the first separator, and
      there is a second part exactly when the separator occurs. */
  lemma SplitHead(s: string, sep: char)
    ensures var parts := Split(s, sep);
            && HasPrefix(s, parts[0])
            && (|parts[0]| < |s| ==> s[|parts[0]|] == sep)
            && (|parts| == 1 <==> sep !in s)
  {
  }

  /** Host and path: with the scheme removed, the host is the text before the
      first '/', the path is the '/'-separated segments after it, in order and
      with empty segments kept, and host and path joined by '/' give the
      stripped text back. */
  lemma HostAndPath(url: string)
    ensures var u := ParseURL(url);
            var rest := url[|SchemePrefix(u.protocol)|..];
            && HasPrefix(url, SchemePrefix(u.protocol))
            && '/' !in u.host[0]
            && HasPrefix(rest, u.host[0])
            && (|u.host[0]| < |rest| ==> rest[|u.host[0]|] == '/')
            && (u.path == [] <==> '/' !in rest)
            && (forall i :: 0 <= i < |u.path| ==> '/' !in u.path[i])
            && Join(u.host + u.path, '/') == rest
  {
    var u := ParseURL(url);
    var (protocol, rest) := SplitScheme(url);
    SchemeRemoved(url);
    var parts := Split(rest, '/');
    SplitHead(rest, '/');
    assert u.host + u.path == parts;
    assert url[|SchemePrefix(u.protocol)|..] == rest;
  }

  /** Writing the decomposed URL back gives the original text. */
  lemma UnparseParse(url: string)
    ensures Unparse(ParseURL(url)) == url
  {
    HostAndPath(url);
  }

  /** SplitScheme recovers a scheme written in front of a text. */
  lemma SchemeRecovered(protocol: string, body: string)
    requires protocol == "http" || protocol == "https"
             || (protocol == "" && !HasPrefix(body, "http://") && !HasPrefix(body, "https://"))
    ensures SplitScheme(SchemePrefix(protocol) + body) == (protocol, body)
  {
    var url := SchemePrefix(protocol) + body;
    if protocol == "http" {
      assert url[..7] == "http://";
    } else if protocol == "https" {
      assert url[..8] == "https://";
      assert url[4] == 's';
    } else {
      assert url == body;
    }
  }

  /** A URL object with one host, '/'-free segments and a raw text that is its
      own rendering decomposes back to itself, unless it has no protocol and
      its text nevertheless starts with a scheme. */
  lemma ParseUnparse(u: Url)
    requires |u.host| == 1
    requires forall i :: 0 <= i < |u.host + u.path| ==> '/' !in (u.host + u.path)[i]
    requires u.protocol == "http" || u.protocol == "https"
             || (u.protocol == "" && !HasPrefix(Unparse(u), "http://") && !HasPrefix(Unparse(u), "https://"))
    requires u.raw == Unparse(u)
    ensures ParseURL(u.raw) == u
  {
    var body := Join(u.host + u.path, '/');
    SchemeRecovered(u.protocol, body);
    SplitJoin(u.host + u.path, '/');
    var parts := Split(body, '/');
    assert [parts[0]] == u.host;
    assert (if |parts| > 1 then parts[1..] else []) == u.path;
  }

  /** A URL with no scheme is split as it stands and has no protocol. */
  lemma NoSchemeKeepsText(url: string)
    requires !HasPrefix(url, "http://") && !HasPrefix(url, "https://")
    ensures ParseURL(url).protocol == ""
    ensures Join(ParseURL(url).host + ParseURL(url).path, '/') == url
  {
    HostAndPath(url);
  }

  /** "https://" + host + "/" + a + "/" + b, as in
      "https://api.example.com/v1/users", decomposes into "https", [host] and
      [a, b]. */
  lemma SecureTwoSegments(host: string, a: string, b: string)
    requires '/' !in host && '/' !in a && '/' !in b
    ensures var url := "https://" + host + "/" + a + "/" + b;
            ParseURL(url) == Url(url, "https", [host], [a, b])
  {
    var u := Url("https://" + host + "/" + a + "/" + b, "https", [host], [a, b]);
    assert u.host + u.path == [host, a, b];
    assert Join([host, a, b], '/') == host + "/" + a + "/" + b by {
      assert Join([host, a, b], '/') == host + ['/'] + Join([a, b], '/');
      assert [host, a, b][1..] == [a, b];
      assert [a, b][1..] == [b];
    }
    assert u.raw == Unparse(u);
    ParseUnparse(u);
  }

  /** A host with no '/' and no scheme in front, as "example.com", is the
      whole host and there is no path. */
  lemma BareHost(host: string)
    requires '/' !in host
    requires !HasPrefix(host, "http://") && !HasPrefix(host, "https://")
    ensures ParseURL(host) == Url(host, "", [host], [])
  {
    ParseUnparse(Url(host, "", [host], []));
  }

  /** The empty URL has the one empty host segment and no path. */
  lemma EmptyExample()
    ensures ParseURL("") == Url("", "", [""], [])
  {
  }
}
