/** scripts/download_images.py: keep the rows of the whisky table whose image_url is a string starting
    with "http", derive a file extension from the URL's path, download each image and save it as
    data/images/<id>.<ext>. The network and the disk enter as functions from URL (or file name) to
    outcome; urllib's `urlparse` and posixpath's `splitext` are modelled after CPython. */
module DownloadImages {
  import opened Wrappers
  import Text
  import Seqs

  type Bytes = seq<bv8>

  /** A cell of the image_url column as pandas reads it: a string, a missing value (NaN), or a
      number. */
  datatype Cell = Str(s: string) | Missing | Number(x: real)

  datatype Row = Row(id: int, imageUrl: Cell)

  /** The row filter: `isinstance(x, str) and x.startswith('http')`. */
  predicate IsHttpUrl(c: Cell)
  {
    c.Str? && Text.StartsWith(c.s, "http")
  }

  function Kept(rows: seq<Row>): (r: seq<Row>)
    ensures forall row :: row in r ==> row in rows && IsHttpUrl(row.imageUrl)
  {
    Seqs.Filter((row: Row) => IsHttpUrl(row.imageUrl), rows)
  }

  /** Exactly the rows with an http string URL are processed, in table order, each as often as it
      occurs in the table. */
  lemma KeptIsOrderedSelection(rows: seq<Row>)
    ensures forall row :: row in Kept(rows) <==> row in rows && IsHttpUrl(row.imageUrl)
    ensures forall row :: multiset(Kept(rows))[row] == if IsHttpUrl(row.imageUrl) then multiset(rows)[row] else 0
    ensures Seqs.IsSubsequence(Kept(rows), rows)
  {
    var p := (row: Row) => IsHttpUrl(row.imageUrl);
    forall row
      ensures multiset(Kept(rows))[row] == if IsHttpUrl(row.imageUrl) then multiset(rows)[row] else 0
    {
      Seqs.FilterCount(p, rows, row);
    }
    Seqs.FilterIsSubsequence(p, rows);
  }

  // ---------------------------------------------------------------------------------------------
  // urlparse(url).path


  /** The schemes whose last path segment may carry `;parameters`. */
  const UsesParams: seq<string> := ["", "ftp", "hdl", "prospero", "http", "imap", "https", "shttp",
    "rtsp", "rtsps", "rtspu", "sip", "sips", "mms", "sftp", "tel"]

  /** The leading C0 control characters and spaces urllib strips first. */
  function StripLeading(s: string): (r: string)
    ensures |r| <= |s| && r == s[|s| - |r|..]
    ensures forall k :: 0 <= k < |s| - |r| ==> s[k] <= ' '
    ensures r == [] || r[0] > ' '
  {
    if s == [] || s[0] > ' ' then s else StripLeading(s[1..])
  }

  /** The tab, carriage return and newline characters urllib removes anywhere. */
  function RemoveUnsafe(s: string): (r: string)
    ensures forall k :: 0 <= k < |r| ==> r[k] != '\t' && r[k] != '\r' && r[k] != '\n'
  {
    Text.RemoveAll(Text.RemoveAll(Text.RemoveAll(s, '\t'), '\r'), '\n')
  }

  /** The characters `RemoveUnsafe` keeps. */
  predicate IsSafe(c: char)
  {
    c != '\t' && c != '\r' && c != '\n'
  }

  /** Every character other than tab, carriage return and newline is kept, as often as it occurs
      and in its order: the result is `s` filtered by `IsSafe`. */
  lemma RemoveUnsafeKeepsOthers(s: string)
    ensures RemoveUnsafe(s) == Seqs.Filter(IsSafe, s)
    ensures forall x :: multiset(RemoveUnsafe(s))[x] == if IsSafe(x) then multiset(s)[x] else 0
    ensures Seqs.IsSubsequence(RemoveUnsafe(s), s)
  {
    var a := Text.RemoveAll(s, '\t');
    var b := Text.RemoveAll(a, '\r');
    Text.RemoveAllKeepsOthers(s, '\t');
    Text.RemoveAllKeepsOthers(a, '\r');
    Text.RemoveAllKeepsOthers(b, '\n');
    Seqs.FilterFilter(x => x != '\t', x => x != '\r', x => x != '\t' && x != '\r', s);
    Seqs.FilterFilter(x => x != '\t' && x != '\r', x => x != '\n', IsSafe, s);
    forall x ensures multiset(RemoveUnsafe(s))[x] == if IsSafe(x) then multiset(s)[x] else 0 {
      Seqs.FilterCount(IsSafe, s, x);
    }
    Seqs.FilterIsSubsequence(IsSafe, s);
  }

  predicate IsAsciiAlpha(c: char)
  {
    'a' <= c <= 'z' || 'A' <= c <= 'Z'
  }

  /** urllib's `scheme_chars`: ASCII letters, digits, '+', '-' and '.'. */
  predicate IsSchemeChar(c: char)
  {
    IsAsciiAlpha(c) || '0' <= c <= '9' || c == '+' || c == '-' || c == '.'
  }

  /** `url[:i]` is a scheme: it starts with an ASCII letter and consists of scheme characters. */
  predicate SchemeBefore(url: string, i: nat)
    requires i <= |url|
  {
    i > 0 && IsAsciiAlpha(url[0]) && forall k :: 0 <= k < i ==> IsSchemeChar(url[k])
  }

  /** The end of the network location that starts at `start`: the earliest '/', '?' or '#' at or
      after it, or the end of the string. */
  function NetlocEnd(s: string, start: nat): (r: nat)
    requires start <= |s|
    ensures start <= r <= |s|
    ensures forall k :: start <= k < r ==> s[k] != '/' && s[k] != '?' && s[k] != '#'
    ensures r < |s| ==> s[r] == '/' || s[r] == '?' || s[r] == '#'
    decreases |s| - start
  {
    if start == |s| || s[start] == '/' || s[start] == '?' || s[start] == '#' then start
    else NetlocEnd(s, start + 1)
  }

  datatype SplitUrl = SplitUrl(scheme: string, netloc: string, path: string, query: string, fragment: string)

  /** `s.split(c, 1)` when `c` occurs, else the whole string and "": what precedes the first `c`
      and what follows it. */
  function SplitAtFirst(s: string, c: char): (r: (string, string))
    ensures c !in r.0
    ensures c in s ==> r.0 + [c] + r.1 == s
    ensures c !in s ==> r == (s, "")
  {
    var i := Text.IndexOfFrom(s, c, 0);
    if i >= 0 then
      assert s == s[..i] + [c] + s[i + 1..];
      (s[..i], s[i + 1..])
    else
      assert c !in s by {
        forall k | 0 <= k < |s| ensures s[k] != c {}
      }
      (s, "")
  }

  /** `i` is the position of the first ':' in `url`. */
  predicate IsFirstColon(url: string, i: int)
  {
    0 <= i < |url| && url[i] == ':' && forall k :: 0 <= k < i ==> url[k] != ':'
  }

  /** The scheme, lower-cased, and the rest, when the text before the first ':' is a scheme. */
  function SchemeSplit(url: string): (r: (string, string))
    ensures r.0 == "" ==> r.1 == url
    ensures r.0 == "" ==> forall i :: IsFirstColon(url, i) ==> !SchemeBefore(url, i)
    ensures r.0 != "" ==>
      exists i :: IsFirstColon(url, i) && SchemeBefore(url, i) && r == (Text.Lower(url[..i]), url[i + 1..])
  {
    var colon := Text.IndexOfFrom(url, ':', 0);
    if colon >= 0 && SchemeBefore(url, colon) then
      assert IsFirstColon(url, colon);
      (Text.Lower(url[..colon]), url[colon + 1..])
    else
      assert forall i :: IsFirstColon(url, i) ==> i == colon;
      ("", url)
  }

  /** `_splitnetloc(url, 2)` when the rest starts with "//", else no network location. */
  function NetlocSplit(url: string): (r: (string, string))
    ensures forall k :: 0 <= k < |r.0| ==> r.0[k] != '/' && r.0[k] != '?' && r.0[k] != '#'
    ensures Text.StartsWith(url, "//") ==>
      "//" + r.0 + r.1 == url && (r.1 == [] || r.1[0] == '/' || r.1[0] == '?' || r.1[0] == '#')
    ensures !Text.StartsWith(url, "//") ==> r == ("", url)
  {
    if Text.StartsWith(url, "//") then
      var end := NetlocEnd(url, 2);
      assert url == url[..2] + url[2..end] + url[end..];
      (url[2..end], url[end..])
    else ("", url)
  }

  /** The network location `urlsplit` finds in `raw`. */
  function NetlocOf(raw: string): string
  {
    NetlocSplit(SchemeSplit(RemoveUnsafe(StripLeading(raw))).1).0
  }

  /** `urlsplit(url)`; it raises ValueError("Invalid IPv6 URL") when the network location has one of
      '[' and ']' without the other. */
  function UrlSplit(raw: string): (r: Result<SplitUrl, string>)
    ensures r.Success? <==> ('[' in NetlocOf(raw) <==> ']' in NetlocOf(raw))
    ensures r.Success? ==> r.value.netloc == NetlocOf(raw) && '?' !in r.value.path && '#' !in r.value.path
    ensures r.Failure? ==> r.error == "Invalid IPv6 URL"
  {
    SplitCleaned(RemoveUnsafe(StripLeading(raw)))
  }

  /** The splitting `urlsplit` does once the leading blanks and the unsafe characters are gone. */
  function SplitCleaned(url: string): (r: Result<SplitUrl, string>)
    ensures var netloc := NetlocSplit(SchemeSplit(url).1).0;
      && (r.Success? <==> ('[' in netloc <==> ']' in netloc))
      && (r.Success? ==> r.value.netloc == netloc && '?' !in r.value.path && '#' !in r.value.path)
      && (r.Failure? ==> r.error == "Invalid IPv6 URL")
  {
    var (scheme, rest) := SchemeSplit(url);
    var (netloc, rest2) := NetlocSplit(rest);
    if ('[' in netloc) != (']' in netloc) then Failure("Invalid IPv6 URL")
    else
      var (url3, fragment) := SplitAtFirst(rest2, '#');
      var (path, query) := SplitAtFirst(url3, '?');
      Success(SplitUrl(scheme, netloc, path, query, fragment))
  }

  /** The parts `urlsplit` returns, put back together with the separators it removed, give the
      cleaned input again: the scheme as written (its lower-cased form is the scheme part), then "//"
      and the network location, the path, "?" and the query, "#" and the fragment, each separator
      present exactly when the input had it. */
  lemma UrlSplitRejoins(raw: string)
    requires UrlSplit(raw).Success?
    ensures var p := UrlSplit(raw).value;
      var clean := RemoveUnsafe(StripLeading(raw));
      var rest := SchemeSplit(clean).1;
      var after := NetlocSplit(rest).1;
      var beforeHash := SplitAtFirst(after, '#').0;
      && (p.scheme != "" ==> |p.scheme| < |clean| && clean[|p.scheme|] == ':' && Text.Lower(clean[..|p.scheme|]) == p.scheme)
      && clean ==
        (if p.scheme == "" then "" else clean[..|p.scheme| + 1])
        + (if Text.StartsWith(rest, "//") then "//" + p.netloc else "")
        + p.path
        + (if '?' in beforeHash then "?" + p.query else "")
        + (if '#' in after then "#" + p.fragment else "")
  {
    SplitCleanedRejoins(RemoveUnsafe(StripLeading(raw)));
  }

  lemma SplitCleanedRejoins(clean: string)
    requires SplitCleaned(clean).Success?
    ensures var p := SplitCleaned(clean).value;
      var rest := SchemeSplit(clean).1;
      var after := NetlocSplit(rest).1;
      var beforeHash := SplitAtFirst(after, '#').0;
      && (p.scheme != "" ==> |p.scheme| < |clean| && clean[|p.scheme|] == ':' && Text.Lower(clean[..|p.scheme|]) == p.scheme)
      && clean ==
        (if p.scheme == "" then "" else clean[..|p.scheme| + 1])
        + (if Text.StartsWith(rest, "//") then "//" + p.netloc else "")
        + p.path
        + (if '?' in beforeHash then "?" + p.query else "")
        + (if '#' in after then "#" + p.fragment else "")
  {
    var s := SchemeSplit(clean);
    var n := NetlocSplit(s.1);
    var h := SplitAtFirst(n.1, '#');
    var q := SplitAtFirst(h.0, '?');
    SplitCleanedParts(clean);
    SchemeRejoins(clean);
    NetlocRejoins(s.1);
    TailRejoins(n.1);
    Regroup(clean, if s.0 == "" then "" else clean[..|s.0| + 1], s.1,
      if Text.StartsWith(s.1, "//") then "//" + n.0 else "", n.1,
      q.0, if '?' in h.0 then "?" + q.1 else "", if '#' in n.1 then "#" + h.1 else "");
  }

  /** The parts `SplitCleaned` returns, named by the splits that produce them. */
  lemma SplitCleanedParts(clean: string)
    requires SplitCleaned(clean).Success?
    ensures var n := NetlocSplit(SchemeSplit(clean).1);
      var h := SplitAtFirst(n.1, '#');
      var q := SplitAtFirst(h.0, '?');
      SplitCleaned(clean).value == SplitUrl(SchemeSplit(clean).0, n.0, q.0, q.1, h.1)
  {
  }

  lemma Regroup(whole: string, a: string, rest: string, b: string, tail: string, c: string, d: string, e: string)
    requires whole == a + rest && rest == b + tail && tail == c + d + e
    ensures whole == a + b + c + d + e
  {
  }

  lemma SchemeRejoins(clean: string)
    ensures var (scheme, rest) := SchemeSplit(clean);
      && (scheme != "" ==> |scheme| < |clean| && clean[|scheme|] == ':' && Text.Lower(clean[..|scheme|]) == scheme)
      && clean == (if scheme == "" then "" else clean[..|scheme| + 1]) + rest
  {
    var colon := Text.IndexOfFrom(clean, ':', 0);
    if colon >= 0 && SchemeBefore(clean, colon) {
      var scheme := Text.Lower(clean[..colon]);
      assert SchemeSplit(clean) == (scheme, clean[colon + 1..]);
      assert |scheme| == colon;
      assert clean == clean[..colon + 1] + clean[colon + 1..];
    } else {
      assert SchemeSplit(clean) == ("", clean);
    }
  }

  lemma NetlocRejoins(rest: string)
    ensures rest == (if Text.StartsWith(rest, "//") then "//" + NetlocSplit(rest).0 else "") + NetlocSplit(rest).1
  {
    if Text.StartsWith(rest, "//") {
      assert "//" + NetlocSplit(rest).0 + NetlocSplit(rest).1 == rest;
    }
  }

  /** Splitting at the first `c` and putting `c` back between the halves gives `s` again. */
  lemma SplitAtFirstRejoins(s: string, c: char)
    ensures s == SplitAtFirst(s, c).0 + (if c in s then [c] + SplitAtFirst(s, c).1 else "")
  {
    var r := SplitAtFirst(s, c);
    if c in s {
      assert r.0 + [c] + r.1 == s;
      assert r.0 + [c] + r.1 == r.0 + ([c] + r.1);
    }
  }

  lemma TailRejoins(after: string)
    ensures var (beforeHash, fragment) := SplitAtFirst(after, '#');
      var (path, query) := SplitAtFirst(beforeHash, '?');
      after == path + (if '?' in beforeHash then "?" + query else "") + (if '#' in after then "#" + fragment else "")
  {
    var h := SplitAtFirst(after, '#');
    var q := SplitAtFirst(h.0, '?');
    SplitAtFirstRejoins(after, '#');
    SplitAtFirstRejoins(h.0, '?');
    assert ['?'] == "?" && ['#'] == "#";
  }

  /** The path part of `_splitparams(url)`: the parameters start at the first ';' of the last
      segment, or of the whole string when it has no '/'. */
  function WithoutParams(url: string): (r: string)
    ensures r <= url
    ensures var start := if Text.LastIndexOf(url, '/') >= 0 then Text.LastIndexOf(url, '/') else 0;
      && (forall k :: start <= k < |r| ==> r[k] != ';')
      && (r != url ==> start <= |r| && url[|r|] == ';')
  {
    var slash := Text.LastIndexOf(url, '/');
    var semicolon := if slash >= 0 then Text.IndexOfFrom(url, ';', slash as nat) else Text.IndexOfFrom(url, ';', 0);
    if semicolon < 0 then url else url[..semicolon]
  }

  /** `urlparse(url).path`. */
  function UrlPath(url: string): (r: Result<string, string>)
    ensures r.Success? ==> '?' !in r.value && '#' !in r.value
    ensures r.Failure? <==> UrlSplit(url).Failure?
    ensures r.Success? ==> r.value <= UrlSplit(url).value.path
    ensures r.Success? && (UrlSplit(url).value.scheme !in UsesParams || ';' !in UrlSplit(url).value.path) ==>
      r.value == UrlSplit(url).value.path
    ensures r.Success? && UrlSplit(url).value.scheme in UsesParams && ';' in UrlSplit(url).value.path ==>
      r.value == WithoutParams(UrlSplit(url).value.path)
  {
    match UrlSplit(url)
    case Failure(e) => Failure(e)
    case Success(parts) =>
      Success(if parts.scheme in UsesParams && ';' in parts.path then WithoutParams(parts.path) else parts.path)
  }

  // ---------------------------------------------------------------------------------------------
  // Extension and file name

  /** `os.path.splitext(p)[1]` for POSIX paths: from the last '.' of the last segment, provided that
      segment has a character other than '.' before it; otherwise empty. */
  function SplitExt(p: string): (r: string)
    ensures r == [] || (r[0] == '.' && |r| <= |p| && r == p[|p| - |r|..])
    ensures r != [] <==>
      exists k :: Text.LastIndexOf(p, '/') < k < Text.LastIndexOf(p, '.') && p[k] != '.'
    ensures r != [] ==> r == p[Text.LastIndexOf(p, '.')..]
    ensures forall k :: 0 <= k < |r| ==> r[k] != '/'
    ensures forall k :: 1 <= k < |r| ==> r[k] != '.'
  {
    var sep := Text.LastIndexOf(p, '/');
    var dot := Text.LastIndexOf(p, '.');
    if dot > sep && exists k | sep + 1 <= k < dot :: p[k] != '.' then p[dot..] else ""
  }

  /** `os.path.splitext(path)[-1].replace('.', '')[:4]`. */
  function DerivedExt(path: string): (r: string)
    ensures |r| <= 4
    ensures forall k :: 0 <= k < |r| ==> r[k] != '.' && r[k] != '/'
  {
    Seqs.Take(Text.RemoveAll(SplitExt(path), '.'), 4)
  }

  /** The parts of a URL written `scheme://host/path?query`, each free of the characters that would
      end it early, are what `urlsplit` returns for it. */
  predicate IsSchemeName(scheme: string)
  {
    |scheme| > 0 && IsAsciiAlpha(scheme[0]) && forall k :: 0 <= k < |scheme| ==> IsSchemeChar(scheme[k])
  }

  predicate IsHostPart(host: string)
  {
    forall k :: 0 <= k < |host| ==>
      IsSafe(host[k]) && host[k] != '/' && host[k] != '?' && host[k] != '#' && host[k] != '[' && host[k] != ']'
  }

  predicate IsPathPart(path: string)
  {
    |path| > 0 && path[0] == '/' && forall k :: 0 <= k < |path| ==> IsSafe(path[k]) && path[k] != '?' && path[k] != '#'
  }

  predicate IsQueryPart(query: string)
  {
    forall k :: 0 <= k < |query| ==> IsSafe(query[k]) && query[k] != '#'
  }

  lemma UrlSplitOfParts(scheme: string, host: string, path: string, query: string)
    requires IsSchemeName(scheme) && IsHostPart(host) && IsPathPart(path) && IsQueryPart(query)
    ensures UrlSplit(scheme + "://" + host + path + "?" + query)
      == Success(SplitUrl(Text.Lower(scheme), host, path, query, ""))
  {
    UrlOfParts(scheme, host, path, query);
    CleanUrlOfParts(scheme, host, path, query);
    SplitCleanedOfParts(scheme, host, path, query);
  }

  lemma UrlOfParts(scheme: string, host: string, path: string, query: string)
    ensures scheme + "://" + host + path + "?" + query == scheme + ":" + ("//" + host + (path + "?" + query))
  {
  }

  lemma SplitCleanedOfParts(scheme: string, host: string, path: string, query: string)
    requires IsSchemeName(scheme) && IsHostPart(host) && IsPathPart(path) && IsQueryPart(query)
    ensures SplitCleaned(scheme + ":" + ("//" + host + (path + "?" + query)))
      == Success(SplitUrl(Text.Lower(scheme), host, path, query, ""))
  {
    var after := path + "?" + query;
    var rest := "//" + host + after;
    SchemeOfParts(scheme, rest);
    NetlocOfParts(host, after);
    TailOfParts(path, query);
    assert '[' !in host && ']' !in host by {
      forall k | 0 <= k < |host| ensures host[k] != '[' && host[k] != ']' {}
    }
  }

  lemma CleanUrlOfParts(scheme: string, host: string, path: string, query: string)
    requires IsSchemeName(scheme) && IsHostPart(host) && IsPathPart(path) && IsQueryPart(query)
    ensures var url := scheme + ":" + ("//" + host + (path + "?" + query));
      RemoveUnsafe(StripLeading(url)) == url
  {
    var url := scheme + ":" + ("//" + host + (path + "?" + query));
    assert url[0] == scheme[0];
    assert StripLeading(url) == url;
    forall x | x in url ensures IsSafe(x) {
      if x in scheme {
        var k :| 0 <= k < |scheme| && scheme[k] == x;
        assert IsSchemeChar(scheme[k]);
      } else if x in host {
        var k :| 0 <= k < |host| && host[k] == x;
      } else if x in path {
        var k :| 0 <= k < |path| && path[k] == x;
      } else if x in query {
        var k :| 0 <= k < |query| && query[k] == x;
      }
    }
    RemoveUnsafeKeepsOthers(url);
    Seqs.FilterKeepsAll(IsSafe, url);
  }

  lemma SchemeOfParts(scheme: string, rest: string)
    requires IsSchemeName(scheme)
    ensures SchemeSplit(scheme + ":" + rest) == (Text.Lower(scheme), rest)
  {
    var url := scheme + ":" + rest;
    var i := |scheme|;
    assert url[i] == ':';
    assert forall k :: 0 <= k < i ==> url[k] == scheme[k] && IsSchemeChar(scheme[k]);
    assert Text.IndexOfFrom(url, ':', 0) == i;
    assert url[..i] == scheme && url[i + 1..] == rest;
    assert SchemeBefore(url, i);
  }

  lemma NetlocOfParts(host: string, after: string)
    requires IsHostPart(host) && |after| > 0 && after[0] == '/'
    ensures NetlocSplit("//" + host + after) == (host, after)
  {
    var rest := "//" + host + after;
    var e := 2 + |host|;
    assert rest[e] == '/';
    assert forall k :: 2 <= k < e ==> rest[k] == host[k - 2];
    assert NetlocEnd(rest, 2) == e;
    assert rest[2..e] == host && rest[e..] == after;
  }

  lemma TailOfParts(path: string, query: string)
    requires IsPathPart(path) && IsQueryPart(query)
    ensures SplitAtFirst(path + "?" + query, '#') == (path + "?" + query, "")
    ensures SplitAtFirst(path + "?" + query, '?') == (path, query)
  {
    var after := path + "?" + query;
    assert '#' !in after by {
      forall k | 0 <= k < |after| ensures after[k] != '#' {
        if k < |path| { assert after[k] == path[k]; }
        else if k > |path| { assert after[k] == query[k - |path| - 1]; }
      }
    }
    assert after[|path|] == '?';
    assert forall k :: 0 <= k < |path| ==> after[k] == path[k];
    assert Text.IndexOfFrom(after, '?', 0) == |path|;
    assert after[..|path|] == path && after[|path| + 1..] == query;
  }

  /** A CDN image URL with a query string yields the extension of its last path segment. */
  lemma QueryUrlExtension()
    ensures UrlPath("https://cdn.example.com/a/b.jpeg?w=1") == Success("/a/b.jpeg")
    ensures DerivedExt("/a/b.jpeg") == "jpeg"
  {
    var path := "/a/b.jpeg";
    assert Text.Lower("https") == "https";
    assert IsSchemeName("https");
    assert IsHostPart("cdn.example.com");
    assert IsPathPart(path);
    assert IsQueryPart("w=1");
    UrlSplitOfParts("https", "cdn.example.com", path, "w=1");
    ExampleUrlParts();
    ExampleExtension();
  }

  lemma ExampleUrlParts()
    ensures "https" + "://" + "cdn.example.com" + "/a/b.jpeg" + "?" + "w=1" == "https://cdn.example.com/a/b.jpeg?w=1"
  {
  }

  lemma ExampleExtension()
    ensures ';' !in "/a/b.jpeg"
    ensures SplitExt("/a/b.jpeg") == ".jpeg"
    ensures DerivedExt("/a/b.jpeg") == "jpeg"
  {
    var path := "/a/b.jpeg";
    ExampleSeparators();
    assert path[3] != '.';
    assert path[4..] == ".jpeg";
    RemoveLeadingDot("jpeg");
  }

  /** Where the separators of the example path are. */
  lemma ExampleSeparators()
    ensures ';' !in "/a/b.jpeg"
    ensures Text.LastIndexOf("/a/b.jpeg", '/') == 2
    ensures Text.LastIndexOf("/a/b.jpeg", '.') == 4
  {
    var path := "/a/b.jpeg";
    assert forall k :: 0 <= k < |path| ==> path[k] != ';';
    assert path[2] == '/' && forall k :: 2 < k < |path| ==> path[k] != '/';
    assert path[4] == '.' && forall k :: 4 < k < |path| ==> path[k] != '.';
  }

  /** Removing the dots from "." + e leaves e when e has none. */
  lemma RemoveLeadingDot(e: string)
    requires forall k :: 0 <= k < |e| ==> e[k] != '.'
    ensures Text.RemoveAll("." + e, '.') == e
  {
    assert ("." + e)[1..] == e;
    RemoveAllAbsent(e, '.');
  }

  /** `f"{image_id}.{ext or 'jpg'}"`: a name directly inside the images directory. */
  function FileName(id: int, ext: string): (r: string)
    ensures '.' in r
    ensures (forall k :: 0 <= k < |ext| ==> ext[k] != '/') ==> forall k :: 0 <= k < |r| ==> r[k] != '/'
  {
    Text.IntString(id) + "." + (if ext == "" then "jpg" else ext)
  }

  /** The extension actually written: the derived one, or "jpg" when there is none. */
  function SavedExt(ext: string): string
  {
    if ext == "" then "jpg" else ext
  }

  lemma RemoveAllAbsent(s: string, c: char)
    requires forall k :: 0 <= k < |s| ==> s[k] != c
    ensures Text.RemoveAll(s, c) == s
  {
    if s != [] {
      RemoveAllAbsent(s[1..], c);
    }
  }

  /** The extension `splitext` finds in `<d>.<e>` when neither part has a '.' or a '/'. */
  lemma SplitExtOfName(d: string, e: string)
    requires |d| >= 1 && forall k :: 0 <= k < |d| ==> d[k] != '.' && d[k] != '/'
    requires forall k :: 0 <= k < |e| ==> e[k] != '.' && e[k] != '/'
    ensures SplitExt(d + "." + e) == "." + e
  {
    var name := d + "." + e;
    forall k | 0 <= k < |name|
      ensures name[k] != '/' && (k != |d| ==> name[k] != '.')
    {
      if k < |d| {
        assert name[k] == d[k];
      } else if k > |d| {
        assert name[k] == e[k - |d| - 1];
      }
    }
    assert Text.LastIndexOf(name, '/') == -1;
    assert name[|d|] == '.';
    assert Text.LastIndexOf(name, '.') == |d|;
    assert name[0] != '.';
    assert name[|d|..] == "." + e;
  }

  /** A saved file's own name yields its extension again: splitting the extension off
      `<id>.<ext>` and cleaning it as the script does gives back the derived extension, or "jpg". */
  lemma {:induction false} FileNameKeepsExtension(id: int, path: string)
    ensures DerivedExt(FileName(id, DerivedExt(path))) == SavedExt(DerivedExt(path))
  {
    var e := SavedExt(DerivedExt(path));
    assert forall k :: 0 <= k < |e| ==> e[k] != '.' && e[k] != '/';
    SplitExtOfName(Text.IntString(id), e);
    assert FileName(id, DerivedExt(path)) == Text.IntString(id) + "." + e;
    RemoveLeadingDot(e);
  }

  lemma NatStringInjective(m: nat, n: nat)
    requires Text.NatString(m) == Text.NatString(n)
    ensures m == n
  {
    Text.NatStringRoundTrip(m);
    Text.NatStringRoundTrip(n);
  }

  lemma IntStringInjective(i: int, j: int)
    requires Text.IntString(i) == Text.IntString(j)
    ensures i == j
  {
    if i < 0 && j < 0 {
      assert Text.IntString(i)[1..] == Text.NatString(-i);
      assert Text.IntString(j)[1..] == Text.NatString(-j);
      NatStringInjective(-i, -j);
    } else if i >= 0 && j >= 0 {
      NatStringInjective(i, j);
    }
  }

  /** Two rows are saved under the same name only when they have the same id and the same saved
      extension: rows with different ids never overwrite each other's image. */
  lemma {:induction false} FileNameInjective(id1: int, ext1: string, id2: int, ext2: string)
    requires forall k :: 0 <= k < |ext1| ==> ext1[k] != '.'
    requires forall k :: 0 <= k < |ext2| ==> ext2[k] != '.'
    requires FileName(id1, ext1) == FileName(id2, ext2)
    ensures id1 == id2 && SavedExt(ext1) == SavedExt(ext2)
  {
    var d1, d2 := Text.IntString(id1), Text.IntString(id2);
    var name := FileName(id1, ext1);
    assert name == d1 + "." + SavedExt(ext1) && name == d2 + "." + SavedExt(ext2);
    if |d1| == |d2| {
      assert d1 == name[..|d1|] == d2;
      IntStringInjective(id1, id2);
      assert SavedExt(ext1) == name[|d1| + 1..] == SavedExt(ext2);
    }
  }

  // ---------------------------------------------------------------------------------------------
  // The download loop

  /** What `requests.get(url, timeout=10)` does: a response with a status code and a body, or an
      exception with its message. */
  datatype Fetch = Response(status: int, content: Bytes) | Raised(message: string)

  /** The effect one kept row has: its image saved under a name, a line printed, or an uncaught
      exception that ends the script (urlparse runs outside the `try`). */
  datatype Outcome = Saved(name: string, content: Bytes) | Logged(line: string) | Aborted(error: string)

  function StatusLine(url: string, status: int): string
  {
    "Failed to download " + url + ": Status " + Text.IntString(status)
  }

  function ErrorLine(url: string, message: string): string
  {
    "Error downloading " + url + ": " + message
  }

  /** `urlparse(url).path`, as the loop sees it: `UrlPath` in the script, kept abstract in the loop's
      own proof. */
  type Parser = string -> Result<string, string>

  /** The outcome of one row; `write(name)` is the error opening or writing data/images/<name>
      raises, if any. */
  function RowOutcome(row: Row, parse: Parser, fetch: string -> Fetch, write: string -> Option<string>): (r: Outcome)
    requires IsHttpUrl(row.imageUrl)
    ensures r.Aborted? <==> parse(row.imageUrl.s).Failure?
    ensures r.Aborted? ==> r.error == parse(row.imageUrl.s).error
  {
    match parse(row.imageUrl.s)
    case Failure(e) => Aborted(e)
    case Success(path) => Attempt(row.id, row.imageUrl.s, path, fetch, write)
  }

  /** The `try` block for a row whose URL has the path `path`: it catches every exception, and it
      saves only a 200 response's body, under the name derived from the id and the path. */
  function Attempt(id: int, url: string, path: string, fetch: string -> Fetch, write: string -> Option<string>): (r: Outcome)
    ensures !r.Aborted?
    ensures r.Saved? ==> fetch(url).Response? && fetch(url).status == 200 && r.content == fetch(url).content
    ensures r.Saved? ==> r.name == FileName(id, DerivedExt(path)) && write(r.name).None?
  {
    match fetch(url)
    case Raised(m) => Logged(ErrorLine(url, m))
    case Response(status, content) =>
      if status == 200 then
        var name := FileName(id, DerivedExt(path));
        match write(name)
        case Some(m) => Logged(ErrorLine(url, m))
        case None => Saved(name, content)
      else Logged(StatusLine(url, status))
  }

  /** A row's image is saved exactly when its URL parses, the download answers 200 and the file can
      be written; it is saved under `<id>.<ext>` with the response body. A row whose download fails
      prints the status line or the exception's message and saves nothing. Only a URL urlparse
      rejects ends the script. */
  lemma RowOutcomeCases(row: Row, parse: Parser, fetch: string -> Fetch, write: string -> Option<string>)
    requires IsHttpUrl(row.imageUrl)
    ensures RowOutcome(row, parse, fetch, write).Aborted? <==> parse(row.imageUrl.s).Failure?
    ensures RowOutcome(row, parse, fetch, write).Saved? <==>
      && parse(row.imageUrl.s).Success?
      && fetch(row.imageUrl.s) .Response? && fetch(row.imageUrl.s).status == 200
      && write(FileName(row.id, DerivedExt(parse(row.imageUrl.s).value))).None?
    ensures RowOutcome(row, parse, fetch, write).Saved? ==>
      && RowOutcome(row, parse, fetch, write).name == FileName(row.id, DerivedExt(parse(row.imageUrl.s).value))
      && RowOutcome(row, parse, fetch, write).content == fetch(row.imageUrl.s).content
    ensures parse(row.imageUrl.s).Success? && fetch(row.imageUrl.s).Response? && fetch(row.imageUrl.s).status != 200 ==>
      RowOutcome(row, parse, fetch, write) == Logged(StatusLine(row.imageUrl.s, fetch(row.imageUrl.s).status))
    ensures parse(row.imageUrl.s).Success? && fetch(row.imageUrl.s).Raised? ==>
      RowOutcome(row, parse, fetch, write) == Logged(ErrorLine(row.imageUrl.s, fetch(row.imageUrl.s).message))
  {
  }

  /** The images directory, the printed lines, and the exception that ended the script, if any. */
  datatype Progress = Progress(files: map<string, Bytes>, log: seq<string>, aborted: Option<string>)

  /** The effect of one row's outcome; nothing happens after an uncaught exception. */
  function Step(p: Progress, o: Outcome): Progress
  {
    if p.aborted.Some? then p
    else
      match o
      case Saved(name, content) => p.(files := p.files[name := content])
      case Logged(line) => p.(log := p.log + [line])
      case Aborted(e) => p.(aborted := Some(e))
  }

  predicate AllHttp(rows: seq<Row>)
  {
    forall i :: 0 <= i < |rows| ==> IsHttpUrl(rows[i].imageUrl)
  }

  /** The outcome of each kept row, as if every row ran. */
  function Outcomes(rows: seq<Row>, parse: Parser, fetch: string -> Fetch, write: string -> Option<string>): (r: seq<Outcome>)
    requires AllHttp(rows)
    ensures |r| == |rows|
  {
    seq(|rows|, i requires 0 <= i < |rows| => RowOutcome(rows[i], parse, fetch, write))
  }

  /** The state after the given outcomes, in order. */
  function Replay(start: Progress, outcomes: seq<Outcome>): Progress
  {
    if outcomes == [] then start
    else Step(Replay(start, outcomes[..|outcomes| - 1]), outcomes[|outcomes| - 1])
  }

  lemma {:induction false} AbortedStays(start: Progress, outcomes: seq<Outcome>, more: seq<Outcome>)
    requires Replay(start, outcomes).aborted.Some?
    ensures Replay(start, outcomes + more) == Replay(start, outcomes)
    decreases |more|
  {
    if more != [] {
      var m := more[..|more| - 1];
      assert (outcomes + more)[..|outcomes + more| - 1] == outcomes + m;
      AbortedStays(start, outcomes, m);
    } else {
      assert outcomes + more == outcomes;
    }
  }

  /** The script ends early exactly when some row's outcome is an uncaught exception: a failed
      download or write never stops the loop. */
  lemma {:induction false} AbortsOnlyOnException(start: Progress, outcomes: seq<Outcome>)
    requires start.aborted.None?
    ensures Replay(start, outcomes).aborted.Some? <==> exists i :: 0 <= i < |outcomes| && outcomes[i].Aborted?
  {
    if outcomes != [] {
      var init := outcomes[..|outcomes| - 1];
      AbortsOnlyOnException(start, init);
      assert forall i :: 0 <= i < |init| ==> init[i] == outcomes[i];
    }
  }

  /** Every file in the directory afterwards was there before or was written by a row whose outcome
      saved it with exactly that content. */
  lemma {:induction false} FilesOnlyFromSavedRows(start: Progress, outcomes: seq<Outcome>)
    ensures forall name :: name in Replay(start, outcomes).files ==>
      (name in start.files && Replay(start, outcomes).files[name] == start.files[name])
      || exists i :: 0 <= i < |outcomes| && outcomes[i] == Saved(name, Replay(start, outcomes).files[name])
  {
    if outcomes != [] {
      var init := outcomes[..|outcomes| - 1];
      FilesOnlyFromSavedRows(start, init);
      assert forall i :: 0 <= i < |init| ==> init[i] == outcomes[i];
    }
  }

  /** Until an uncaught exception, every row has its effect: its image is in the directory or its
      line is in the printed log, whatever the earlier rows did; the log and the directory only
      grow. */
  lemma {:induction false} EveryRowHasItsEffect(start: Progress, outcomes: seq<Outcome>)
    requires start.aborted.None? && Replay(start, outcomes).aborted.None?
    ensures start.log <= Replay(start, outcomes).log
    ensures start.files.Keys <= Replay(start, outcomes).files.Keys
    ensures forall i :: 0 <= i < |outcomes| ==> Effected(Replay(start, outcomes), outcomes[i])
  {
    if outcomes != [] {
      var init := outcomes[..|outcomes| - 1];
      EveryRowHasItsEffect(start, init);
      assert forall i :: 0 <= i < |init| ==> init[i] == outcomes[i];
    }
  }

  /** The trace an outcome leaves in a state. */
  predicate Effected(p: Progress, o: Outcome)
  {
    match o
    case Saved(name, _) => name in p.files
    case Logged(line) => line in p.log
    case Aborted(_) => false
  }

  /** The images directory and the printed lines of one run of the script. */
  class Downloader {
    var files: map<string, Bytes>
    var log: seq<string>

    /** `os.makedirs(images_dir, exist_ok=True)`: whatever the directory held stays. */
    constructor (existing: map<string, Bytes>)
      ensures files == existing && log == []
    {
      files, log := existing, [];
    }

    /** The script's loop over the table. Returns the exception that ended it, if any. */
    method Run(table: seq<Row>, fetch: string -> Fetch, write: string -> Option<string>) returns (aborted: Option<string>)
      modifies this
      ensures Progress(files, log, aborted) == Replay(Progress(old(files), old(log), None), Outcomes(Kept(table), UrlPath, fetch, write))
    {
      var rows := Kept(table);
      assert AllHttp(rows) by {
        forall i | 0 <= i < |rows| ensures IsHttpUrl(rows[i].imageUrl) {
          assert rows[i] in rows;
        }
      }
      aborted := DownloadAll(rows, UrlPath, fetch, write);
    }

    /** The loop over the kept rows, stopping at an uncaught exception. */
    method DownloadAll(rows: seq<Row>, parse: Parser, fetch: string -> Fetch, write: string -> Option<string>) returns (aborted: Option<string>)
      requires AllHttp(rows)
      modifies this
      ensures Progress(files, log, aborted) == Replay(Progress(old(files), old(log), None), Outcomes(rows, parse, fetch, write))
    {
      ghost var outcomes := Outcomes(rows, parse, fetch, write);
      ghost var start := Progress(files, log, None);
      aborted := None;
      var i := 0;
      while i < |rows|
        invariant 0 <= i <= |rows|
        invariant aborted == None
        invariant Progress(files, log, None) == Replay(start, outcomes[..i])
      {
        assert outcomes[..i + 1][..i] == outcomes[..i];
        aborted := DownloadRow(rows[i], parse, fetch, write);
        if aborted.Some? {
          assert outcomes[..i + 1] + outcomes[i + 1..] == outcomes;
          AbortedStays(start, outcomes[..i + 1], outcomes[i + 1..]);
          return;
        }
        i := i + 1;
      }
      assert outcomes[..i] == outcomes;
    }

    /** One row: parse the URL (which happens outside the `try`), then the `try` block. */
    method DownloadRow(row: Row, parse: Parser, fetch: string -> Fetch, write: string -> Option<string>) returns (error: Option<string>)
      requires IsHttpUrl(row.imageUrl)
      modifies this
      ensures Progress(files, log, error) == Step(Progress(old(files), old(log), None), RowOutcome(row, parse, fetch, write))
    {
      var url := row.imageUrl.s;
      var parsed := parse(url);
      if parsed.Failure? {
        return Some(parsed.error);
      }
      error := None;
      TryDownload(row.id, url, parsed.value, fetch, write);
    }

    /** The `try` block: download, then either write the file or print why not. */
    method TryDownload(id: int, url: string, path: string, fetch: string -> Fetch, write: string -> Option<string>)
      modifies this
      ensures Progress(files, log, None) == Step(Progress(old(files), old(log), None), Attempt(id, url, path, fetch, write))
    {
      var ext := DerivedExt(path);
      var response := fetch(url);
      match response {
        case Raised(m) =>
          log := log + [ErrorLine(url, m)];
        case Response(status, content) =>
          if status == 200 {
            var name := FileName(id, ext);
            var failure := write(name);
            if failure.Some? {
              log := log + [ErrorLine(url, failure.value)];
            } else {
              files := files[name := content];
            }
          } else {
            log := log + [StatusLine(url, status)];
          }
      }
    }
  }
}
