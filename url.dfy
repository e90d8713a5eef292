/**
 * The two URL helpers of the normaliser, `extract_domain` and
 * `extract_from_url`, over a splitter shaped like CPython 3.12's
 * `urllib.parse.urlsplit` (authority as in section 3.2 of RFC 3986, query
 * as in section 3.4) and a query reader shaped like `parse_qsl` with its
 * defaults. Percent-decoding of names and values is not modelled.
 */
module Url {
  import opened Wrappers
  import opened Strings
  import opened JsonValue

  /** The five parts `urlsplit` separates. */
  datatype SplitUrl = SplitUrl(scheme: string, netloc: string, path: string, query: string, fragment: string)

  /** WHATWG "C0 control or space": stripped from the front of every URL. */
  predicate IsC0OrSpace(c: char)
  {
    c <= ' '
  }

  /** Tab, CR and LF are deleted anywhere in the URL. */
  const UnsafeChars: set<char> := {'\t', '\r', '\n'}

  /** The characters that end the authority. */
  const AuthorityEnd: set<char> := {'/', '?', '#'}

  predicate IsSchemeChar(c: char)
  {
    IsAsciiLetter(c) || IsAsciiDigit(c) || c == '+' || c == '-' || c == '.'
  }

  predicate IsScheme(s: string)
  {
    s != [] && IsAsciiLetter(s[0]) && forall k :: 0 <= k < |s| ==> IsSchemeChar(s[k])
  }

  /** The text before the first `:` is taken as the scheme (lower-cased) only when it is a well-formed scheme. */
  function SplitScheme(url: string): (string, string)
  {
    var i := IndexOf(url, ':');
    if i < |url| && IsScheme(url[..i]) then (ToLower(url[..i]), url[i + 1..]) else ("", url)
  }

  /** After `//`, the authority runs up to the first `/`, `?` or `#`. */
  function SplitNetloc(rest: string): (r: (string, string))
    ensures forall k :: 0 <= k < |r.0| ==> r.0[k] !in AuthorityEnd
  {
    if |rest| >= 2 && rest[..2] == "//" then
      var j := 2 + IndexOfAny(rest[2..], AuthorityEnd);
      (rest[2..j], rest[j..])
    else ("", rest)
  }

  /** The leading strip and the deletion of tab, CR and LF that come first. */
  function Clean(url: string): string
  {
    RemoveAll(LStrip(url, IsC0OrSpace), UnsafeChars)
  }

  /** What follows the authority: the fragment goes after the first `#`, then the query after the first `?`. */
  function SplitPathQuery(rest: string): (string, string, string)
  {
    var h := IndexOf(rest, '#');
    var beforeFragment := rest[..h];
    var fragment := if h < |rest| then rest[h + 1..] else "";
    var q := IndexOf(beforeFragment, '?');
    var query := if q < |beforeFragment| then beforeFragment[q + 1..] else "";
    (beforeFragment[..q], query, fragment)
  }

  /** `urlsplit(url)`; an unbalanced `[` or `]` in the authority raises `ValueError`. */
  function UrlSplit(url: string): (r: Result<SplitUrl, PyError>)
    ensures r.Success? ==> forall k :: 0 <= k < |r.value.netloc| ==> r.value.netloc[k] !in AuthorityEnd
  {
    var (scheme, afterScheme) := SplitScheme(Clean(url));
    var (netloc, afterNetloc) := SplitNetloc(afterScheme);
    if ('[' in netloc) != (']' in netloc) then Failure(ValueError)
    else
      var (path, query, fragment) := SplitPathQuery(afterNetloc);
      Success(SplitUrl(scheme, netloc, path, query, fragment))
  }

  /** The name/value pairs `parse_qsl` keeps from the `&`-separated fields: those with `=` and a non-empty value. */
  function FieldPairs(fields: seq<string>): (pairs: seq<(string, string)>)
    ensures forall k :: 0 <= k < |pairs| ==> pairs[k].1 != ""
  {
    if fields == [] then []
    else
      var f := fields[0];
      var i := IndexOf(f, '=');
      var rest := FieldPairs(fields[1..]);
      if i + 1 < |f| then [(ReplaceChar(f[..i], '+', ' '), ReplaceChar(f[i + 1..], '+', ' '))] + rest else rest
  }

  /** `parse_qsl(qs)` with `keep_blank_values=False`. */
  function ParseQsl(qs: string): seq<(string, string)>
  {
    if qs == "" then [] else FieldPairs(Split(qs, '&'))
  }

  /** The first value recorded for `key`: `parse_qs(qs)[key][0]`. */
  function FirstValue(pairs: seq<(string, string)>, key: string): (r: Option<string>)
    ensures r.None? <==> forall k :: 0 <= k < |pairs| ==> pairs[k].0 != key
    ensures r.Some? ==>
      exists k :: 0 <= k < |pairs| && pairs[k] == (key, r.value) && forall j :: 0 <= j < k ==> pairs[j].0 != key
  {
    if pairs == [] then None
    else if pairs[0].0 == key then Some(pairs[0].1)
    else FirstValue(pairs[1..], key)
  }

  /** `extract_domain(url)`: the authority of the URL. */
  function ExtractDomain(url: string): (r: Result<string, PyError>)
    ensures r.Success? ==> forall k :: 0 <= k < |r.value| ==> r.value[k] !in AuthorityEnd
  {
    var parts :- UrlSplit(url);
    Success(parts.netloc)
  }

  /** `extract_from_url(url, key)`: the first value of `key` in the query, or `''`. */
  function ExtractFromUrl(url: string, key: string): (r: Result<string, PyError>)
    ensures r.Failure? <==> UrlSplit(url).Failure?
    ensures r.Success? && r.value != "" ==>
      var pairs := ParseQsl(UrlSplit(url).value.query);
      exists k :: 0 <= k < |pairs| && pairs[k] == (key, r.value)
  {
    var parts :- UrlSplit(url);
    Success(FirstValue(ParseQsl(parts.query), key).GetOr(""))
  }

  // ---------------------------------------------------------------------------
  // Building a URL from its parts, and reading the parts back
  // ---------------------------------------------------------------------------

  function FieldText(p: (string, string)): string
  {
    p.0 + "=" + p.1
  }

  function FieldTexts(pairs: seq<(string, string)>): (fields: seq<string>)
    ensures |fields| == |pairs|
    ensures forall k :: 0 <= k < |pairs| ==> fields[k] == FieldText(pairs[k])
  {
    if pairs == [] then [] else [FieldText(pairs[0])] + FieldTexts(pairs[1..])
  }

  function QueryString(pairs: seq<(string, string)>): string
  {
    Join(FieldTexts(pairs), '&')
  }

  /** `?name=value&...`, or nothing when there are no pairs. */
  function QueryTail(pairs: seq<(string, string)>): string
  {
    if pairs == [] then "" else "?" + QueryString(pairs)
  }

  /** `scheme://netloc path ?name=value&...` */
  function ComposeUrl(scheme: string, netloc: string, path: string, pairs: seq<(string, string)>): string
  {
    scheme + (":" + ("//" + (netloc + (path + QueryTail(pairs)))))
  }

  predicate Avoids(s: string, cs: set<char>)
  {
    forall k :: 0 <= k < |s| ==> s[k] !in cs
  }

  /** A name/value pair that `parse_qsl` reads back as itself. */
  predicate PlainPair(p: (string, string))
  {
    && p.1 != ""
    && Avoids(p.0, {'&', '=', '+', '#'} + UnsafeChars)
    && Avoids(p.1, {'&', '+', '#'} + UnsafeChars)
  }

  /** One `name=value` field of a plain pair reads back as that pair. */
  lemma FieldTextReadsBack(p: (string, string))
    requires PlainPair(p)
    ensures var f := FieldText(p); var i := IndexOf(f, '=');
      && i + 1 < |f|
      && ReplaceChar(f[..i], '+', ' ') == p.0
      && ReplaceChar(f[i + 1..], '+', ' ') == p.1
  {
    var f := FieldText(p);
    IndexOfAppend(p.0, "=" + p.1, '=');
    assert f == p.0 + ("=" + p.1);
    assert f[..|p.0|] == p.0 && f[|p.0| + 1..] == p.1;
    assert ReplaceChar(p.0, '+', ' ') == p.0;
    assert ReplaceChar(p.1, '+', ' ') == p.1;
  }

  lemma FieldPairsCons(f: string, fields: seq<string>)
    ensures var i := IndexOf(f, '=');
      FieldPairs([f] + fields)
        == (if i + 1 < |f| then [(ReplaceChar(f[..i], '+', ' '), ReplaceChar(f[i + 1..], '+', ' '))] else [])
           + FieldPairs(fields)
  {
    assert ([f] + fields)[1..] == fields;
  }

  lemma {:induction false} FieldPairsRoundTrip(pairs: seq<(string, string)>)
    requires forall k :: 0 <= k < |pairs| ==> PlainPair(pairs[k])
    ensures FieldPairs(FieldTexts(pairs)) == pairs
  {
    if pairs != [] {
      var fields := FieldTexts(pairs);
      assert fields == [FieldText(pairs[0])] + FieldTexts(pairs[1..]);
      FieldTextReadsBack(pairs[0]);
      FieldPairsRoundTrip(pairs[1..]);
      FieldPairsCons(FieldText(pairs[0]), FieldTexts(pairs[1..]));
      assert pairs == [pairs[0]] + pairs[1..];
    }
  }

  /** Reading back a query string built from plain pairs gives the pairs. */
  lemma QueryRoundTrip(pairs: seq<(string, string)>)
    requires pairs != []
    requires forall k :: 0 <= k < |pairs| ==> PlainPair(pairs[k])
    ensures ParseQsl(QueryString(pairs)) == pairs
  {
    var fields := FieldTexts(pairs);
    forall k | 0 <= k < |fields|
      ensures '&' !in fields[k]
    {
      assert fields[k] == pairs[k].0 + "=" + pairs[k].1;
    }
    SplitJoin(fields, '&');
    assert fields[0] != "";
    assert QueryString(pairs) != "" by {
      if |fields| == 1 {
        assert QueryString(pairs) == fields[0];
      } else {
        assert |QueryString(pairs)| >= |fields[0]|;
      }
    }
    FieldPairsRoundTrip(pairs);
  }

  lemma {:induction false} QueryStringAvoids(pairs: seq<(string, string)>)
    requires forall k :: 0 <= k < |pairs| ==> PlainPair(pairs[k])
    ensures Avoids(QueryString(pairs), {'#'} + UnsafeChars)
  {
    if |pairs| > 1 {
      QueryStringAvoids(pairs[1..]);
      assert FieldTexts(pairs)[1..] == FieldTexts(pairs[1..]);
    }
  }

  /** The parts a URL is composed from, when `urlsplit` gives each of them back unchanged. */
  predicate SplittableParts(scheme: string, netloc: string, path: string, pairs: seq<(string, string)>)
  {
    && IsScheme(scheme) && (forall k :: 0 <= k < |scheme| ==> !('A' <= scheme[k] <= 'Z'))
    && Avoids(netloc, AuthorityEnd + {'[', ']'} + UnsafeChars)
    && (path == "" || path[0] == '/') && Avoids(path, {'?', '#'} + UnsafeChars)
    && forall k :: 0 <= k < |pairs| ==> PlainPair(pairs[k])
  }

  lemma AvoidsConcat(a: string, b: string, cs: set<char>)
    requires Avoids(a, cs) && Avoids(b, cs)
    ensures Avoids(a + b, cs)
  {
    forall k | 0 <= k < |a + b| ensures (a + b)[k] !in cs {
      if k >= |a| {
        assert (a + b)[k] == b[k - |a|];
      }
    }
  }

  lemma CleanUnchanged(url: string)
    requires url != [] && !IsC0OrSpace(url[0]) && Avoids(url, UnsafeChars)
    ensures Clean(url) == url
  {
    RemoveAllAbsent(url, UnsafeChars);
  }

  lemma SplitSchemeOf(scheme: string, rest: string)
    requires IsScheme(scheme) && forall k :: 0 <= k < |scheme| ==> !('A' <= scheme[k] <= 'Z')
    ensures SplitScheme(scheme + (":" + rest)) == (scheme, rest)
  {
    var url := scheme + (":" + rest);
    assert ':' !in scheme by {
      forall k | 0 <= k < |scheme| ensures scheme[k] != ':' {
        assert IsSchemeChar(scheme[k]);
      }
    }
    IndexOfAppend(scheme, ":" + rest, ':');
    assert url[..|scheme|] == scheme;
    assert url[|scheme| + 1..] == rest;
    assert ToLower(scheme) == scheme;
  }

  lemma SplitNetlocOf(netloc: string, rest: string)
    requires Avoids(netloc, AuthorityEnd)
    requires rest == "" || rest[0] in AuthorityEnd
    ensures SplitNetloc("//" + (netloc + rest)) == (netloc, rest)
  {
    var s := "//" + (netloc + rest);
    assert s[..2] == "//";
    assert s[2..] == netloc + rest;
    assert IndexOfAny(rest, AuthorityEnd) == 0;
    IndexOfAnyAppend(netloc, rest, AuthorityEnd);
    var j := 2 + |netloc|;
    assert j == 2 + IndexOfAny(s[2..], AuthorityEnd);
    assert s[2..j] == netloc;
    assert s[j..] == rest;
  }

  /** Without a `#` there is no fragment, and the query is what follows the first `?`. */
  lemma SplitPathQueryNoFragment(rest: string)
    requires '#' !in rest
    ensures var q := IndexOf(rest, '?');
      SplitPathQuery(rest) == (rest[..q], if q < |rest| then rest[q + 1..] else "", "")
  {
    assert IndexOf(rest, '#') == |rest|;
    assert rest[..|rest|] == rest;
  }

  lemma SplitPathOnly(path: string)
    requires Avoids(path, {'?', '#'})
    ensures SplitPathQuery(path) == (path, "", "")
  {
    assert '#' !in path && '?' !in path by {
      assert Avoids(path, {'#'}) && Avoids(path, {'?'});
    }
    SplitPathQueryNoFragment(path);
    assert path[..|path|] == path;
  }

  lemma SplitPathQueryOf(path: string, query: string)
    requires Avoids(path, {'?', '#'}) && Avoids(query, {'#'})
    ensures SplitPathQuery(path + ("?" + query)) == (path, query, "")
  {
    var s := path + ("?" + query);
    assert '#' !in path && '?' !in path && '#' !in query by {
      assert Avoids(path, {'#'}) && Avoids(path, {'?'}) && Avoids(query, {'#'});
    }
    assert '#' !in s by {
      assert s == path + ['?'] + query;
    }
    SplitPathQueryNoFragment(s);
    IndexOfAppend(path, "?" + query, '?');
    assert s[..|path|] == path;
    assert s[|path| + 1..] == query;
  }

  /** `urlsplit` read as its four steps. */
  lemma UrlSplitSteps(
    url: string, scheme: string, afterScheme: string, netloc: string, afterNetloc: string,
    path: string, query: string, fragment: string)
    requires Clean(url) == url
    requires SplitScheme(url) == (scheme, afterScheme)
    requires SplitNetloc(afterScheme) == (netloc, afterNetloc)
    requires '[' !in netloc && ']' !in netloc
    requires SplitPathQuery(afterNetloc) == (path, query, fragment)
    ensures UrlSplit(url) == Success(SplitUrl(scheme, netloc, path, query, fragment))
  {
  }

  /** A URL composed from well-formed parts is left alone by the leading strip and the deletions. */
  lemma ComposedUrlClean(scheme: string, netloc: string, path: string, pairs: seq<(string, string)>)
    requires SplittableParts(scheme, netloc, path, pairs)
    ensures Clean(ComposeUrl(scheme, netloc, path, pairs)) == ComposeUrl(scheme, netloc, path, pairs)
  {
    var tail := QueryTail(pairs);
    QueryStringAvoids(pairs);
    var afterNetloc := path + tail;
    var rest := netloc + afterNetloc;
    var url := scheme + (":" + ("//" + rest));
    assert Avoids(scheme, UnsafeChars) by {
      forall k | 0 <= k < |scheme| ensures scheme[k] !in UnsafeChars {
        assert IsSchemeChar(scheme[k]);
      }
    }
    assert Avoids(tail, UnsafeChars);
    AvoidsConcat(path, tail, UnsafeChars);
    AvoidsConcat(netloc, afterNetloc, UnsafeChars);
    AvoidsConcat("//", rest, UnsafeChars);
    AvoidsConcat(":", "//" + rest, UnsafeChars);
    AvoidsConcat(scheme, ":" + ("//" + rest), UnsafeChars);
    assert url[0] == scheme[0];
    CleanUnchanged(url);
  }

  /** `urlsplit` takes a URL composed from well-formed parts back apart into exactly those parts. */
  lemma UrlSplitCompose(scheme: string, netloc: string, path: string, pairs: seq<(string, string)>)
    requires SplittableParts(scheme, netloc, path, pairs)
    ensures UrlSplit(ComposeUrl(scheme, netloc, path, pairs))
         == Success(SplitUrl(scheme, netloc, path, if pairs == [] then "" else QueryString(pairs), ""))
  {
    var query := if pairs == [] then "" else QueryString(pairs);
    var afterNetloc := path + QueryTail(pairs);
    var url := ComposeUrl(scheme, netloc, path, pairs);
    ComposedUrlClean(scheme, netloc, path, pairs);
    SplitSchemeOf(scheme, "//" + (netloc + afterNetloc));
    SplitNetlocOf(netloc, afterNetloc);
    assert '[' !in netloc && ']' !in netloc;
    if pairs == [] {
      assert afterNetloc == path;
      SplitPathOnly(path);
    } else {
      assert afterNetloc == path + ("?" + query);
      QueryStringAvoids(pairs);
      SplitPathQueryOf(path, query);
    }
    UrlSplitSteps(url, scheme, "//" + (netloc + afterNetloc), netloc, afterNetloc, path, query, "");
  }

  /** The domain and the query values of a composed URL are its authority and the first value of each name. */
  lemma ExtractFromComposedUrl(scheme: string, netloc: string, path: string, pairs: seq<(string, string)>, key: string)
    requires SplittableParts(scheme, netloc, path, pairs)
    ensures ExtractDomain(ComposeUrl(scheme, netloc, path, pairs)) == Success(netloc)
    ensures ExtractFromUrl(ComposeUrl(scheme, netloc, path, pairs), key) == Success(FirstValue(pairs, key).GetOr(""))
  {
    UrlSplitCompose(scheme, netloc, path, pairs);
    if pairs != [] {
      QueryRoundTrip(pairs);
    }
  }

  /** An empty link has an empty domain and no query values. */
  lemma ExtractFromEmptyUrl(key: string)
    ensures ExtractDomain("") == Success("")
    ensures ExtractFromUrl("", key) == Success("")
  {
    assert LStrip("", IsC0OrSpace) == "";
    assert RemoveAll("", UnsafeChars) == "";
  }

  lemma SqsAtxtPairs()
    ensures var pairs := [("sqs", "abc"), ("atxt", "def")];
      && (forall k :: 0 <= k < |pairs| ==> PlainPair(pairs[k]))
      && FirstValue(pairs, "sqs") == Some("abc")
      && FirstValue(pairs, "atxt") == Some("def")
  {
    var pairs := [("sqs", "abc"), ("atxt", "def")];
    assert PlainPair(pairs[0]) && PlainPair(pairs[1]);
    assert pairs[1..] == [("atxt", "def")];
  }

  /** The query string `sqs=abc&atxt=def` yields `abc` for `sqs` and `def` for `atxt`. */
  lemma SqsAtxtRoundTrip(scheme: string, netloc: string, path: string)
    requires SplittableParts(scheme, netloc, path, [])
    ensures var url := ComposeUrl(scheme, netloc, path, [("sqs", "abc"), ("atxt", "def")]);
      && ExtractFromUrl(url, "sqs") == Success("abc")
      && ExtractFromUrl(url, "atxt") == Success("def")
      && ExtractDomain(url) == Success(netloc)
  {
    var pairs := [("sqs", "abc"), ("atxt", "def")];
    SqsAtxtPairs();
    ExtractFromComposedUrl(scheme, netloc, path, pairs, "sqs");
    ExtractFromComposedUrl(scheme, netloc, path, pairs, "atxt");
  }
}
