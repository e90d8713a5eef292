/**
 * The paginator (`get_ads_data_for_domain`): requests result pages one after
 * another, threading the server's forward cursor and collation token into
 * the caller's parameter dict, and collects every page's results until a
 * page cannot be decoded, has no results, or has no forward cursor.
 *
 * The server is a sequence of response bodies (the k-th request receives
 * the k-th body) and `json.loads` followed by the reading of `payload` is a
 * function parameter `decode`.
 */
module Paginator {
  import opened Wrappers
  import opened Strings
  import opened JsonValue
  import opened QueryBuilder

  /** One response body after prefix stripping and decoding. */
  datatype Page =
    | DecodeError
    | Payload(results: seq<Json>, forwardCursor: Option<string>, collationToken: Option<string>)

  /** Why the loop stopped (the source reports a decode error on screen and returns silently otherwise). */
  datatype StopReason = DecodeFailed | NoResults | NoForwardCursor

  /** The request parameters: a cursor value may be `None`, which `requests` leaves off the wire. */
  type Params = map<Param, Option<string>>

  // ---------------------------------------------------------------------------
  // The anti-hijacking prefix
  // ---------------------------------------------------------------------------

  /** The characters of `for (;;);`: `str.lstrip` treats its argument as a set of characters. */
  predicate InPrefixSet(c: char)
  {
    c in {'f', 'o', 'r', ' ', '(', ';', ')'}
  }

  function StripPrefix(body: string): string
  {
    LStrip(body, InPrefixSet)
  }

  /** When the JSON text does not start with one of those characters, the whole literal prefix and only it is removed. */
  lemma StripPrefixLiteral(json: string)
    requires json == [] || !InPrefixSet(json[0])
    ensures StripPrefix("for (;;);" + json) == json
  {
    var prefix := "for (;;);";
    assert forall k :: 0 <= k < |prefix| ==> InPrefixSet(prefix[k]);
    LStripPrefix(prefix, json, InPrefixSet);
  }

  /** A bare JSON `false` after the prefix loses its `f` as well. */
  lemma StripPrefixEatsLeadingF()
    ensures StripPrefix("for (;;);false") == "alse"
  {
    var prefix := "for (;;);f";
    assert forall k :: 0 <= k < |prefix| ==> InPrefixSet(prefix[k]);
    assert !InPrefixSet('a');
    assert prefix + "alse" == "for (;;);false";
    LStripPrefix(prefix, "alse", InPrefixSet);
  }

  /** `json.loads(response.text.lstrip('for (;;);'))` read as a page. */
  function Decoded(body: string, decode: string -> Page): Page
  {
    decode(StripPrefix(body))
  }

  /** The page the k-th body decodes to. */
  function Pages(bodies: seq<string>, decode: string -> Page): (pages: seq<Page>)
    ensures |pages| == |bodies|
  {
    if bodies == [] then [] else [Decoded(bodies[0], decode)] + Pages(bodies[1..], decode)
  }

  lemma {:induction false} PagesAt(bodies: seq<string>, decode: string -> Page, i: nat)
    requires i < |bodies|
    ensures Pages(bodies, decode)[i] == Decoded(bodies[i], decode)
  {
    if i > 0 {
      PagesAt(bodies[1..], decode, i - 1);
    }
  }

  // ---------------------------------------------------------------------------
  // The protocol as a function of the pages
  // ---------------------------------------------------------------------------

  /** Python truthiness of an optional string. */
  predicate Present(o: Option<string>)
  {
    o.Some? && o.value != ""
  }

  /** A page after which another request is made. */
  predicate Continues(p: Page)
  {
    p.Payload? && p.results != [] && Present(p.forwardCursor)
  }

  /** The server ends the chain at some point. */
  predicate EndsWithin(pages: seq<Page>)
  {
    exists i :: 0 <= i < |pages| && !Continues(pages[i])
  }

  function StopOf(p: Page): StopReason
    requires !Continues(p)
  {
    if p.DecodeError? then DecodeFailed
    else if p.results == [] then NoResults
    else NoForwardCursor
  }

  /** What a page contributes to the accumulated results. */
  function PageResults(p: Page): seq<Json>
  {
    if p.Payload? then p.results else []
  }

  /** The in-order concatenation of the pages' results. */
  function Collected(pages: seq<Page>): seq<Json>
  {
    if pages == [] then [] else PageResults(pages[0]) + Collected(pages[1..])
  }

  /** The parameters of the request that follows a continuing page. */
  function Threaded(params: Params, p: Page): Params
    requires Continues(p)
  {
    WithCursors(params, p.forwardCursor, p.collationToken)
  }

  /** The parameters the next request goes out with: the dict is updated only while a forward cursor is held. */
  function Pending(entries: Params, forwardCursor: Option<string>, collationToken: Option<string>): Params
  {
    if Present(forwardCursor) then WithCursors(entries, forwardCursor, collationToken) else entries
  }

  /** `params.update({'forward_cursor': forwardCursor, 'collation_token': collationToken})` on a value. */
  function WithCursors(entries: Params, forwardCursor: Option<string>, collationToken: Option<string>): Params
  {
    entries[ForwardCursor := forwardCursor][CollationToken := collationToken]
  }

  datatype Fetched = Fetched(results: seq<Json>, requests: seq<Params>, stop: StopReason)

  lemma EndsWithinTail(pages: seq<Page>)
    requires EndsWithin(pages) && Continues(pages[0])
    ensures EndsWithin(pages[1..])
  {
    var i :| 0 <= i < |pages| && !Continues(pages[i]);
    assert pages[1..][i - 1] == pages[i];
  }

  /** The whole exchange, starting from `params`: the accumulated results, the parameters of every request made, and why it stopped. */
  function Fetch(params: Params, pages: seq<Page>): (f: Fetched)
    requires EndsWithin(pages)
    ensures 1 <= |f.requests| <= |pages| && f.requests[0] == params
    decreases |pages|
  {
    var p := pages[0];
    if !Continues(p) then Fetched(PageResults(p), [params], StopOf(p))
    else
      EndsWithinTail(pages);
      var rest := Fetch(Threaded(params, p), pages[1..]);
      Fetched(p.results + rest.results, [params] + rest.requests, rest.stop)
  }

  /** One step of the exchange: the page at the front either ends it or hands on to the rest. */
  lemma FetchStep(params: Params, pages: seq<Page>)
    requires EndsWithin(pages)
    ensures !Continues(pages[0]) ==> Fetch(params, pages) == Fetched(PageResults(pages[0]), [params], StopOf(pages[0]))
    ensures Continues(pages[0]) ==>
      && EndsWithin(pages[1..])
      && var rest := Fetch(Threaded(params, pages[0]), pages[1..]);
         Fetch(params, pages) == Fetched(pages[0].results + rest.results, [params] + rest.requests, rest.stop)
  {
    if Continues(pages[0]) {
      EndsWithinTail(pages);
    }
  }

  /** Every request after the first carries exactly the cursor and token of the page just before it, and nothing else changes. */
  lemma {:induction false} FetchThreadsCursors(params: Params, pages: seq<Page>)
    requires EndsWithin(pages)
    ensures var f := Fetch(params, pages);
      forall k :: 0 <= k < |f.requests| - 1 ==> Continues(pages[k])
    ensures var f := Fetch(params, pages);
      forall k :: 0 <= k < |f.requests| - 1 ==>
        Continues(pages[k]) ==> f.requests[k + 1] == Threaded(f.requests[k], pages[k])
    decreases |pages|
  {
    var f := Fetch(params, pages);
    FetchStep(params, pages);
    if Continues(pages[0]) {
      var next := Threaded(params, pages[0]);
      var tail := pages[1..];
      FetchThreadsCursors(next, tail);
      var rest := Fetch(next, tail);
      assert f.requests == [params] + rest.requests;
      forall k | 0 <= k < |f.requests| - 1
        ensures Continues(pages[k]) && f.requests[k + 1] == Threaded(f.requests[k], pages[k])
      {
        if k > 0 {
          var j := k - 1;
          assert 0 <= j < |rest.requests| - 1;
          assert pages[k] == tail[j];
          assert Continues(tail[j]);
          assert rest.requests[j + 1] == Threaded(rest.requests[j], tail[j]);
          assert f.requests[k + 1] == rest.requests[j + 1] && f.requests[k] == rest.requests[j];
        } else {
          assert f.requests[1] == rest.requests[0] == next;
        }
      }
    }
  }

  /**
   * The exchange stops at the first page that does not continue it: every
   * earlier page continued, the last one did not, and the stop reason is that page's.
   */
  lemma {:induction false} FetchStopsAtFirstEnd(params: Params, pages: seq<Page>)
    requires EndsWithin(pages)
    ensures var f := Fetch(params, pages); var n := |f.requests|;
      && (forall k :: 0 <= k < n - 1 ==> Continues(pages[k]))
      && !Continues(pages[n - 1])
      && f.stop == StopOf(pages[n - 1])
    decreases |pages|
  {
    if Continues(pages[0]) {
      EndsWithinTail(pages);
      var next := Threaded(params, pages[0]);
      FetchStopsAtFirstEnd(next, pages[1..]);
      var f := Fetch(params, pages);
      var rest := Fetch(next, pages[1..]);
      assert |f.requests| == 1 + |rest.requests|;
      forall k | 1 <= k < |f.requests| ensures pages[k] == pages[1..][k - 1] {
      }
    }
  }

  /** The results are the concatenation, in order, of the results of every page that was requested. */
  lemma {:induction false} FetchCollects(params: Params, pages: seq<Page>)
    requires EndsWithin(pages)
    ensures var f := Fetch(params, pages); f.results == Collected(pages[..|f.requests|])
    decreases |pages|
  {
    var f := Fetch(params, pages);
    var n := |f.requests|;
    if !Continues(pages[0]) {
      assert pages[..1][1..] == [];
    } else {
      EndsWithinTail(pages);
      var next := Threaded(params, pages[0]);
      FetchCollects(next, pages[1..]);
      assert pages[..n][1..] == pages[1..][..n - 1];
    }
  }

  /** A page that fails to decode keeps everything collected before it. */
  lemma DecodeFailureKeepsEarlierPages(params: Params, pages: seq<Page>)
    requires EndsWithin(pages)
    ensures var f := Fetch(params, pages);
      f.stop == DecodeFailed ==> f.results == Collected(pages[..|f.requests| - 1])
  {
    var f := Fetch(params, pages);
    var n := |f.requests|;
    FetchCollects(params, pages);
    FetchStopsAtFirstEnd(params, pages);
    if f.stop == DecodeFailed {
      var last := pages[n - 1];
      assert last.DecodeError?;
      assert [last][1..] == [];
      assert Collected([last]) == PageResults(last) + Collected([]) == [];
      assert pages[..n] == pages[..n - 1] + [last];
      CollectedAppend(pages[..n - 1], [last]);
    }
  }

  lemma {:induction false} CollectedAppend(a: seq<Page>, b: seq<Page>)
    ensures Collected(a + b) == Collected(a) + Collected(b)
  {
    if a != [] {
      assert (a + b)[1..] == a[1..] + b;
      CollectedAppend(a[1..], b);
    } else {
      assert a + b == b;
    }
  }

  /** The exchange so far has produced `results` and `sent`, and the rest of it starts with `next` on `pages`. */
  ghost predicate Resumes(whole: Fetched, results: seq<Json>, sent: seq<Params>, next: Params, pages: seq<Page>)
    requires EndsWithin(pages)
  {
    var rest := Fetch(next, pages);
    whole == Fetched(results + rest.results, sent + rest.requests, rest.stop)
  }

  /** Before the first request, the whole exchange is still ahead. */
  lemma ResumesStart(params: Params, pages: seq<Page>)
    requires EndsWithin(pages)
    ensures pages[0..] == pages && EndsWithin(pages[0..])
    ensures Resumes(Fetch(params, pages), [], [], params, pages[0..])
  {
    var f := Fetch(params, pages);
    assert [] + f.results == f.results;
    assert [] + f.requests == f.requests;
  }

  /**
   * One request of the exchange, made with `next` on the i-th page: either
   * the page ends the exchange, which has then produced what was collected
   * before plus the page's results, or it hands on to the next page.
   */
  lemma ResumesStep(whole: Fetched, results: seq<Json>, sent: seq<Params>, next: Params, pages: seq<Page>, i: nat)
    requires i < |pages| && EndsWithin(pages[i..]) && Resumes(whole, results, sent, next, pages[i..])
    ensures !Continues(pages[i]) ==>
      && whole.results == (if pages[i].Payload? && pages[i].results != [] then results + pages[i].results else results)
      && whole.requests == sent + [next]
      && whole.stop == StopOf(pages[i])
    ensures Continues(pages[i]) ==>
      && i + 1 < |pages| && EndsWithin(pages[i + 1..])
      && Resumes(whole, results + pages[i].results, sent + [next], Threaded(next, pages[i]), pages[i + 1..])
  {
    var tail := pages[i..];
    assert tail[0] == pages[i];
    FetchStep(next, tail);
    if Continues(pages[i]) {
      assert tail[1..] == pages[i + 1..];
      var rest := Fetch(Threaded(next, pages[i]), pages[i + 1..]);
      assert results + (pages[i].results + rest.results) == (results + pages[i].results) + rest.results;
      assert sent + ([next] + rest.requests) == (sent + [next]) + rest.requests;
    } else if !(pages[i].Payload? && pages[i].results != []) {
      assert PageResults(pages[i]) == [];
      assert results + [] == results;
    }
  }

  // ---------------------------------------------------------------------------
  // The caller's parameter dict and the loop
  // ---------------------------------------------------------------------------

  /** The dict of query parameters the caller owns; the paginator updates it in place. */
  class ParamDict {
    var entries: Params

    /** The dict built by the query builder: every value present. */
    constructor (initial: map<Param, string>)
      ensures entries == map p | p in initial :: Some(initial[p])
    {
      entries := map p | p in initial :: Some(initial[p]);
    }

    /** `params.update({'forward_cursor': forwardCursor, 'collation_token': collationToken})` */
    method Update(forwardCursor: Option<string>, collationToken: Option<string>)
      modifies this
      ensures entries == WithCursors(old(entries), forwardCursor, collationToken)
    {
      entries := WithCursors(entries, forwardCursor, collationToken);
    }

    /** The head of each round of the loop: the dict is updated only while a forward cursor is held. */
    method UpdateIfCursor(forwardCursor: Option<string>, collationToken: Option<string>)
      modifies this
      ensures entries == Pending(old(entries), forwardCursor, collationToken)
    {
      if Present(forwardCursor) {
        Update(forwardCursor, collationToken);
      }
    }
  }

  /**
   * `get_ads_data_for_domain(params, headers, data, item)`: the results, the
   * stop reason and (as a ghost record) the parameters of every request are
   * those of `Fetch` on the caller's initial dict, and the dict is left
   * holding the parameters of the last request.
   */
  method GetAdsDataForDomain(params: ParamDict, bodies: seq<string>, decode: string -> Page)
    returns (results: seq<Json>, stop: StopReason, ghost sent: seq<Params>)
    requires EndsWithin(Pages(bodies, decode))
    modifies params
    ensures var f := Fetch(old(params.entries), Pages(bodies, decode));
      results == f.results && stop == f.stop && sent == f.requests
    ensures |sent| >= 1 && params.entries == sent[|sent| - 1]
  {
    ghost var pages := Pages(bodies, decode);
    ghost var whole := Fetch(params.entries, pages);
    ghost var next := params.entries;
    ResumesStart(next, pages);
    results := [];
    sent := [];
    var forwardCursor: Option<string> := Some("");
    var collationToken: Option<string> := Some("");
    var i := 0;
    while true
      invariant 0 <= i < |pages|
      invariant EndsWithin(pages[i..])
      invariant Resumes(whole, results, sent, next, pages[i..])
      invariant next == Pending(params.entries, forwardCursor, collationToken)
      decreases |pages| - i
    {
      ghost var sent0 := sent;
      ghost var results0 := results;
      PagesAt(bodies, decode, i);
      ResumesStep(whole, results0, sent0, next, pages, i);
      params.UpdateIfCursor(forwardCursor, collationToken);
      assert params.entries == next;
      sent := sent + [params.entries];
      assert params.entries == sent[|sent| - 1];
      var page := Decoded(bodies[i], decode);
      if page.DecodeError? {
        stop := DecodeFailed;
        break;
      }
      if page.results == [] {
        stop := NoResults;
        break;
      }
      results := results + page.results;
      forwardCursor := page.forwardCursor;
      collationToken := page.collationToken;
      if !Present(forwardCursor) {
        stop := NoForwardCursor;
        break;
      }
      next := Threaded(next, page);
      i := i + 1;
    }
  }

  /**
   * Combined with the query builder: the first request of a search carries
   * no cursor parameter, and every later one carries both, with the values
   * the previous page returned.
   */
  lemma CursorsOnlyAfterFirstRequest(initial: map<Param, string>, pages: seq<Page>)
    requires ForwardCursor !in initial && CollationToken !in initial
    requires EndsWithin(pages)
    ensures var f := Fetch(map p | p in initial :: Some(initial[p]), pages);
      && ForwardCursor !in f.requests[0] && CollationToken !in f.requests[0]
      && forall k :: 0 <= k < |f.requests| - 1 ==>
           && pages[k].Payload?
           && ForwardCursor in f.requests[k + 1] && CollationToken in f.requests[k + 1]
           && f.requests[k + 1][ForwardCursor] == pages[k].forwardCursor
           && f.requests[k + 1][CollationToken] == pages[k].collationToken
  {
    var start := map p | p in initial :: Some(initial[p]);
    var f := Fetch(start, pages);
    FetchThreadsCursors(start, pages);
    assert f.requests[0] == start;
    forall k | 0 <= k < |f.requests| - 1
      ensures && pages[k].Payload?
              && ForwardCursor in f.requests[k + 1] && CollationToken in f.requests[k + 1]
              && f.requests[k + 1][ForwardCursor] == pages[k].forwardCursor
              && f.requests[k + 1][CollationToken] == pages[k].collationToken
    {
      assert Continues(pages[k]);
      assert f.requests[k + 1] == Threaded(f.requests[k], pages[k]);
    }
  }
}
