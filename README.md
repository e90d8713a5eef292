# Facebook Ads Library scraper — a verified Dafny model of its core

`facebook_ads_scraper.py` is a small Streamlit app. It searches the Facebook
Ads Library for a comma-separated list of keywords or page ids, pages
through the library's `search_ads` endpoint, and flattens each ad the
library returns into an 18-column record for display and for an Excel export.
This project models the part of the app that holds its logic and proves
what that logic guarantees:

- **Query builder** (`get_params_config`, module `QueryBuilder`). It builds the
  request parameters of a keyword search or a page search from the sidebar
  settings. It raises one of three `ValueError`s: a keyword search without a
  query, a page search without a page id, or an unknown search type. The
  dates use the `%Y-%m-%d` format, modelled on calendar dates with a
  round-trip proof. `active_status` is `ALL` for `Both`, otherwise the
  upper-cased status.
- **Paginator** (`get_ads_data_for_domain`, module `Paginator`). It posts
  requests until a response cannot be decoded, has no results or has no
  forward cursor. Each request carries the previous page's `forwardCursor`
  and `collationToken`, written into the caller's parameter dict in place
  (class `ParamDict`). The results of every page are appended in order.
  - The server is a sequence of response bodies: the k-th request gets the
    k-th body.
  - `json.loads` and the reading of `payload` form a function parameter
    `decode`.
  - The `lstrip('for (;;);')` guard strips a set of characters, not a
    prefix.
  - The loop is a `while` method, proved equal to a recursive function
    `Fetch` of the pages. Lemmas about `Fetch` state the threading of cursors,
    the first-stop rule and the in-order accumulation.
- **Normaliser** (`process_ads_data` with `extract_domain`,
  `extract_from_url` and `ensure_serializable`; modules `Normalizer`, `Url`
  and `Serializable`).
  - A list entry is replaced, depth-first, by the ads inside it; the method
    recurses on each element, as the source does.
  - Each ad is read into a record. The creative fields come from the snapshot
    when it has a `link_url` key, otherwise from the first card.
  - Every Python exception a wrongly shaped ad can raise (`AttributeError`,
    `KeyError`, `TypeError`, `ValueError`) is a `Failure` that ends the run,
    as the uncaught exception does. `IndexError` cannot arise: `[0]` is only
    applied to `images`, `videos` and `cards` when they are truthy, so they
    are never empty.
  - The date conversion and the UTF-8 decoder are function parameters.
  - `urlparse`/`parse_qs` are modelled on the shape of CPython 3.12's
    `urlsplit`/`parse_qsl`. This includes the `b''` netloc that `urlparse`
    returns for a falsy non-string link such as `None`, which
    `ensure_serializable` then decodes.
- **Batch input** (line 245, module `Batch`): the comma-separated input is
  split, each piece stripped, and the blank pieces dropped.

The JSON values the scraper sees are the datatype `JsonValue.Json`, plus
Python `bytes`. It comes with Python truthiness, `dict.get` and `x[0]`.

How the normaliser treats malformed and missing fields:

- The normaliser raises in these cases and the model keeps them:
  - a non-dict ad or snapshot;
  - a non-dict snapshot `body`, or a non-dict `body.markup`, when the
    snapshot has a `link_url` key (a card's `body` is read as it is);
  - a truthy `images`, `videos` or `cards` whose first element is not a dict;
  - a truthy non-string `link_url`;
  - an unparsable link or date.
- Defaults apply only to missing keys. A key that is present with `null`
  keeps its `None` value, and `collationCount` is passed through as it is.
- The anti-hijacking prefix is removed as a set of characters, not as a
  fixed string.
- The `domain` column is the whole network location, including any port or
  user information, not only the host.

## Model

| member | source | states |
|---|---|---|
| QueryBuilder.DateRoundTrip | facebook_ads_scraper.py:27-28 | the `%Y-%m-%d` text of a calendar date parses back to that date, and every string that parses is the text of the date it parses to |
| QueryBuilder.NameInjective | facebook_ads_scraper.py:20-39 | distinct parameters have distinct wire names |
| QueryBuilder.CommonParams | facebook_ads_scraper.py:20-30 | exactly the nine common keys are present, with `count` 30, `ad_type` and `media_type` `all`, the given session, country and `v`, the status value and the two formatted dates; no mode key and no cursor key |
| QueryBuilder.WithMode | facebook_ads_scraper.py:35-39 | the mode dict holds exactly the common keys plus the mode key and `search_type`; it has the given values and keeps every common value |
| QueryBuilder.GetParamsConfig | facebook_ads_scraper.py:17-41 | it fails with the query error iff the type is `keyword` and the query is `None` or empty, with the page error iff the type is `page` and the page is `None` or empty, and with the type error iff the type is neither |
| QueryBuilder.KeywordParams | facebook_ads_scraper.py:32-35 | a keyword search with a query succeeds with `q` = the query and `search_type` = `keyword_exact_phrase`, every common parameter kept, no page id and no cursor |
| QueryBuilder.PageParams | facebook_ads_scraper.py:36-39 | a page search with a page id succeeds with `view_all_page_id` = the id and `search_type` = `page`, every common parameter kept, no `q` and no cursor |
| QueryBuilder.BuiltParamsDescribeSearch | facebook_ads_scraper.py:32-39 | a successful build describes exactly the requested search (the keyword or the page, never both) and carries no cursor |
| QueryBuilder.BuiltParamsDates | facebook_ads_scraper.py:27-28 | the `start_date` and `end_date` values of a successful build read back as the dates given |
| QueryBuilder.ActiveStatusAll | facebook_ads_scraper.py:23 | `active_status` is `ALL` iff the status is `Both` or upper-cases to `ALL`; any other status keeps its length |
| QueryBuilder.FormStatusValues | facebook_ads_scraper.py:216 | the three statuses the form offers go on the wire as `ACTIVE`, `PAUSED` and `ALL` |
| Strings.LStrip | facebook_ads_scraper.py:65 | `lstrip` removes the longest prefix of droppable characters: the result is a suffix, every removed character is droppable, and the first remaining one is not |
| Paginator.StripPrefixLiteral | facebook_ads_scraper.py:65 | for JSON text that does not start with one of the characters of `for (;;);`, the guard removes exactly that prefix |
| Paginator.StripPrefixEatsLeadingF | facebook_ads_scraper.py:65 | the character-set strip also eats the `f` of a bare `false` after the guard |
| Paginator.Pages | facebook_ads_scraper.py:59-65 | one decoded page per response body |
| Paginator.Fetch | facebook_ads_scraper.py:55-83 | at least one request and at most one per available page; the first request goes out with the caller's parameters |
| Paginator.FetchThreadsCursors | facebook_ads_scraper.py:52-57 | every page followed by another request had results and a forward cursor, and that request's parameters are the previous ones updated with that page's cursor and token |
| Paginator.FetchStopsAtFirstEnd | facebook_ads_scraper.py:64-79 | the exchange stops at the first page that fails to decode, has no results or has no forward cursor, with that page's reason |
| Paginator.FetchCollects | facebook_ads_scraper.py:71-72 | the results are the in-order concatenation of the results of every page requested |
| Paginator.DecodeFailureKeepsEarlierPages | facebook_ads_scraper.py:64-69 | a page that fails to decode keeps all results collected before it |
| Paginator.CollectedAppend | facebook_ads_scraper.py:72 | accumulation distributes over consecutive runs of pages |
| Paginator.ParamDict.constructor | facebook_ads_scraper.py:49 | the dict handed to the paginator holds the built parameters, each present |
| Paginator.ParamDict.Update | facebook_ads_scraper.py:57 | `update` sets `forward_cursor` and `collation_token` and changes nothing else |
| Paginator.ParamDict.UpdateIfCursor | facebook_ads_scraper.py:56-57 | the dict is updated only while a non-empty forward cursor is held |
| Paginator.GetAdsDataForDomain | facebook_ads_scraper.py:49-83 | the loop returns the results and stop reason of `Fetch` on the caller's initial dict, sends `Fetch`'s requests, and leaves the dict holding the parameters of the last request |
| Paginator.CursorsOnlyAfterFirstRequest | facebook_ads_scraper.py:52-57 | with the builder's dict, the first request has no cursor key, and every later one carries the cursor and token of the page before it |
| Url.UrlSplit | facebook_ads_scraper.py:86 | a successful split has a netloc without `/`, `?` or `#` |
| Url.FirstValue | facebook_ads_scraper.py:87-88 | nothing iff no pair has the key; otherwise the value of the first pair with the key, every earlier pair having another name |
| Url.ExtractDomain | facebook_ads_scraper.py:90-92 | the domain is the authority, free of `/`, `?` and `#` |
| Url.ExtractFromUrl | facebook_ads_scraper.py:85-88 | it fails exactly when the URL cannot be split; a non-empty value is paired with the key in the query |
| Url.FieldPairsRoundTrip | facebook_ads_scraper.py:87 | reading back the `name=value` fields of plain pairs gives the pairs |
| Url.QueryRoundTrip | facebook_ads_scraper.py:87 | `parse_qsl` of a query string built from plain pairs gives the pairs, in order |
| Url.UrlSplitCompose | facebook_ads_scraper.py:86 | a URL composed from a scheme, an authority, a path and plain query pairs splits back into exactly those parts |
| Url.ExtractFromComposedUrl | facebook_ads_scraper.py:85-92 | for such a URL, the domain is the authority and the value of a key is its first value in the query, or `''` |
| Url.ExtractFromEmptyUrl | facebook_ads_scraper.py:85-92 | an empty link has domain `''` and value `''` for every key |
| Url.SqsAtxtRoundTrip | facebook_ads_scraper.py:154-156 | a link with query `sqs=abc&atxt=def` yields `abc` for `keywords`, `def` for `atxt`, and its authority for `domain` |
| Serializable.EnsureSerializable | facebook_ads_scraper.py:94-101 | the result holds no bytes and has the shape of the input: same list lengths and dict keys, text where bytes were, every other leaf kept |
| Serializable.EnsureSerializableIdentity | facebook_ads_scraper.py:94-101 | a value without bytes comes back unchanged |
| Serializable.EnsureSerializableIdempotent | facebook_ads_scraper.py:94-101 | applying it twice equals applying it once |
| Serializable.EnsureSerializableUpdate | facebook_ads_scraper.py:97-98 | in a dict without bytes, only the entry just stored is converted |
| Normalizer.ColumnCount | facebook_ads_scraper.py:138-157 | a record has 18 distinct column names |
| Normalizer.FlatCreative | facebook_ads_scraper.py:114-121 | link, CTA, title and description are the snapshot's, `''` when missing; a falsy `images`/`videos` gives `''`, a truthy one the first element's URL (that element must be a dict); the body is `body.markup.__html`, `''` when `body` or `markup` is missing; it succeeds iff `body` is absent or a dict whose `markup` is absent or a dict, and every truthy `images`/`videos` starts with a dict |
| Normalizer.FlatAdCreative | facebook_ads_scraper.py:111-121 | an ad whose snapshot has only a link and a title gets that link and title, and `''` in every other creative column |
| Normalizer.FlatAdFields | facebook_ads_scraper.py:111-153 | for such an ad, the id is its own, the page id and name, caption and display format are `''`, `collationCount` is 0 and both raw dates are `None` |
| Normalizer.ReadRecordValue | facebook_ads_scraper.py:111-157 | a record that is read has, column by column, the value of its source lookup, creative field, date conversion, domain or query value |
| Normalizer.FlatAdRead | facebook_ads_scraper.py:111-157 | such an ad reads as the all-defaults record with its id, link and title, the link's domain and its `sqs` and `atxt` values |
| Normalizer.FlatAdRecord | facebook_ads_scraper.py:114-156 | when the link is composed from an authority and query pairs, the record's domain is that authority, and `keywords` and `atxt` are the first `sqs` and `atxt` values, `''` when absent |
| Normalizer.CardCreative | facebook_ads_scraper.py:122-130 | falsy cards give `''` in every creative column; otherwise it succeeds iff the first card is a dict, and each column is that card's value, `''` when missing |
| Normalizer.CreativeOf | facebook_ads_scraper.py:111-130 | a non-dict ad or snapshot raises `AttributeError`; a snapshot with a `link_url` key gives the flat creative, any other the creative of the first card (default cards `[{}]`) |
| Normalizer.DateText | facebook_ads_scraper.py:132-136 | a falsy raw date gives `None`; a truthy one gives the converted text, and raises exactly when the conversion raises, with its exception |
| Normalizer.Domain | facebook_ads_scraper.py:90-92 | for a string link: fails iff it cannot be split, else it is its netloc; for a non-string: `b''` iff falsy, otherwise `AttributeError` |
| Normalizer.QueryValue | facebook_ads_scraper.py:85-88 | for a string link: fails iff it cannot be split, else it is the first value of the key or `''`; for a non-string: `''` iff falsy, otherwise `AttributeError` |
| Normalizer.ReadRecord | facebook_ads_scraper.py:111-157 | reading succeeds iff every step does; each of the 18 columns is its source value with the source's default (`''`, `0` for `collationCount`, `None` for a falsy date); only the domain can hold bytes |
| Normalizer.ToDict | facebook_ads_scraper.py:138-157 | the dict has exactly the 18 columns; it holds no bytes when the record holds none |
| Normalizer.ToDictDomain | facebook_ads_scraper.py:154 | changing the domain of a record changes only the `domain` entry of its dict |
| Normalizer.Row | facebook_ads_scraper.py:111-158 | a row is a dict with exactly the 18 columns and no bytes; it raises exactly when reading the record raises, with the same exception |
| Normalizer.EmptyAd | facebook_ads_scraper.py:111-158 | an ad `{}` reads as the all-defaults record (texts `''`, dates `None`, `collationCount` 0) and its row is that record's dict |
| Normalizer.SerializeRecord | facebook_ads_scraper.py:154-158 | serialising a record keeps a string domain and every other column, and turns a `b''` domain into the decoded empty text |
| Normalizer.RowSerializesDomain | facebook_ads_scraper.py:154-158 | an ad's row is its record's dict, with a non-string domain (always `b''`) decoded |
| Normalizer.LeavesAppend | facebook_ads_scraper.py:105-109 | flattening distributes over concatenation |
| Normalizer.LeavesFlat | facebook_ads_scraper.py:105-109 | a list without nested lists flattens to itself |
| Normalizer.LeavesAround | facebook_ads_scraper.py:105-109 | the ads of an entry sit contiguously between the ads of the entries before and after it |
| Normalizer.LeavesAreAds | facebook_ads_scraper.py:105-109 | flattening yields no list and no bytes from bytes-free input |
| Normalizer.ExtractAll | facebook_ads_scraper.py:103-160 | a run that does not raise has one row per ad |
| Normalizer.ExtractAllRows | facebook_ads_scraper.py:158 | the k-th row of a run is the row of the k-th ad |
| Normalizer.ExtractAllFailure | facebook_ads_scraper.py:103-160 | a run that raises raises the exception of its first failing ad, and every ad before it was readable |
| Normalizer.ExtractAllAppend | facebook_ads_scraper.py:105-109 | the run over two consecutive groups of ads: the first exception wins, otherwise the rows concatenate |
| Normalizer.FailureEndsRun | facebook_ads_scraper.py:105-109 | an exception inside an entry ends the whole run with that exception |
| Normalizer.RowReaderReads | facebook_ads_scraper.py:111-158 | the source's reader accepts every bytes-free ad and reads it as `Row` |
| Normalizer.ProcessAdsData | facebook_ads_scraper.py:103-160 | the loop, with its recursive calls on list elements, returns the run of `ExtractAll` over the depth-first flattening of the input |
| Normalizer.ProcessAds | facebook_ads_scraper.py:103-160 | `process_ads_data` with the source's reader returns the run of `Row` over the flattened ads |
| Strings.Split | facebook_ads_scraper.py:245 | `split(',')` gives at least one piece and no piece holds the separator |
| Strings.JoinSplit | facebook_ads_scraper.py:245 | joining the pieces of a split gives the input back |
| Strings.SplitJoin | facebook_ads_scraper.py:245 | splitting a join of separator-free pieces gives the pieces |
| Strings.Strip | facebook_ads_scraper.py:245 | `strip()` leaves no whitespace at either end and never lengthens |
| Strings.StripKeepsOut | facebook_ads_scraper.py:245 | stripping adds no character |
| Strings.StripPadded | facebook_ads_scraper.py:245 | stripping removes exactly the whitespace around a trimmed non-empty string |
| Strings.StripBlank | facebook_ads_scraper.py:245 | a whitespace-only piece strips to nothing |
| Batch.NonEmptyStripped | facebook_ads_scraper.py:245 | at most one item per piece; every item is non-empty and trimmed |
| Batch.StrippedPiecesAt | facebook_ads_scraper.py:245 | the j-th stripped piece is `parts[j].strip()` |
| Batch.NonEmptyStrippedMembers | facebook_ads_scraper.py:245 | every item is the strip of some piece, and every piece whose strip is non-empty contributes that strip |
| Batch.NonEmptyStrippedSingle | facebook_ads_scraper.py:245 | one piece gives its strip when that is non-empty, and nothing otherwise |
| Batch.NonEmptyStrippedAppend | facebook_ads_scraper.py:245 | the items of two runs of pieces are the items of the first followed by those of the second |
| Batch.NonEmptyStrippedNoComma | facebook_ads_scraper.py:245 | items of comma-free pieces are comma-free |
| Batch.SplitItems | facebook_ads_scraper.py:245 | every item to scrape is non-empty, trimmed and free of commas |
| Batch.NonEmptyStrippedKeeps | facebook_ads_scraper.py:245 | already trimmed non-empty pieces are kept as they are, in order |
| Batch.SplitItemsJoin | facebook_ads_scraper.py:245 | items joined with commas come back unchanged |
| Batch.SplitItemsOfJoin | facebook_ads_scraper.py:245 | comma-joined pieces come back stripped, in order, without the blank ones |

## Left out

- HTTP. `requests.post`, the headers, the form data, the status-code display
  and `time.sleep(1)` are not modelled. The server is the sequence of response
  bodies given to `GetAdsDataForDomain`.
- `json.loads` and the reading of `payload`/`results`/`forwardCursor`/`collationToken`
  are the function parameter `decode`. Decoding is not modelled.
- Paginator.GetAdsDataForDomain: requires that some page ends the exchange
  (`EndsWithin`). A server that returns cursors forever makes the source loop
  forever, which the model does not capture.
- Paginator: a decoded response whose `payload` is not a dict would raise in
  the source; `decode` only produces well-formed pages or `DecodeError`.
- The pandas date conversion is the function parameter `toDate`, with
  `NaT.strftime`'s exception as its failure.
- `bytes.decode('utf-8')` is the total function parameter `utf8`.
  Invalid UTF-8 is not modelled.
- Normalizer.ProcessAdsData: its input is bytes-free. `json.loads` never
  yields bytes, so only `urlparse`'s `b''` netloc can introduce them.
- Normalizer.ProcessAdsData is generic over the per-ad reader.
  `ProcessAds` supplies the source's reader.
- Url.UrlSplit: the `ValueError` of `_checknetloc` (the NFKC check of
  non-ASCII authorities), the `;params` split of `urlparse` and the
  scheme-specific cases of CPython are not modelled. Only the `[`/`]`
  balance check raises.
- Url.ExtractFromUrl: `parse_qs` percent-decodes names and values; the model only replaces `+` with a space.
- Strings.ToUpper: handles only the ASCII letters. Python's `str.upper` also maps
  other letters, including multi-character expansions such as `ß` to `SS`.
- QueryBuilder.GetParamsConfig: the dates are calendar dates, not
  `datetime` objects. The time of day plays no part in `%Y-%m-%d`.
- The order of keys in the result dicts, which only affects display and
  column order, is not modelled.
- `parse_urlencoded_to_dict`, `display_scraping_progress`, `save_to_excel`
  and `main` (the Streamlit UI, the per-item scraping loop, the DataFrame
  display and the Excel download) are not modelled, except the batch split
  at line 245.
