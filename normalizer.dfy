/**
 * The normaliser (`process_ads_data`): flattens the collected ads, which may
 * hold nested lists of ads, depth-first, and turns every ad into an
 * 18-column record that can be shown and exported.
 *
 * The date conversion (`pd.to_datetime(raw, unit='s', errors='coerce')`
 * followed by `strftime('%Y-%m-%d')`) and the UTF-8 decoder are parameters.
 * A Python exception raised while reading an ad is a `Failure`; it ends the
 * whole run, as the exception does in the source.
 */
module Normalizer {
  import opened Wrappers
  import opened JsonValue
  import opened Url
  import opened Serializable

  /** The date converter: the day of a raw timestamp, or the exception `strftime` raises on `NaT`. */
  type DateConverter = Json -> Result<string, PyError>

  /** The UTF-8 decoder `bytes.decode('utf-8')`. */
  type Utf8Decoder = seq<bv8> -> string

  /** The columns of a record, in the order the source builds them. */
  const Columns: seq<string> := [
    "adid", "pageid", "pagename", "link_url", "body", "cta_text", "title",
    "original_image_url", "original_video_url", "caption", "creation_time",
    "end_date", "collationCount", "display_format", "link_description",
    "domain", "keywords", "atxt"
  ]

  /** The set of column names. */
  function ColumnSet(): set<string>
  {
    set c | c in Columns
  }

  /** A sequence without repetitions has as many distinct elements as entries. */
  lemma {:induction false} DistinctCount(xs: seq<string>)
    requires forall i, j :: 0 <= i < j < |xs| ==> xs[i] != xs[j]
    ensures |set c | c in xs| == |xs|
  {
    if xs != [] {
      DistinctCount(xs[1..]);
      var rest := set c | c in xs[1..];
      assert (set c | c in xs) == {xs[0]} + rest;
      assert xs[0] !in rest;
    }
  }

  /** There are 18 columns, with no name repeated. */
  lemma ColumnCount()
    ensures |ColumnSet()| == 18
  {
    assert forall i, j :: 0 <= i < j < |Columns| ==> Columns[i] != Columns[j];
    DistinctCount(Columns);
  }

  // ---------------------------------------------------------------------------
  // Reading one ad
  // ---------------------------------------------------------------------------

  /** `d.get(key, default)` on a value already known to be a dict. */
  function Lookup(fields: map<string, Json>, key: string, default: Json): (r: Json)
    ensures NoBytes(JObj(fields)) && NoBytes(default) ==> NoBytes(r)
  {
    if key in fields then fields[key] else default
  }

  /** The creative part of an ad: its link, media, text and call to action. */
  datatype Creative = Creative(
    linkUrl: Json, imageUrl: Json, videoUrl: Json, body: Json,
    ctaText: Json, title: Json, linkDescription: Json)

  predicate CreativeNoBytes(c: Creative)
  {
    && NoBytes(c.linkUrl) && NoBytes(c.imageUrl) && NoBytes(c.videoUrl) && NoBytes(c.body)
    && NoBytes(c.ctaText) && NoBytes(c.title) && NoBytes(c.linkDescription)
  }

  /** A falsy media entry is skipped; a truthy one must have a dict as its first element. */
  predicate MediaReadable(snapshot: map<string, Json>, key: string)
  {
    var media := Lookup(snapshot, key, JNull);
    Truthy(media) ==> First(media).Success? && First(media).value.JObj?
  }

  /** A `body` entry that `.get('markup', {}).get('__html', '')` can read: absent, or a dict whose `markup` is absent or a dict. */
  predicate BodyReadable(snapshot: map<string, Json>)
  {
    "body" in snapshot ==>
      snapshot["body"].JObj? && ("markup" in snapshot["body"].fields ==> snapshot["body"].fields["markup"].JObj?)
  }

  /** `snapshot.get(key, [{}])[0].get(field, '') if snapshot.get(key) else ''` */
  function FirstMedia(snapshot: map<string, Json>, key: string, field: string): (r: Result<Json, PyError>)
    ensures r.Success? && NoBytes(JObj(snapshot)) ==> NoBytes(r.value)
    ensures r.Success? <==> MediaReadable(snapshot, key)
    ensures r.Success? && !Truthy(Lookup(snapshot, key, JNull)) ==> r.value == EmptyStr
    ensures r.Success? && Truthy(Lookup(snapshot, key, JNull)) ==>
      r.value == Lookup(First(Lookup(snapshot, key, JNull)).value.fields, field, EmptyStr)
  {
    var media := Lookup(snapshot, key, JNull);
    if Truthy(media) then
      var first :- First(media);
      Get(first, field, EmptyStr)
    else Success(EmptyStr)
  }

  /**
   * An ad whose snapshot has a `link_url` key keeps its creative on the
   * snapshot itself; missing keys give `''`, and so does a falsy `images` or
   * `videos` entry.
   */
  function FlatCreative(snapshot: map<string, Json>): (r: Result<Creative, PyError>)
    ensures r.Success? && NoBytes(JObj(snapshot)) ==> CreativeNoBytes(r.value)
    ensures r.Success? ==>
      && r.value.linkUrl == Lookup(snapshot, "link_url", EmptyStr)
      && r.value.ctaText == Lookup(snapshot, "cta_text", EmptyStr)
      && r.value.title == Lookup(snapshot, "title", EmptyStr)
      && r.value.linkDescription == Lookup(snapshot, "link_description", EmptyStr)
      && (!Truthy(Lookup(snapshot, "images", JNull)) ==> r.value.imageUrl == EmptyStr)
      && (!Truthy(Lookup(snapshot, "videos", JNull)) ==> r.value.videoUrl == EmptyStr)
      && ("body" !in snapshot ==> r.value.body == EmptyStr)
    ensures r.Success? <==>
      MediaReadable(snapshot, "images") && MediaReadable(snapshot, "videos") && BodyReadable(snapshot)
    ensures "body" in snapshot && !snapshot["body"].JObj? ==> r.Failure?
    ensures r.Success? && "body" in snapshot && "markup" !in snapshot["body"].fields ==> r.value.body == EmptyStr
    ensures r.Success? && "body" in snapshot && "markup" in snapshot["body"].fields ==>
      var markup := snapshot["body"].fields["markup"];
      markup.JObj? && r.value.body == Lookup(markup.fields, "__html", EmptyStr)
    ensures r.Success? && Truthy(Lookup(snapshot, "images", JNull)) ==>
      var first := First(Lookup(snapshot, "images", JNull));
      first.Success? && first.value.JObj? && r.value.imageUrl == Lookup(first.value.fields, "original_image_url", EmptyStr)
    ensures r.Success? && Truthy(Lookup(snapshot, "videos", JNull)) ==>
      var first := First(Lookup(snapshot, "videos", JNull));
      first.Success? && first.value.JObj? && r.value.videoUrl == Lookup(first.value.fields, "video_hd_url", EmptyStr)
  {
    var linkUrl := Lookup(snapshot, "link_url", EmptyStr);
    var imageUrl :- FirstMedia(snapshot, "images", "original_image_url");
    var videoUrl :- FirstMedia(snapshot, "videos", "video_hd_url");
    var body1 := Lookup(snapshot, "body", EmptyObj);
    var body2 :- Get(body1, "markup", EmptyObj);
    var body :- Get(body2, "__html", EmptyStr);
    Success(Creative(
      linkUrl, imageUrl, videoUrl, body,
      Lookup(snapshot, "cta_text", EmptyStr),
      Lookup(snapshot, "title", EmptyStr),
      Lookup(snapshot, "link_description", EmptyStr)))
  }

  /** A creative whose every column is `''`. */
  const NoCreative := Creative(EmptyStr, EmptyStr, EmptyStr, EmptyStr, EmptyStr, EmptyStr, EmptyStr)

  /**
   * Any other ad keeps its creative on its first card: falsy cards give no
   * creative at all, a first card that is not a dict raises, and a dict
   * card supplies each column, `''` where it lacks the key.
   */
  function CardCreative(cards: Json): (r: Result<Creative, PyError>)
    ensures r.Success? && NoBytes(cards) ==> CreativeNoBytes(r.value)
    ensures !Truthy(cards) ==> r == Success(NoCreative)
    ensures Truthy(cards) ==>
      (r.Success? <==> First(cards).Success? && First(cards).value.JObj?)
    ensures Truthy(cards) && r.Success? ==>
      var card := First(cards).value.fields;
      && r.value.linkUrl == Lookup(card, "link_url", EmptyStr)
      && r.value.imageUrl == Lookup(card, "original_image_url", EmptyStr)
      && r.value.videoUrl == Lookup(card, "video_hd_url", EmptyStr)
      && r.value.body == Lookup(card, "body", EmptyStr)
      && r.value.ctaText == Lookup(card, "cta_text", EmptyStr)
      && r.value.title == Lookup(card, "title", EmptyStr)
      && r.value.linkDescription == Lookup(card, "link_description", EmptyStr)
  {
    var card :- if Truthy(cards) then First(cards) else Success(EmptyObj);
    if !card.JObj? then Failure(AttributeError)
    else
      var c := card.fields;
      Success(Creative(
        Lookup(c, "link_url", EmptyStr),
        Lookup(c, "original_image_url", EmptyStr),
        Lookup(c, "video_hd_url", EmptyStr),
        Lookup(c, "body", EmptyStr),
        Lookup(c, "cta_text", EmptyStr),
        Lookup(c, "title", EmptyStr),
        Lookup(c, "link_description", EmptyStr)))
  }

  /** `item.get('snapshot', {})`, when `item` is a dict and that is a dict. */
  function SnapshotOf(item: Json): map<string, Json>
  {
    if item.JObj? then
      var snapshot := Lookup(item.fields, "snapshot", EmptyObj);
      if snapshot.JObj? then snapshot.fields else map[]
    else map[]
  }

  /** `snapshot.get('cards', [{}])` */
  function CardsOf(item: Json): Json
  {
    Lookup(SnapshotOf(item), "cards", JList([EmptyObj]))
  }

  /**
   * The creative columns of an ad: from the snapshot when it has a
   * `link_url` key, from the cards otherwise. An ad or snapshot that is not
   * a dict raises `AttributeError`.
   */
  function CreativeOf(item: Json): (r: Result<Creative, PyError>)
    requires NoBytes(item)
    ensures r.Success? ==> CreativeNoBytes(r.value)
    ensures !item.JObj? ==> r == Failure(AttributeError)
    ensures item.JObj? && !Lookup(item.fields, "snapshot", EmptyObj).JObj? ==> r == Failure(AttributeError)
    ensures item.JObj? && Lookup(item.fields, "snapshot", EmptyObj).JObj? ==>
      r == if "link_url" in SnapshotOf(item) then FlatCreative(SnapshotOf(item)) else CardCreative(CardsOf(item))
  {
    var snapshotValue :- Get(item, "snapshot", EmptyObj);
    var cards :- Get(snapshotValue, "cards", JList([EmptyObj]));
    var snapshot := snapshotValue.fields;
    if "link_url" in snapshot then FlatCreative(snapshot) else CardCreative(cards)
  }

  /** `convert(raw) if raw else None` */
  function DateText(raw: Json, toDate: DateConverter): (r: Result<Json, PyError>)
    ensures r.Success? ==> r.value.JNull? || r.value.JStr?
    ensures !Truthy(raw) ==> r == Success(JNull)
    ensures Truthy(raw) ==> (r.Success? <==> toDate(raw).Success?)
    ensures Truthy(raw) && r.Success? ==> r.value == JStr(toDate(raw).value)
    ensures Truthy(raw) && r.Failure? ==> r.error == toDate(raw).error
  {
    if Truthy(raw) then
      var day :- toDate(raw);
      Success(JStr(day))
    else Success(JNull)
  }

  /**
   * `extract_domain(link_url)`. A string is split as a URL; a falsy
   * non-string (such as `None`) is decoded to `''` and the result encoded
   * back, giving `b''`; any other value has no `decode` and raises.
   */
  function Domain(linkUrl: Json): (r: Result<Json, PyError>)
    requires !linkUrl.JBytes?
    ensures r.Success? ==> r.value.JStr? || r.value == JBytes([])
    ensures linkUrl.JStr? ==>
      && (r.Failure? <==> UrlSplit(linkUrl.s).Failure?)
      && (r.Success? ==> r.value == JStr(UrlSplit(linkUrl.s).value.netloc))
    ensures !linkUrl.JStr? ==>
      && (r.Success? <==> !Truthy(linkUrl))
      && (r.Success? ==> r.value == JBytes([]))
      && (r.Failure? ==> r.error == AttributeError)
  {
    match linkUrl
    case JStr(s) =>
      var netloc :- ExtractDomain(s);
      Success(JStr(netloc))
    case _ => if Truthy(linkUrl) then Failure(AttributeError) else Success(JBytes([]))
  }

  /**
   * `extract_from_url(link_url, key)`: for a falsy non-string the parsed
   * query is `b''`, which has no values, so the default `''` comes back.
   */
  function QueryValue(linkUrl: Json, key: string): (r: Result<Json, PyError>)
    requires !linkUrl.JBytes?
    ensures r.Success? ==> r.value.JStr?
    ensures linkUrl.JStr? ==>
      && (r.Failure? <==> UrlSplit(linkUrl.s).Failure?)
      && (r.Success? ==> r.value == JStr(FirstValue(ParseQsl(UrlSplit(linkUrl.s).value.query), key).GetOr("")))
    ensures !linkUrl.JStr? ==>
      && (r.Success? <==> !Truthy(linkUrl))
      && (r.Success? ==> r.value == EmptyStr)
      && (r.Failure? ==> r.error == AttributeError)
  {
    match linkUrl
    case JStr(s) =>
      var value :- ExtractFromUrl(s, key);
      Success(JStr(value))
    case _ => if Truthy(linkUrl) then Failure(AttributeError) else Success(EmptyStr)
  }

  /** The values of one record, column by column, before they are put in a dict. */
  datatype Record = Record(
    adid: Json, pageid: Json, pagename: Json, linkUrl: Json, body: Json,
    ctaText: Json, title: Json, originalImageUrl: Json, originalVideoUrl: Json,
    caption: Json, creationTime: Json, endDate: Json, collationCount: Json,
    displayFormat: Json, linkDescription: Json, domain: Json, keywords: Json, atxt: Json)

  /** Every column but `domain` is free of bytes. */
  predicate NoBytesOutsideDomain(r: Record)
  {
    && NoBytes(r.adid) && NoBytes(r.pageid) && NoBytes(r.pagename) && NoBytes(r.linkUrl)
    && NoBytes(r.body) && NoBytes(r.ctaText) && NoBytes(r.title) && NoBytes(r.originalImageUrl)
    && NoBytes(r.originalVideoUrl) && NoBytes(r.caption) && NoBytes(r.creationTime)
    && NoBytes(r.endDate) && NoBytes(r.collationCount) && NoBytes(r.displayFormat)
    && NoBytes(r.linkDescription) && NoBytes(r.keywords) && NoBytes(r.atxt)
  }

  /**
   * Reading one ad, step by step in the order of the source; the first
   * exception ends it. Each column comes from the step that computes it, the
   * plain ones straight from the ad or its snapshot with their defaults.
   */
  function ReadRecord(item: Json, toDate: DateConverter): (r: Result<Record, PyError>)
    requires NoBytes(item)
    ensures r.Success? <==>
      && CreativeOf(item).Success?
      && DateText(Lookup(SnapshotOf(item), "creation_time", JNull), toDate).Success?
      && DateText(Lookup(item.fields, "endDate", JNull), toDate).Success?
      && Domain(CreativeOf(item).value.linkUrl).Success?
      && QueryValue(CreativeOf(item).value.linkUrl, "sqs").Success?
      && QueryValue(CreativeOf(item).value.linkUrl, "atxt").Success?
    ensures r.Success? ==>
      var c := CreativeOf(item).value;
      && r.value.adid == Lookup(item.fields, "adid", EmptyStr)
      && r.value.pageid == Lookup(item.fields, "pageID", EmptyStr)
      && r.value.pagename == Lookup(item.fields, "pageName", EmptyStr)
      && r.value.collationCount == Lookup(item.fields, "collationCount", JInt(0))
      && r.value.caption == Lookup(SnapshotOf(item), "caption", EmptyStr)
      && r.value.displayFormat == Lookup(SnapshotOf(item), "display_format", EmptyStr)
      && r.value.linkUrl == c.linkUrl && r.value.body == c.body && r.value.ctaText == c.ctaText
      && r.value.title == c.title && r.value.originalImageUrl == c.imageUrl
      && r.value.originalVideoUrl == c.videoUrl && r.value.linkDescription == c.linkDescription
      && r.value.creationTime == DateText(Lookup(SnapshotOf(item), "creation_time", JNull), toDate).value
      && r.value.endDate == DateText(Lookup(item.fields, "endDate", JNull), toDate).value
      && r.value.domain == Domain(c.linkUrl).value
      && r.value.keywords == QueryValue(c.linkUrl, "sqs").value
      && r.value.atxt == QueryValue(c.linkUrl, "atxt").value
    ensures r.Success? ==> NoBytesOutsideDomain(r.value)
  {
    var creative :- CreativeOf(item);
    var snapshot := SnapshotOf(item);
    var creationTime :- DateText(Lookup(snapshot, "creation_time", JNull), toDate);
    var endDate :- DateText(Lookup(item.fields, "endDate", JNull), toDate);
    var domain :- Domain(creative.linkUrl);
    var keywords :- QueryValue(creative.linkUrl, "sqs");
    var atxt :- QueryValue(creative.linkUrl, "atxt");
    Success(Record(
      Lookup(item.fields, "adid", EmptyStr),
      Lookup(item.fields, "pageID", EmptyStr),
      Lookup(item.fields, "pageName", EmptyStr),
      creative.linkUrl, creative.body, creative.ctaText, creative.title,
      creative.imageUrl, creative.videoUrl,
      Lookup(snapshot, "caption", EmptyStr),
      creationTime, endDate,
      Lookup(item.fields, "collationCount", JInt(0)),
      Lookup(snapshot, "display_format", EmptyStr),
      creative.linkDescription,
      domain, keywords, atxt))
  }

  /** The dict literal `extracted_item`. */
  function ToDict(r: Record): (m: map<string, Json>)
    ensures m.Keys == ColumnSet()
    ensures NoBytesOutsideDomain(r) && NoBytes(r.domain) ==> NoBytes(JObj(m))
  {
    map[
      "adid" := r.adid,
      "pageid" := r.pageid,
      "pagename" := r.pagename,
      "link_url" := r.linkUrl,
      "body" := r.body,
      "cta_text" := r.ctaText,
      "title" := r.title,
      "original_image_url" := r.originalImageUrl,
      "original_video_url" := r.originalVideoUrl,
      "caption" := r.caption,
      "creation_time" := r.creationTime,
      "end_date" := r.endDate,
      "collationCount" := r.collationCount,
      "display_format" := r.displayFormat,
      "link_description" := r.linkDescription,
      "domain" := r.domain,
      "keywords" := r.keywords,
      "atxt" := r.atxt
    ]
  }

  /** Changing the domain of a record changes one entry of its dict. */
  lemma ToDictDomain(r: Record, x: Json)
    ensures ToDict(r.(domain := x)) == ToDict(r)["domain" := x]
  {
  }

  /** One ad's row: its record as a dict, passed through `ensure_serializable`. */
  function Row(item: Json, utf8: Utf8Decoder, toDate: DateConverter): (r: Result<Json, PyError>)
    requires NoBytes(item)
    ensures r.Success? ==> r.value.JObj? && r.value.fields.Keys == ColumnSet() && NoBytes(r.value)
    ensures r.Failure? <==> ReadRecord(item, toDate).Failure?
    ensures r.Failure? ==> r.error == ReadRecord(item, toDate).error
  {
    var record :- ReadRecord(item, toDate);
    Success(EnsureSerializable(JObj(ToDict(record)), utf8))
  }

  /** The record of an ad with no keys at all: every default of the source. */
  const EmptyAdRecord := Record(
    EmptyStr, EmptyStr, EmptyStr, EmptyStr, EmptyStr, EmptyStr, EmptyStr, EmptyStr, EmptyStr,
    EmptyStr, JNull, JNull, JInt(0), EmptyStr, EmptyStr, EmptyStr, EmptyStr, EmptyStr)

  /**
   * `{}` reads as a carded ad with the default `[{}]` cards: every text
   * column is `''`, the dates are `None`, `collationCount` is 0, and the
   * empty link has an empty domain and no query values.
   */
  lemma EmptyAd(utf8: Utf8Decoder, toDate: DateConverter)
    ensures ReadRecord(EmptyObj, toDate) == Success(EmptyAdRecord)
    ensures Row(EmptyObj, utf8, toDate) == Success(JObj(ToDict(EmptyAdRecord)))
  {
    EmptyAdRead(toDate);
    EnsureSerializableIdentity(JObj(ToDict(EmptyAdRecord)), utf8);
  }

  lemma EmptyAdRead(toDate: DateConverter)
    ensures ReadRecord(EmptyObj, toDate) == Success(EmptyAdRecord)
  {
    assert CardCreative(JList([EmptyObj])) == Success(NoCreative);
    assert CreativeOf(EmptyObj) == Success(NoCreative);
    ExtractFromEmptyUrl("sqs");
    ExtractFromEmptyUrl("atxt");
  }

  /** An ad whose snapshot holds only a link and a title. */
  function FlatAd(adid: string, url: string, title: string): (ad: Json)
    ensures NoBytes(ad)
  {
    var snapshot := map["link_url" := JStr(url), "title" := JStr(title)];
    assert forall key :: key in snapshot ==> NoBytes(snapshot[key]);
    var fields := map["snapshot" := JObj(snapshot), "adid" := JStr(adid)];
    assert forall key :: key in fields ==> NoBytes(fields[key]);
    JObj(fields)
  }

  /** Such an ad takes the flat branch: its link and title, `''` everywhere else. */
  lemma FlatAdCreative(adid: string, url: string, title: string)
    ensures CreativeOf(FlatAd(adid, url, title))
         == Success(NoCreative.(linkUrl := JStr(url), title := JStr(title)))
  {
    var item := FlatAd(adid, url, title);
    var snapshot := map["link_url" := JStr(url), "title" := JStr(title)];
    assert Lookup(item.fields, "snapshot", EmptyObj) == JObj(snapshot);
    assert SnapshotOf(item) == snapshot;
    assert "images" !in snapshot && "videos" !in snapshot && "body" !in snapshot;
    assert FirstMedia(snapshot, "images", "original_image_url") == Success(EmptyStr);
    assert FirstMedia(snapshot, "videos", "video_hd_url") == Success(EmptyStr);
    assert FlatCreative(snapshot) == Success(NoCreative.(linkUrl := JStr(url), title := JStr(title)));
  }

  /** The record a successful read yields, column by column from its steps. */
  lemma ReadRecordValue(item: Json, toDate: DateConverter)
    requires NoBytes(item) && ReadRecord(item, toDate).Success?
    ensures var c := CreativeOf(item).value;
      var snapshot := SnapshotOf(item);
      ReadRecord(item, toDate).value == Record(
        Lookup(item.fields, "adid", EmptyStr),
        Lookup(item.fields, "pageID", EmptyStr),
        Lookup(item.fields, "pageName", EmptyStr),
        c.linkUrl, c.body, c.ctaText, c.title, c.imageUrl, c.videoUrl,
        Lookup(snapshot, "caption", EmptyStr),
        DateText(Lookup(snapshot, "creation_time", JNull), toDate).value,
        DateText(Lookup(item.fields, "endDate", JNull), toDate).value,
        Lookup(item.fields, "collationCount", JInt(0)),
        Lookup(snapshot, "display_format", EmptyStr),
        c.linkDescription,
        Domain(c.linkUrl).value,
        QueryValue(c.linkUrl, "sqs").value,
        QueryValue(c.linkUrl, "atxt").value)
  {
  }

  /** The plain columns of a flat ad: its id, and the defaults for everything it lacks. */
  lemma FlatAdFields(adid: string, url: string, title: string)
    ensures var item := FlatAd(adid, url, title);
      var snapshot := SnapshotOf(item);
      && Lookup(item.fields, "adid", EmptyStr) == JStr(adid)
      && Lookup(item.fields, "pageID", EmptyStr) == EmptyStr
      && Lookup(item.fields, "pageName", EmptyStr) == EmptyStr
      && Lookup(item.fields, "collationCount", JInt(0)) == JInt(0)
      && Lookup(item.fields, "endDate", JNull) == JNull
      && Lookup(snapshot, "caption", EmptyStr) == EmptyStr
      && Lookup(snapshot, "display_format", EmptyStr) == EmptyStr
      && Lookup(snapshot, "creation_time", JNull) == JNull
  {
    var item := FlatAd(adid, url, title);
    assert item.fields == map["snapshot" := JObj(map["link_url" := JStr(url), "title" := JStr(title)]), "adid" := JStr(adid)];
    assert SnapshotOf(item) == map["link_url" := JStr(url), "title" := JStr(title)];
  }

  /** A flat ad reads as the all-defaults record with its id, link and title and the link's domain and query values. */
  lemma FlatAdRead(adid: string, url: string, title: string, toDate: DateConverter, netloc: string, keywords: string, atxt: string)
    requires ExtractDomain(url) == Success(netloc)
    requires ExtractFromUrl(url, "sqs") == Success(keywords) && ExtractFromUrl(url, "atxt") == Success(atxt)
    ensures ReadRecord(FlatAd(adid, url, title), toDate)
         == Success(EmptyAdRecord.(
              adid := JStr(adid), linkUrl := JStr(url), title := JStr(title),
              domain := JStr(netloc), keywords := JStr(keywords), atxt := JStr(atxt)))
  {
    var item := FlatAd(adid, url, title);
    FlatAdCreative(adid, url, title);
    FlatAdFields(adid, url, title);
    assert ReadRecord(item, toDate).Success?;
    ReadRecordValue(item, toDate);
  }

  /**
   * A flat ad linking to a well-formed URL reads as the all-defaults record
   * with its id, link and title, the URL's authority as domain, and the
   * first `sqs` and `atxt` values of its query (or `''`).
   */
  lemma FlatAdRecord(adid: string, title: string,
                     scheme: string, netloc: string, path: string, pairs: seq<(string, string)>,
                     toDate: DateConverter)
    requires SplittableParts(scheme, netloc, path, pairs)
    ensures var url := ComposeUrl(scheme, netloc, path, pairs);
      ReadRecord(FlatAd(adid, url, title), toDate)
      == Success(EmptyAdRecord.(
           adid := JStr(adid), linkUrl := JStr(url), title := JStr(title),
           domain := JStr(netloc),
           keywords := JStr(FirstValue(pairs, "sqs").GetOr("")),
           atxt := JStr(FirstValue(pairs, "atxt").GetOr(""))))
  {
    var url := ComposeUrl(scheme, netloc, path, pairs);
    ExtractFromComposedUrl(scheme, netloc, path, pairs, "sqs");
    ExtractFromComposedUrl(scheme, netloc, path, pairs, "atxt");
    FlatAdRead(adid, url, title, toDate, netloc, FirstValue(pairs, "sqs").GetOr(""), FirstValue(pairs, "atxt").GetOr(""));
  }

  /**
   * `ensure_serializable` changes a record in one place only: the `b''`
   * domain that a falsy non-string link gives becomes the decoded empty
   * text; every other column, and a string domain, is kept as it is.
   */
  lemma SerializeRecord(rec: Record, utf8: Utf8Decoder)
    requires NoBytesOutsideDomain(rec)
    requires rec.domain.JStr? || rec.domain == JBytes([])
    ensures rec.domain.JStr? ==> EnsureSerializable(JObj(ToDict(rec)), utf8) == JObj(ToDict(rec))
    ensures !rec.domain.JStr? ==>
      EnsureSerializable(JObj(ToDict(rec)), utf8) == JObj(ToDict(rec.(domain := JStr(utf8([])))))
  {
    if rec.domain.JStr? {
      EnsureSerializableIdentity(JObj(ToDict(rec)), utf8);
    } else {
      var blank := rec.(domain := EmptyStr);
      var base := ToDict(blank);
      ToDictDomain(blank, rec.domain);
      assert blank.(domain := rec.domain) == rec;
      EnsureSerializableUpdate(base, "domain", rec.domain, utf8);
      ToDictDomain(blank, JStr(utf8([])));
    }
  }

  /** An ad's row is its record as a dict, with a `b''` domain decoded. */
  lemma RowSerializesDomain(item: Json, utf8: Utf8Decoder, toDate: DateConverter)
    requires NoBytes(item) && ReadRecord(item, toDate).Success?
    ensures var rec := ReadRecord(item, toDate).value;
      && (rec.domain.JStr? ==> Row(item, utf8, toDate) == Success(JObj(ToDict(rec))))
      && (!rec.domain.JStr? ==>
            && rec.domain == JBytes([])
            && Row(item, utf8, toDate) == Success(JObj(ToDict(rec.(domain := JStr(utf8([])))))))
  {
    var rec := ReadRecord(item, toDate).value;
    assert Row(item, utf8, toDate) == Success(EnsureSerializable(JObj(ToDict(rec)), utf8));
    SerializeRecord(rec, utf8);
  }

  // ---------------------------------------------------------------------------
  // Flattening nested lists of ads, and the whole run
  // ---------------------------------------------------------------------------

  /** No value of `xs` holds bytes. */
  predicate AllNoBytes(xs: seq<Json>)
  {
    forall k :: 0 <= k < |xs| ==> NoBytes(xs[k])
  }

  /**
   * The ads of `xs` in the order the source reaches them: a list is
   * replaced, depth-first, by the ads inside it.
   */
  function Leaves(xs: seq<Json>): (r: seq<Json>)
  {
    if xs == [] then [] else ItemLeaves(xs[0]) + Leaves(xs[1..])
  }

  /** The ads of one entry: itself, or the ads inside it when it is a list. */
  function ItemLeaves(x: Json): (r: seq<Json>)
  {
    if x.JList? then Leaves(x.items) else [x]
  }

  /** Flattening distributes over concatenation. */
  lemma {:induction false} LeavesAppend(xs: seq<Json>, ys: seq<Json>)
    ensures Leaves(xs + ys) == Leaves(xs) + Leaves(ys)
  {
    if xs == [] {
      assert xs + ys == ys;
    } else {
      var zs := xs + ys;
      assert zs[0] == xs[0] && zs[1..] == xs[1..] + ys;
      LeavesAppend(xs[1..], ys);
      assert Leaves(zs) == ItemLeaves(xs[0]) + (Leaves(xs[1..]) + Leaves(ys));
    }
  }

  /** A list without nested lists is its own flattening. */
  lemma {:induction false} LeavesFlat(xs: seq<Json>)
    requires forall k :: 0 <= k < |xs| ==> !xs[k].JList?
    ensures Leaves(xs) == xs
  {
    if xs != [] {
      LeavesFlat(xs[1..]);
    }
  }

  /** The ads of entry `i` sit, contiguously, between those of the entries before and after it. */
  lemma LeavesAround(xs: seq<Json>, i: int)
    requires 0 <= i < |xs|
    ensures Leaves(xs) == Leaves(xs[..i]) + ItemLeaves(xs[i]) + Leaves(xs[i + 1..])
  {
    LeavesSplit(xs, i);
    var tail := xs[i..];
    assert tail[0] == xs[i] && tail[1..] == xs[i + 1..];
    assert Leaves(tail) == ItemLeaves(xs[i]) + Leaves(xs[i + 1..]);
    Regroup(Leaves(xs[..i]), ItemLeaves(xs[i]), Leaves(xs[i + 1..]));
  }

  lemma LeavesSplit(xs: seq<Json>, i: int)
    requires 0 <= i <= |xs|
    ensures Leaves(xs) == Leaves(xs[..i]) + Leaves(xs[i..])
  {
    assert xs == xs[..i] + xs[i..];
    LeavesAppend(xs[..i], xs[i..]);
  }

  lemma LeavesSingle(x: Json)
    ensures Leaves([x]) == ItemLeaves(x)
  {
    assert [x][1..] == [];
  }

  lemma Regroup<T>(a: seq<T>, b: seq<T>, c: seq<T>)
    ensures a + (b + c) == a + b + c
  {
  }

  lemma AllNoBytesAppend(a: seq<Json>, b: seq<Json>)
    requires AllNoBytes(a) && AllNoBytes(b)
    ensures AllNoBytes(a + b)
  {
    forall k | 0 <= k < |a + b| ensures NoBytes((a + b)[k]) {
      if k < |a| { assert (a + b)[k] == a[k]; } else { assert (a + b)[k] == b[k - |a|]; }
    }
  }

  /** What flattening yields are the ads themselves: no list, and no bytes when the input had none. */
  lemma {:induction false} LeavesAreAds(xs: seq<Json>)
    ensures forall k :: 0 <= k < |Leaves(xs)| ==> !Leaves(xs)[k].JList?
    ensures AllNoBytes(xs) ==> AllNoBytes(Leaves(xs))
  {
    if xs != [] {
      ItemLeavesAreAds(xs[0]);
      LeavesAreAds(xs[1..]);
      var a: seq<Json>, b: seq<Json> := ItemLeaves(xs[0]), Leaves(xs[1..]);
      forall k | 0 <= k < |a + b| ensures !(a + b)[k].JList? {
        if k < |a| { assert (a + b)[k] == a[k]; } else { assert (a + b)[k] == b[k - |a|]; }
      }
      if AllNoBytes(xs) {
        assert NoBytes(xs[0]);
        assert AllNoBytes(xs[1..]);
        AllNoBytesAppend(a, b);
      }
    }
  }

  lemma {:induction false} ItemLeavesAreAds(x: Json)
    ensures forall k :: 0 <= k < |ItemLeaves(x)| ==> !ItemLeaves(x)[k].JList?
    ensures NoBytes(x) ==> AllNoBytes(ItemLeaves(x))
  {
    if x.JList? {
      LeavesAreAds(x.items);
    }
  }

  /** A reader of one ad: its row, or the exception reading it raises. */
  type Reader = Json --> Result<Json, PyError>

  /** `read` accepts every ad of `leaves`. */
  ghost predicate Readable(leaves: seq<Json>, read: Reader)
  {
    forall k :: 0 <= k < |leaves| ==> read.requires(leaves[k])
  }

  /**
   * The rows of a sequence of ads, in order; the first ad whose reading
   * raises ends the run with that exception and no rows.
   */
  function ExtractAll(leaves: seq<Json>, read: Reader): (r: Result<seq<Json>, PyError>)
    requires Readable(leaves, read)
    ensures r.Success? ==> |r.value| == |leaves|
  {
    if leaves == [] then Success([])
    else
      var row :- read(leaves[0]);
      var rest :- ExtractAll(leaves[1..], read);
      Success([row] + rest)
  }

  /** A run that does not raise has, at each position, the row of the ad there. */
  lemma {:induction false} ExtractAllRows(leaves: seq<Json>, read: Reader)
    requires Readable(leaves, read) && ExtractAll(leaves, read).Success?
    ensures forall k :: 0 <= k < |leaves| ==> read(leaves[k]) == Success(ExtractAll(leaves, read).value[k])
  {
    if leaves != [] {
      var rest := leaves[1..];
      assert Readable(rest, read);
      ExtractAllRows(rest, read);
      var rows := ExtractAll(leaves, read).value;
      assert rows == [read(leaves[0]).value] + ExtractAll(rest, read).value;
      forall k | 1 <= k < |leaves| ensures read(leaves[k]) == Success(rows[k]) {
        assert leaves[k] == rest[k - 1];
      }
    }
  }

  /** A run that raises raises the exception of its first ad whose reading raises. */
  lemma {:induction false} ExtractAllFailure(leaves: seq<Json>, read: Reader)
    requires Readable(leaves, read) && ExtractAll(leaves, read).Failure?
    ensures exists k ::
      && 0 <= k < |leaves|
      && read(leaves[k]) == Failure(ExtractAll(leaves, read).error)
      && (forall m :: 0 <= m < k ==> read(leaves[m]).Success?)
  {
    var e := ExtractAll(leaves, read).error;
    if read(leaves[0]).Failure? {
      assert read(leaves[0]) == Failure(e);
    } else {
      var rest := leaves[1..];
      assert Readable(rest, read);
      assert ExtractAll(rest, read) == Failure(e);
      ExtractAllFailure(rest, read);
      var k :| 0 <= k < |rest| && read(rest[k]) == Failure(e)
        && (forall m :: 0 <= m < k ==> read(rest[m]).Success?);
      assert leaves[k + 1] == rest[k];
      assert forall m :: 1 <= m < k + 1 ==> leaves[m] == rest[m - 1];
    }
  }

  /** Both parts of a readable sequence are readable. */
  lemma ReadableParts(a: seq<Json>, b: seq<Json>, read: Reader)
    requires Readable(a + b, read)
    ensures Readable(a, read) && Readable(b, read)
  {
    forall k | 0 <= k < |a| ensures read.requires(a[k]) {
      assert a[k] == (a + b)[k];
    }
    forall k | 0 <= k < |b| ensures read.requires(b[k]) {
      assert b[k] == (a + b)[|a| + k];
    }
  }

  /** Extracting two runs of ads one after the other: the first exception wins. */
  lemma {:induction false} ExtractAllAppend(a: seq<Json>, b: seq<Json>, read: Reader)
    requires Readable(a, read) && Readable(b, read)
    ensures Readable(a + b, read)
    ensures ExtractAll(a, read).Failure? ==> ExtractAll(a + b, read) == ExtractAll(a, read)
    ensures ExtractAll(a, read).Success? && ExtractAll(b, read).Failure? ==>
      ExtractAll(a + b, read) == Failure(ExtractAll(b, read).error)
    ensures ExtractAll(a, read).Success? && ExtractAll(b, read).Success? ==>
      ExtractAll(a + b, read) == Success(ExtractAll(a, read).value + ExtractAll(b, read).value)
  {
    assert Readable(a + b, read) by {
      forall k | 0 <= k < |a + b| ensures read.requires((a + b)[k]) {
        if k < |a| { assert (a + b)[k] == a[k]; } else { assert (a + b)[k] == b[k - |a|]; }
      }
    }
    if a == [] {
      assert a + b == b;
      assert ExtractAll(a, read) == Success([]);
      if ExtractAll(b, read).Success? {
        assert [] + ExtractAll(b, read).value == ExtractAll(b, read).value;
      }
    } else {
      var ab := a + b;
      assert ab[0] == a[0] && ab[1..] == a[1..] + b;
      assert Readable(a[1..], read);
      if read(a[0]).Success? {
        var row := read(a[0]).value;
        ExtractAllAppend(a[1..], b, read);
        var tail, whole := ExtractAll(a[1..], read), ExtractAll(b, read);
        if tail.Success? && whole.Success? {
          assert ExtractAll(a, read).value == [row] + tail.value;
          assert [row] + (tail.value + whole.value) == [row] + tail.value + whole.value;
        }
      }
    }
  }

  /**
   * Once the ads before entry `i`, and the first part `a` of that entry's
   * own ads, have raised, the run ends with that exception.
   */
  lemma FailureEndsRun(xs: seq<Json>, i: int, a: seq<Json>, b: seq<Json>, read: Reader)
    requires 0 <= i < |xs| && ItemLeaves(xs[i]) == a + b
    requires Readable(Leaves(xs), read)
    requires Readable(Leaves(xs[..i]) + a, read)
    requires ExtractAll(Leaves(xs[..i]) + a, read).Failure?
    ensures ExtractAll(Leaves(xs), read) == ExtractAll(Leaves(xs[..i]) + a, read)
  {
    var done := Leaves(xs[..i]);
    var rest := Leaves(xs[i + 1..]);
    LeavesAround(xs, i);
    assert Leaves(xs) == done + (a + b) + rest;
    Regroup(done, a, b);
    Regroup(done + a, b, rest);
    ReadableParts(done + a, b + rest, read);
    ExtractAllAppend(done + a, b + rest, read);
  }

  /** The size of a value counted in list nodes: what the recursion of `process_ads_data` decreases. */
  function Size(x: Json): (n: nat)
    ensures n >= 1
  {
    if x.JList? then 1 + SizeAll(x.items) else 1
  }

  function SizeAll(xs: seq<Json>): nat
  {
    if xs == [] then 0 else Size(xs[0]) + SizeAll(xs[1..])
  }

  /** Every entry is smaller than the sequence that holds it. */
  lemma {:induction false} SizeAllElement(xs: seq<Json>, i: int)
    requires 0 <= i < |xs|
    ensures Size(xs[i]) <= SizeAll(xs)
  {
    if i > 0 {
      SizeAllElement(xs[1..], i - 1);
    }
  }

  /** The reader of the source: the row `process_ads_data` builds for one ad. */
  function RowReader(utf8: Utf8Decoder, toDate: DateConverter): Reader
  {
    (x: Json) requires NoBytes(x) => Row(x, utf8, toDate)
  }

  /** A reader that accepts every ad without bytes. */
  ghost predicate ReadsAllAds(read: Reader)
  {
    forall x :: NoBytes(x) ==> read.requires(x)
  }

  /** The reader of the source accepts every ad without bytes, and reads it as `Row` does. */
  lemma RowReaderReads(utf8: Utf8Decoder, toDate: DateConverter)
    ensures ReadsAllAds(RowReader(utf8, toDate))
    ensures forall x :: NoBytes(x) ==> RowReader(utf8, toDate)(x) == Row(x, utf8, toDate)
  {
  }

  /** A single ad gives its own row, or raises its own exception. */
  lemma ExtractAllSingle(x: Json, read: Reader)
    requires read.requires(x)
    ensures Readable([x], read)
    ensures ExtractAll([x], read) == if read(x).Failure? then Failure(read(x).error) else Success([read(x).value])
  {
    assert [x][1..] == [];
    assert ExtractAll([x][1..], read) == Success([]);
    if read(x).Success? {
      assert [read(x).value] + [] == [read(x).value];
    }
  }

  /** Appending the rows of the next group of ads to the rows so far. */
  lemma ExtendRun(done: seq<Json>, next: seq<Json>, extracted: seq<Json>, read: Reader)
    requires Readable(done, read) && Readable(next, read)
    requires ExtractAll(done, read) == Success(extracted)
    ensures Readable(done + next, read)
    ensures ExtractAll(next, read).Success? ==>
      ExtractAll(done + next, read) == Success(extracted + ExtractAll(next, read).value)
    ensures ExtractAll(next, read).Failure? ==>
      ExtractAll(done + next, read) == Failure(ExtractAll(next, read).error)
  {
    ExtractAllAppend(done, next, read);
  }

  /** The ads up to element `j + 1` of a list entry are those up to `j`, then those of element `j`. */
  lemma LeavesStep(items: seq<Json>, j: int)
    requires 0 <= j < |items|
    ensures Leaves(items[..j + 1]) == Leaves(items[..j]) + Leaves([items[j]])
  {
    assert items[..j + 1] == items[..j] + [items[j]];
    LeavesAppend(items[..j], [items[j]]);
  }

  /** The ads up to entry `i + 1` are those up to `i`, then those of entry `i`. */
  lemma LeavesPrefixStep(xs: seq<Json>, i: int)
    requires 0 <= i < |xs|
    ensures Leaves(xs[..i + 1]) == Leaves(xs[..i]) + ItemLeaves(xs[i])
  {
    assert xs[..i + 1] == xs[..i] + [xs[i]];
    LeavesAppend(xs[..i], [xs[i]]);
    LeavesSingle(xs[i]);
  }

  /** An element of a list entry is smaller than the entries: the recursion terminates. */
  lemma SubItemSmaller(xs: seq<Json>, i: int, j: int)
    requires 0 <= i < |xs| && xs[i].JList? && 0 <= j < |xs[i].items|
    ensures SizeAll([xs[i].items[j]]) < SizeAll(xs)
  {
    SizeAllElement(xs, i);
    SizeAllElement(xs[i].items, j);
    assert SizeAll([xs[i].items[j]]) == Size(xs[i].items[j]);
  }

  /** The rows after element `j` of a list entry: those before it, then its own. */
  lemma SubItemStep(done: seq<Json>, items: seq<Json>, j: int, extracted: seq<Json>, read: Reader)
    requires 0 <= j < |items|
    requires Readable(done + Leaves(items[..j]), read) && Readable(Leaves([items[j]]), read)
    requires ExtractAll(done + Leaves(items[..j]), read) == Success(extracted)
    ensures Readable(done + Leaves(items[..j + 1]), read)
    ensures var own := ExtractAll(Leaves([items[j]]), read);
      && (own.Success? ==> ExtractAll(done + Leaves(items[..j + 1]), read) == Success(extracted + own.value))
      && (own.Failure? ==> ExtractAll(done + Leaves(items[..j + 1]), read) == Failure(own.error))
  {
    LeavesStep(items, j);
    ExtendRun(done + Leaves(items[..j]), Leaves([items[j]]), extracted, read);
    Regroup(done, Leaves(items[..j]), Leaves([items[j]]));
  }

  /** An exception while handling element `j` of list entry `i` ends the whole run. */
  lemma SubItemFailureEndsRun(xs: seq<Json>, i: int, j: int, read: Reader)
    requires 0 <= i < |xs| && xs[i].JList? && 0 <= j < |xs[i].items|
    requires Readable(Leaves(xs), read)
    requires Readable(Leaves(xs[..i]) + Leaves(xs[i].items[..j + 1]), read)
    requires ExtractAll(Leaves(xs[..i]) + Leaves(xs[i].items[..j + 1]), read).Failure?
    ensures ExtractAll(Leaves(xs), read) == ExtractAll(Leaves(xs[..i]) + Leaves(xs[i].items[..j + 1]), read)
  {
    var items := xs[i].items;
    assert items == items[..j + 1] + items[j + 1..];
    LeavesAppend(items[..j + 1], items[j + 1..]);
    FailureEndsRun(xs, i, Leaves(items[..j + 1]), Leaves(items[j + 1..]), read);
  }

  /**
   * `process_ads_data`, with the reading of one ad as a parameter: every
   * ad, in depth-first order, becomes a row; a list entry is handled by
   * calling the function again on each of its elements, one at a time; the
   * first exception ends the run.
   */
  method ProcessAdsData(adsData: seq<Json>, read: Reader) returns (r: Result<seq<Json>, PyError>)
    requires AllNoBytes(adsData) && ReadsAllAds(read)
    ensures Readable(Leaves(adsData), read)
    ensures r == ExtractAll(Leaves(adsData), read)
    decreases SizeAll(adsData)
  {
    LeavesAreAds(adsData);
    var extracted: seq<Json> := [];
    for i := 0 to |adsData|
      invariant Readable(Leaves(adsData[..i]), read)
      invariant ExtractAll(Leaves(adsData[..i]), read) == Success(extracted)
    {
      var item := adsData[i];
      ghost var done := Leaves(adsData[..i]);
      LeavesPrefixStep(adsData, i);
      ItemLeavesAreAds(item);
      if item.JList? {
        assert item.items[..0] == [];
        assert done + Leaves(item.items[..0]) == done;
        for j := 0 to |item.items|
          invariant Readable(done + Leaves(item.items[..j]), read)
          invariant ExtractAll(done + Leaves(item.items[..j]), read) == Success(extracted)
        {
          var sub := item.items[j];
          SubItemSmaller(adsData, i, j);
          var res := ProcessAdsData([sub], read);
          SubItemStep(done, item.items, j, extracted, read);
          if res.Failure? {
            SubItemFailureEndsRun(adsData, i, j, read);
            return Failure(res.error);
          }
          extracted := extracted + res.value;
        }
        assert item.items[..|item.items|] == item.items;
        continue;
      }
      var row := read(item);
      ExtractAllSingle(item, read);
      ExtendRun(done, [item], extracted, read);
      if row.Failure? {
        FailureEndsRun(adsData, i, [item], [], read);
        return Failure(row.error);
      }
      extracted := extracted + [row.value];
    }
    assert adsData[..|adsData|] == adsData;
    r := Success(extracted);
  }

  /** The source's run: `process_ads_data` with the row of `Row` for each ad. */
  method ProcessAds(adsData: seq<Json>, utf8: Utf8Decoder, toDate: DateConverter) returns (r: Result<seq<Json>, PyError>)
    requires AllNoBytes(adsData)
    ensures Readable(Leaves(adsData), RowReader(utf8, toDate))
    ensures r == ExtractAll(Leaves(adsData), RowReader(utf8, toDate))
  {
    RowReaderReads(utf8, toDate);
    r := ProcessAdsData(adsData, RowReader(utf8, toDate));
  }
}
