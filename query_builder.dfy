/**
 * The query builder (`get_params_config`): turns a search mode and the
 * common filters into the parameter map sent with the first request of a
 * search, or rejects the arguments before any request is made.
 */
module QueryBuilder {
  import opened Wrappers
  import opened Strings

  // ---------------------------------------------------------------------------
  // Calendar dates and their `%Y-%m-%d` text
  // ---------------------------------------------------------------------------

  datatype Date = Date(year: int, month: int, day: int)

  predicate IsLeapYear(y: int)
  {
    y % 4 == 0 && (y % 100 != 0 || y % 400 == 0)
  }

  function DaysInMonth(y: int, m: int): int
  {
    if m == 2 then (if IsLeapYear(y) then 29 else 28)
    else if m == 4 || m == 6 || m == 9 || m == 11 then 30
    else 31
  }

  /** What a Python `datetime.date` can hold: years 1 to 9999 and real calendar days. */
  predicate IsCalendarDate(d: Date)
  {
    1 <= d.year <= 9999 && 1 <= d.month <= 12 && 1 <= d.day <= DaysInMonth(d.year, d.month)
  }

  type CalendarDate = d: Date | IsCalendarDate(d) witness Date(1, 1, 1)

  function Pow10(w: nat): nat
  {
    if w == 0 then 1 else 10 * Pow10(w - 1)
  }

  /** The last `w` decimal digits of `n`, zero-padded on the left. */
  function Digits(n: nat, w: nat): (s: string)
    ensures |s| == w
    ensures forall k :: 0 <= k < |s| ==> IsAsciiDigit(s[k])
  {
    if w == 0 then "" else Digits(n / 10, w - 1) + [('0' as int + n % 10) as char]
  }

  predicate AllDigits(s: string)
  {
    forall k :: 0 <= k < |s| ==> IsAsciiDigit(s[k])
  }

  /** The number a string of decimal digits spells. */
  function DigitsValue(s: string): nat
    requires AllDigits(s)
  {
    if s == [] then 0 else 10 * DigitsValue(s[..|s| - 1]) + (s[|s| - 1] as int - '0' as int)
  }

  lemma {:induction false} DigitsValueBound(s: string)
    requires AllDigits(s)
    ensures DigitsValue(s) < Pow10(|s|)
  {
    if s != [] {
      DigitsValueBound(s[..|s| - 1]);
    }
  }

  /** Reading back `w` padded digits of a number below `10^w` gives the number. */
  lemma {:induction false} DigitsRoundTrip(n: nat, w: nat)
    requires n < Pow10(w)
    ensures DigitsValue(Digits(n, w)) == n
  {
    if w > 0 {
      DigitsRoundTrip(n / 10, w - 1);
      var s := Digits(n, w);
      assert s[..|s| - 1] == Digits(n / 10, w - 1);
    }
  }

  /** Printing the value of a digit string with its own width gives the string. */
  lemma {:induction false} ValueRoundTrip(s: string)
    requires AllDigits(s)
    ensures Digits(DigitsValue(s), |s|) == s
  {
    if s != [] {
      var init := s[..|s| - 1];
      ValueRoundTrip(init);
      var n := DigitsValue(s);
      var d := s[|s| - 1] as int - '0' as int;
      assert n / 10 == DigitsValue(init) && n % 10 == d;
      assert s == init + [s[|s| - 1]];
    }
  }

  /** `date.strftime('%Y-%m-%d')`. */
  function FormatDate(d: CalendarDate): (s: string)
    ensures |s| == 10
  {
    Digits(d.year, 4) + "-" + Digits(d.month, 2) + "-" + Digits(d.day, 2)
  }

  /** Reads `YYYY-MM-DD` back; anything else, or a day that does not exist, gives `None`. */
  function ParseDate(s: string): Option<CalendarDate>
  {
    if |s| == 10 && s[4] == '-' && s[7] == '-'
       && AllDigits(s[..4]) && AllDigits(s[5..7]) && AllDigits(s[8..])
    then
      var d := Date(DigitsValue(s[..4]), DigitsValue(s[5..7]), DigitsValue(s[8..]));
      if IsCalendarDate(d) then Some(d) else None
    else None
  }

  /** The date text round-trips in both directions. */
  lemma DateRoundTrip(d: CalendarDate, s: string)
    ensures ParseDate(FormatDate(d)) == Some(d)
    ensures ParseDate(s).Some? ==> FormatDate(ParseDate(s).value) == s
  {
    var t := FormatDate(d);
    assert t[..4] == Digits(d.year, 4);
    assert t[5..7] == Digits(d.month, 2);
    assert t[8..] == Digits(d.day, 2);
    DigitsRoundTrip(d.year, 4);
    DigitsRoundTrip(d.month, 2);
    DigitsRoundTrip(d.day, 2);
    if ParseDate(s).Some? {
      ValueRoundTrip(s[..4]);
      ValueRoundTrip(s[5..7]);
      ValueRoundTrip(s[8..]);
      assert s == s[..4] + "-" + s[5..7] + "-" + s[8..];
    }
  }

  // ---------------------------------------------------------------------------
  // get_params_config
  // ---------------------------------------------------------------------------

  /** The three `ValueError`s the builder raises. */
  datatype ConfigError = QueryRequired | PageRequired | InvalidConfigType

  /** The `v` value used when the caller gives none. */
  const DefaultV := "2c4a00"

  /**
   * The request parameters the scraper ever sends, each with its wire name
   * (`Name`). The two cursor parameters are added by the paginator.
   */
  datatype Param =
    | SessionId | Count | ActiveStatusParam | AdType | Country0 | MediaType | StartDate | EndDate | V
    | Q | SearchType | ViewAllPageId
    | ForwardCursor | CollationToken

  function Name(p: Param): string
  {
    match p
    case SessionId => "session_id"
    case Count => "count"
    case ActiveStatusParam => "active_status"
    case AdType => "ad_type"
    case Country0 => "country[0]"
    case MediaType => "media_type"
    case StartDate => "start_date"
    case EndDate => "end_date"
    case V => "v"
    case Q => "q"
    case SearchType => "search_type"
    case ViewAllPageId => "view_all_page_id"
    case ForwardCursor => "forward_cursor"
    case CollationToken => "collation_token"
  }

  /** Distinct parameters go out under distinct wire names. */
  lemma NameInjective(p: Param, q: Param)
    ensures Name(p) == Name(q) <==> p == q
  {
  }


  /** A string argument that Python treats as given: not `None` and not empty. */
  predicate Given(o: Option<string>)
  {
    o.Some? && o.value != ""
  }

  /** The wire value of the status filter. */
  function ActiveStatus(adStatus: string): string
  {
    if adStatus != "Both" then ToUpper(adStatus) else "ALL"
  }

  /** The parameters every search carries, whatever its mode. */
  function CommonParams(
    sessionId: string, adStatus: string, country: string,
    startDate: CalendarDate, endDate: CalendarDate, v: string
  ): (m: map<Param, string>)
    ensures Q !in m && SearchType !in m && ViewAllPageId !in m && ForwardCursor !in m && CollationToken !in m
    ensures SessionId in m && Count in m && ActiveStatusParam in m && AdType in m && Country0 in m
      && MediaType in m && StartDate in m && EndDate in m && V in m
    ensures m[SessionId] == sessionId && m[Count] == "30"
      && m[AdType] == "all" && m[MediaType] == "all"
      && m[Country0] == country && m[V] == v
      && m[ActiveStatusParam] == ActiveStatus(adStatus)
      && m[StartDate] == FormatDate(startDate)
      && m[EndDate] == FormatDate(endDate)
  {
    map[
      SessionId := sessionId,
      Count := "30",
      ActiveStatusParam := ActiveStatus(adStatus),
      AdType := "all",
      Country0 := country,
      MediaType := "all",
      StartDate := FormatDate(startDate),
      EndDate := FormatDate(endDate),
      V := v
    ]
  }

  /** `{key: value, 'search_type': searchType, **common}` */
  function WithMode(common: map<Param, string>, key: Param, value: string, searchType: string): (m: map<Param, string>)
    requires key != SearchType && key !in common && SearchType !in common
    ensures forall p :: p in m <==> p in common || p == key || p == SearchType
    ensures m[key] == value && m[SearchType] == searchType
    ensures forall p :: p in common ==> m[p] == common[p]
  {
    map[key := value, SearchType := searchType] + common
  }

  /**
   * `get_params_config`: the three `ValueError`s and nothing else fail. A
   * caller that leaves out `v` sends `DefaultV`.
   */
  function GetParamsConfig(
    configType: string, sessionId: string, adStatus: string, country: string,
    startDate: CalendarDate, endDate: CalendarDate,
    page: Option<string>, query: Option<string>, v: string := DefaultV
  ): (r: Result<map<Param, string>, ConfigError>)
    ensures r == Failure(QueryRequired) <==> configType == "keyword" && !Given(query)
    ensures r == Failure(PageRequired) <==> configType == "page" && !Given(page)
    ensures r == Failure(InvalidConfigType) <==> configType != "keyword" && configType != "page"
  {
    var common := CommonParams(sessionId, adStatus, country, startDate, endDate, v);
    if configType == "keyword" then
      if !Given(query) then Failure(QueryRequired)
      else Success(WithMode(common, Q, query.value, "keyword_exact_phrase"))
    else if configType == "page" then
      if !Given(page) then Failure(PageRequired)
      else Success(WithMode(common, ViewAllPageId, page.value, "page"))
    else Failure(InvalidConfigType)
  }

  /** A keyword search carries the common parameters, the phrase as `q`, and the exact-phrase search type. */
  lemma KeywordParams(
    sessionId: string, adStatus: string, country: string,
    startDate: CalendarDate, endDate: CalendarDate,
    page: Option<string>, query: Option<string>, v: string)
    requires Given(query)
    ensures var r := GetParamsConfig("keyword", sessionId, adStatus, country, startDate, endDate, page, query, v);
      && r.Success?
      && ViewAllPageId !in r.value && ForwardCursor !in r.value && CollationToken !in r.value
      && r.value[Q] == query.value && r.value[SearchType] == "keyword_exact_phrase"
      && var common := CommonParams(sessionId, adStatus, country, startDate, endDate, v);
         forall p :: p in common ==> r.value[p] == common[p]
  {
    var common := CommonParams(sessionId, adStatus, country, startDate, endDate, v);
    var r := GetParamsConfig("keyword", sessionId, adStatus, country, startDate, endDate, page, query, v);
    assert r.value == WithMode(common, Q, query.value, "keyword_exact_phrase");
  }

  /** A page search carries the common parameters, the page id as `view_all_page_id`, and the page search type. */
  lemma PageParams(
    sessionId: string, adStatus: string, country: string,
    startDate: CalendarDate, endDate: CalendarDate,
    page: Option<string>, query: Option<string>, v: string)
    requires Given(page)
    ensures var r := GetParamsConfig("page", sessionId, adStatus, country, startDate, endDate, page, query, v);
      && r.Success?
      && Q !in r.value && ForwardCursor !in r.value && CollationToken !in r.value
      && r.value[ViewAllPageId] == page.value && r.value[SearchType] == "page"
      && var common := CommonParams(sessionId, adStatus, country, startDate, endDate, v);
         forall p :: p in common ==> r.value[p] == common[p]
  {
    assert "page" != "keyword";
    var common := CommonParams(sessionId, adStatus, country, startDate, endDate, v);
    var r := GetParamsConfig("page", sessionId, adStatus, country, startDate, endDate, page, query, v);
    assert r.value == WithMode(common, ViewAllPageId, page.value, "page");
  }

  /** The search a parameter map asks for: a keyword phrase or a page's ads. */
  datatype Target = KeywordSearch(query: string) | PageSearch(pageId: string)

  function TargetOf(params: map<Param, string>): Option<Target>
  {
    if SearchType !in params then None
    else if params[SearchType] == "keyword_exact_phrase" && Q in params then Some(KeywordSearch(params[Q]))
    else if params[SearchType] == "page" && ViewAllPageId in params then Some(PageSearch(params[ViewAllPageId]))
    else None
  }

  /**
   * A successful build describes exactly one search, the one asked for, and
   * carries no cursor parameter yet.
   */
  lemma BuiltParamsDescribeSearch(
    configType: string, sessionId: string, adStatus: string, country: string,
    startDate: CalendarDate, endDate: CalendarDate,
    page: Option<string>, query: Option<string>, v: string)
    ensures var r := GetParamsConfig(configType, sessionId, adStatus, country, startDate, endDate, page, query, v);
      r.Success? ==>
        && TargetOf(r.value) == Some(if configType == "keyword" then KeywordSearch(query.value) else PageSearch(page.value))
        && (Q in r.value <==> ViewAllPageId !in r.value)
        && ForwardCursor !in r.value && CollationToken !in r.value
  {
    var r := GetParamsConfig(configType, sessionId, adStatus, country, startDate, endDate, page, query, v);
    if r.Success? {
      if configType == "keyword" {
        KeywordParams(sessionId, adStatus, country, startDate, endDate, page, query, v);
        assert TargetOf(r.value) == Some(KeywordSearch(query.value));
      } else {
        PageParams(sessionId, adStatus, country, startDate, endDate, page, query, v);
        assert r.value[SearchType] != "keyword_exact_phrase";
      }
    }
  }

  /** The date texts of a successful build read back as the dates given. */
  lemma BuiltParamsDates(
    configType: string, sessionId: string, adStatus: string, country: string,
    startDate: CalendarDate, endDate: CalendarDate,
    page: Option<string>, query: Option<string>, v: string)
    ensures var r := GetParamsConfig(configType, sessionId, adStatus, country, startDate, endDate, page, query, v);
      r.Success? ==>
        && StartDate in r.value && EndDate in r.value
        && ParseDate(r.value[StartDate]) == Some(startDate)
        && ParseDate(r.value[EndDate]) == Some(endDate)
  {
    var r := GetParamsConfig(configType, sessionId, adStatus, country, startDate, endDate, page, query, v);
    if r.Success? {
      if configType == "keyword" {
        KeywordParams(sessionId, adStatus, country, startDate, endDate, page, query, v);
      } else {
        PageParams(sessionId, adStatus, country, startDate, endDate, page, query, v);
      }
      var common := CommonParams(sessionId, adStatus, country, startDate, endDate, v);
      assert StartDate in common && EndDate in common;
      DateRoundTrip(startDate, "");
      DateRoundTrip(endDate, "");
    }
  }

  /** `active_status` is `ALL` exactly for `Both` and for any status that upper-cases to `ALL`. */
  lemma ActiveStatusAll(adStatus: string)
    ensures ActiveStatus(adStatus) == "ALL" <==> adStatus == "Both" || ToUpper(adStatus) == "ALL"
    ensures adStatus != "Both" ==> |ActiveStatus(adStatus)| == |adStatus|
  {
  }

  /** The status filters the input form offers, and their wire values. */
  lemma FormStatusValues()
    ensures ActiveStatus("Active") == "ACTIVE"
    ensures ActiveStatus("Paused") == "PAUSED"
    ensures ActiveStatus("Both") == "ALL"
  {
    assert ToUpper("Active") == "ACTIVE";
    assert ToUpper("Paused") == "PAUSED";
  }
}
