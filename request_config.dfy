/**
 * The two request configurations of the flight search, `HeaderConfig` and
 * `QueryConfig`, and their `setDefaults` methods, which fill in every empty
 * field that has a default and touch nothing else.
 */
module RequestConfig {
  import opened Outcomes
  import opened Text

  /** A field keeps its value unless it is empty and has a default. */
  function Fill(value: string, default: Option<string>): string
  {
    if value == "" && default.Some? then default.value else value
  }

  // ---- Headers -----------------------------------------------------------

  datatype Headers = Headers(
    host: string, userAgent: string, accept: string, acceptLanguage: string,
    acceptEncoding: string, xApplication: string, xLocale: string, connection: string,
    referer: string, secFetchDest: string, secFetchMode: string, secFetchSite: string, te: string)

  /** The fields of `HeaderConfig`, in declaration order. */
  datatype HeaderField =
    | Host | UserAgent | Accept | AcceptLanguage | AcceptEncoding | XApplication | XLocale
    | Connection | Referer | SecFetchDest | SecFetchMode | SecFetchSite | TE

  const NoHeaders: Headers := Headers("", "", "", "", "", "", "", "", "", "", "", "", "")

  function HeaderValue(h: Headers, f: HeaderField): string
  {
    match f
    case Host => h.host
    case UserAgent => h.userAgent
    case Accept => h.accept
    case AcceptLanguage => h.acceptLanguage
    case AcceptEncoding => h.acceptEncoding
    case XApplication => h.xApplication
    case XLocale => h.xLocale
    case Connection => h.connection
    case Referer => h.referer
    case SecFetchDest => h.secFetchDest
    case SecFetchMode => h.secFetchMode
    case SecFetchSite => h.secFetchSite
    case TE => h.te
  }

  // The header defaults.
  const DefaultHost: string := "book.azal.az"
  const DefaultUserAgent: string := "Mozilla/5.0 (X11; Linux x86_64; rv:109.0) Gecko/20100101 Firefox/115.0"
  const DefaultAccept: string := "application/json, text/plain, */*"
  const DefaultAcceptLanguage: string := "en-US,en;q=0.5"
  const DefaultAcceptEncoding: string := "gzip, deflate, br"
  const DefaultXApplication: string := "ibe"
  const DefaultXLocale: string := "az"
  const DefaultConnection: string := "keep-alive"
  const DefaultSecFetchDest: string := "empty"
  const DefaultSecFetchMode: string := "cors"
  const DefaultSecFetchSite: string := "same-origin"
  const DefaultTE: string := "trailers"

  /** The default of each header; `Referer` has none. */
  function HeaderDefault(f: HeaderField): (d: Option<string>)
    ensures d.None? <==> f == Referer
    ensures d.Some? ==> d.value != ""
  {
    match f
    case Host => Some(DefaultHost)
    case UserAgent => Some(DefaultUserAgent)
    case Accept => Some(DefaultAccept)
    case AcceptLanguage => Some(DefaultAcceptLanguage)
    case AcceptEncoding => Some(DefaultAcceptEncoding)
    case XApplication => Some(DefaultXApplication)
    case XLocale => Some(DefaultXLocale)
    case Connection => Some(DefaultConnection)
    case Referer => None
    case SecFetchDest => Some(DefaultSecFetchDest)
    case SecFetchMode => Some(DefaultSecFetchMode)
    case SecFetchSite => Some(DefaultSecFetchSite)
    case TE => Some(DefaultTE)
  }

  /** The headers after `setDefaults`: each field filled from its own default. */
  function WithHeaderDefaults(h: Headers): Headers
  {
    Headers(
      Fill(h.host, HeaderDefault(Host)), Fill(h.userAgent, HeaderDefault(UserAgent)),
      Fill(h.accept, HeaderDefault(Accept)), Fill(h.acceptLanguage, HeaderDefault(AcceptLanguage)),
      Fill(h.acceptEncoding, HeaderDefault(AcceptEncoding)), Fill(h.xApplication, HeaderDefault(XApplication)),
      Fill(h.xLocale, HeaderDefault(XLocale)), Fill(h.connection, HeaderDefault(Connection)),
      Fill(h.referer, HeaderDefault(Referer)), Fill(h.secFetchDest, HeaderDefault(SecFetchDest)),
      Fill(h.secFetchMode, HeaderDefault(SecFetchMode)), Fill(h.secFetchSite, HeaderDefault(SecFetchSite)),
      Fill(h.te, HeaderDefault(TE)))
  }

  /** Each header is filled from its own default and from nothing else. */
  lemma HeaderDefaultsField(h: Headers, f: HeaderField)
    ensures HeaderValue(WithHeaderDefaults(h), f) == Fill(HeaderValue(h, f), HeaderDefault(f))
  {
  }

  /** Non-empty headers are never overwritten, and `Referer` is left as it was. */
  lemma HeaderDefaultsKeep(h: Headers, f: HeaderField)
    requires HeaderValue(h, f) != "" || f == Referer
    ensures HeaderValue(WithHeaderDefaults(h), f) == HeaderValue(h, f)
  {
  }

  /** After defaulting, every header but `Referer` is non-empty. */
  lemma HeaderDefaultsFillAll(h: Headers, f: HeaderField)
    requires f != Referer
    ensures HeaderValue(WithHeaderDefaults(h), f) != ""
  {
  }

  lemma HeaderDefaultsIdempotent(h: Headers)
    ensures WithHeaderDefaults(WithHeaderDefaults(h)) == WithHeaderDefaults(h)
  {
  }

  /**
   * `HeaderConfig`. The struct the program passes by pointer is held as one
   * value; `SetDefaults` rewrites it field by field, as the method does.
   */
  class HeaderConfig {
    var headers: Headers

    /** The zero value `HeaderConfig{}`. */
    constructor ()
      ensures headers == NoHeaders
    {
      headers := NoHeaders;
    }

    method SetDefaults()
      modifies this
      ensures headers == WithHeaderDefaults(old(headers))
    {
      headers := headers.(host := Fill(headers.host, HeaderDefault(Host)));
      headers := headers.(userAgent := Fill(headers.userAgent, HeaderDefault(UserAgent)));
      headers := headers.(accept := Fill(headers.accept, HeaderDefault(Accept)));
      headers := headers.(acceptLanguage := Fill(headers.acceptLanguage, HeaderDefault(AcceptLanguage)));
      headers := headers.(acceptEncoding := Fill(headers.acceptEncoding, HeaderDefault(AcceptEncoding)));
      headers := headers.(xApplication := Fill(headers.xApplication, HeaderDefault(XApplication)));
      headers := headers.(xLocale := Fill(headers.xLocale, HeaderDefault(XLocale)));
      headers := headers.(connection := Fill(headers.connection, HeaderDefault(Connection)));
      headers := headers.(secFetchDest := Fill(headers.secFetchDest, HeaderDefault(SecFetchDest)));
      headers := headers.(secFetchMode := Fill(headers.secFetchMode, HeaderDefault(SecFetchMode)));
      headers := headers.(secFetchSite := Fill(headers.secFetchSite, HeaderDefault(SecFetchSite)));
      headers := headers.(te := Fill(headers.te, HeaderDefault(TE)));
    }
  }

  // ---- Query parameters --------------------------------------------------

  datatype Query = Query(
    lang: string, from: string, to: string, departureDate: string, tripType: string,
    adultCount: string, childCount: string, infantCount: string, isStudent: string,
    timestamp: string, isCitizen: string, currency: string, theme: string)

  const NoQuery: Query := Query("", "", "", "", "", "", "", "", "", "", "", "", "")

  /** The fields of `QueryConfig`, in declaration order. */
  datatype QueryField =
    | Lang | From | To | DepartureDate | TripType | AdultCount | ChildCount | InfantCount
    | IsStudent | Timestamp | IsCitizen | Currency | Theme

  function QueryValue(q: Query, f: QueryField): string
  {
    match f
    case Lang => q.lang
    case From => q.from
    case To => q.to
    case DepartureDate => q.departureDate
    case TripType => q.tripType
    case AdultCount => q.adultCount
    case ChildCount => q.childCount
    case InfantCount => q.infantCount
    case IsStudent => q.isStudent
    case Timestamp => q.timestamp
    case IsCitizen => q.isCitizen
    case Currency => q.currency
    case Theme => q.theme
  }

  /** `UnixNano() / int64(time.Millisecond)`: Go's integer division truncates toward zero. */
  function Milliseconds(unixNano: int): int
  {
    if unixNano >= 0 then unixNano / 1_000_000 else -((-unixNano) / 1_000_000)
  }

  /** The division rounds toward zero: the remainder has the sign of the dividend. */
  lemma MillisecondsTruncate(unixNano: int)
    ensures var ms := Milliseconds(unixNano);
            && (unixNano >= 0 ==> 0 <= unixNano - ms * 1_000_000 < 1_000_000)
            && (unixNano < 0 ==> -1_000_000 < unixNano - ms * 1_000_000 <= 0)
  {
  }

  // The query parameter defaults (the timestamp excepted).
  const DefaultLang: string := "az"
  const DefaultTripType: string := "OW"
  const DefaultAdultCount: string := "1"
  const DefaultChildCount: string := "0"
  const DefaultInfantCount: string := "0"
  const DefaultIsStudent: string := "0"
  const DefaultIsCitizen: string := "1"
  const DefaultCurrency: string := "AZN"
  const DefaultTheme: string := "dark"

  /** The default of each query parameter, given the clock reading; `From`, `To` and `DepartureDate` have none. */
  function QueryDefault(f: QueryField, unixNano: int): (d: Option<string>)
    ensures d.None? <==> f in {From, To, DepartureDate}
    ensures d.Some? ==> d.value != ""
  {
    match f
    case Lang => Some(DefaultLang)
    case From => None
    case To => None
    case DepartureDate => None
    case TripType => Some(DefaultTripType)
    case AdultCount => Some(DefaultAdultCount)
    case ChildCount => Some(DefaultChildCount)
    case InfantCount => Some(DefaultInfantCount)
    case IsStudent => Some(DefaultIsStudent)
    case Timestamp => Some(FormatInt(Milliseconds(unixNano)))
    case IsCitizen => Some(DefaultIsCitizen)
    case Currency => Some(DefaultCurrency)
    case Theme => Some(DefaultTheme)
  }

  /** The query after `setDefaults` with the clock reading `unixNano`. */
  function WithQueryDefaults(q: Query, unixNano: int): Query
  {
    Query(
      Fill(q.lang, QueryDefault(Lang, unixNano)), Fill(q.from, QueryDefault(From, unixNano)),
      Fill(q.to, QueryDefault(To, unixNano)), Fill(q.departureDate, QueryDefault(DepartureDate, unixNano)),
      Fill(q.tripType, QueryDefault(TripType, unixNano)), Fill(q.adultCount, QueryDefault(AdultCount, unixNano)),
      Fill(q.childCount, QueryDefault(ChildCount, unixNano)), Fill(q.infantCount, QueryDefault(InfantCount, unixNano)),
      Fill(q.isStudent, QueryDefault(IsStudent, unixNano)), Fill(q.timestamp, QueryDefault(Timestamp, unixNano)),
      Fill(q.isCitizen, QueryDefault(IsCitizen, unixNano)), Fill(q.currency, QueryDefault(Currency, unixNano)),
      Fill(q.theme, QueryDefault(Theme, unixNano)))
  }

  /** Each parameter is filled from its own default and from nothing else. */
  lemma QueryDefaultsField(q: Query, unixNano: int, f: QueryField)
    ensures QueryValue(WithQueryDefaults(q, unixNano), f) == Fill(QueryValue(q, f), QueryDefault(f, unixNano))
  {
  }

  /** Non-empty parameters are never overwritten; `From`, `To` and `DepartureDate` are left as they were. */
  lemma QueryDefaultsKeep(q: Query, unixNano: int, f: QueryField)
    requires QueryValue(q, f) != "" || f in {From, To, DepartureDate}
    ensures QueryValue(WithQueryDefaults(q, unixNano), f) == QueryValue(q, f)
  {
  }

  /** Once set, the timestamp stays: defaulting again, at any later clock reading, changes nothing. */
  lemma QueryDefaultsIdempotent(q: Query, now1: int, now2: int)
    ensures WithQueryDefaults(WithQueryDefaults(q, now1), now2) == WithQueryDefaults(q, now1)
  {
  }

  /** An empty timestamp becomes the clock reading in decimal milliseconds. */
  lemma QueryTimestamp(q: Query, unixNano: int)
    requires q.timestamp == ""
    ensures WithQueryDefaults(q, unixNano).timestamp == FormatInt(Milliseconds(unixNano))
  {
    QueryDefaultsField(q, unixNano, Timestamp);
  }

  /** `QueryConfig`, held as one value like `HeaderConfig`. */
  class QueryConfig {
    var query: Query

    /** `QueryConfig{From: from, To: to}`: every other field empty. */
    constructor (from: string, to: string)
      ensures query == NoQuery.(from := from, to := to)
    {
      query := NoQuery.(from := from, to := to);
    }

    /** `setDefaults`; `unixNano` is the reading of `time.Now().UnixNano()`. */
    method SetDefaults(unixNano: int)
      modifies this
      ensures query == WithQueryDefaults(old(query), unixNano)
    {
      query := query.(lang := Fill(query.lang, QueryDefault(Lang, unixNano)));
      query := query.(tripType := Fill(query.tripType, QueryDefault(TripType, unixNano)));
      query := query.(adultCount := Fill(query.adultCount, QueryDefault(AdultCount, unixNano)));
      query := query.(childCount := Fill(query.childCount, QueryDefault(ChildCount, unixNano)));
      query := query.(infantCount := Fill(query.infantCount, QueryDefault(InfantCount, unixNano)));
      query := query.(isStudent := Fill(query.isStudent, QueryDefault(IsStudent, unixNano)));
      query := query.(timestamp := Fill(query.timestamp, QueryDefault(Timestamp, unixNano)));
      query := query.(isCitizen := Fill(query.isCitizen, QueryDefault(IsCitizen, unixNano)));
      query := query.(currency := Fill(query.currency, QueryDefault(Currency, unixNano)));
      query := query.(theme := Fill(query.theme, QueryDefault(Theme, unixNano)));
    }

    /** `queryConf.DepartureDate = day`. */
    method SetDepartureDate(day: string)
      modifies this
      ensures query == old(query).(departureDate := day)
    {
      query := query.(departureDate := day);
    }
  }
}
