/**
 * The decision helpers of the request-logging middleware: whether a request or a
 * response body is written to the log, which address identifies the client, the
 * text shown for a status code, and the colour band and log level of a response.
 * Reading and copying the body streams, the stopwatch and the request id are not
 * modelled; the header values, lengths and status codes they would supply are the
 * inputs.
 */
module RequestLogging {
  import opened Wrappers
  import opened Text

  // ---------------------------------------------------------------------------
  // Which bodies are logged
  // ---------------------------------------------------------------------------

  /** The largest body length, in bytes, that is still logged. */
  const MaxLoggedLength: int := 10000

  /** The length test: an unknown length passes, a known one must not exceed the limit. */
  predicate WithinLogLimit(contentLength: Option<int>) {
    contentLength.None? || contentLength.value <= MaxLoggedLength
  }

  /** A lower-cased content type names a textual format both classifiers accept. */
  predicate NamesTextFormat(lowered: string) {
    Contains(lowered, "json") || Contains(lowered, "xml") || Contains(lowered, "text")
  }

  /**
   * The shared shape of the two body classifiers: small enough, a content type is
   * present and not empty, and its lower case names a text format or `extra`.
   */
  function LoggableContent(contentLength: Option<int>, contentType: Option<string>, extra: string): bool {
    if contentLength.Some? && contentLength.value > MaxLoggedLength then false
    else if contentType.None? || contentType.value == "" then false
    else
      var lowered := ToLower(contentType.value);
      NamesTextFormat(lowered) || Contains(lowered, extra)
  }

  /** `ShouldLogBody`: whether a request body of this length and content type is logged. */
  function ShouldLogBody(contentLength: Option<int>, contentType: Option<string>): (r: bool)
    ensures contentLength.Some? && contentLength.value > MaxLoggedLength ==> !r
    ensures contentType.None? || contentType == Some("") ==> !r
    ensures r <==> WithinLogLimit(contentLength) && contentType.Some? && contentType.value != ""
                   && (NamesTextFormat(ToLower(contentType.value)) || Contains(ToLower(contentType.value), "form"))
  {
    LoggableContent(contentLength, contentType, "form")
  }

  /** `ShouldLogResponseBody`: the same test for a response, accepting HTML instead of forms. */
  function ShouldLogResponseBody(contentLength: Option<int>, contentType: Option<string>): (r: bool)
    ensures contentLength.Some? && contentLength.value > MaxLoggedLength ==> !r
    ensures contentType.None? || contentType == Some("") ==> !r
    ensures r <==> WithinLogLimit(contentLength) && contentType.Some? && contentType.value != ""
                   && (NamesTextFormat(ToLower(contentType.value)) || Contains(ToLower(contentType.value), "html"))
  {
    LoggableContent(contentLength, contentType, "html")
  }

  /** Content types that differ only in letter case are treated alike by both classifiers. */
  lemma BodyLoggingIgnoresCase(contentLength: Option<int>, t: string, t': string)
    requires EqualsIgnoreCase(t, t')
    ensures ShouldLogBody(contentLength, Some(t)) == ShouldLogBody(contentLength, Some(t'))
    ensures ShouldLogResponseBody(contentLength, Some(t)) == ShouldLogResponseBody(contentLength, Some(t'))
  {
    assert |t| == |ToLower(t)| == |ToLower(t')| == |t'|;
  }

  /** A body that is logged at some length is also logged at any smaller length and when the length is unknown. */
  lemma BodyLoggingShorterLength(n: int, m: int, contentType: Option<string>)
    requires m <= n
    ensures ShouldLogBody(Some(n), contentType) ==> ShouldLogBody(Some(m), contentType) && ShouldLogBody(None, contentType)
    ensures ShouldLogResponseBody(Some(n), contentType) ==> ShouldLogResponseBody(Some(m), contentType) && ShouldLogResponseBody(None, contentType)
  {
  }

  /** The two classifiers disagree only on a content type that mentions forms or HTML. */
  lemma RequestAndResponseDiffer(contentLength: Option<int>, contentType: Option<string>)
    ensures ShouldLogBody(contentLength, contentType) != ShouldLogResponseBody(contentLength, contentType) ==>
              contentType.Some? && (Contains(ToLower(contentType.value), "form") || Contains(ToLower(contentType.value), "html"))
  {
  }

  /** A content type that contains a logged content type, ignoring case, is logged too. */
  lemma BodyLoggingExtends(contentLength: Option<int>, t: string, u: string)
    requires ShouldLogBody(contentLength, Some(t))
    requires Contains(ToLower(u), ToLower(t))
    ensures ShouldLogBody(contentLength, Some(u))
  {
    var lt, lu := ToLower(t), ToLower(u);
    ContainsIffOccurs(lu, lt);
    assert u != "";
    if Contains(lt, "json") {
      ContainsTransitive(lu, lt, "json");
    } else if Contains(lt, "xml") {
      ContainsTransitive(lu, lt, "xml");
    } else if Contains(lt, "text") {
      ContainsTransitive(lu, lt, "text");
    } else {
      ContainsTransitive(lu, lt, "form");
    }
  }

  /** "Application/JSON" is logged by both classifiers at every length up to the limit and at none above it. */
  lemma JsonBodyLogged()
    ensures forall n :: 0 <= n <= MaxLoggedLength ==>
              ShouldLogBody(Some(n), Some("Application/JSON")) && ShouldLogResponseBody(Some(n), Some("Application/JSON"))
    ensures forall n :: n > MaxLoggedLength ==>
              !ShouldLogBody(Some(n), Some("Application/JSON")) && !ShouldLogResponseBody(Some(n), Some("Application/JSON"))
    ensures ShouldLogBody(None, Some("Application/JSON")) && ShouldLogResponseBody(None, Some("Application/JSON"))
  {
    JsonTypeLowered();
    JsonTypeLogged("Application/JSON");
  }

  /** A content type that lower-cases to "application/json" is logged by both classifiers exactly within the limit. */
  lemma JsonTypeLogged(t: string)
    requires ToLower(t) == "application/json"
    ensures forall n :: ShouldLogBody(Some(n), Some(t)) <==> n <= MaxLoggedLength
    ensures forall n :: ShouldLogResponseBody(Some(n), Some(t)) <==> n <= MaxLoggedLength
    ensures ShouldLogBody(None, Some(t)) && ShouldLogResponseBody(None, Some(t))
  {
    JsonTypeNamesJson();
    assert NamesTextFormat(ToLower(t));
    assert |t| == 16;
  }

  // ---------------------------------------------------------------------------
  // Client address
  // ---------------------------------------------------------------------------

  /** Whether a header value is present and not empty (`!string.IsNullOrEmpty`). */
  predicate Given(v: Option<string>) {
    v.Some? && v.value != ""
  }

  /**
   * `GetClientIpAddress`: the first value of `X-Forwarded-For` when it is not empty,
   * else that of `X-Real-IP` when it is not empty, else the connection's remote
   * address, else "Unknown". An empty remote address is returned as it is.
   */
  function ClientIpAddress(forwardedFor: Option<string>, realIp: Option<string>, remoteAddress: Option<string>): (ip: string)
    ensures Given(forwardedFor) ==> ip == forwardedFor.value
    ensures !Given(forwardedFor) && Given(realIp) ==> ip == realIp.value
    ensures !Given(forwardedFor) && !Given(realIp) ==> ip == remoteAddress.GetOr("Unknown")
  {
    if forwardedFor.Some? && forwardedFor.value != "" then forwardedFor.value
    else if realIp.Some? && realIp.value != "" then realIp.value
    else remoteAddress.GetOr("Unknown")
  }

  /** The address is always one of the inputs or "Unknown", and "Unknown" stands in only when nothing usable was given. */
  lemma ClientIpFromInputs(forwardedFor: Option<string>, realIp: Option<string>, remoteAddress: Option<string>)
    ensures var ip := ClientIpAddress(forwardedFor, realIp, remoteAddress);
            Some(ip) == forwardedFor || Some(ip) == realIp || Some(ip) == remoteAddress || ip == "Unknown"
    ensures !Given(forwardedFor) && !Given(realIp) && remoteAddress.None? ==>
              ClientIpAddress(forwardedFor, realIp, remoteAddress) == "Unknown"
  {
  }

  /** Headers are consulted in order: a given header hides everything after it. */
  lemma ClientIpPrecedence(forwardedFor: Option<string>, realIp: Option<string>, remoteAddress: Option<string>,
                           realIp': Option<string>, remoteAddress': Option<string>)
    ensures Given(forwardedFor) ==>
              ClientIpAddress(forwardedFor, realIp, remoteAddress) == ClientIpAddress(forwardedFor, realIp', remoteAddress')
    ensures !Given(forwardedFor) && Given(realIp) ==>
              ClientIpAddress(forwardedFor, realIp, remoteAddress) == realIp.value
    ensures !Given(forwardedFor) ==>
              ClientIpAddress(forwardedFor, realIp, remoteAddress) == ClientIpAddress(None, realIp, remoteAddress)
  {
  }

  /** The address is empty only when both headers are unusable and the remote address itself is empty. */
  lemma ClientIpEmpty(forwardedFor: Option<string>, realIp: Option<string>, remoteAddress: Option<string>)
    ensures ClientIpAddress(forwardedFor, realIp, remoteAddress) == "" <==>
              !Given(forwardedFor) && !Given(realIp) && remoteAddress == Some("")
  {
  }

  // ---------------------------------------------------------------------------
  // Status text
  // ---------------------------------------------------------------------------

  /** The status codes with a name of their own. */
  const KnownStatusCodes: set<int> := {200, 201, 204, 400, 401, 403, 404, 500, 503}

  /** `GetStatusDescription`. */
  function StatusDescription(statusCode: int): (d: string)
    ensures d != ""
  {
    match statusCode
    case 200 => "OK"
    case 201 => "Created"
    case 204 => "No Content"
    case 400 => "Bad Request"
    case 401 => "Unauthorized"
    case 403 => "Forbidden"
    case 404 => "Not Found"
    case 500 => "Internal Server Error"
    case 503 => "Service Unavailable"
    case _ => "Unknown"
  }

  /** Exactly the known codes get a name of their own; every other code reads "Unknown". */
  lemma StatusDescriptionTable(statusCode: int)
    ensures statusCode !in KnownStatusCodes <==> StatusDescription(statusCode) == "Unknown"
  {
  }

  /** Different known codes have different names. */
  lemma StatusDescriptionInjective(a: int, b: int)
    requires a in KnownStatusCodes && b in KnownStatusCodes
    requires StatusDescription(a) == StatusDescription(b)
    ensures a == b
  {
  }

  // ---------------------------------------------------------------------------
  // Colour band and log level of a response
  // ---------------------------------------------------------------------------

  /** The colour marker of a logged response. */
  datatype Band = White | Green | Yellow | Orange | Red

  /** The level a response is logged at. */
  datatype LogLevel = Information | Warning

  /** The band of a status code: 2xx green, 3xx yellow, 4xx orange, 500 and above red, the rest white. */
  function ResponseBand(statusCode: int): (b: Band)
    ensures b == Green <==> 200 <= statusCode < 300
    ensures b == Yellow <==> 300 <= statusCode < 400
    ensures b == Orange <==> 400 <= statusCode < 500
    ensures b == Red <==> statusCode >= 500
    ensures b == White <==> statusCode < 200
  {
    if 200 <= statusCode < 300 then Green
    else if 300 <= statusCode < 400 then Yellow
    else if 400 <= statusCode < 500 then Orange
    else if statusCode >= 500 then Red
    else White
  }

  /** The marker printed for a band: a single coloured-circle character. */
  function Emoji(b: Band): (e: string)
    ensures |e| == 1
  {
    match b
    case Green => "\U{1F7E2}"
    case Yellow => "\U{1F7E1}"
    case Orange => "\U{1F7E0}"
    case Red => "\U{1F534}"
    case White => "\U{26AA}"
  }

  /** Responses from 400 up are warnings, the rest information: a warning exactly in the orange and red bands. */
  function ResponseLogLevel(statusCode: int): (level: LogLevel)
    ensures level == Warning <==> ResponseBand(statusCode) in {Orange, Red}
  {
    if statusCode >= 400 then Warning else Information
  }

  /** The position of a band in the order white, green, yellow, orange, red. */
  function Rank(b: Band): nat {
    match b
    case White => 0
    case Green => 1
    case Yellow => 2
    case Orange => 3
    case Red => 4
  }

  /** From 200 on, the band follows the hundreds digit and never falls as the code rises; below 200 it is white. */
  lemma BandFollowsHundreds(a: int, b: int)
    ensures 200 <= a < 500 ==> Rank(ResponseBand(a)) == a / 100 - 1
    ensures a < 200 ==> ResponseBand(a) == White
    ensures 200 <= a <= b ==> Rank(ResponseBand(a)) <= Rank(ResponseBand(b))
  {
  }

  /** Each band has its own marker. */
  lemma EmojiDistinct(b: Band, c: Band)
    ensures Emoji(b) == Emoji(c) ==> b == c
  {
  }

  /** The named codes fall in the bands their names suggest: successes green, client errors orange, server errors red. */
  lemma KnownStatusBands(statusCode: int)
    requires statusCode in KnownStatusCodes
    ensures statusCode < 300 ==> ResponseBand(statusCode) == Green && ResponseLogLevel(statusCode) == Information
    ensures 400 <= statusCode < 500 ==> ResponseBand(statusCode) == Orange && ResponseLogLevel(statusCode) == Warning
    ensures statusCode >= 500 ==> ResponseBand(statusCode) == Red && ResponseLogLevel(statusCode) == Warning
    ensures ResponseBand(statusCode) != Yellow && ResponseBand(statusCode) != White
  {
  }

  // ---------------------------------------------------------------------------
  // Proof helpers
  // ---------------------------------------------------------------------------

  /** The lower case of "Application/JSON". */
  lemma JsonTypeLowered()
    ensures ToLower("Application/JSON") == "application/json"
  {
    ToLowerPointwise("Application/JSON", "application/json");
  }

  /** "application/json" contains the keyword "json". */
  lemma JsonTypeNamesJson()
    ensures Contains("application/json", "json")
  {
    assert OccursAt("application/json", "json", 12);
    ContainsAt("application/json", "json", 12);
  }
}
