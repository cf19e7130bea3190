/** The route's backend client: configuration from the environment, the request sent to
    `/predict/advanced`, one call (`callBackend`) and the call with its single retry
    without machine learning (`fetchBackendAdvanced`). The network (`fetch`) and
    `JSON.parse` are parameters. */
module BackendClient {
  import opened Optional
  import opened JsNumbers
  import opened JsText
  import opened JsRaw
  import opened RouteHelpers
  import opened LocationHash

  // ---------------- Configuration ----------------

  /** The environment variables the route reads (None when unset). */
  datatype Env = Env(
    atmosBackendUrl: Option<string>,
    publicAtmosBackendUrl: Option<string>,
    atmosUseMultisource: Option<string>)

  datatype Config = Config(backendUrl: string, useMultisource: bool)

  /** `a || b` for an optional string. */
  function OrElse(a: Option<string>, b: string): (r: string)
    ensures a.Some? && a.value != "" ==> r == a.value
    ensures a.None? || a.value == "" ==> r == b
  {
    if a.Some? && a.value != "" then a.value else b
  }

  /** The two module constants: the first non-empty backend URL (or ""), and whether
      `ATMOS_USE_MULTISOURCE` is unset or "true" in any letter case. */
  function ResolveConfig(env: Env): (c: Config)
    ensures c.useMultisource <==> env.atmosUseMultisource.None? || ToLower(env.atmosUseMultisource.value) == "true"
    ensures c.backendUrl == "" <==>
              (env.atmosBackendUrl.None? || env.atmosBackendUrl.value == "") &&
              (env.publicAtmosBackendUrl.None? || env.publicAtmosBackendUrl.value == "")
  {
    ToLowerOfLower("true");
    Config(OrElse(env.atmosBackendUrl, OrElse(env.publicAtmosBackendUrl, "")),
           ToLower(if env.atmosUseMultisource.Some? then env.atmosUseMultisource.value else "true") == "true")
  }

  // ---------------- The request ----------------

  /** `url.replace(/\/$/, "")`: one trailing slash is removed, no more. */
  function StripTrailingSlash(url: string): (r: string)
    ensures EndsWith(url, "/") ==> r + "/" == url
    ensures !EndsWith(url, "/") ==> r == url
  {
    if url != [] && url[|url| - 1] == '/' then url[..|url| - 1] else url
  }

  const PREDICT_PATH: string := "/predict/advanced?use_multisource="
  const EXPLAIN_QUERY: string := "&explain_recent_days=14"

  /** The endpoint of every backend call. */
  function RequestUrl(config: Config): string {
    StripTrailingSlash(config.backendUrl) + PREDICT_PATH
      + (if config.useMultisource then "true" else "false") + EXPLAIN_QUERY
  }

  /** A POST to the backend: its URL and the fields of its JSON body. */
  datatype BackendRequest = BackendRequest(
    url: string,
    latitude: JsNumber,
    longitude: JsNumber,
    targetDate: string,
    startDate: string,
    endDate: string,
    windowDays: int,
    rainThreshold: real,
    useMl: bool)

  function BuildRequest(config: Config, coords: Coordinates, targetDate: string, useMl: bool): BackendRequest {
    BackendRequest(RequestUrl(config), coords.lat, coords.lon, targetDate,
                   "1990-01-01", NormalizedEndDate(targetDate), 7, 0.5, useMl)
  }

  /** Every request asks for the history from 1990-01-01 to the normalised end date, over a
      7-day window with a 0.5 mm rain threshold; two requests for the same place and date
      differ in `use_ml` only. */
  lemma RequestShape(config: Config, coords: Coordinates, targetDate: string, useMl: bool)
    ensures var r := BuildRequest(config, coords, targetDate, useMl);
            && r.startDate == "1990-01-01" && r.endDate == NormalizedEndDate(targetDate)
            && r.windowDays == 7 && r.rainThreshold == 0.5 && r.useMl == useMl
            && r.latitude == coords.lat && r.longitude == coords.lon && r.targetDate == targetDate
            && BuildRequest(config, coords, targetDate, !useMl) == r.(useMl := !useMl)
  {
  }

  /** The endpoint keeps the base URL minus at most one trailing slash. */
  lemma RequestUrlShape(config: Config)
    ensures var base := StripTrailingSlash(config.backendUrl);
            && StartsWith(RequestUrl(config), base + PREDICT_PATH)
            && EndsWith(RequestUrl(config), EXPLAIN_QUERY)
            && (EndsWith(config.backendUrl, "/") ==> base + "/" == config.backendUrl)
  {
    var head := StripTrailingSlash(config.backendUrl) + PREDICT_PATH;
    var flag := if config.useMultisource then "true" else "false";
    assert RequestUrl(config) == head + (flag + EXPLAIN_QUERY);
    AffixesOfAppend(head, flag + EXPLAIN_QUERY);
    AffixesOfAppend(head + flag, EXPLAIN_QUERY);
  }

  /** Only one trailing slash is removed. */
  lemma StripTrailingSlashExamples()
    ensures StripTrailingSlash("http://h/") == "http://h"
    ensures StripTrailingSlash("http://h//") == "http://h/"
    ensures StripTrailingSlash("http://h") == "http://h"
  {
  }

  // ---------------- One call ----------------

  /** What `fetch` gives back: an HTTP status with the body text, or a failure (a network
      error or the 60 s abort) with its message. */
  datatype HttpReply = HttpReply(status: int, text: string) | FetchFailed(message: string)

  predicate StatusOk(status: int) {
    200 <= status <= 299
  }

  /** `callBackend(coords, targetDate, { useML })` as a value: the parsed document, or the
      message of the error it throws. `JSON.parse` is `parse`; a failed parse is retried
      once on the trimmed text. */
  function CallOutcome(config: Config, fetch: BackendRequest -> HttpReply, parse: string -> Result<Raw>,
                       coords: Coordinates, targetDate: string, useMl: bool): (r: Result<Raw>)
    ensures config.backendUrl == "" ==> r == Err("Missing ATMOS_BACKEND_URL")
  {
    if config.backendUrl == "" then Err("Missing ATMOS_BACKEND_URL")
    else
      match fetch(BuildRequest(config, coords, targetDate, useMl))
      case FetchFailed(message) => Err(message)
      case HttpReply(status, text) =>
        if !StatusOk(status) then Err("Backend error " + IntToString(status) + ": " + text)
        else if parse(text).Ok? then parse(text)
        else parse(Trim(text))
  }

  /** The requests one call sends: none when no backend URL is configured. */
  function CallRequests(config: Config, coords: Coordinates, targetDate: string, useMl: bool): seq<BackendRequest> {
    if config.backendUrl == "" then [] else [BuildRequest(config, coords, targetDate, useMl)]
  }

  /** `callBackend` step by step; CallOutcome is what it returns. */
  method CallBackend(config: Config, fetch: BackendRequest -> HttpReply, parse: string -> Result<Raw>,
                     coords: Coordinates, targetDate: string, useMl: bool)
    returns (result: Result<Raw>, sent: seq<BackendRequest>)
    ensures result == CallOutcome(config, fetch, parse, coords, targetDate, useMl)
    ensures sent == CallRequests(config, coords, targetDate, useMl)
  {
    if config.backendUrl == "" {
      return Err("Missing ATMOS_BACKEND_URL"), [];
    }
    var request := BuildRequest(config, coords, targetDate, useMl);
    sent := [request];
    var reply := fetch(request);
    if reply.FetchFailed? {
      return Err(reply.message), sent;
    }
    if !StatusOk(reply.status) {
      return Err("Backend error " + IntToString(reply.status) + ": " + reply.text), sent;
    }
    result := parse(reply.text);
    if result.Err? {
      result := parse(Trim(reply.text));
    }
  }

  // ---------------- The retry ----------------

  /** The error texts after which the call is repeated without machine learning. */
  predicate ShouldRetryWithoutMl(message: string) {
    var msg := ToLower(message);
    Contains(msg, "two classes") || Contains(msg, "only one class is present")
    || Contains(msg, "out of range float values") || Contains(msg, "nan")
  }

  /** `fetchBackendAdvanced(coords, targetDate)` as a value. */
  function AdvancedOutcome(config: Config, fetch: BackendRequest -> HttpReply, parse: string -> Result<Raw>,
                           coords: Coordinates, targetDate: string): Result<Raw>
  {
    var first := CallOutcome(config, fetch, parse, coords, targetDate, true);
    if first.Err? && ShouldRetryWithoutMl(first.message)
    then CallOutcome(config, fetch, parse, coords, targetDate, false)
    else first
  }

  /** `fetchBackendAdvanced`: one call with `use_ml`; on an error whose text names a
      one-class or NaN failure, exactly one more call without it. */
  method FetchBackendAdvanced(config: Config, fetch: BackendRequest -> HttpReply, parse: string -> Result<Raw>,
                              coords: Coordinates, targetDate: string)
    returns (result: Result<Raw>, sent: seq<BackendRequest>)
    ensures result == AdvancedOutcome(config, fetch, parse, coords, targetDate)
    ensures var first := CallOutcome(config, fetch, parse, coords, targetDate, true);
            && (first.Ok? || !ShouldRetryWithoutMl(first.message) ==>
                  sent == CallRequests(config, coords, targetDate, true))
            && (first.Err? && ShouldRetryWithoutMl(first.message) ==>
                  sent == CallRequests(config, coords, targetDate, true) + CallRequests(config, coords, targetDate, false))
    ensures |sent| <= 2
    ensures config.backendUrl != "" ==> |sent| >= 1 && sent[0] == BuildRequest(config, coords, targetDate, true)
    ensures config.backendUrl != "" ==> sent[|sent| - 1].useMl == (|sent| == 1)
  {
    var first;
    first, sent := CallBackend(config, fetch, parse, coords, targetDate, true);
    if first.Ok? {
      return first, sent;
    }
    if ShouldRetryWithoutMl(first.message) {
      var retried;
      result, retried := CallBackend(config, fetch, parse, coords, targetDate, false);
      sent := sent + retried;
    } else {
      result := first;
    }
  }

  /** The "nan" test is a plain substring test: an error about maintenance is retried too. */
  lemma MaintenanceIsRetried()
    ensures ShouldRetryWithoutMl("Service under maintenance")
  {
    var msg := "Service under maintenance";
    assert msg[20..23] == "nan";
    ToLowerOfLower("nan");
    ContainsLowered(msg, 20, "nan");
  }

  /** The error text of a status-500 answer that mentions NaN asks for the retry. */
  lemma NaNMessageRetried(pre: string)
    ensures ShouldRetryWithoutMl(pre + "Input contains NaN")
  {
    var text := "Input contains NaN";
    var msg := pre + text;
    assert msg[|pre| + 15..|pre| + 18] == text[15..18] == "NaN";
    assert ToLower("NaN") == "nan";
    ContainsLowered(msg, |pre| + 15, "nan");
  }

  /** A backend answer of status 500 whose text mentions NaN leads to exactly one retry,
      without ML, whose outcome is the result. */
  lemma NaNErrorIsRetried(config: Config, fetch: BackendRequest -> HttpReply, parse: string -> Result<Raw>,
                          coords: Coordinates, targetDate: string)
    requires config.backendUrl != ""
    requires fetch(BuildRequest(config, coords, targetDate, true)) == HttpReply(500, "Input contains NaN")
    ensures AdvancedOutcome(config, fetch, parse, coords, targetDate)
              == CallOutcome(config, fetch, parse, coords, targetDate, false)
  {
    var pre := "Backend error " + IntToString(500) + ": ";
    assert CallOutcome(config, fetch, parse, coords, targetDate, true) == Err(pre + "Input contains NaN");
    NaNMessageRetried(pre);
  }
}
