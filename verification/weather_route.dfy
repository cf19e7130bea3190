/** `GET /api/weather`: query validation, the choice of coordinates (query, then geocoder,
    then the location hash), the backend call with its retry, and the assembly of the
    answer. The clock, the geocoder, the network and `JSON.parse` are parameters. */
module WeatherRoute {
  import opened Optional
  import opened JsNumbers
  import opened JsText
  import opened JsConvert
  import opened JsRaw
  import opened LocationHash
  import opened RouteHelpers
  import opened ForecastMappers
  import opened BackendClient

  /** The query parameters (None when absent). */
  datatype Query = Query(location: Option<string>, date: Option<string>, lat: Option<string>, lon: Option<string>)

  /** The body of a successful answer: the `WeatherData` record of the dashboard's types
      (the route never sends `visibility`). Optional fields are the keys it may leave out. */
  datatype WeatherBody = WeatherBody(
    location: string,
    date: string,
    temperature: Option<int>,
    condition: string,
    humidity: Option<int>,
    windSpeed: Option<int>,
    pressure: Option<int>,
    backendSummary: BackendSummary,
    backendSummaryRich: BackendSummaryRich,
    riskScores: seq<ConditionRisk>)

  datatype Response = Success(body: WeatherBody) | Failure(status: int, error: string)

  const BAD_REQUEST_MESSAGE: string := "Provide either 'location' or both 'lat' and 'lon'."
  const BACKEND_FAILURE_MESSAGE: string :=
    "Unexpected error while fetching ML from backend. Check ATMOS_BACKEND_URL and that the backend is running."

  // ---------------- Validation ----------------

  /** `searchParams.get("location")?.trim() || ""`: empty exactly when the location is
      absent or only whitespace, and otherwise without whitespace at either end. */
  function LocationParam(q: Query): (loc: string)
    ensures loc == "" <==> q.location.None? || Blank(q.location.value)
    ensures loc != "" ==> !IsWhitespace(loc[0]) && !IsWhitespace(loc[|loc| - 1])
  {
    if q.location.Some? then
      TrimEmpty(q.location.value);
      Trim(q.location.value)
    else ""
  }

  /** `param ? Number.parseFloat(param) : undefined`: an empty parameter counts as absent. */
  function CoordinateParam(p: Option<string>): (r: Option<JsNumber>)
    ensures r.Some? <==> p.Some? && p.value != ""
  {
    if p.Some? && p.value != "" then Some(ParseFloat(p.value)) else None
  }

  /** The query names no place: no location text and not both coordinates. */
  predicate MissingPlace(q: Query) {
    LocationParam(q) == "" && (CoordinateParam(q.lat).None? || CoordinateParam(q.lon).None?)
  }

  /** `dateParam ?? today`, where an empty date counts as absent. */
  function TargetDate(q: Query, today: string): (d: string)
    ensures q.date.Some? && q.date.value != "" ==> d == q.date.value
    ensures q.date.None? || q.date.value == "" ==> d == today
  {
    if q.date.Some? && q.date.value != "" then q.date.value else today
  }

  /** The location text: the trimmed location, else both coordinates to two decimals. */
  function LocationText(q: Query): string
    requires !MissingPlace(q)
  {
    var loc := LocationParam(q);
    if loc != "" then loc
    else ToFixed(CoordinateParam(q.lat).value, 2) + ", " + ToFixed(CoordinateParam(q.lon).value, 2)
  }

  /** The coordinates sent to the backend: the query's own pair when both are given (even
      when they are NaN), else the geocoder's answer, else the hash of the location text. */
  function ChooseCoordinates(q: Query, geocode: string -> Option<Coordinates>): (c: Coordinates)
    requires !MissingPlace(q)
    ensures var lat := CoordinateParam(q.lat); var lon := CoordinateParam(q.lon);
            && (lat.Some? && lon.Some? ==> c == Coordinates(lat.value, lon.value))
            && (!(lat.Some? && lon.Some?) && geocode(LocationText(q)).Some? ==> c == geocode(LocationText(q)).value)
            && (!(lat.Some? && lon.Some?) && geocode(LocationText(q)).None? ==> c == DeriveCoordinates(LocationText(q)))
  {
    var lat := CoordinateParam(q.lat);
    var lon := CoordinateParam(q.lon);
    if lat.Some? && lon.Some? then Coordinates(lat.value, lon.value)
    else
      var text := LocationText(q);
      match geocode(text)
      case Some(c) => c
      case None => DeriveCoordinates(text)
  }

  // ---------------- Assembly ----------------

  function IntToNumber(o: Option<int>): Option<JsNumber> {
    if o.Some? then Some(FromInt(o.value)) else None
  }

  /** The rain probability the risks use: `final_weighted` when finite, else the fused one. */
  function RiskProbability(probFinal: JsNumber, advProb: JsNumber): JsNumber {
    if IsFinite(probFinal) then probFinal else advProb
  }

  /** Steps 2 to 5 of the handler: the answer built from the backend document. It carries
      the location to four decimals, the date, a condition always, the showcase fields, both
      summaries, and the risks of `final_weighted` (which is always finite, so the fallback to
      the fused probability never applies). */
  function AssembleBody(api: Raw, coords: Coordinates, targetDate: string, today: string): (b: WeatherBody)
    ensures var rich := BuildRichBackendSummary(api);
            var showcase := DeriveShowcase(api);
            && b.location == ToFixed(coords.lat, 4) + ", " + ToFixed(coords.lon, 4)
            && b.date == targetDate
            && b.condition != ""
            && b.temperature == showcase.temperature && b.humidity == showcase.humidity
            && b.windSpeed == showcase.windSpeed && b.pressure == showcase.pressure
            && |b.riskScores| == 4
            && b.riskScores[0].probability == EaseClamp(rich.probabilities.finalWeighted)
            && b.condition == ConditionName(InferCondition(rich.probabilities.finalWeighted,
                 IntToNumber(showcase.humidity), Some(MapBackendToFrontendSummary(api, today).mlPrecipitationMm.predictionMm)))
    ensures b.backendSummary == MapBackendToFrontendSummary(api, today)
    ensures b.backendSummaryRich == BuildRichBackendSummary(api)
    ensures b.riskScores == GenerateRiskScores(BuildRichBackendSummary(api).probabilities.finalWeighted,
                                               Get(api, "statistics"), Get(api, "explainability"))
  {
    var rich := BuildRichBackendSummary(api);
    assert rich.probabilities.finalWeighted.Fin?;
    AssembleFrom(coords, targetDate, MapBackendToFrontendSummary(api, today), rich, DeriveShowcase(api),
                 Get(api, "statistics"), Get(api, "explainability"))
  }

  /** The answer's fields from the mapped parts. */
  function AssembleFrom(coords: Coordinates, targetDate: string, summary: BackendSummary, rich: BackendSummaryRich,
                        showcase: Showcase, stat: Raw, expl: Raw): (b: WeatherBody)
    ensures var probFinal := rich.probabilities.finalWeighted;
            && b.location == ToFixed(coords.lat, 4) + ", " + ToFixed(coords.lon, 4)
            && b.date == targetDate
            && b.condition != ""
            && b.temperature == showcase.temperature && b.humidity == showcase.humidity
            && b.windSpeed == showcase.windSpeed && b.pressure == showcase.pressure
            && b.condition == ConditionName(InferCondition(probFinal, IntToNumber(showcase.humidity),
                                                           Some(summary.mlPrecipitationMm.predictionMm)))
            && b.backendSummary == summary && b.backendSummaryRich == rich
            && (probFinal.Fin? ==> b.riskScores == GenerateRiskScores(probFinal, stat, expl))
  {
    var advProb := summary.mlRainProbability.probability;
    var probFinal := rich.probabilities.finalWeighted;
    var condition := InferCondition(probFinal, IntToNumber(showcase.humidity), Some(summary.mlPrecipitationMm.predictionMm));
    WeatherBody(
      ToFixed(coords.lat, 4) + ", " + ToFixed(coords.lon, 4),
      targetDate,
      showcase.temperature,
      ConditionName(condition),
      showcase.humidity,
      showcase.windSpeed,
      showcase.pressure,
      summary,
      rich,
      GenerateRiskScores(RiskProbability(probFinal, advProb), stat, expl))
  }

  // ---------------- The handler ----------------

  /** The answer once the backend has been called: the assembled body, or a 500. */
  function Answer(outcome: Result<Raw>, coords: Coordinates, targetDate: string, today: string): Response {
    match outcome
    case Ok(api) => Success(AssembleBody(api, coords, targetDate, today))
    case Err(_) => Failure(500, BACKEND_FAILURE_MESSAGE)
  }

  /** The answer of `GET /api/weather` as a value: 400 exactly when the query names no place,
      500 exactly when the backend still fails after the retry, and otherwise the body for
      the chosen coordinates and date. */
  function RouteResponse(q: Query, env: Env, today: string, geocode: string -> Option<Coordinates>,
                         fetch: BackendRequest -> HttpReply, parse: string -> Result<Raw>): (r: Response)
    ensures r.Failure? && r.status == 400 <==> MissingPlace(q)
    ensures MissingPlace(q) ==> r == Failure(400, BAD_REQUEST_MESSAGE)
    ensures r.Failure? ==> r.status == 400 || r.status == 500
    ensures !MissingPlace(q) ==>
              (r.Failure? <==> AdvancedOutcome(ResolveConfig(env), fetch, parse, ChooseCoordinates(q, geocode), TargetDate(q, today)).Err?)
    ensures !MissingPlace(q) && r.Success? ==>
              && r.body.date == TargetDate(q, today)
              && r.body.location == ToFixed(ChooseCoordinates(q, geocode).lat, 4) + ", " + ToFixed(ChooseCoordinates(q, geocode).lon, 4)
    ensures !MissingPlace(q) ==>
              var coords := ChooseCoordinates(q, geocode);
              var outcome := AdvancedOutcome(ResolveConfig(env), fetch, parse, coords, TargetDate(q, today));
              outcome.Ok? ==> r == Success(AssembleBody(outcome.value, coords, TargetDate(q, today), today))
    ensures r.Failure? && r.status == 500 ==> r.error == BACKEND_FAILURE_MESSAGE
  {
    if MissingPlace(q) then Failure(400, BAD_REQUEST_MESSAGE)
    else
      var coords := ChooseCoordinates(q, geocode);
      var targetDate := TargetDate(q, today);
      Answer(AdvancedOutcome(ResolveConfig(env), fetch, parse, coords, targetDate), coords, targetDate, today)
  }

  /** `GET(request)` step by step; RouteResponse is its answer and `sent` lists the backend
      requests in order. */
  method HandleGet(q: Query, env: Env, today: string, geocode: string -> Option<Coordinates>,
             fetch: BackendRequest -> HttpReply, parse: string -> Result<Raw>)
    returns (response: Response, sent: seq<BackendRequest>)
    ensures response == RouteResponse(q, env, today, geocode, fetch, parse)
    ensures MissingPlace(q) ==> sent == []
    ensures !MissingPlace(q) ==> |sent| <= 2
    ensures !MissingPlace(q) && ResolveConfig(env).backendUrl != "" ==>
              |sent| >= 1 && sent[0] == BuildRequest(ResolveConfig(env), ChooseCoordinates(q, geocode), TargetDate(q, today), true)
  {
    if MissingPlace(q) {
      return Failure(400, BAD_REQUEST_MESSAGE), [];
    }
    var targetDate := TargetDate(q, today);
    var coords := ChooseCoordinates(q, geocode);
    var config := ResolveConfig(env);
    var result;
    result, sent := FetchBackendAdvanced(config, fetch, parse, coords, targetDate);
    response := Answer(result, coords, targetDate, today);
  }

  /** A location made only of whitespace counts as no location: without both coordinates the
      answer is a 400. */
  lemma BlankLocationRejected(q: Query, env: Env, today: string, geocode: string -> Option<Coordinates>,
                              fetch: BackendRequest -> HttpReply, parse: string -> Result<Raw>)
    requires q.location.Some? && Blank(q.location.value)
    ensures (RouteResponse(q, env, today, geocode, fetch, parse) == Failure(400, BAD_REQUEST_MESSAGE))
            == (CoordinateParam(q.lat).None? || CoordinateParam(q.lon).None?)
  {
  }

  /** A non-numeric latitude still passes validation: the backend is asked for NaN. */
  lemma NaNLatitudePasses(geocode: string -> Option<Coordinates>)
    ensures var q := Query(None, None, Some("north"), Some("10"));
            !MissingPlace(q) && ChooseCoordinates(q, geocode).lat == NaN
  {
    var q := Query(None, None, Some("north"), Some("10"));
    ParseFloatOfWord("north");
    assert CoordinateParam(q.lon).Some?;
  }

  /** Coordinates given in the query win over the location text and the geocoder. */
  lemma QueryCoordinatesWin(q: Query, geocode: string -> Option<Coordinates>, other: string -> Option<Coordinates>)
    requires CoordinateParam(q.lat).Some? && CoordinateParam(q.lon).Some?
    ensures ChooseCoordinates(q, geocode) == ChooseCoordinates(q, other)
    ensures ChooseCoordinates(q, geocode) == Coordinates(ParseFloat(q.lat.value), ParseFloat(q.lon.value))
  {
  }
}
