# AtmosAtlas forecast core in Dafny

AtmosAtlas is a weather-forecast dashboard. Its server route `GET /api/weather` does the following:

- reads a place and a date from the query;
- picks coordinates: the query's own pair, else a geocoder's answer, else a pair derived from a hash of the place name;
- asks the forecasting backend for an ensemble forecast, retrying once without machine learning when the backend fails on NaN input;
- flattens the backend's document into the dashboard's summary, its "rich" probabilities, a showcase, a weather condition and four risk scores.

The client side formats and shows that answer:

- number, percentage and date formatting;
- the ensemble insight charts and panels;
- the details card and the animated background;
- the downloadable text report and the download file name;
- the projection-date picker.

This project models that core, and proves what each step promises about its result.

## Modules

| file | module | what it models |
|---|---|---|
| `optional.dfy` | `Optional` | `Option` and `Result` values |
| `js_number.dfy` | `JsNumbers` | JavaScript numbers as exact reals plus NaN and the two infinities; arithmetic, comparison, `Math.min`, `Math.max`, `Math.round` |
| `js_text.dfy` | `JsText` | decimal numerals, `padStart`, `split`, `join`, `trim`, `includes`, `toLowerCase` and `toUpperCase`, UTF-16 code units |
| `js_convert.dfy` | `JsConvert` | `toFixed`, `String(n)`, `Number(s)`, `parseInt`, `parseFloat`, and the round trips between them |
| `js_raw.dfy` | `JsRaw` | untyped JSON (`any`): property access, `??`, truthiness, `Number(v)`, `String(v)`, `Object.entries` |
| `format.dfy` | `Format` | `lib/format.ts` |
| `location_hash.dfy` | `LocationHash` | `hashStringToNumber` and `deriveCoordinates` |
| `route_helpers.dfy` | `RouteHelpers` | `easeClamp`, `pickNumber`, `normalizedEndDate`, `stdDev` |
| `forecast_mappers.dfy` | `ForecastMappers` | `mapBackendToFrontendSummary`, `buildRichBackendSummary`, `deriveShowcaseFromBackend`, `inferCondition`, `generateRiskScoresFromBackend` |
| `backend_client.dfy` | `BackendClient` | configuration, `callBackend`, `fetchBackendAdvanced` |
| `weather_route.dfy` | `WeatherRoute` | the `GET` handler |
| `forecast_insights.dfy` | `ForecastInsights` | `BackendForecastInsights` |
| `ensemble_panels.dfy` | `EnsemblePanels` | `WeightBars` and `EnsemblePanels` |
| `report_download.dfy` | `ReportDownload` | `buildReportText` |
| `weather_details.dfy` | `WeatherDetails` | `WeatherDetails` |
| `weather_animation.dfy` | `WeatherAnimation` | `getAnimation` |
| `weather_display.dfy` | `WeatherDisplay` | the display name, the download slug and file name, the model breakdown |
| `date_selector.dfy` | `DateSelection` | `DateSelector`: a class whose fields are the selected date and time |

Numbers are `JsNumber = Fin(real) | NaN | PosInf | NegInf`.
The backend's JSON and the component props are `Raw`, an untyped JSON value whose objects keep their entries in order.
The route's own results are typed datatypes.
The backend, the geocoder, `JSON.parse`, the environment and the clock are parameters.

Facts about the code that the model keeps as they are:

- The fused rain probability of the summary is not clamped into [0, 1]. A finite value outside it is kept (`ForecastMappers.RainProbabilityDefaults`).
- The summary is not free of NaN:
  - the lower bound of the precipitation interval is NaN for a non-numeric input;
  - the upper bound and the per-model values are converted without a check;
  - a missing reliability score is NaN (`ForecastMappers.ReliabilityScore`).
- The risk probabilities lie in [0, 1] or are NaN, because `easeClamp(NaN)` is NaN (`ForecastMappers.GenerateRiskScores`).
- The final weighted probability is the explicit value only when that value converts to a finite number:
  - a JSON `null` gives 0 (`ForecastMappers.FinalWeightedOfNull`);
  - a non-numeric value gives the largest model probability.
- Query coordinates are not range-checked. A non-numeric latitude passes validation as NaN (`WeatherRoute.NaNLatitudePasses`).
- The hash-derived latitude lies in [-90, 89.99], not [-90, 90] (`LocationHash.LatitudeRange`).

## Model

| member | source | states |
|---|---|---|
| JsText.NatToStringValue | app/components/date-selector.tsx:143-145 | the decimal numeral of a natural number reads back as that number |
| JsText.PadStart | app/components/date-selector.tsx:143-145 | `padStart` keeps the string as the suffix, fills the front with the pad character, and has the larger of the two lengths |
| JsText.PadStartValue | lib/format.ts:41-42 | leading zeros keep a numeral's value |
| JsText.ContainsAt | components/weather-animation.tsx:12-15 | `includes` holds exactly when the pattern occurs at some position |
| JsText.ContainsLowered | components/weather-animation.tsx:12-15 | a pattern found in the text up to letter case is found in its lower case |
| JsText.MissingChar | components/weather-animation.tsx:34-43 | a text lacking one character of a pattern does not include it |
| JsText.IndexOf | lib/format.ts:32 | the first index of a character, or -1 exactly when it is absent |
| JsText.ToLower | components/weather-display.tsx:34-38 | lower-casing maps every character and keeps the length |
| JsText.ToUpper | components/weather-display.tsx:53-56 | upper-casing maps every character and keeps the length |
| JsText.SplitJoin | lib/format.ts:32 | splitting a join on a separator found in no part gives the parts back |
| JsText.FirstSeparator | lib/format.ts:32 | the first separator in `a + sep + rest` is the one right after a, when a has none |
| JsText.TrimStart | app/api/weather/route.ts:304 | `trimStart` drops a blank prefix, leaves no leading blank, and changes nothing that has none |
| JsText.TrimStartFrame | app/api/weather/route.ts:304 | the result of `trimStart` is a suffix of its input |
| JsText.TrimEnd | app/api/weather/route.ts:304 | `trimEnd` keeps a prefix, drops a blank suffix, leaves no trailing blank, and changes nothing that has none |
| JsText.Trim | app/api/weather/route.ts:304 | `trim` leaves no blank at either end and changes nothing that neither starts nor ends with a blank |
| JsText.TrimFrame | app/api/weather/route.ts:304 | `trim` keeps one inner slice of its input; everything before and after it is blank |
| JsText.TrimEmpty | app/api/weather/route.ts:304 | `trim` gives "" exactly for an all-blank text |
| JsText.CodeUnits | app/api/weather/route.ts:24 | `charCodeAt` reads UTF-16 code units, each below 65536 |
| JsConvert.ToFixedRoundTrip | lib/format.ts:14 | `Number(x.toFixed(d))` is x rounded to d places, half away from zero |
| JsConvert.RoundFixedIdempotent | lib/format.ts:14-15 | rounding an already rounded value to the same places changes nothing |
| JsConvert.RoundFixedSign | lib/format.ts:14-15 | the rounded value is negative (positive) exactly when the input is and keeps a non-zero unit |
| JsConvert.ToFixedSign | lib/format.ts:15 | `toFixed` writes a minus sign exactly for negative input |
| JsConvert.DecimalTextValue | lib/format.ts:15 | the digits written for n units at d places read back as n / 10^d |
| JsConvert.NumberToStringOfInt | components/ReportDownload.tsx:58 | `String(n)` of a whole number is its decimal numeral |
| JsConvert.ParseIntOfIntToString | app/components/date-selector.tsx:78 | `parseInt(String(n))` is n for every integer |
| JsConvert.StringToNumberDigits | lib/format.ts:32 | `Number` of a digit string is its decimal value |
| JsConvert.NumberSkipsBlank | components/weather-display.tsx:23 | `Number` ignores a blank before a numeral |
| JsConvert.ParseFloatOfWord | app/api/weather/route.ts:309-310 | `parseFloat` of a text starting with a lower-case letter is NaN |
| JsRaw.KeyIndex | app/api/weather/route.ts:164-166 | the index of the first entry with the key, or -1 exactly when none has it |
| JsRaw.Get | app/api/weather/route.ts:164-166 | optional chaining gives `undefined` for non-objects and absent keys, and the first entry's value for a present key |
| JsRaw.Coalesce | app/api/weather/route.ts:164-166 | `a ?? b` is b exactly when a is null or undefined, else a |
| JsRaw.Entries | components/EnsemblePanels.tsx:8 | `Object.entries` of an object is its entries in order, and an array gives one per item |
| JsRaw.Values | app/api/weather/route.ts:184 | `Object.values` has one value per entry, each the value of that entry |
| Format.Clamp01 | lib/format.ts:2-5 | `clamp01` lies in [0, 1], is 0 for non-finite input, and keeps values already in range |
| Format.FmtNumberAsWritten | lib/format.ts:11-16 | the source's `toFixed(Number(toFixed))` composition is the rounded value printed once |
| Format.FmtNumberValue | lib/format.ts:11-16 | the formatted text reads back as the input rounded to `digits` places |
| Format.FmtNumber | lib/format.ts:11-16 | "—" exactly for input that is not a finite number |
| Format.FmtNumberSign | lib/format.ts:11-16 | a minus sign exactly when the rounded value is negative |
| Format.FmtNumberNoNegativeZero | lib/format.ts:7-16 | the text is never a negative zero such as "-0.0" |
| Format.ToFixedNotNegativeZero | lib/format.ts:7-9 | a negative value that keeps a non-zero unit after rounding is not printed as a negative zero |
| Format.PercentParts | lib/format.ts:18-20 | `fmtPercent` formats the clamped value times 100, followed by "%" |
| Format.PercentValue | lib/format.ts:18-20 | a percentage in [0, 100] rounds to a value in [0, 100] |
| Format.FmtPercent | lib/format.ts:18-20 | whatever the input, the text is a number in [0, 100] followed by "%" |
| Format.FmtMaybe | lib/format.ts:22-27 | "—" for non-finite input, else the formatted number, followed by a space and the unit when one is given |
| Format.FmtDateLocalYMD | lib/format.ts:30-36 | empty input gives "—"; a date is rendered only when year, month and day are all truthy; otherwise the input comes back unchanged |
| Format.Pad2 | lib/format.ts:41-42 | two-digit padding keeps the value and has length 2 below 100 |
| Format.YMDSplit | lib/format.ts:39-44 | a year, a two-digit month and a two-digit day joined by "-" split back into those three numbers |
| Format.ToYMD | lib/format.ts:39-44 | splitting a `toYMD` result on "-" reads back the year, the 1-based month and the day; the month and the day are each exactly two digits (zero padded) |
| Format.YMDPadded | lib/format.ts:41-43 | a year, a padded month and a padded day joined by "-" split into three parts; the last two are all digits, and each is two long when its number is below 100 |
| Format.FmtDateOfToYMD | lib/format.ts:30-44 | a `toYMD` date passes `fmtDateLocalYMD`'s validation and is rendered as that date |
| LocationHash.Int32 | app/api/weather/route.ts:25 | `\|= 0` lands in [-2^31, 2^31) and is congruent modulo 2^32 |
| LocationHash.HashOf | app/api/weather/route.ts:21-28 | the running hash stays within the int32 range |
| LocationHash.HashOfIsWrappedPoly | app/api/weather/route.ts:21-28 | wrapping after every step equals wrapping once the whole polynomial in 31 |
| LocationHash.LocationHash | app/api/weather/route.ts:27 | the absolute hash is at most 2^31 |
| LocationHash.HashStringToNumber | app/api/weather/route.ts:21-28 | the loop computes the hash function, in [0, 2^31] |
| LocationHash.LocationHashExamples | app/api/weather/route.ts:21-28 | the hashes of "", "a" and "ab" are 0, 97 and 3105 |
| LocationHash.Mod36000 | app/api/weather/route.ts:33 | the remainder of a non-negative number lies in [0, 36000) |
| LocationHash.DeriveCoordinatesAsWritten | app/api/weather/route.ts:30-35 | `Number(x.toFixed(2))` of each raw coordinate is its two-place rounding |
| LocationHash.DeriveCoordinates | app/api/weather/route.ts:30-35 | the latitude is the raw one, within [-90, 89.99]; the longitude is finite within [-180, 180] |
| LocationHash.LatitudeRange | app/api/weather/route.ts:32-34 | the fallback latitude (h mod 18000)/100 - 90 has at most two places, so `toFixed(2)` keeps it, and lies within [-90, 89.99] |
| LocationHash.LongitudeRange | app/api/weather/route.ts:33-34 | the fallback longitude is within [-180, 180) before rounding and [-180, 180] after |
| RouteHelpers.EaseClamp | app/api/weather/route.ts:37-39 | NaN in, NaN out; anything else lands in [0, 1], unchanged when already inside |
| RouteHelpers.PickNumber | app/api/weather/route.ts:90-93 | `Number(n)` when finite, else the default; finite whenever the default is |
| RouteHelpers.YearPrefix | app/api/weather/route.ts:77 | the first four characters of the date, or the whole date when it is shorter |
| RouteHelpers.LastHistoryYear | app/api/weather/route.ts:78 | the end year is before the target year and never after 2024 |
| RouteHelpers.NormalizedEndDate | app/api/weather/route.ts:76-81 | a date starting with four digits ends the history on 31 December of min(year - 1, 2024); an unreadable year gives "NaN-12-31" |
| RouteHelpers.StdDev | app/api/weather/route.ts:83-88 | the literal 0 exactly for no values |
| RouteHelpers.SumLeftFinite | app/api/weather/route.ts:85 | on finite values the `reduce` is the real sum |
| RouteHelpers.SquaredDeviationsFinite | app/api/weather/route.ts:86 | on finite values the squared-deviation `reduce` is the real sum of squares |
| RouteHelpers.StdDevOfFinite | app/api/weather/route.ts:83-88 | for finite values, the square root of the population variance |
| RouteHelpers.SumLeftNotFinite | app/api/weather/route.ts:85 | one non-finite value makes the sum non-finite |
| RouteHelpers.SumLeftInfinite | app/api/weather/route.ts:85 | an infinite sum holds no NaN and no infinity of the other sign |
| RouteHelpers.AddFoldNaN | app/api/weather/route.ts:86 | one NaN term makes the whole fold NaN |
| RouteHelpers.SquaredDeviationsNaN | app/api/weather/route.ts:86 | one NaN squared deviation makes the fold of squared deviations NaN |
| RouteHelpers.StdDevOfNonFinite | app/api/weather/route.ts:83-88 | one NaN or infinite value makes the spread the square root of NaN |
| RouteHelpers.StdDevExample | app/api/weather/route.ts:83-88 | the spread of 0.2, 0.4 and 0.6 is the square root of 0.08/3 |
| RouteHelpers.StdDevExampleRoot | app/api/weather/route.ts:87 | that root lies between 0.16329 and 0.1633 |
| ForecastMappers.StripPrefixed | app/api/weather/route.ts:172-176 | the renamed entries are no more than the entries |
| ForecastMappers.StripHit | app/api/weather/route.ts:172-176 | every renamed entry comes from a key that is the prefix plus its new name, with the converted value |
| ForecastMappers.StripKeep | app/api/weather/route.ts:172-176 | every prefixed key is kept, renamed, with its value converted |
| ForecastMappers.StripPrefixedEntries | app/api/weather/route.ts:172-176 | an entry is in the result exactly when a prefixed key with that rest and value is in the input |
| ForecastMappers.FiniteOrZero | app/api/weather/route.ts:182-183 | always finite |
| ForecastMappers.PredictionAmount | app/api/weather/route.ts:178-179 | finite and non-negative, kept when already so, else 0 |
| ForecastMappers.MapLocation | app/api/weather/route.ts:164-166 | `latitude`, else `lat`, else 0, each converted with `Number` (likewise the longitude); 0, 0 when there is no location object |
| ForecastMappers.AtLeastZero | app/api/weather/route.ts:195 | `Math.max(0, x)` is NaN exactly for NaN and at least 0 otherwise |
| ForecastMappers.MapPrecipitation | app/api/weather/route.ts:178-199 | a finite non-negative amount, a finite uncertainty, an interval lower bound that is NaN or at least 0, and the `reg_` models renamed |
| ForecastMappers.MapRainProbability | app/api/weather/route.ts:183-206 | a finite probability, the `cls_` models renamed, and their spread as the uncertainty |
| ForecastMappers.MapBackendToFrontendSummary | app/api/weather/route.ts:163-208 | the summary holds both blocks, each with its guarantees; `prediction_for` is the backend's target date when it is given, else today; the location is the one MapLocation reads |
| ForecastMappers.PredictionFor | app/api/weather/route.ts:188 | the target date as a string when it is not null or undefined, else today |
| ForecastMappers.PrecipitationDefaults | app/api/weather/route.ts:178-182 | which inputs are kept and which become 0 in the precipitation block |
| ForecastMappers.RainProbabilityDefaults | app/api/weather/route.ts:183-185 | a non-finite fused probability becomes 0, a finite one is kept even outside [0, 1]; the level defaults to "medium" |
| ForecastMappers.NoClassifierNoSpread | app/api/weather/route.ts:184 | without `cls_` models the classification uncertainty is 0 |
| ForecastMappers.FinalConfidence | app/api/weather/route.ts:226 | the final confidence, else the advanced level, else "medium" |
| ForecastMappers.ReliabilityScore | app/api/weather/route.ts:250 | the given score when finite, else NaN |
| ForecastMappers.RichProbabilities | app/api/weather/route.ts:212-235 | each model probability (statistics, ml_basic ensemble, advanced fused) is its value when that converts to a finite number, else 0; the final one is the recommendation's finite probability, else the largest of the three; `final_will_rain` is the truthiness of `will_rain`; the confidence is the recommendation's, else the advanced level, else "medium" |
| ForecastMappers.BuildRichBackendSummary | app/api/weather/route.ts:211-253 | all four probabilities are finite and are those of RichProbabilities; each explainability and coverage field is the backend's value unless null or undefined, else `{}`, `""`, `[]` or null; the reliability score is the data-quality overall score when finite, else NaN |
| ForecastMappers.ExplainabilityOf | app/api/weather/route.ts:237-242 | each explainability field is the backend's value unless null or undefined, else `{}`, `{}`, `""` and `[]` |
| ForecastMappers.CoverageOf | app/api/weather/route.ts:243-248 | each coverage field is the backend's value unless null or undefined, else null |
| ForecastMappers.Max3Bounds | app/api/weather/route.ts:225 | the largest of three finite numbers is finite and not below any of them |
| ForecastMappers.FinalWeightedChoice | app/api/weather/route.ts:225 | the explicit final probability when it is finite, else the largest model probability |
| ForecastMappers.FinalWeightedOfNull | app/api/weather/route.ts:225 | a JSON null final probability gives 0 |
| ForecastMappers.RoundIfFinite | app/api/weather/route.ts:264-276 | a whole number exactly for finite input |
| ForecastMappers.ShowcaseTemperature | app/api/weather/route.ts:279-287 | the statistics' temperature first, the summaries' second, each rounded; absent when neither is finite |
| ForecastMappers.DeriveShowcase | app/api/weather/route.ts:256-290 | humidity, wind and pressure present exactly when the recent (else climatology) summary value is finite, rounded half up after m/s to km/h and kPa to hPa; the temperature from the statistics first, the summaries second |
| ForecastMappers.ShowcaseConversions | app/api/weather/route.ts:267-276 | m/s times 3.6 and kPa times 10, present exactly for finite input |
| ForecastMappers.RecentBeatsClimatology | app/api/weather/route.ts:261-263 | a present recent value wins even when it is not a number |
| ForecastMappers.RecentHidesClimatology | app/api/weather/route.ts:261-264 | a recent humidity that is an object hides the climatology's value |
| ForecastMappers.ConditionName | app/api/weather/route.ts:292-298 | every condition has a non-empty name |
| ForecastMappers.InferCondition | app/api/weather/route.ts:292-298 | for finite inputs, Rain exactly when mm >= 0.5 or p >= 0.6, Drizzle exactly when not and p >= 0.35 with humidity >= 70, Clouds exactly when neither and humidity >= 75; no humidity gives Rain or Clear; a NaN probability never gives Drizzle |
| ForecastMappers.InferConditionMonotone | app/api/weather/route.ts:292-298 | wetter inputs never give a drier condition |
| ForecastMappers.InferConditionExamples | app/api/weather/route.ts:292-298 | the thresholds mm >= 0.5, p >= 0.6, p >= 0.35 with humidity >= 70, and humidity >= 75 at work on sample inputs, including a missing humidity |
| ForecastMappers.GenerateRiskScores | app/api/weather/route.ts:41-53 | four risks, rain, heat, cold and humidity, in that order: the clamped rain probability, `hot_day_prob` and `cold_day_prob` (0 when absent), and humidity / 100; each is in [0, 1] or NaN |
| ForecastMappers.RiskScoresWithoutData | app/api/weather/route.ts:41-53 | without statistics or explainability every risk but rain is 0 |
| BackendClient.OrElse | app/api/weather/route.ts:55 | `a \|\| b` is a exactly when a is a non-empty string |
| BackendClient.ResolveConfig | app/api/weather/route.ts:55-56 | the URL is empty exactly when neither variable is set; multisource is on when unset or "true" in any case |
| BackendClient.StripTrailingSlash | app/api/weather/route.ts:103 | exactly one trailing slash is removed, if there is one |
| BackendClient.StripTrailingSlashExamples | app/api/weather/route.ts:103 | a doubled slash keeps one |
| BackendClient.RequestUrlShape | app/api/weather/route.ts:103-105 | the endpoint is the base without its trailing slash, then the advanced path |
| BackendClient.RequestShape | app/api/weather/route.ts:107-116 | history from 1990-01-01 to the normalised end date, a 7-day window, threshold 0.5; requests differ only in `use_ml` |
| BackendClient.CallOutcome | app/api/weather/route.ts:100 | no URL gives the "Missing ATMOS_BACKEND_URL" error |
| BackendClient.CallBackend | app/api/weather/route.ts:99-139 | the call's result, and the requests it sends: none without a URL, else one |
| BackendClient.FetchBackendAdvanced | app/api/weather/route.ts:141-158 | first with ML; exactly one retry without ML on a retryable error; at most two requests |
| BackendClient.MaintenanceIsRetried | app/api/weather/route.ts:145-152 | an error mentioning "maintenance" is retried, since it contains "nan" |
| BackendClient.NaNMessageRetried | app/api/weather/route.ts:145-152 | an error mentioning NaN is retried |
| BackendClient.NaNErrorIsRetried | app/api/weather/route.ts:132-158 | a status-500 NaN answer yields the outcome of the call without ML |
| WeatherRoute.CoordinateParam | app/api/weather/route.ts:309-310 | a coordinate is present exactly when its parameter is non-empty |
| WeatherRoute.LocationParam | app/api/weather/route.ts:304 | the trimmed location; "" exactly when it is absent or blank, else it neither starts nor ends with a blank |
| WeatherRoute.TargetDate | app/api/weather/route.ts:316 | the query date when given and non-empty, else today |
| WeatherRoute.ChooseCoordinates | app/api/weather/route.ts:320-324 | the query pair, else the geocoder's answer, else the hash of the location text |
| WeatherRoute.QueryCoordinatesWin | app/api/weather/route.ts:320-324 | query coordinates do not depend on the geocoder |
| WeatherRoute.NaNLatitudePasses | app/api/weather/route.ts:309-314 | a non-numeric latitude passes validation and is sent as NaN |
| WeatherRoute.AssembleBody | app/api/weather/route.ts:331-367 | location to four places, the date, the showcase fields, the condition inferred from the final probability, the humidity and the amount, and four risks, the first from the final probability; `backendSummary` is MapBackendToFrontendSummary of the document, `backendSummaryRich` is BuildRichBackendSummary of it, and `riskScores` are GenerateRiskScores of its final weighted probability, statistics and explainability |
| WeatherRoute.HandleGet | app/api/weather/route.ts:302-375 | the handler's response; no request without a place; at most two requests; the first with ML |
| WeatherRoute.RouteResponse | app/api/weather/route.ts:302-375 | 400 with its message exactly when no place is named; otherwise a failure exactly when the backend still fails, and then 500; a success carries the date and the coordinates to four places, and when the backend call succeeds the body is exactly AssembleBody of the backend document, the chosen coordinates, the target date and today; every 500 carries the backend-failure message |
| WeatherRoute.BlankLocationRejected | app/api/weather/route.ts:304-314 | an all-blank location counts as none: the answer is 400 exactly when a coordinate is missing |
| ForecastInsights.UsedProbability | components/backend-forecast-insights.tsx:32-34 | the final probability when finite, else the fused one when present, else 0 |
| ForecastInsights.Confidence | components/backend-forecast-insights.tsx:36 | the final confidence, else the summary's level, else "medium" |
| ForecastInsights.RadialValue | components/backend-forecast-insights.tsx:38 | an integer percent in [0, 100], the nearest to the probability, 0 for non-finite input |
| ForecastInsights.PrecipitationMm | components/backend-forecast-insights.tsx:40-46 | a bar height is at least 0, and 0 for non-finite input |
| ForecastInsights.PrecipitationMmAsWritten | components/backend-forecast-insights.tsx:44 | `Number(fmtNumber(mm, 2))` is that height |
| ForecastInsights.RegBars | components/backend-forecast-insights.tsx:40-46 | one bar per model in key order, named in upper case, non-negative |
| ForecastInsights.WeightBars | components/backend-forecast-insights.tsx:48-51 | one bar per weight key in key order, 0 for a null weight |
| ForecastInsights.EmptyInsights | components/backend-forecast-insights.tsx:147 | no precipitation block means no bars; the risk panel needs a non-empty array |
| EnsemblePanels.Weight | components/EnsemblePanels.tsx:13 | a weight is never NaN: NaN and zero give 0, any other number is kept |
| EnsemblePanels.Weights | components/EnsemblePanels.tsx:9 | one weight per entry, in order |
| EnsemblePanels.NormalizedWeights | components/EnsemblePanels.tsx:7-25 | one bar per entry, names in order, each weight divided by a truthy sum, else kept |
| EnsemblePanels.Divisor | components/EnsemblePanels.tsx:13 | a zero or NaN sum divides by 1, any other sum by itself |
| EnsemblePanels.NormalizeBy | components/EnsemblePanels.tsx:13 | each weight divided by the divisor, names kept |
| EnsemblePanels.Shares | components/EnsemblePanels.tsx:13-25 | the bar heights in entry order |
| EnsemblePanels.SumDivided | components/EnsemblePanels.tsx:13 | dividing every term divides the sum |
| EnsemblePanels.SumOfZeros | components/EnsemblePanels.tsx:9 | zeros add up to 0 |
| EnsemblePanels.FiniteSumTerms | components/EnsemblePanels.tsx:9 | a finite sum has only finite terms |
| EnsemblePanels.SharesOfFiniteSum | components/EnsemblePanels.tsx:9-13 | numbers with a finite non-zero sum, divided by it, add up to 1 |
| EnsemblePanels.NormalizedWeightsSumToOne | components/EnsemblePanels.tsx:7-25 | with a finite non-zero sum the bars are finite and add up to 1 |
| EnsemblePanels.ZeroWeights | components/EnsemblePanels.tsx:9-13 | all-zero weights divide by 1 and every bar is 0 |
| EnsemblePanels.UsedProbability | components/EnsemblePanels.tsx:35-37 | the final weighted probability when finite, else the fused one |
| EnsemblePanels.Confidence | components/EnsemblePanels.tsx:38-40 | the final confidence, else the fused level, else "medium" |
| EnsemblePanels.EnsemblePanel | components/EnsemblePanels.tsx:29 | nothing is drawn exactly when the summary is falsy |
| ReportDownload.NumberText | components/ReportDownload.tsx:16-24 | present exactly for a finite number, as its `String` text |
| ReportDownload.ConditionText | components/ReportDownload.tsx:17 | present exactly for a truthy condition |
| ReportDownload.PrecipitationText | components/ReportDownload.tsx:31-36 | present exactly when the precipitation block is truthy |
| ReportDownload.IntervalText | components/ReportDownload.tsx:37-39 | present exactly when the block and its interval are truthy |
| ReportDownload.ReadReport | components/ReportDownload.tsx:7-65 | the interval is read only with the precipitation; the confidence is the rich final confidence, else the summary's level, else "medium" |
| ReportDownload.ReportProbability | components/ReportDownload.tsx:43-50 | the probability line shows the rich final weighted value when it is finite, else the summary's fused probability, as a percentage with one decimal |
| ReportDownload.OptionalLine | components/ReportDownload.tsx:16-51 | one line exactly when the value is present |
| ReportDownload.RoundedPercent | components/ReportDownload.tsx:58 | the integer percent nearest to the probability, halves up |
| ReportDownload.ReadRisk | components/ReportDownload.tsx:56-59 | a risk is unreadable exactly when it is null or undefined |
| ReportDownload.ReadRisks | components/ReportDownload.tsx:56-59 | one reading per risk, in order |
| ReportDownload.RiskLines | components/ReportDownload.tsx:56-59 | no more lines than risks |
| ReportDownload.WriteReport | components/ReportDownload.tsx:9-64 | the joined report lines, or the error a null risk raises |
| ReportDownload.BuildReportText | components/ReportDownload.tsx:7-65 | the report text of the data |
| ReportDownload.ReportLines | components/ReportDownload.tsx:9-63 | at least 16 lines: title, rule, blank, location, date and blank first; the generated-at line last |
| ReportDownload.ReportText | components/ReportDownload.tsx:7-65 | an error exactly when a risk of the array is null or undefined, with the `TypeError` reading `label` raises; otherwise a text starting with the title line |
| ReportDownload.ReportLocation | components/ReportDownload.tsx:12 | an absent location prints "—", a string one as itself |
| ReportDownload.ReportGating | components/ReportDownload.tsx:16-54 | each optional line is read exactly when its value is finite (the condition: truthy) |
| ReportDownload.TemperatureLine | components/ReportDownload.tsx:16 | the line after the header is the temperature exactly when one was read |
| ReportDownload.DetailLinesGating | components/ReportDownload.tsx:19-24 | every detail read has its line |
| ReportDownload.DetailLinesOnlyWhenRead | components/ReportDownload.tsx:19-24 | a detail line appears only when its value was read |
| ReportDownload.RiskLinesAll | components/ReportDownload.tsx:56-59 | with no null risk, one line per risk, in order |
| ReportDownload.RiskLinesInReport | components/ReportDownload.tsx:54-61 | the risk block follows its title, one line per risk, before the closing lines |
| ReportDownload.PercentOfNumber | components/ReportDownload.tsx:58 | `Math.round(p * 100)` prints as the rounded integer |
| ReportDownload.MissingRiskPercent | components/ReportDownload.tsx:58 | a risk without a probability prints 0 percent |
| ReportDownload.ReportTextSplits | components/ReportDownload.tsx:63-64 | splitting the report on newlines gives its lines back |
| WeatherDetails.NumberRow | components/WeatherDetails.tsx:34-74 | a numeric row exactly when its field is finite |
| WeatherDetails.KindRows | components/WeatherDetails.tsx:34-74 | at most one row per kind, present exactly when that kind is shown |
| WeatherDetails.DetailRows | components/WeatherDetails.tsx:19-28 | nothing is drawn exactly when the data is falsy or has no field to show |
| WeatherDetails.AppendBlock | components/WeatherDetails.tsx:34-74 | appending a later kind's block keeps the rows ordered |
| WeatherDetails.BlocksInOrder | components/WeatherDetails.tsx:34-74 | the six blocks concatenate to ordered rows holding exactly the non-empty kinds |
| WeatherDetails.DetailRowsShape | components/WeatherDetails.tsx:19-74 | one to six rows, in the fixed order, one for each shown kind |
| WeatherDetails.NullFieldIsShown | components/WeatherDetails.tsx:20-28 | a null field converts to 0 and is shown |
| WeatherDetails.NothingToShow | components/WeatherDetails.tsx:19-28 | null, or no condition and no finite field, draws nothing |
| WeatherAnimation.GetAnimation | components/weather-animation.tsx:11-71 | the rain scene exactly for rain or drizzle; humidity above 70 gives rain or clouds with droplets; droplets exactly above 70; dry only below 30 humidity for a condition naming no rain, cloud, clear or sun |
| WeatherAnimation.CloudsSecond | components/weather-animation.tsx:34-43 | then clouds on "cloud" or humidity above 70, with droplets exactly above 70 |
| WeatherAnimation.SunThenDry | components/weather-animation.tsx:46-70 | then "clear" or "sun" is sunny, humidity below 30 is dry, and the rest is the default |
| WeatherAnimation.NaNHumidity | components/weather-animation.tsx:34-63 | NaN humidity adds no droplets and never selects dry |
| WeatherAnimation.RouteRainConditions | components/weather-animation.tsx:12-15 | the route's "Rain" and "Drizzle" select the rain scene |
| WeatherAnimation.RouteCloudsCondition | components/weather-animation.tsx:34-43 | "Clouds" selects clouds, with droplets when humid |
| WeatherAnimation.ClearWords | components/weather-animation.tsx:46-53 | "Clear" mentions clear, and neither rain nor cloud |
| WeatherAnimation.RouteClearCondition | components/weather-animation.tsx:34-53 | "Clear" is sunny unless the humidity is above 70 |
| WeatherDisplay.ToFixedPlain | components/weather-display.tsx:23 | `toFixed` writes no comma and no blank at either end |
| WeatherDisplay.DisplayName | components/weather-display.tsx:23-24 | a given label is shown as it is; otherwise the label splits at its comma into two halves reading back as the rounded coordinates |
| WeatherDisplay.CoordinateLabelReadsBack | components/weather-display.tsx:23 | each half of "lat, lon" to two places reads back as its rounded coordinate |
| WeatherDisplay.SplitLabel | components/weather-display.tsx:23 | "a, b" splits at its comma into a and " b" |
| WeatherDisplay.RunEnd | components/weather-display.tsx:35-37 | the end of a run of one character class |
| WeatherDisplay.WordsAreWords | components/weather-display.tsx:35 | every word is a non-empty run of letters and digits |
| WeatherDisplay.CollapsedRuns | components/weather-display.tsx:35 | the first pass gives the words joined by dashes, with a dash at an end without a word |
| WeatherDisplay.JoinedWords | components/weather-display.tsx:35-37 | joined words hold letters, digits and single inner dashes |
| WeatherDisplay.SingleDashesKept | components/weather-display.tsx:36 | the dash pass leaves a text without double dashes alone |
| WeatherDisplay.Framed | components/weather-display.tsx:36-37 | trimming the edge dashes leaves the joined words |
| WeatherDisplay.SlugRewrites | components/weather-display.tsx:35-37 | the three rewrites give the words joined by single dashes |
| WeatherDisplay.Slug | components/weather-display.tsx:34-38 | the slug is the lower-cased words joined by single dashes, and has only a-z, 0-9 and single inner dashes |
| WeatherDisplay.WordsHoldAlnums | components/weather-display.tsx:35 | the words hold every letter and digit of the text, in order |
| WeatherDisplay.SlugKeepsLettersAndDigits | components/weather-display.tsx:34-38 | every letter and digit survives in the slug, lower-cased, in order |
| WeatherDisplay.EmptySlug | components/weather-display.tsx:34-38 | the slug is empty exactly when the text has no letter or digit |
| WeatherDisplay.FileName | components/weather-display.tsx:46 | "analyze-", then the slug or "forecast" when it is empty, then the extension; a slug-shaped slug gives a slug-shaped stem |
| WeatherDisplay.DownloadName | components/weather-display.tsx:107 | the stem is "forecast" exactly when the text has no letter or digit, else the slug |
| WeatherDisplay.BreakdownOneLinePerEntry | components/weather-display.tsx:53-56 | one line per entry in order: name in upper case, value, unit |
| WeatherDisplay.FormatModelBreakdown | components/weather-display.tsx:53-56 | no entries give ""; otherwise the text starts with the first name in upper case and ": " |
| DateSelection.MonthLength | app/components/date-selector.tsx:37-39 | a month has 28 to 31 days |
| DateSelection.DaysInMonth | app/components/date-selector.tsx:37-39 | day 0 of the next month is a length between 28 and 31 |
| DateSelection.GregorianMonths | app/components/date-selector.tsx:37-39 | April, June, September and November have 30 days; February has 29 exactly in leap years |
| DateSelection.YearLength | app/components/date-selector.tsx:37-39 | the months add up to 365 or 366 days |
| DateSelection.MonthRollover | app/components/date-selector.tsx:38 | month 12 is January of the next year and month -1 December of the previous one |
| DateSelection.TwoDigitYears | app/components/date-selector.tsx:38 | years 0 to 99 mean 1900 to 1999 |
| DateSelection.TimeValue | app/components/date-selector.tsx:143-145 | the time field is `HH:MM` with the hour and the minute |
| DateSelection.ParseTimeOfDigits | app/components/date-selector.tsx:146-151 | "a:b" with digit runs a and b reads as their two values |
| DateSelection.TimeRoundTrip | app/components/date-selector.tsx:143-151 | reading the field back gives the hour and the minute |
| DateSelection.ParseTime | app/components/date-selector.tsx:146-151 | an empty field reads as midnight; a field without a colon has minute 0 |
| DateSelection.OptionValuesReadBack | app/components/date-selector.tsx:78-122 | every option value reads back with `parseInt` |
| DateSelection.DateSelector.constructor | app/components/date-selector.tsx:37-39 | starts on today, whose day and year are among the options |
| DateSelection.DateSelector.HandleDateChange | app/components/date-selector.tsx:41-55 | undefined arguments keep their value; the day is cut to the month's length; the time is kept; the emitted date is the new state |
| DateSelection.DateSelector.HandleTimeChange | app/components/date-selector.tsx:57-64 | only the hour and the minute change; the emitted date is the new state |
| DateSelection.DateSelector.DayOptions | app/components/date-selector.tsx:84 | the days 1 to the month's length |
| DateSelection.DateSelector.YearOptions | app/components/date-selector.tsx:122 | the hundred years from the current one |
| DateSelection.DayOptionsCover | app/components/date-selector.tsx:84 | a day is offered exactly when it lies in 1 to the month's length |
| DateSelection.YearOptionsCover | app/components/date-selector.tsx:122 | a year is offered exactly when it lies in the hundred years from the current one |

## Left out

- IEEE-754 doubles are exact reals here. Rounding error, signed zero and the 2^53 integer limit are not modelled. Because of that, `fixNegZero` (lib/format.ts:7-9) is the identity; `Format.FmtNumberNoNegativeZero` proves instead that no negative-zero text is printed.
- `Math.sqrt` stays symbolic: `stdDev` returns the radicand, and `IsRootOf` says what the root may be.
- `toFixed` and `String(n)` use exponent notation for values of at least 1e21 or below 1e-6. Only the plain decimal forms are modelled.
- `Number()` of hexadecimal, octal and binary literals reads as NaN here, and `parseInt` reads a `0x` prefix as 0.
- Locale formatting is symbolic or a parameter: `Intl.NumberFormat`, `toLocaleDateString` and `toLocaleString`.
- The network, `fetch`, the geocoder, the 60-second timeout and `AbortController` are function parameters. So are `JSON.parse`, `process.env` and the clock.
- ReportDownload's `fmtDateISO` is not part of this model; the date text is a parameter. The `lib/strings` texts are not part of this model either; the captions are constants.
- `Object.fromEntries` orders integer-like keys first and keeps the last duplicate. Here objects keep their entry order and lookup takes the first match.
- `JSON.stringify` of NaN, the weather-display text summary template, the JSON download, and the Blob, URL and anchor mechanics are left out.
- `toLowerCase` and `toUpperCase` map only ASCII letters.
- React rendering, recharts and the CSS animations are left out, as are the map, page, search-bar and animated-number files.
- DateSelection.DateSelector.HandleTimeChange: takes integers; `parseInt` giving NaN for a non-numeric field is not threaded into the state.
- DateSelection.DateSelector.HandleDateChange: takes integers, so a NaN day is not modelled. The month caption is left out.
- DateSelection.DateSelector.constructor: the current year is fixed when the picker is created.
- ReadRisk: states only when a risk is unreadable; the percent it prints is stated by RoundedPercent and MissingRiskPercent.
- FmtDateLocalYMD: states that a rendered date has truthy parts, not the converse; FmtDateOfToYMD proves the converse for dates written by `toYMD`.
- CallOutcome: its own contract states only the missing-URL error; the retry logic is stated by FetchBackendAdvanced and NaNErrorIsRetried.
- StripPrefixed: its own contract bounds the length only; StripHit, StripKeep and StripPrefixedEntries state its contents.
- RiskLines: its own contract bounds the length only; RiskLinesAll and RiskLinesInReport state its contents.
- FormatModelBreakdown: its own contract states the empty case and the first line's head; BreakdownOneLinePerEntry states every line.
- ParseTime: its own contract states the cleared field and a field without a colon; TimeRoundTrip states that a written time reads back.
- ToYMD: states the read-back for years from 0 on; the two-digit padding of the month and the day is also stated for years from 0 on; negative years are not modelled.
- ReadReport: its own contract states the interval and the confidence; the rain-probability text (the rich final weighted value when finite, else the summary's fused probability) is stated by the lemma ReportProbability.
- DisplayName: states the read-back for finite coordinates only; NaN and infinite coordinates are printed but not read back.
- ReportText: the error message is the one for a null risk; an undefined risk's message names `undefined` instead.
