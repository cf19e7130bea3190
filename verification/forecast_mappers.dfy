/** The route's mappers from the backend document to the shapes the dashboard reads:
    the detailed `ml_advanced` summary, the rich summary (probabilities, explainability,
    coverage, quality), the showcase fields, the displayed condition and the four
    condition risks. The backend document is untyped JSON (Raw). */
module ForecastMappers {
  import opened Optional
  import opened JsNumbers
  import opened JsText
  import opened JsConvert
  import opened JsRaw
  import opened RouteHelpers

  /** `v ?? {}`. */
  function OrEmpty(v: Raw): Raw {
    Coalesce(v, Obj([]))
  }

  /** `Number(v ?? 0)`. */
  function NumberOrZero(v: Raw): JsNumber {
    ToNumber(Coalesce(v, Num(Fin(0.0))))
  }

  // ---------------- mapBackendToFrontendSummary ----------------

  datatype LatLon = LatLon(lat: JsNumber, lon: JsNumber)

  datatype ConfidenceInterval = ConfidenceInterval(lower: JsNumber, upper: JsNumber)

  datatype PrecipitationSummary = PrecipitationSummary(
    predictionMm: JsNumber,
    individualPredictionsMm: seq<(string, JsNumber)>,
    uncertaintyMm: JsNumber,
    confidenceIntervalMm: ConfidenceInterval,
    ensembleWeightsReg: Raw)

  datatype RainProbabilitySummary = RainProbabilitySummary(
    probability: JsNumber,
    individualProbabilities: seq<(string, JsNumber)>,
    uncertainty: StdDevValue,
    confidenceLevel: string,
    ensembleWeightsCls: Raw)

  /** The `BackendSummary` record of the dashboard's types. */
  datatype BackendSummary = BackendSummary(
    predictionFor: string,
    location: LatLon,
    mlPrecipitationMm: PrecipitationSummary,
    mlRainProbability: RainProbabilitySummary)

  /** The entries whose key starts with prefix, in order, renamed without the prefix and
      converted with `Number()`: `Object.fromEntries(entries.filter(...).map(...))`. */
  function StripPrefixed(entries: seq<(string, Raw)>, prefix: string): (r: seq<(string, JsNumber)>)
    ensures |r| <= |entries|
  {
    if entries == [] then []
    else
      var rest := StripPrefixed(entries[1..], prefix);
      var k := entries[0].0;
      if StartsWith(k, prefix) then [(k[|prefix|..], ToNumber(entries[0].1))] + rest else rest
  }

  lemma PrefixSplit(s: string, prefix: string, k: string)
    ensures (StartsWith(s, prefix) && s[|prefix|..] == k) <==> s == prefix + k
  {
    if s == prefix + k {
      assert s[..|prefix|] == prefix;
      assert s[|prefix|..] == k;
    }
  }

  /** Each renamed entry comes from an entry whose key is the prefix followed by the new key. */
  lemma {:induction false} StripHit(entries: seq<(string, Raw)>, prefix: string, i: nat) returns (j: nat)
    requires i < |StripPrefixed(entries, prefix)|
    ensures var e := StripPrefixed(entries, prefix)[i];
      j < |entries| && entries[j].0 == prefix + e.0 && ToNumber(entries[j].1) == e.1
    decreases |entries|
  {
    var r := StripPrefixed(entries, prefix);
    var rest := StripPrefixed(entries[1..], prefix);
    var hit := StartsWith(entries[0].0, prefix);
    if hit && i == 0 {
      j := 0;
      PrefixSplit(entries[0].0, prefix, r[0].0);
    } else {
      var i' := if hit then i - 1 else i;
      assert r[i] == rest[i'];
      var j' := StripHit(entries[1..], prefix, i');
      j := j' + 1;
      assert entries[j] == entries[1..][j'];
    }
  }

  /** Each entry whose key has the prefix is kept, renamed, with its value converted. */
  lemma {:induction false} StripKeep(entries: seq<(string, Raw)>, prefix: string, j: nat) returns (i: nat)
    requires j < |entries| && StartsWith(entries[j].0, prefix)
    ensures var r := StripPrefixed(entries, prefix);
      i < |r| && r[i] == (entries[j].0[|prefix|..], ToNumber(entries[j].1))
    decreases |entries|
  {
    var r := StripPrefixed(entries, prefix);
    var rest := StripPrefixed(entries[1..], prefix);
    var hit := StartsWith(entries[0].0, prefix);
    if j == 0 {
      i := 0;
    } else {
      assert entries[1..][j - 1] == entries[j];
      var i' := StripKeep(entries[1..], prefix, j - 1);
      i := if hit then i' + 1 else i';
      assert r[i] == rest[i'];
    }
  }

  /** The renamed entries are exactly the prefixed keys with the prefix removed, each with the
      number its value converts to; keys without the prefix are dropped. */
  lemma StripPrefixedEntries(entries: seq<(string, Raw)>, prefix: string, k: string, x: JsNumber)
    ensures (exists i :: 0 <= i < |StripPrefixed(entries, prefix)| && StripPrefixed(entries, prefix)[i] == (k, x))
        <==> (exists j :: 0 <= j < |entries| && entries[j].0 == prefix + k && ToNumber(entries[j].1) == x)
  {
    var r := StripPrefixed(entries, prefix);
    if exists i :: 0 <= i < |r| && r[i] == (k, x) {
      var i :| 0 <= i < |r| && r[i] == (k, x);
      var j := StripHit(entries, prefix, i);
    }
    if exists j :: 0 <= j < |entries| && entries[j].0 == prefix + k && ToNumber(entries[j].1) == x {
      var j :| 0 <= j < |entries| && entries[j].0 == prefix + k && ToNumber(entries[j].1) == x;
      PrefixSplit(entries[j].0, prefix, k);
      var i := StripKeep(entries, prefix, j);
    }
  }

  function Values(entries: seq<(string, JsNumber)>): (vs: seq<JsNumber>)
    ensures |vs| == |entries| && forall i :: 0 <= i < |vs| ==> vs[i] == entries[i].1
  {
    seq(|entries|, i requires 0 <= i < |entries| => entries[i].1)
  }

  /** `api?.ml_advanced?.advanced_ml ?? {}`. */
  function Advanced(api: Raw): Raw {
    OrEmpty(Get(Get(api, "ml_advanced"), "advanced_ml"))
  }

  /** `Number.isFinite(Number(v)) ? Number(v) : 0`. */
  function FiniteOrZero(v: Raw): (r: JsNumber)
    ensures r.Fin?
  {
    PickNumber(v, Fin(0.0))
  }

  /** `Math.max(0, Number.isFinite(raw) ? raw : 0)`: the ensemble precipitation amount. */
  function PredictionAmount(raw: JsNumber): (r: JsNumber)
    ensures r.Fin? && r.r >= 0.0
    ensures raw.Fin? && raw.r >= 0.0 ==> r == raw
    ensures !(raw.Fin? && raw.r > 0.0) ==> r == Fin(0.0)
  {
    Max(Fin(0.0), if IsFinite(raw) then raw else Fin(0.0))
  }

  /** `Math.max(0, x)`: NaN stays NaN, anything else is at least 0. */
  function AtLeastZero(x: JsNumber): (r: JsNumber)
    ensures x.NaN? <==> r.NaN?
    ensures !x.NaN? ==> LessEq(Fin(0.0), r)
    ensures LessEq(Fin(0.0), x) ==> r == x
  {
    Max(Fin(0.0), x)
  }

  /** `{ lat, lon }` read from `api?.location`: the long key first, then the short one, then 0. */
  function MapLocation(api: Raw): (r: LatLon)
    ensures var loc := OrEmpty(Get(api, "location"));
            && (!IsNullish(Get(loc, "latitude")) ==> r.lat == ToNumber(Get(loc, "latitude")))
            && (IsNullish(Get(loc, "latitude")) && !IsNullish(Get(loc, "lat")) ==> r.lat == ToNumber(Get(loc, "lat")))
            && (IsNullish(Get(loc, "latitude")) && IsNullish(Get(loc, "lat")) ==> r.lat == Fin(0.0))
    ensures var loc := OrEmpty(Get(api, "location"));
            && (!IsNullish(Get(loc, "longitude")) ==> r.lon == ToNumber(Get(loc, "longitude")))
            && (IsNullish(Get(loc, "longitude")) && !IsNullish(Get(loc, "lon")) ==> r.lon == ToNumber(Get(loc, "lon")))
            && (IsNullish(Get(loc, "longitude")) && IsNullish(Get(loc, "lon")) ==> r.lon == Fin(0.0))
    ensures !Get(api, "location").Obj? ==> r == LatLon(Fin(0.0), Fin(0.0))
  {
    var loc := OrEmpty(Get(api, "location"));
    LatLon(ToNumber(Coalesce(Get(loc, "latitude"), Coalesce(Get(loc, "lat"), Num(Fin(0.0))))),
           ToNumber(Coalesce(Get(loc, "longitude"), Coalesce(Get(loc, "lon"), Num(Fin(0.0))))))
  }

  /** `api?.ml_advanced?.model_weights ?? {}`. */
  function ModelWeights(api: Raw): Raw {
    OrEmpty(Get(Get(api, "ml_advanced"), "model_weights"))
  }

  /** The entries of `adv?.individual_models ?? {}`. */
  function IndividualModels(adv: Raw): seq<(string, Raw)> {
    Entries(OrEmpty(Get(adv, "individual_models")))
  }

  /** The `ml_precipitation_mm` block. */
  function MapPrecipitation(adv: Raw, weights: Raw): (p: PrecipitationSummary)
    ensures p.predictionMm.Fin? && p.predictionMm.r >= 0.0
    ensures p.uncertaintyMm.Fin?
    ensures p.confidenceIntervalMm.lower.NaN? || LessEq(Fin(0.0), p.confidenceIntervalMm.lower)
    ensures p.individualPredictionsMm == StripPrefixed(IndividualModels(adv), "reg_")
  {
    var ci := Coalesce(Get(adv, "confidence_interval"),
                       Obj([("lower", Num(Fin(0.0))), ("upper", Num(Fin(0.0)))]));
    PrecipitationSummary(
      PredictionAmount(NumberOrZero(Get(adv, "precipitation_mm"))),
      StripPrefixed(IndividualModels(adv), "reg_"),
      FiniteOrZero(Get(adv, "uncertainty")),
      ConfidenceInterval(AtLeastZero(NumberOrZero(Get(ci, "lower"))), NumberOrZero(Get(ci, "upper"))),
      OrEmpty(Get(weights, "regression")))
  }

  /** The `ml_rain_probability` block. */
  function MapRainProbability(adv: Raw, weights: Raw): (p: RainProbabilitySummary)
    ensures p.probability.Fin?
    ensures p.individualProbabilities == StripPrefixed(IndividualModels(adv), "cls_")
    ensures p.uncertainty == StdDev(Values(p.individualProbabilities))
  {
    var probabilities := StripPrefixed(IndividualModels(adv), "cls_");
    RainProbabilitySummary(
      FiniteOrZero(Get(adv, "rain_probability_fused")),
      probabilities,
      StdDev(Values(probabilities)),
      ToStr(Coalesce(Get(adv, "confidence_level"), Str("medium"))),
      OrEmpty(Get(weights, "classification")))
  }

  /** `String(api?.target_date ?? today)`. */
  function PredictionFor(api: Raw, today: string): (d: string)
    ensures !IsNullish(Get(api, "target_date")) ==> d == ToStr(Get(api, "target_date"))
    ensures IsNullish(Get(api, "target_date")) ==> d == today
  {
    ToStr(Coalesce(Get(api, "target_date"), Str(today)))
  }

  /** `mapBackendToFrontendSummary(api)`; `today` is the date part of the current time. */
  function MapBackendToFrontendSummary(api: Raw, today: string): (s: BackendSummary)
    ensures s.mlPrecipitationMm == MapPrecipitation(Advanced(api), ModelWeights(api))
    ensures s.mlRainProbability == MapRainProbability(Advanced(api), ModelWeights(api))
    ensures s.mlPrecipitationMm.predictionMm.Fin? && s.mlPrecipitationMm.predictionMm.r >= 0.0
    ensures s.mlPrecipitationMm.uncertaintyMm.Fin? && s.mlRainProbability.probability.Fin?
    ensures !IsNullish(Get(api, "target_date")) ==> s.predictionFor == ToStr(Get(api, "target_date"))
    ensures IsNullish(Get(api, "target_date")) ==> s.predictionFor == today
    ensures s.location == MapLocation(api)
  {
    BackendSummary(
      PredictionFor(api, today),
      MapLocation(api),
      MapPrecipitation(Advanced(api), ModelWeights(api)),
      MapRainProbability(Advanced(api), ModelWeights(api)))
  }

  /** The defaults of the precipitation block: a finite non-negative amount is kept and
      anything else becomes 0; a non-finite uncertainty becomes 0. */
  lemma PrecipitationDefaults(adv: Raw, weights: Raw)
    ensures var p := MapPrecipitation(adv, weights);
            var raw := NumberOrZero(Get(adv, "precipitation_mm"));
            && (raw.Fin? && raw.r >= 0.0 ==> p.predictionMm == raw)
            && (!(raw.Fin? && raw.r > 0.0) ==> p.predictionMm == Fin(0.0))
            && (!IsFinite(ToNumber(Get(adv, "uncertainty"))) ==> p.uncertaintyMm == Fin(0.0))
            && (IsFinite(ToNumber(Get(adv, "uncertainty"))) ==> p.uncertaintyMm == ToNumber(Get(adv, "uncertainty")))
  {
  }

  /** The defaults of the rain-probability block: a non-finite fused probability becomes 0
      (a finite one is kept, even outside [0, 1]) and the confidence level defaults to "medium". */
  lemma RainProbabilityDefaults(adv: Raw, weights: Raw)
    ensures var p := MapRainProbability(adv, weights);
            var fused := ToNumber(Get(adv, "rain_probability_fused"));
            && (!IsFinite(fused) ==> p.probability == Fin(0.0))
            && (IsFinite(fused) ==> p.probability == fused)
            && (IsNullish(Get(adv, "confidence_level")) ==> p.confidenceLevel == "medium")
            && (!IsNullish(Get(adv, "confidence_level")) ==> p.confidenceLevel == ToStr(Get(adv, "confidence_level")))
  {
  }

  /** Without any `cls_` model the classification uncertainty is the literal 0. */
  lemma NoClassifierNoSpread(api: Raw, today: string)
    requires forall j :: 0 <= j < |IndividualModels(Advanced(api))| ==>
               !StartsWith(IndividualModels(Advanced(api))[j].0, "cls_")
    ensures MapBackendToFrontendSummary(api, today).mlRainProbability.uncertainty == Zero
  {
    NoPrefixedEntries(IndividualModels(Advanced(api)), "cls_");
  }

  lemma {:induction false} NoPrefixedEntries(entries: seq<(string, Raw)>, prefix: string)
    requires forall j :: 0 <= j < |entries| ==> !StartsWith(entries[j].0, prefix)
    ensures StripPrefixed(entries, prefix) == []
  {
    if entries != [] {
      NoPrefixedEntries(entries[1..], prefix);
    }
  }

  // ---------------- buildRichBackendSummary ----------------

  datatype Probabilities = Probabilities(
    statistical: JsNumber,
    mlBasic: JsNumber,
    mlAdvanced: JsNumber,
    finalWeighted: JsNumber,
    finalWillRain: bool,
    finalConfidence: string)

  datatype Explainability = Explainability(
    recentSummary: Raw,
    climatologySummary: Raw,
    explanationText: Raw,
    modelTopFeatures: Raw)

  datatype DataCoverage = DataCoverage(start: Raw, end: Raw, nDays: Raw, nYears: Raw)

  datatype DataQuality = DataQuality(reliabilityScore: JsNumber)

  /** The `BackendSummaryRich` record of the dashboard's types. */
  datatype BackendSummaryRich = BackendSummaryRich(
    probabilities: Probabilities,
    explainability: Explainability,
    dataCoverage: DataCoverage,
    dataQuality: DataQuality)

  /** `Math.max(a, b, c)`. */
  function Max3(a: JsNumber, b: JsNumber, c: JsNumber): JsNumber {
    Max(Max(a, b), c)
  }

  /** `v ?? null`. */
  function OrNull(v: Raw): Raw {
    Coalesce(v, Null)
  }

  /** `String(final?.confidence ?? adv?.confidence_level ?? "medium")`: the final
      recommendation's confidence, else the advanced model's, else "medium". */
  function FinalConfidence(final: Raw, adv: Raw): (c: string)
    ensures !IsNullish(Get(final, "confidence")) ==> c == ToStr(Get(final, "confidence"))
    ensures IsNullish(Get(final, "confidence")) && !IsNullish(Get(adv, "confidence_level")) ==>
              c == ToStr(Get(adv, "confidence_level"))
    ensures IsNullish(Get(final, "confidence")) && IsNullish(Get(adv, "confidence_level")) ==>
              c == "medium"
  {
    ToStr(Coalesce(Get(final, "confidence"), Coalesce(Get(adv, "confidence_level"), Str("medium"))))
  }

  /** `pickNumber(dq?.reliability?.overall_score, NaN)`: NaN unless the score is a finite number. */
  function ReliabilityScore(dq: Raw): (r: JsNumber)
    ensures var given := ToNumber(Get(Get(dq, "reliability"), "overall_score"));
            (IsFinite(given) ==> r == given) && (!IsFinite(given) ==> r == NaN)
  {
    PickNumber(Get(Get(dq, "reliability"), "overall_score"), NaN)
  }

  /** The `probabilities` block of `buildRichBackendSummary`: each model's probability, 0
      when not a finite number, and the final recommendation's, else the largest of them. */
  function RichProbabilities(api: Raw): (p: Probabilities)
    ensures p.statistical.Fin? && p.mlBasic.Fin? && p.mlAdvanced.Fin? && p.finalWeighted.Fin?
    ensures var given := ToNumber(Get(OrEmpty(Get(api, "statistics")), "rain_probability"));
            (IsFinite(given) ==> p.statistical == given) && (!IsFinite(given) ==> p.statistical == Fin(0.0))
    ensures var given := ToNumber(Get(Get(OrEmpty(Get(api, "ml_basic")), "prediction"), "ensemble_prob"));
            (IsFinite(given) ==> p.mlBasic == given) && (!IsFinite(given) ==> p.mlBasic == Fin(0.0))
    ensures var given := ToNumber(Get(Advanced(api), "rain_probability_fused"));
            (IsFinite(given) ==> p.mlAdvanced == given) && (!IsFinite(given) ==> p.mlAdvanced == Fin(0.0))
    ensures var given := ToNumber(Get(OrEmpty(Get(api, "final_recommendation")), "probability"));
            && (IsFinite(given) ==> p.finalWeighted == given)
            && (!IsFinite(given) ==> p.finalWeighted == Max3(p.mlAdvanced, p.mlBasic, p.statistical))
    ensures p.finalWillRain == Truthy(Get(OrEmpty(Get(api, "final_recommendation")), "will_rain"))
    ensures p.finalConfidence == FinalConfidence(OrEmpty(Get(api, "final_recommendation")), Advanced(api))
  {
    var final := OrEmpty(Get(api, "final_recommendation"));
    var stats := OrEmpty(Get(api, "statistics"));
    var basic := OrEmpty(Get(api, "ml_basic"));
    var adv := Advanced(api);
    var probStat := PickNumber(Get(stats, "rain_probability"), Fin(0.0));
    var probBasic := PickNumber(Get(Get(basic, "prediction"), "ensemble_prob"), Fin(0.0));
    var probAdv := PickNumber(Get(adv, "rain_probability_fused"), Fin(0.0));
    var finalProb := PickNumber(Get(final, "probability"), Max3(probAdv, probBasic, probStat));
    Probabilities(probStat, probBasic, probAdv, finalProb, Truthy(Get(final, "will_rain")),
                  FinalConfidence(final, adv))
  }

  /** `buildRichBackendSummary(api)`. */
  function BuildRichBackendSummary(api: Raw): (s: BackendSummaryRich)
    ensures var p := s.probabilities;
            p.statistical.Fin? && p.mlBasic.Fin? && p.mlAdvanced.Fin? && p.finalWeighted.Fin?
    ensures s.probabilities == RichProbabilities(api)
    ensures var expl := OrEmpty(Get(api, "explainability"));
            && DefaultsTo(s.explainability.recentSummary, Get(expl, "recent_summary"), Obj([]))
            && DefaultsTo(s.explainability.climatologySummary, Get(expl, "climatology_summary"), Obj([]))
            && DefaultsTo(s.explainability.explanationText, Get(expl, "explanation_text"), Str(""))
            && DefaultsTo(s.explainability.modelTopFeatures, Get(expl, "model_top_features"), Arr([]))
    ensures var cov := OrEmpty(Get(api, "data_coverage"));
            && DefaultsTo(s.dataCoverage.start, Get(cov, "start"), Null)
            && DefaultsTo(s.dataCoverage.end, Get(cov, "end"), Null)
            && DefaultsTo(s.dataCoverage.nDays, Get(cov, "n_days"), Null)
            && DefaultsTo(s.dataCoverage.nYears, Get(cov, "n_years"), Null)
    ensures s.dataQuality.reliabilityScore == ReliabilityScore(OrEmpty(Get(api, "data_quality")))
  {
    var expl := OrEmpty(Get(api, "explainability"));
    var cov := OrEmpty(Get(api, "data_coverage"));
    var dq := OrEmpty(Get(api, "data_quality"));
    BackendSummaryRich(RichProbabilities(api), ExplainabilityOf(expl), CoverageOf(cov),
                       DataQuality(ReliabilityScore(dq)))
  }

  /** The explainability block with its defaults: `{}` for the summaries, `""` for the text and
      `[]` for the top features. */
  function ExplainabilityOf(expl: Raw): (e: Explainability)
    ensures && DefaultsTo(e.recentSummary, Get(expl, "recent_summary"), Obj([]))
            && DefaultsTo(e.climatologySummary, Get(expl, "climatology_summary"), Obj([]))
            && DefaultsTo(e.explanationText, Get(expl, "explanation_text"), Str(""))
            && DefaultsTo(e.modelTopFeatures, Get(expl, "model_top_features"), Arr([]))
  {
    Explainability(
      OrEmpty(Get(expl, "recent_summary")),
      OrEmpty(Get(expl, "climatology_summary")),
      Coalesce(Get(expl, "explanation_text"), Str("")),
      Coalesce(Get(expl, "model_top_features"), Arr([])))
  }

  /** The data coverage block: each field as given, else null. */
  function CoverageOf(cov: Raw): (d: DataCoverage)
    ensures && DefaultsTo(d.start, Get(cov, "start"), Null)
            && DefaultsTo(d.end, Get(cov, "end"), Null)
            && DefaultsTo(d.nDays, Get(cov, "n_days"), Null)
            && DefaultsTo(d.nYears, Get(cov, "n_years"), Null)
  {
    DataCoverage(OrNull(Get(cov, "start")), OrNull(Get(cov, "end")),
                 OrNull(Get(cov, "n_days")), OrNull(Get(cov, "n_years")))
  }

  /** `x` is what `given ?? fallback` gives: the given value unless it is null or undefined. */
  predicate DefaultsTo(x: Raw, given: Raw, fallback: Raw) {
    (!IsNullish(given) ==> x == given) && (IsNullish(given) ==> x == fallback)
  }

  /** The largest of three finite numbers is finite and at least each of them. */
  lemma Max3Bounds(a: JsNumber, b: JsNumber, c: JsNumber)
    requires a.Fin? && b.Fin? && c.Fin?
    ensures var m := Max3(a, b, c);
      m.Fin? && a.r <= m.r && b.r <= m.r && c.r <= m.r && (m == a || m == b || m == c)
  {
  }

  /** `final_weighted` is the final recommendation's probability whenever that converts to a
      finite number (so a JSON null gives 0); otherwise it is the largest of the three model
      probabilities, and it is never below any of them. */
  lemma FinalWeightedChoice(api: Raw)
    ensures var p := BuildRichBackendSummary(api).probabilities;
            var given := ToNumber(Get(OrEmpty(Get(api, "final_recommendation")), "probability"));
            && (IsFinite(given) ==> p.finalWeighted == given)
            && (!IsFinite(given) ==>
                  p.finalWeighted == Max3(p.mlAdvanced, p.mlBasic, p.statistical)
                  && p.statistical.r <= p.finalWeighted.r && p.mlBasic.r <= p.finalWeighted.r
                  && p.mlAdvanced.r <= p.finalWeighted.r)
  {
    var p := RichProbabilities(api);
    Max3Bounds(p.mlAdvanced, p.mlBasic, p.statistical);
  }

  lemma FinalWeightedOfNull(api: Raw)
    requires Get(OrEmpty(Get(api, "final_recommendation")), "probability") == Null
    ensures BuildRichBackendSummary(api).probabilities.finalWeighted == Fin(0.0)
  {
  }

  // ---------------- deriveShowcaseFromBackend ----------------

  /** The UI fields the route adds when they are known; each is an integer. */
  datatype Showcase = Showcase(
    humidity: Option<int>,
    windSpeed: Option<int>,
    pressure: Option<int>,
    temperature: Option<int>)

  /** `expl?.recent_summary?.[key] ?? expl?.climatology_summary?.[key] ?? NaN`. */
  function SummaryField(expl: Raw, key: string): Raw {
    Coalesce(Get(Get(expl, "recent_summary"), key),
             Coalesce(Get(Get(expl, "climatology_summary"), key), Num(NaN)))
  }

  /** `Number.isFinite(x) ? Math.round(x) : undefined`. */
  function RoundIfFinite(x: JsNumber): (r: Option<int>)
    ensures r.Some? <==> x.Fin?
  {
    if x.Fin? then Some(RoundHalfUp(x.r)) else None
  }

  /** `Number(stats?.temperature?.avg_temp_c ?? stats?.temperature?.mean_c ?? NaN)`. */
  function StatsTemperature(stats: Raw): JsNumber {
    var temperature := Get(stats, "temperature");
    ToNumber(Coalesce(Get(temperature, "avg_temp_c"), Coalesce(Get(temperature, "mean_c"), Num(NaN))))
  }

  /** The showcase temperature: the statistics first, the explainability summaries second. */
  function ShowcaseTemperature(tFromStats: JsNumber, tFromExpl: JsNumber): (t: Option<int>)
    ensures t.Some? <==> tFromStats.Fin? || tFromExpl.Fin?
    ensures tFromStats.Fin? ==> t == Some(RoundHalfUp(tFromStats.r))
    ensures !tFromStats.Fin? && tFromExpl.Fin? ==> t == Some(RoundHalfUp(tFromExpl.r))
  {
    if IsFinite(tFromStats) then RoundIfFinite(tFromStats) else RoundIfFinite(tFromExpl)
  }

  /** A number of the explainability summaries, as `Number(...)` reads it. */
  function ExplNumber(api: Raw, key: string): JsNumber {
    ToNumber(SummaryField(OrEmpty(Get(api, "explainability")), key))
  }

  /** `deriveShowcaseFromBackend(api)`: each field is present exactly when its source number
      is finite, and is then that number rounded half up; wind is converted from m/s to km/h,
      pressure from kPa to hPa, and the temperature of the statistics wins over the one of
      the explainability summaries. */
  function DeriveShowcase(api: Raw): (sc: Showcase)
    ensures var h := ExplNumber(api, "rh2m_mean_pct");
            (sc.humidity.Some? <==> h.Fin?) && (h.Fin? ==> sc.humidity == Some(RoundHalfUp(h.r)))
    ensures var w := ExplNumber(api, "wind_mean_ms");
            (sc.windSpeed.Some? <==> w.Fin?) && (w.Fin? ==> sc.windSpeed == Some(RoundHalfUp(w.r * 3.6)))
    ensures var ps := ExplNumber(api, "ps_mean_kpa");
            (sc.pressure.Some? <==> ps.Fin?) && (ps.Fin? ==> sc.pressure == Some(RoundHalfUp(ps.r * 10.0)))
    ensures var ts, te := StatsTemperature(OrEmpty(Get(api, "statistics"))), ExplNumber(api, "t2m_mean_c");
            && (sc.temperature.Some? <==> ts.Fin? || te.Fin?)
            && (ts.Fin? ==> sc.temperature == Some(RoundHalfUp(ts.r)))
            && (!ts.Fin? && te.Fin? ==> sc.temperature == Some(RoundHalfUp(te.r)))
  {
    ShowcaseOf(ExplNumber(api, "rh2m_mean_pct"), ExplNumber(api, "wind_mean_ms"), ExplNumber(api, "ps_mean_kpa"),
               StatsTemperature(OrEmpty(Get(api, "statistics"))), ExplNumber(api, "t2m_mean_c"))
  }

  /** The showcase built from its source numbers. */
  function ShowcaseOf(h: JsNumber, w: JsNumber, ps: JsNumber, ts: JsNumber, te: JsNumber): (sc: Showcase)
    ensures (sc.humidity.Some? <==> h.Fin?) && (h.Fin? ==> sc.humidity == Some(RoundHalfUp(h.r)))
    ensures (sc.windSpeed.Some? <==> w.Fin?) && (w.Fin? ==> sc.windSpeed == Some(RoundHalfUp(w.r * 3.6)))
    ensures (sc.pressure.Some? <==> ps.Fin?) && (ps.Fin? ==> sc.pressure == Some(RoundHalfUp(ps.r * 10.0)))
    ensures && (sc.temperature.Some? <==> ts.Fin? || te.Fin?)
            && (ts.Fin? ==> sc.temperature == Some(RoundHalfUp(ts.r)))
            && (!ts.Fin? && te.Fin? ==> sc.temperature == Some(RoundHalfUp(te.r)))
  {
    ShowcaseConversions(w, ps);
    Showcase(RoundIfFinite(h), RoundIfFinite(Mul(w, Fin(3.6))), RoundIfFinite(Mul(ps, Fin(10.0))),
             ShowcaseTemperature(ts, te))
  }

  /** The unit conversions of the showcase: wind from m/s to km/h and pressure from kPa to
      hPa, each present exactly when the source number is finite. */
  lemma ShowcaseConversions(w: JsNumber, ps: JsNumber)
    ensures RoundIfFinite(Mul(w, Fin(3.6))).Some? <==> w.Fin?
    ensures w.Fin? ==> RoundIfFinite(Mul(w, Fin(3.6))) == Some(RoundHalfUp(w.r * 3.6))
    ensures RoundIfFinite(Mul(ps, Fin(10.0))).Some? <==> ps.Fin?
    ensures ps.Fin? ==> RoundIfFinite(Mul(ps, Fin(10.0))) == Some(RoundHalfUp(ps.r * 10.0))
  {
  }

  /** The recent summary wins by presence, not by finiteness: a recent value that is present
      but not a number hides a usable climatology value. */
  lemma RecentBeatsClimatology(expl: Raw, key: string)
    requires !IsNullish(Get(Get(expl, "recent_summary"), key))
    ensures SummaryField(expl, key) == Get(Get(expl, "recent_summary"), key)
  {
  }

  /** A recent humidity that is an object (not a number) hides the climatology's 80 %. */
  lemma RecentHidesClimatology()
    ensures var expl := Obj([("recent_summary", Obj([("rh2m_mean_pct", Obj([]))])),
                             ("climatology_summary", Obj([("rh2m_mean_pct", Num(Fin(80.0)))]))]);
            DeriveShowcase(Obj([("explainability", expl)])).humidity == None
  {
    var expl := Obj([("recent_summary", Obj([("rh2m_mean_pct", Obj([]))])),
                     ("climatology_summary", Obj([("rh2m_mean_pct", Num(Fin(80.0)))]))]);
    assert Get(Obj([("explainability", expl)]), "explainability") == expl;
    assert Get(expl, "recent_summary") == Obj([("rh2m_mean_pct", Obj([]))]);
    assert SummaryField(expl, "rh2m_mean_pct") == Obj([]);
  }

  // ---------------- inferCondition ----------------

  datatype Condition = Rain | Drizzle | Clouds | Clear

  function ConditionName(c: Condition): (name: string)
    ensures name != ""
  {
    match c
    case Rain => "Rain"
    case Drizzle => "Drizzle"
    case Clouds => "Clouds"
    case Clear => "Clear"
  }

  /** `a >= b`. */
  predicate AtLeast(a: JsNumber, b: JsNumber) {
    LessEq(b, a)
  }

  /** `inferCondition(probFinalWeighted, humidity, mm)`; a missing humidity or amount counts as 0.
      On finite inputs: rain from 0.5 mm or a 60 % probability, drizzle from a 35 %
      probability with 70 % humidity, clouds from 75 % humidity, clear otherwise. */
  function InferCondition(p: JsNumber, humidity: Option<JsNumber>, mm: Option<JsNumber>): (c: Condition)
    ensures var h, m := humidity.GetOr(Fin(0.0)), mm.GetOr(Fin(0.0));
            p.Fin? && h.Fin? && m.Fin? ==>
              && (c == Rain <==> m.r >= 0.5 || p.r >= 0.6)
              && (c == Drizzle <==> m.r < 0.5 && 0.35 <= p.r < 0.6 && h.r >= 70.0)
              && (c == Clouds <==> m.r < 0.5 && p.r < 0.6 && h.r >= 75.0 && !(p.r >= 0.35 && h.r >= 70.0))
    ensures humidity.None? ==> c == Rain || c == Clear
    ensures p.NaN? && !AtLeast(mm.GetOr(Fin(0.0)), Fin(0.5)) ==> c == Clouds || c == Clear
  {
    var h := humidity.GetOr(Fin(0.0));
    if AtLeast(mm.GetOr(Fin(0.0)), Fin(0.5)) || AtLeast(p, Fin(0.6)) then Rain
    else if AtLeast(p, Fin(0.35)) && AtLeast(h, Fin(70.0)) then Drizzle
    else if AtLeast(h, Fin(75.0)) then Clouds
    else Clear
  }

  /** How wet a condition is, from Clear (0) to Rain (3). */
  function Wetness(c: Condition): nat {
    match c
    case Clear => 0
    case Clouds => 1
    case Drizzle => 2
    case Rain => 3
  }

  /** Wetter inputs never give a drier condition: the heuristic is monotone in the
      probability, the humidity and the amount. */
  lemma InferConditionMonotone(p: real, h: real, mm: real, p': real, h': real, mm': real)
    requires p <= p' && h <= h' && mm <= mm'
    ensures Wetness(InferCondition(Fin(p), Some(Fin(h)), Some(Fin(mm))))
         <= Wetness(InferCondition(Fin(p'), Some(Fin(h')), Some(Fin(mm'))))
  {
  }

  lemma InferConditionExamples()
    ensures InferCondition(Fin(0.65), Some(Fin(50.0)), Some(Fin(0.0))) == Rain
    ensures InferCondition(Fin(0.4), Some(Fin(72.0)), Some(Fin(0.0))) == Drizzle
    ensures InferCondition(Fin(0.1), Some(Fin(80.0)), Some(Fin(0.0))) == Clouds
    ensures InferCondition(Fin(0.1), Some(Fin(10.0)), Some(Fin(0.0))) == Clear
    ensures InferCondition(Fin(0.1), None, Some(Fin(0.5))) == Rain
    ensures InferCondition(Fin(0.5), None, None) == Clear
  {
  }

  // ---------------- generateRiskScoresFromBackend ----------------

  /** The `ConditionRisk` record of the dashboard's types. */
  datatype ConditionRisk = ConditionRisk(id: string, labelText: string, probability: JsNumber, description: string)

  /** The relative humidity the humidity risk uses, defaulting to 0. */
  function RiskHumidity(expl: Raw): JsNumber {
    NumberOrZero(Coalesce(Get(Get(expl, "recent_summary"), "rh2m_mean_pct"),
                          Get(Get(expl, "climatology_summary"), "rh2m_mean_pct")))
  }

  const RAIN_RISK_TEXT: string := "Weighted consensus of advanced ML for rain probability."
  const HEAT_RISK_TEXT: string := "Likelihood of unusually high temperatures for the date."
  const COLD_RISK_TEXT: string := "Likelihood of unusually low temperatures for the date."
  const HUMIDITY_RISK_TEXT: string := "Recent/typical humidity conditions may feel muggy."

  /** `generateRiskScoresFromBackend(advProb, stat, expl)`. */
  function GenerateRiskScores(advProb: JsNumber, stat: Raw, expl: Raw): (risks: seq<ConditionRisk>)
    ensures |risks| == 4
    ensures risks[0].id == "rain" && risks[1].id == "heat" && risks[2].id == "cold" && risks[3].id == "humidity"
    ensures risks[0].probability == EaseClamp(advProb)
    ensures risks[1].probability == EaseClamp(NumberOrZero(Get(Get(stat, "temperature"), "hot_day_prob")))
    ensures risks[2].probability == EaseClamp(NumberOrZero(Get(Get(stat, "temperature"), "cold_day_prob")))
    ensures risks[3].probability == EaseClamp(Div(RiskHumidity(expl), Fin(100.0)))
    ensures forall i :: 0 <= i < |risks| ==> UnitOrNaN(risks[i].probability)
  {
    var temperature := Get(stat, "temperature");
    var rain := EaseClamp(advProb);
    var heat := EaseClamp(NumberOrZero(Get(temperature, "hot_day_prob")));
    var cold := EaseClamp(NumberOrZero(Get(temperature, "cold_day_prob")));
    var humidity := EaseClamp(Div(RiskHumidity(expl), Fin(100.0)));
    assert UnitOrNaN(rain) && UnitOrNaN(heat) && UnitOrNaN(cold) && UnitOrNaN(humidity);
    [ ConditionRisk("rain", "Rain", rain, RAIN_RISK_TEXT),
      ConditionRisk("heat", "Hot day", heat, HEAT_RISK_TEXT),
      ConditionRisk("cold", "Cold day", cold, COLD_RISK_TEXT),
      ConditionRisk("humidity", "High humidity", humidity, HUMIDITY_RISK_TEXT) ]
  }

  /** Without statistics or explainability every risk but rain is 0. */
  lemma RiskScoresWithoutData(advProb: JsNumber)
    ensures var risks := GenerateRiskScores(advProb, Missing, Missing);
            risks[1].probability == Fin(0.0) && risks[2].probability == Fin(0.0)
            && risks[3].probability == Fin(0.0)
  {
  }
}
