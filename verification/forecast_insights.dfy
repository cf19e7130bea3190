/** The client's forecast-insights panel: the probability and confidence it shows, the
    radial gauge value, and the bars of the per-model and ensemble-weight charts. `summary`
    is the backend summary JSON as the client receives it. */
module ForecastInsights {
  import opened JsNumbers
  import opened JsText
  import opened JsConvert
  import opened JsRaw
  import opened Format

  /** One bar of a chart: its label and its height. */
  datatype Bar = Bar(name: string, value: JsNumber)

  /** `usedP`: the final weighted probability when it converts to a finite number, else the
      summary's fused probability (`?? 0`). */
  function UsedProbability(summary: Raw, finalWeighted: Raw): (p: JsNumber)
    ensures IsFinite(ToNumber(finalWeighted)) ==> p == ToNumber(finalWeighted)
    ensures var fused := Path(summary, ["ml_rain_probability", "probability"]);
            && (!IsFinite(ToNumber(finalWeighted)) && !IsNullish(fused) ==> p == ToNumber(fused))
            && (!IsFinite(ToNumber(finalWeighted)) && IsNullish(fused) ==> p == Fin(0.0))
    ensures finalWeighted.Missing? && Path(summary, ["ml_rain_probability"]).Missing? ==> p == Fin(0.0)
  {
    var f := ToNumber(finalWeighted);
    if IsFinite(f) then f
    else ToNumber(Coalesce(Path(summary, ["ml_rain_probability", "probability"]), Num(Fin(0.0))))
  }

  /** `confidence`: the final confidence when present, else the summary's level when present,
      else "medium" (a present value is written with `String`). */
  function Confidence(summary: Raw, finalConfidence: Raw): (c: string)
    ensures finalConfidence.Str? ==> c == finalConfidence.s
    ensures var level := Path(summary, ["ml_rain_probability", "confidence_level"]);
            && (IsNullish(finalConfidence) && level.Str? ==> c == level.s)
            && (IsNullish(finalConfidence) && IsNullish(level) ==> c == "medium")
  {
    ToStr(Coalesce(finalConfidence,
      Coalesce(Path(summary, ["ml_rain_probability", "confidence_level"]), Str("medium"))))
  }

  /** `Math.round(clamp01(usedP) * 100)`: an integer percentage. */
  function RadialValue(p: JsNumber): (v: int)
    ensures 0 <= v <= 100
    ensures Round(Mul(Clamp01(p), Fin(100.0))) == Fin(v as real)
    ensures p.Fin? && 0.0 <= p.r <= 1.0 ==> v as real - 0.5 <= p.r * 100.0 < v as real + 0.5
    ensures !IsFinite(p) ==> v == 0
  {
    RoundHalfUp(Clamp01(p).r * 100.0)
  }

  /** The height of a precipitation bar: the value (`?? 0`) with non-finite values read as 0,
      raised to at least 0, rounded to two places as `Number(fmtNumber(mm, 2))` does. */
  function PrecipitationMm(v: Raw): (mm: real)
    ensures mm >= 0.0
    ensures !IsFinite(ToNumber(Coalesce(v, Num(Fin(0.0))))) ==> mm == 0.0
  {
    var raw := ToNumber(Coalesce(v, Num(Fin(0.0))));
    var m := if raw.Fin? && raw.r > 0.0 then raw.r else 0.0;
    RoundFixedSign(m, 2);
    RoundFixed(m, 2)
  }

  /** `Number(fmtNumber(mm, 2))` is the rounded bar height. */
  lemma PrecipitationMmAsWritten(v: Raw)
    ensures var raw := ToNumber(Coalesce(v, Num(Fin(0.0))));
            var m := Max(Fin(0.0), if IsFinite(raw) then raw else Fin(0.0));
            m.Fin? && StringToNumber(FmtNumber(Num(m), 2)) == Fin(PrecipitationMm(v))
  {
    var raw := ToNumber(Coalesce(v, Num(Fin(0.0))));
    var m := Max(Fin(0.0), if IsFinite(raw) then raw else Fin(0.0));
    assert m == Fin(if raw.Fin? && raw.r > 0.0 then raw.r else 0.0);
    FmtNumberValue(Num(m), 2);
  }

  /** The keys of `obj ?? {}` with their values. */
  function EntriesOrEmpty(obj: Raw): seq<(string, Raw)> {
    Entries(Coalesce(obj, Obj([])))
  }

  /** `regData`: one bar per model of `individual_predictions_mm`, in key order. */
  function RegBars(summary: Raw): (bars: seq<Bar>)
    ensures var es := EntriesOrEmpty(Path(summary, ["ml_precipitation_mm", "individual_predictions_mm"]));
            && |bars| == |es|
            && forall i :: 0 <= i < |bars| ==>
                 && bars[i].name == ToUpper(es[i].0)
                 && bars[i].value.Fin? && bars[i].value.r >= 0.0
                 && (!IsFinite(ToNumber(Coalesce(es[i].1, Num(Fin(0.0))))) ==> bars[i].value == Fin(0.0))
  {
    var es := EntriesOrEmpty(Path(summary, ["ml_precipitation_mm", "individual_predictions_mm"]));
    seq(|es|, i requires 0 <= i < |es| => Bar(ToUpper(es[i].0), Fin(PrecipitationMm(es[i].1))))
  }

  /** `weightsReg` / `weightsCls`: one bar per weight key, in key order, `Number(w ?? 0)` high. */
  function WeightBars(weights: Raw): (bars: seq<Bar>)
    ensures var es := EntriesOrEmpty(weights);
            && |bars| == |es|
            && forall i :: 0 <= i < |bars| ==>
                 bars[i].name == ToUpper(es[i].0) && (IsNullish(es[i].1) ==> bars[i].value == Fin(0.0))
  {
    var es := EntriesOrEmpty(weights);
    seq(|es|, i requires 0 <= i < |es| => Bar(ToUpper(es[i].0), ToNumber(Coalesce(es[i].1, Num(Fin(0.0))))))
  }

  /** The regression and classification weight charts. */
  function RegWeightBars(summary: Raw): seq<Bar> {
    WeightBars(Path(summary, ["ml_precipitation_mm", "ensemble_weights_reg"]))
  }

  function ClsWeightBars(summary: Raw): seq<Bar> {
    WeightBars(Path(summary, ["ml_rain_probability", "ensemble_weights_cls"]))
  }

  /** The risk panel is drawn only for a non-empty array of risks. */
  predicate RiskPanelShown(riskScores: Raw) {
    riskScores.Arr? && |riskScores.items| > 0
  }

  /** A summary without individual predictions draws no precipitation bar, and absent or
      empty risks hide the risk panel. */
  lemma EmptyInsights(summary: Raw, riskScores: Raw)
    requires Path(summary, ["ml_precipitation_mm"]).Missing?
    ensures RegBars(summary) == [] && RegWeightBars(summary) == []
    ensures RiskPanelShown(riskScores) <==> riskScores.Arr? && riskScores.items != []
    ensures !RiskPanelShown(Missing) && !RiskPanelShown(Arr([]))
  {
  }
}
