/** The plain-text report behind "Download TXT": a list of lines built step by step and
    joined with newlines. `data` is the weather answer as JSON; the date formatter, the
    "generated at" caption and the current locale time are parameters. */
module ReportDownload {
  import opened Optional
  import opened JsNumbers
  import opened JsText
  import opened JsConvert
  import opened JsRaw
  import opened Format
  import opened EnsemblePanels

  /** The texts the report reads from `data`, each already converted as its template does;
      None marks a line the report leaves out. */
  datatype ReportInputs = ReportInputs(
    location: string,
    date: string,
    temperature: Option<string>,
    condition: Option<string>,
    humidity: Option<string>,
    windSpeed: Option<string>,
    visibility: Option<string>,
    pressure: Option<string>,
    precipitation: Option<string>,
    interval: Option<string>,
    probability: string,
    confidence: string,
    risks: Option<seq<Option<RiskText>>>)

  /** The three texts of a risk line; None for a null or undefined risk, whose `r.label` throws. */
  datatype RiskText = RiskText(labelText: string, percent: string, description: string)

  /** `${Number(v)}`, present exactly when `Number(v)` is finite. */
  function NumberText(v: Raw): (t: Option<string>)
    ensures t.Some? <==> IsFinite(ToNumber(v))
    ensures t.Some? ==> t.value == NumberToString(ToNumber(v))
  {
    if IsFinite(ToNumber(v)) then Some(NumberToString(ToNumber(v))) else None
  }

  /** `${data.condition}`, present exactly when the condition is truthy. */
  function ConditionText(v: Raw): (t: Option<string>)
    ensures t.Some? <==> Truthy(v)
    ensures t.Some? ==> t.value == ToStr(v)
  {
    if Truthy(v) then Some(ToStr(v)) else None
  }

  /** The ensemble precipitation text, present when `ml_precipitation_mm` is truthy. */
  function PrecipitationText(summary: Raw): (t: Option<string>)
    ensures t.Some? <==> Truthy(Get(summary, "ml_precipitation_mm"))
  {
    var mm := Get(summary, "ml_precipitation_mm");
    if !Truthy(mm) then None
    else Some(FmtNumber(Get(mm, "prediction_mm"), 3) + " mm ± " + FmtNumber(Get(mm, "uncertainty_mm"), 3))
  }

  /** The confidence interval text, present when the precipitation block and its interval are. */
  function IntervalText(summary: Raw): (t: Option<string>)
    ensures t.Some? <==> Truthy(Get(summary, "ml_precipitation_mm"))
                         && Truthy(Path(summary, ["ml_precipitation_mm", "confidence_interval_mm"]))
  {
    var mm := Get(summary, "ml_precipitation_mm");
    var ci := Get(mm, "confidence_interval_mm");
    if !Truthy(mm) || !Truthy(ci) then None
    else Some(FmtNumber(Get(ci, "lower"), 3) + " – " + FmtNumber(Get(ci, "upper"), 3) + " mm")
  }

  /** What `buildReportText` reads from `data`. */
  function ReadReport(data: Raw, fmtDate: Raw -> string): (inputs: ReportInputs)
    ensures inputs.interval.Some? ==> inputs.precipitation.Some?
    ensures inputs.confidence == Confidence(Get(data, "backendSummary"), Get(data, "backendSummaryRich"))
  {
    var summary := Get(data, "backendSummary");
    var rich := Get(data, "backendSummaryRich");
    var risks := Get(data, "riskScores");
    ReportInputs(
      ToStr(Coalesce(Get(data, "location"), Str(DASH))),
      fmtDate(Get(data, "date")),
      NumberText(Get(data, "temperature")),
      ConditionText(Get(data, "condition")),
      NumberText(Get(data, "humidity")),
      NumberText(Get(data, "windSpeed")),
      NumberText(Get(data, "visibility")),
      NumberText(Get(data, "pressure")),
      PrecipitationText(summary),
      IntervalText(summary),
      FmtPercent(Num(UsedProbability(summary, rich)), 1),
      Confidence(summary, rich),
      if risks.Arr? then Some(ReadRisks(risks.items)) else None)
  }

  /** The report's probability is the final weighted one when that is a finite number, else
      the fused one, printed as a percentage with one decimal. */
  lemma ReportProbability(data: Raw, fmtDate: Raw -> string)
    ensures var summary, rich := Get(data, "backendSummary"), Get(data, "backendSummaryRich");
            var pFinal := ToNumber(Path(rich, ["probabilities", "final_weighted"]));
            var p := ReadReport(data, fmtDate).probability;
            && p == FmtPercent(Num(UsedProbability(summary, rich)), 1)
            && (IsFinite(pFinal) ==> p == FmtPercent(Num(pFinal), 1))
            && (!IsFinite(pFinal) ==> p == FmtPercent(Num(ToNumber(Path(summary, ["ml_rain_probability", "probability"]))), 1))
  {
  }

  /** A line made of a caption, a value and a suffix, when the value is present. */
  function OptionalLine(caption: string, t: Option<string>, suffix: string): (ls: seq<string>)
    ensures |ls| <= 1 && (ls != [] <==> t.Some?)
    ensures t.Some? ==> ls == [caption + t.value + suffix]
  {
    if t.Some? then [caption + t.value + suffix] else []
  }

  /** The fields of a risk item. */
  const LABEL_KEY := "label"
  const PROBABILITY_KEY := "probability"
  const DESCRIPTION_KEY := "description"

  /** `Math.round(p * 100)` of a probability p, as text: the integer percent nearest to p,
      halves rounded up. */
  function RoundedPercent(p: JsNumber): (t: string)
    ensures p.Fin? ==> t == IntToString(RoundHalfUp(p.r * 100.0))
  {
    if p.Fin? then PercentOfNumber(p); NumberToString(Round(Mul(p, Fin(100.0))))
    else NumberToString(Round(Mul(p, Fin(100.0))))
  }

  /** The texts of one risk: its label, the percent of its probability (0 when it has none)
      and its description. */
  function ReadRisk(r: Raw): (t: Option<RiskText>)
    ensures t.None? <==> IsNullish(r)
  {
    if IsNullish(r) then None
    else Some(RiskText(ToStr(Get(r, LABEL_KEY)), RoundedPercent(ToNumber(Coalesce(Get(r, PROBABILITY_KEY), Num(Fin(0.0))))),
                       ToStr(Get(r, DESCRIPTION_KEY))))
  }

  function ReadRisks(items: seq<Raw>): (ts: seq<Option<RiskText>>)
    ensures |ts| == |items| && forall i :: 0 <= i < |items| ==> ts[i] == ReadRisk(items[i])
  {
    seq(|items|, i requires 0 <= i < |items| => ReadRisk(items[i]))
  }

  /** `${r.label}: ${percent}% - ${r.description}`. */
  function RiskLine(t: RiskText): string {
    t.labelText + ": " + t.percent + "% - " + t.description
  }

  /** The risk lines, up to the first risk that throws. */
  function RiskLines(ts: seq<Option<RiskText>>): (ls: seq<string>)
    ensures |ls| <= |ts|
    decreases |ts|
  {
    if ts == [] || ts[0].None? then [] else [RiskLine(ts[0].value)] + RiskLines(ts[1..])
  }

  const TITLE: string := "WEATHER FORECAST"
  const TITLE_RULE: string := "==============="
  const DETAILS_TITLE: string := "DETAILS"
  const DETAILS_RULE: string := "-------"
  const INSIGHTS_TITLE: string := "MACHINE LEARNING INSIGHTS"
  const INSIGHTS_RULE: string := "------------------------"
  const RISKS_TITLE: string := "CONDITION RISKS"
  const RISKS_RULE: string := "----------------"

  /** The lines up to the "MACHINE LEARNING INSIGHTS" rule. */
  function WeatherLines(inputs: ReportInputs): seq<string> {
    [TITLE, TITLE_RULE, "", "Location: " + inputs.location, "Date: " + inputs.date, ""]
    + OptionalLine("Temperature: ", inputs.temperature, "°C")
    + OptionalLine("Condition: ", inputs.condition, "")
    + ["", DETAILS_TITLE, DETAILS_RULE]
    + DetailLines(inputs)
    + ["", INSIGHTS_TITLE, INSIGHTS_RULE]
  }

  /** The humidity, wind, visibility and pressure lines. */
  function DetailLines(inputs: ReportInputs): seq<string> {
    OptionalLine("Humidity: ", inputs.humidity, "%")
    + OptionalLine("Wind speed: ", inputs.windSpeed, " km/h")
    + OptionalLine("Visibility: ", inputs.visibility, " km")
    + OptionalLine("Pressure: ", inputs.pressure, " hPa")
  }

  /** The ensemble lines: precipitation, interval, probability and confidence. */
  function InsightLines(inputs: ReportInputs): seq<string> {
    OptionalLine("Precipitation (ensemble): ", inputs.precipitation, "")
    + OptionalLine("95% CI: ", inputs.interval, "")
    + ["Rain probability: " + inputs.probability, "Confidence level: " + inputs.confidence, ""]
  }

  /** The risk block, present exactly when `riskScores` is an array. */
  function RiskSection(inputs: ReportInputs): seq<string> {
    if inputs.risks.Some? then [RISKS_TITLE, RISKS_RULE] + RiskLines(inputs.risks.value) + [""] else []
  }

  function GeneratedLine(generatedCaption: string, now: string): string {
    generatedCaption + ": " + now
  }

  /** All the lines of the report, in order: the title, a rule and a blank line, then the
      location and the date, and the generated-at line last. */
  function ReportLines(inputs: ReportInputs, generatedCaption: string, now: string): (ls: seq<string>)
    ensures |ls| >= 16
    ensures ls[..6] == [TITLE, TITLE_RULE, "", "Location: " + inputs.location, "Date: " + inputs.date, ""]
    ensures ls[|ls| - 1] == GeneratedLine(generatedCaption, now)
  {
    var ls := WeatherLines(inputs) + InsightLines(inputs) + RiskSection(inputs) + [GeneratedLine(generatedCaption, now)];
    WeatherLinesHead(inputs);
    LinesFrame(WeatherLines(inputs), InsightLines(inputs), RiskSection(inputs), GeneratedLine(generatedCaption, now));
    ls
  }

  lemma WeatherLinesHead(inputs: ReportInputs)
    ensures |WeatherLines(inputs)| >= 12 && |InsightLines(inputs)| >= 3
    ensures WeatherLines(inputs)[..6] == [TITLE, TITLE_RULE, "", "Location: " + inputs.location, "Date: " + inputs.date, ""]
  {
    var head := [TITLE, TITLE_RULE, "", "Location: " + inputs.location, "Date: " + inputs.date, ""];
    var rest := OptionalLine("Temperature: ", inputs.temperature, "°C")
      + OptionalLine("Condition: ", inputs.condition, "")
      + ["", DETAILS_TITLE, DETAILS_RULE]
      + DetailLines(inputs)
      + ["", INSIGHTS_TITLE, INSIGHTS_RULE];
    assert WeatherLines(inputs) == head + rest;
    assert (head + rest)[..6] == head;
  }

  lemma LinesFrame(w: seq<string>, i: seq<string>, r: seq<string>, g: string)
    requires |w| >= 12 && |i| >= 3
    ensures var ls := w + i + r + [g]; |ls| >= 16 && ls[..6] == w[..6] && ls[|ls| - 1] == g
  {
    var ls := w + i + r + [g];
    assert ls[..6] == w[..6];
  }

  /** Reading `r.label` of a null or undefined risk throws. */
  predicate RiskThrows(inputs: ReportInputs) {
    inputs.risks.Some? && exists i :: 0 <= i < |inputs.risks.value| && inputs.risks.value[i].None?
  }

  const NULL_RISK_ERROR: string := "TypeError: Cannot read properties of null (reading 'label')"

  /** `buildReportText(data)`: the lines joined with line breaks, or the error a null risk
      raises; a report always opens with the title line. */
  function ReportText(data: Raw, fmtDate: Raw -> string, generatedCaption: string, now: string): (r: Result<string>)
    ensures r.Err? <==> RiskThrows(ReadReport(data, fmtDate))
    ensures r.Err? ==> r.message == NULL_RISK_ERROR
    ensures r.Ok? ==> TITLE + "\n" <= r.value
  {
    var inputs := ReadReport(data, fmtDate);
    if RiskThrows(inputs) then Err(NULL_RISK_ERROR)
    else
      var ls := ReportLines(inputs, generatedCaption, now);
      assert Join(ls, "\n") == ls[0] + "\n" + Join(ls[1..], "\n");
      Ok(Join(ls, "\n"))
  }

  lemma AppendAssoc(a: seq<string>, b: seq<string>, c: seq<string>, d: seq<string>)
    ensures a + b + c + d == a + (b + c + d)
  {
  }

  /** The body of `buildReportText` once the inputs are read: the lines pushed one by one. */
  method WriteReport(inputs: ReportInputs, generatedCaption: string, now: string)
    returns (text: Result<string>)
    ensures RiskThrows(inputs) ==> text == Err(NULL_RISK_ERROR)
    ensures !RiskThrows(inputs) ==> text == Ok(Join(ReportLines(inputs, generatedCaption, now), "\n"))
  {
    var lines := [TITLE, TITLE_RULE, ""];
    lines := lines + ["Location: " + inputs.location, "Date: " + inputs.date, ""];
    ghost var header := lines;
    assert header == [TITLE, TITLE_RULE, "", "Location: " + inputs.location, "Date: " + inputs.date, ""];
    if inputs.temperature.Some? {
      lines := lines + ["Temperature: " + inputs.temperature.value + "°C"];
    }
    assert lines == header + OptionalLine("Temperature: ", inputs.temperature, "°C");
    ghost var top := lines;
    if inputs.condition.Some? {
      lines := lines + ["Condition: " + inputs.condition.value];
      assert "Condition: " + inputs.condition.value + "" == "Condition: " + inputs.condition.value;
    }
    assert lines == top + OptionalLine("Condition: ", inputs.condition, "");
    lines := lines + ["", DETAILS_TITLE, DETAILS_RULE];
    lines := lines + DetailLines(inputs);
    lines := lines + ["", INSIGHTS_TITLE, INSIGHTS_RULE];
    assert lines == WeatherLines(inputs);
    lines := lines + InsightLines(inputs);
    ghost var body := lines;
    assert body == WeatherLines(inputs) + InsightLines(inputs);
    if inputs.risks.Some? {
      var items := inputs.risks.value;
      var head := lines + [RISKS_TITLE, RISKS_RULE];
      lines := head;
      var i := 0;
      while i < |items|
        invariant 0 <= i <= |items|
        invariant forall k :: 0 <= k < i ==> items[k].Some?
        invariant lines + RiskLines(items[i..]) == head + RiskLines(items)
      {
        var r := items[i];
        if r.None? {
          return Err(NULL_RISK_ERROR);
        }
        assert items[i..] == [r] + items[i + 1..];
        lines := lines + [RiskLine(r.value)];
        i := i + 1;
      }
      assert items[i..] == [];
      assert lines == body + [RISKS_TITLE, RISKS_RULE] + RiskLines(items);
      lines := lines + [""];
      AppendAssoc(body, [RISKS_TITLE, RISKS_RULE], RiskLines(items), [""]);
    } else {
      assert lines == body + [];
    }
    assert lines == body + RiskSection(inputs);
    lines := lines + [GeneratedLine(generatedCaption, now)];
    assert !RiskThrows(inputs);
    return Ok(Join(lines, "\n"));
  }

  /** `buildReportText(data)` step by step; ReportText is what it returns. */
  method BuildReportText(data: Raw, fmtDate: Raw -> string, generatedCaption: string, now: string)
    returns (text: Result<string>)
    ensures text == ReportText(data, fmtDate, generatedCaption, now)
  {
    var inputs := ReadReport(data, fmtDate);
    text := WriteReport(inputs, generatedCaption, now);
  }

  // ---------------- Properties ----------------

  /** An absent location prints "—", a string location prints as itself. */
  lemma ReportLocation(data: Raw, fmtDate: Raw -> string)
    ensures IsNullish(Get(data, "location")) ==> ReadReport(data, fmtDate).location == DASH
    ensures Get(data, "location").Str? ==> ReadReport(data, fmtDate).location == Get(data, "location").s
  {
    var loc := Get(data, "location");
    assert ReadReport(data, fmtDate).location == ToStr(Coalesce(loc, Str(DASH)));
    if IsNullish(loc) {
      ToStrOfStr(DASH);
    } else if loc.Str? {
      ToStrOfStr(loc.s);
    }
  }

  /** Each optional line of the report is read exactly when its value is finite (or, for the
      condition, truthy), and the interval only with the precipitation block. */
  lemma ReportGating(data: Raw, fmtDate: Raw -> string)
    ensures var inputs := ReadReport(data, fmtDate);
            && (inputs.temperature.Some? <==> IsFinite(ToNumber(Get(data, "temperature"))))
            && (inputs.humidity.Some? <==> IsFinite(ToNumber(Get(data, "humidity"))))
            && (inputs.windSpeed.Some? <==> IsFinite(ToNumber(Get(data, "windSpeed"))))
            && (inputs.visibility.Some? <==> IsFinite(ToNumber(Get(data, "visibility"))))
            && (inputs.pressure.Some? <==> IsFinite(ToNumber(Get(data, "pressure"))))
            && (inputs.condition.Some? <==> Truthy(Get(data, "condition")))
            && (inputs.precipitation.Some? <==> Truthy(Path(data, ["backendSummary", "ml_precipitation_mm"])))
            && (inputs.interval.Some? ==> inputs.precipitation.Some?)
            && (inputs.risks.Some? <==> Get(data, "riskScores").Arr?)
  {
    var inputs := ReadReport(data, fmtDate);
    var summary := Get(data, "backendSummary");
    assert inputs.temperature == NumberText(Get(data, "temperature"));
    assert inputs.humidity == NumberText(Get(data, "humidity"));
    assert inputs.windSpeed == NumberText(Get(data, "windSpeed"));
    assert inputs.visibility == NumberText(Get(data, "visibility"));
    assert inputs.pressure == NumberText(Get(data, "pressure"));
    assert inputs.condition == ConditionText(Get(data, "condition"));
    assert inputs.precipitation == PrecipitationText(summary);
    assert Path(data, ["backendSummary", "ml_precipitation_mm"]) == Get(summary, "ml_precipitation_mm");
  }

  /** The line after the header is the temperature exactly when one was read. */
  lemma TemperatureLine(inputs: ReportInputs, generatedCaption: string, now: string, t: string)
    ensures ReportLines(inputs, generatedCaption, now)[6] == "Temperature: " + t + "°C" <==> inputs.temperature == Some(t)
  {
    var ls := ReportLines(inputs, generatedCaption, now);
    var line := "Temperature: " + t + "°C";
    assert line[0] == 'T' && line[..13] == "Temperature: ";
    if inputs.temperature.Some? {
      assert ls[6] == "Temperature: " + inputs.temperature.value + "°C";
      if ls[6] == line {
        assert inputs.temperature.value == line[13..|line| - 2];
      }
    } else {
      assert ls[6] == "" || ls[6][0] == 'C';
    }
  }

  /** Each detail line read is in the details block. */
  lemma DetailLinesGating(inputs: ReportInputs)
    ensures |DetailLines(inputs)| <= 4
    ensures inputs.humidity.Some? ==> "Humidity: " + inputs.humidity.value + "%" in DetailLines(inputs)
    ensures inputs.pressure.Some? ==> "Pressure: " + inputs.pressure.value + " hPa" in DetailLines(inputs)
    ensures inputs.windSpeed.Some? ==> "Wind speed: " + inputs.windSpeed.value + " km/h" in DetailLines(inputs)
    ensures inputs.visibility.Some? ==> "Visibility: " + inputs.visibility.value + " km" in DetailLines(inputs)
  {
    var hl := OptionalLine("Humidity: ", inputs.humidity, "%");
    var wl := OptionalLine("Wind speed: ", inputs.windSpeed, " km/h");
    var vl := OptionalLine("Visibility: ", inputs.visibility, " km");
    var pl := OptionalLine("Pressure: ", inputs.pressure, " hPa");
    assert DetailLines(inputs) == hl + wl + vl + pl;
  }

  /** A detail line is in the details block only when its value was read: the captions
      start with different letters. */
  lemma DetailLinesOnlyWhenRead(inputs: ReportInputs)
    ensures forall t :: "Humidity: " + t + "%" in DetailLines(inputs) ==> inputs.humidity.Some?
    ensures forall t :: "Pressure: " + t + " hPa" in DetailLines(inputs) ==> inputs.pressure.Some?
    ensures forall t :: "Wind speed: " + t + " km/h" in DetailLines(inputs) ==> inputs.windSpeed.Some?
    ensures forall t :: "Visibility: " + t + " km" in DetailLines(inputs) ==> inputs.visibility.Some?
  {
    var hl := OptionalLine("Humidity: ", inputs.humidity, "%");
    var wl := OptionalLine("Wind speed: ", inputs.windSpeed, " km/h");
    var vl := OptionalLine("Visibility: ", inputs.visibility, " km");
    var pl := OptionalLine("Pressure: ", inputs.pressure, " hPa");
    assert DetailLines(inputs) == hl + wl + vl + pl;
    assert forall k :: 0 <= k < |hl| ==> hl[k][0] == 'H';
    assert forall k :: 0 <= k < |wl| ==> wl[k][0] == 'W';
    assert forall k :: 0 <= k < |vl| ==> vl[k][0] == 'V';
    assert forall k :: 0 <= k < |pl| ==> pl[k][0] == 'P';
  }

  /** With no null risk, there is one risk line per risk, in order. */
  lemma {:induction false} RiskLinesAll(ts: seq<Option<RiskText>>)
    requires forall i :: 0 <= i < |ts| ==> ts[i].Some?
    ensures |RiskLines(ts)| == |ts|
    ensures forall i :: 0 <= i < |ts| ==> RiskLines(ts)[i] == RiskLine(ts[i].value)
    decreases |ts|
  {
    if ts != [] {
      RiskLinesAll(ts[1..]);
    }
  }

  /** With an array of risks and no null among them, the risk block holds one line per risk,
      in order, right before the closing blank line and the generated-at line. */
  lemma RiskLinesInReport(inputs: ReportInputs, generatedCaption: string, now: string)
    requires inputs.risks.Some? && !RiskThrows(inputs)
    ensures var ts := inputs.risks.value;
            var ls := ReportLines(inputs, generatedCaption, now);
            var start := |ls| - 2 - |ts|;
            && start >= 2
            && ls[start - 2] == RISKS_TITLE
            && (forall i :: 0 <= i < |ts| ==> ls[start + i] == RiskLine(ts[i].value))
            && ls[|ls| - 2] == ""
  {
    var ts := inputs.risks.value;
    RiskLinesAll(ts);
    var ls := ReportLines(inputs, generatedCaption, now);
    var pre := WeatherLines(inputs) + InsightLines(inputs);
    var g := GeneratedLine(generatedCaption, now);
    WeatherLinesHead(inputs);
    assert ls == pre + ([RISKS_TITLE, RISKS_RULE] + RiskLines(ts) + [""]) + [g];
    RiskBlockFrame(pre, RiskLines(ts), g);
  }

  lemma RiskBlockFrame(pre: seq<string>, rl: seq<string>, g: string)
    requires |pre| >= 2
    ensures var ls := pre + ([RISKS_TITLE, RISKS_RULE] + rl + [""]) + [g];
            var start := |ls| - 2 - |rl|;
            && start >= 2 && start == |pre| + 2
            && ls[start - 2] == RISKS_TITLE
            && (forall i :: 0 <= i < |rl| ==> ls[start + i] == rl[i])
            && ls[|ls| - 2] == ""
  {
  }

  /** `Math.round(p * 100)` of a finite p prints as the rounded integer. */
  lemma PercentOfNumber(p: JsNumber)
    requires p.Fin?
    ensures NumberToString(Round(Mul(p, Fin(100.0)))) == IntToString(RoundHalfUp(p.r * 100.0))
  {
    var n := RoundHalfUp(p.r * 100.0);
    assert Round(Mul(p, Fin(100.0))) == FromInt(n);
    NumberToStringOfInt(n);
  }

  /** A risk without a probability prints 0 percent. */
  lemma MissingRiskPercent(r: Raw)
    requires !IsNullish(r) && IsNullish(Get(r, PROBABILITY_KEY))
    ensures ReadRisk(r).value.percent == "0"
  {
    assert Coalesce(Get(r, PROBABILITY_KEY), Num(Fin(0.0))) == Num(Fin(0.0));
    ZeroPercent();
  }

  lemma ZeroPercent()
    ensures RoundedPercent(Fin(0.0)) == "0"
  {
    assert RoundHalfUp(0.0 * 100.0) == 0;
  }

  /** Splitting the report on newlines gives its lines back, the generated-at line last. */
  lemma ReportTextSplits(data: Raw, fmtDate: Raw -> string, generatedCaption: string, now: string)
    requires !RiskThrows(ReadReport(data, fmtDate))
    requires var ls := ReportLines(ReadReport(data, fmtDate), generatedCaption, now);
             forall k :: 0 <= k < |ls| ==> '\n' !in ls[k]
    ensures var t := ReportText(data, fmtDate, generatedCaption, now);
            var ls := ReportLines(ReadReport(data, fmtDate), generatedCaption, now);
            && t.Ok?
            && Split(t.value, '\n') == ls
            && Split(t.value, '\n')[|ls| - 1] == GeneratedLine(generatedCaption, now)
  {
    var ls := ReportLines(ReadReport(data, fmtDate), generatedCaption, now);
    SplitJoin(ls, '\n');
    assert "\n" == ['\n'];
  }
}
