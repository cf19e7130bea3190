/** The ensemble panels: the weight bars, normalised by the sum of the weights, and the
    probability and confidence the panel shows. `data` is the weather answer as JSON. */
module EnsemblePanels {
  import opened Optional
  import opened JsNumbers
  import opened JsRaw
  import opened Format
  import opened RouteHelpers

  /** `Number(v) || 0`: a weight, with NaN and non-numbers counted as 0. */
  function Weight(v: Raw): (w: JsNumber)
    ensures w != NaN
    ensures ToNumber(v) == NaN || IsZero(ToNumber(v)) ==> w == Fin(0.0)
    ensures NumberTruthy(ToNumber(v)) ==> w == ToNumber(v)
  {
    Or(ToNumber(v), Fin(0.0))
  }

  /** The weights of the entries, in order. */
  function Weights(es: seq<(string, Raw)>): (ws: seq<JsNumber>)
    ensures |ws| == |es| && forall i :: 0 <= i < |es| ==> ws[i] == Weight(es[i].1)
  {
    seq(|es|, i requires 0 <= i < |es| => Weight(es[i].1))
  }

  /** `entries.reduce((a, [, v]) => a + (Number(v) || 0), 0)`. */
  function WeightSum(es: seq<(string, Raw)>): JsNumber {
    SumLeft(Weights(es))
  }

  /** `sum || 1`: a zero or NaN sum divides by 1. */
  function Divisor(es: seq<(string, Raw)>): (d: JsNumber)
    ensures NumberTruthy(d)
    ensures IsZero(WeightSum(es)) || WeightSum(es).NaN? ==> d == Fin(1.0)
    ensures NumberTruthy(WeightSum(es)) ==> d == WeightSum(es)
  {
    Or(WeightSum(es), Fin(1.0))
  }

  /** Each weight divided by the same divisor. */
  function NormalizeBy(es: seq<(string, Raw)>, d: JsNumber): (ws: seq<(string, JsNumber)>)
    ensures |ws| == |es|
    ensures forall i :: 0 <= i < |es| ==> ws[i] == (es[i].0, Div(Weight(es[i].1), d))
  {
    seq(|es|, i requires 0 <= i < |es| => (es[i].0, Div(Weight(es[i].1), d)))
  }

  /** `WeightBars({ weights })`: one bar per entry of `weights ?? {}`, in entry order, under
      the entry's key; each is its weight divided by the sum of the weights, or by 1 when
      that sum is 0 or NaN. */
  function NormalizedWeights(weights: Raw): (ws: seq<(string, JsNumber)>)
    ensures var es := Entries(Coalesce(weights, Obj([])));
            && |ws| == |es|
            && (forall i :: 0 <= i < |es| ==> ws[i].0 == es[i].0)
            && (NumberTruthy(WeightSum(es)) ==> forall i :: 0 <= i < |es| ==> ws[i].1 == Div(Weight(es[i].1), WeightSum(es)))
            && (!NumberTruthy(WeightSum(es)) ==> forall i :: 0 <= i < |es| ==> ws[i].1 == Weight(es[i].1))
  {
    var es := Entries(Coalesce(weights, Obj([])));
    NormalizeBy(es, Divisor(es))
  }

  /** The heights of the bars. */
  function Shares(ws: seq<(string, JsNumber)>): (ps: seq<JsNumber>)
    ensures |ps| == |ws| && forall i :: 0 <= i < |ws| ==> ps[i] == ws[i].1
  {
    seq(|ws|, i requires 0 <= i < |ws| => ws[i].1)
  }

  /** Dividing every term by d divides the sum by d. */
  lemma {:induction false} SumDivided(xs: seq<real>, d: real)
    requires d != 0.0
    ensures Sum(seq(|xs|, i requires 0 <= i < |xs| => xs[i] / d)) == Sum(xs) / d
  {
    var ys := seq(|xs|, i requires 0 <= i < |xs| => xs[i] / d);
    if xs != [] {
      SumDivided(xs[1..], d);
      assert ys[1..] == seq(|xs[1..]|, i requires 0 <= i < |xs[1..]| => xs[1..][i] / d);
      assert (xs[0] + Sum(xs[1..])) / d == xs[0] / d + Sum(xs[1..]) / d;
    }
  }

  /** A sum of zeros is zero. */
  lemma {:induction false} SumOfZeros(ws: seq<JsNumber>)
    requires forall i :: 0 <= i < |ws| ==> IsZero(ws[i])
    ensures SumLeft(ws) == Fin(0.0)
  {
    if ws != [] {
      SumOfZeros(ws[..|ws| - 1]);
    }
  }

  /** Every number divided by d. */
  function DividedBy(ws: seq<JsNumber>, d: JsNumber): (qs: seq<JsNumber>)
    ensures |qs| == |ws| && forall i :: 0 <= i < |ws| ==> qs[i] == Div(ws[i], d)
  {
    seq(|ws|, i requires 0 <= i < |ws| => Div(ws[i], d))
  }

  lemma DivSelf(x: real)
    requires x != 0.0
    ensures x / x == 1.0
  {
  }

  /** A finite sum has only finite terms. */
  lemma FiniteSumTerms(ws: seq<JsNumber>)
    requires SumLeft(ws).Fin?
    ensures AllFinite(ws)
  {
    forall k | 0 <= k < |ws|
      ensures ws[k].Fin?
    {
      if !ws[k].Fin? {
        SumLeftNotFinite(ws, k);
      }
    }
  }

  /** Finite numbers divided by a non-zero s are the reals divided by s. */
  lemma DividedByFinite(ws: seq<JsNumber>, s: real)
    requires AllFinite(ws) && s != 0.0
    ensures AllFinite(DividedBy(ws, Fin(s)))
    ensures forall i :: 0 <= i < |ws| ==> Reals(DividedBy(ws, Fin(s)))[i] == Reals(ws)[i] / s
  {
    var qs := DividedBy(ws, Fin(s));
    forall i | 0 <= i < |qs|
      ensures qs[i] == Fin(ws[i].r / s)
    {
    }
  }

  /** Numbers with a finite, non-zero sum, each divided by that sum, are finite and add up to 1. */
  lemma SharesOfFiniteSum(ws: seq<JsNumber>)
    requires SumLeft(ws).Fin? && SumLeft(ws).r != 0.0
    ensures var qs := DividedBy(ws, SumLeft(ws));
            AllFinite(qs) && Sum(Reals(qs)) == 1.0
  {
    FiniteSumTerms(ws);
    SumLeftFinite(ws);
    var xs := Reals(ws);
    var s := SumLeft(ws).r;
    DividedByFinite(ws, s);
    assert Reals(DividedBy(ws, Fin(s))) == seq(|xs|, i requires 0 <= i < |xs| => xs[i] / s);
    SumDivided(xs, s);
    assert s == Sum(xs);
    DivSelf(s);
  }

  /** When the weights add up to a finite, non-zero sum, the normalised weights are all
      finite and add up to 1. */
  lemma NormalizedWeightsSumToOne(weights: Raw)
    requires var es := Entries(Coalesce(weights, Obj([])));
             WeightSum(es).Fin? && WeightSum(es).r != 0.0
    ensures var ps := Shares(NormalizedWeights(weights));
            AllFinite(ps) && Sum(Reals(ps)) == 1.0
  {
    var es := Entries(Coalesce(weights, Obj([])));
    var ws := Weights(es);
    SharesOfFiniteSum(ws);
    assert Shares(NormalizedWeights(weights)) == DividedBy(ws, SumLeft(ws));
  }

  /** When every weight is 0 (or not a number), the divisor is 1 and every bar is 0. */
  lemma ZeroWeights(es: seq<(string, Raw)>)
    requires forall i :: 0 <= i < |es| ==> IsZero(Weight(es[i].1))
    ensures WeightSum(es) == Fin(0.0)
    ensures Divisor(es) == Fin(1.0)
    ensures forall i :: 0 <= i < |es| ==> NormalizeBy(es, Divisor(es))[i].1 == Fin(0.0)
  {
    SumOfZeros(Weights(es));
  }

  /** What the panel shows when `backendSummary` is present. */
  datatype EnsembleView = EnsembleView(
    probability: JsNumber,
    confidence: string,
    models: seq<(string, string)>,
    regWeights: seq<(string, JsNumber)>,
    clsWeights: seq<(string, JsNumber)>)

  /** `usedP`: the rich summary's final weighted probability when finite, else the fused one. */
  function UsedProbability(summary: Raw, rich: Raw): (p: JsNumber)
    ensures IsFinite(ToNumber(Path(rich, ["probabilities", "final_weighted"]))) ==>
              p == ToNumber(Path(rich, ["probabilities", "final_weighted"]))
    ensures !IsFinite(ToNumber(Path(rich, ["probabilities", "final_weighted"]))) ==>
              p == ToNumber(Path(summary, ["ml_rain_probability", "probability"]))
  {
    var pFinal := ToNumber(Path(rich, ["probabilities", "final_weighted"]));
    var pAdv := ToNumber(Path(summary, ["ml_rain_probability", "probability"]));
    if IsFinite(pFinal) then pFinal else pAdv
  }

  /** `conf`: the final confidence when present, else the fused level when present, else
      "medium" (a present value is written with `String`). */
  function Confidence(summary: Raw, rich: Raw): (c: string)
    ensures var final := Path(rich, ["probabilities", "final_confidence"]);
            var level := Path(summary, ["ml_rain_probability", "confidence_level"]);
            && (final.Str? ==> c == final.s)
            && (IsNullish(final) && level.Str? ==> c == level.s)
            && (IsNullish(final) && IsNullish(level) ==> c == "medium")
  {
    ToStr(Coalesce(Path(rich, ["probabilities", "final_confidence"]),
      Coalesce(Path(summary, ["ml_rain_probability", "confidence_level"]), Str("medium"))))
  }

  /** `EnsemblePanels({ data })`: nothing when `backendSummary` is falsy. */
  function EnsemblePanel(data: Raw): (view: Option<EnsembleView>)
    ensures view.None? <==> !Truthy(Get(data, "backendSummary"))
  {
    var summary := Get(data, "backendSummary");
    if !Truthy(summary) then None
    else
      var rich := Get(data, "backendSummaryRich");
      var indiv := Entries(Coalesce(Path(summary, ["ml_precipitation_mm", "individual_predictions_mm"]), Obj([])));
      Some(EnsembleView(
        UsedProbability(summary, rich),
        Confidence(summary, rich),
        seq(|indiv|, i requires 0 <= i < |indiv| => (indiv[i].0, FmtNumber(indiv[i].1, 1))),
        NormalizedWeights(Path(summary, ["ml_precipitation_mm", "ensemble_weights_reg"])),
        NormalizedWeights(Path(summary, ["ml_rain_probability", "ensemble_weights_cls"]))))
  }
}
