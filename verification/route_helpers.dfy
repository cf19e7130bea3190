/** The small numeric helpers of the weather route: `easeClamp`, `pickNumber`,
    `stdDev` (two `reduce` folds and a square root) and `normalizedEndDate`. */
module RouteHelpers {
  import opened JsNumbers
  import opened JsText
  import opened JsConvert
  import opened JsRaw

  // ---------------- easeClamp / pickNumber ----------------

  /** `easeClamp(value)` with its default bounds 0 and 1: `Math.min(1, Math.max(0, value))`. */
  function EaseClamp(value: JsNumber): (r: JsNumber)
    ensures value.NaN? <==> r.NaN?
    ensures !value.NaN? ==> r.Fin? && 0.0 <= r.r <= 1.0
    ensures value.Fin? && 0.0 <= value.r <= 1.0 ==> r == value
    ensures LessEq(Fin(1.0), value) ==> r == Fin(1.0)
    ensures LessEq(value, Fin(0.0)) ==> r == Fin(0.0)
  {
    Min(Fin(1.0), Max(Fin(0.0), value))
  }

  /** A probability as the route reports it: inside [0, 1], or NaN. */
  predicate UnitOrNaN(p: JsNumber) {
    p.NaN? || (p.Fin? && 0.0 <= p.r <= 1.0)
  }

  /** `pickNumber(n, def)`: `Number(n)` when that is finite, otherwise the default. */
  function PickNumber(n: Raw, def: JsNumber): (r: JsNumber)
    ensures IsFinite(ToNumber(n)) ==> r == ToNumber(n)
    ensures !IsFinite(ToNumber(n)) ==> r == def
    ensures IsFinite(def) ==> IsFinite(r)
  {
    var v := ToNumber(n);
    if IsFinite(v) then v else def
  }

  // ---------------- normalizedEndDate ----------------

  /** `targetDate.slice(0, 4)`. */
  function YearPrefix(targetDate: string): (p: string)
    ensures |p| <= 4 && StartsWith(targetDate, p)
    ensures |targetDate| >= 4 ==> p == targetDate[..4]
    ensures |targetDate| < 4 ==> p == targetDate
  {
    if |targetDate| <= 4 then targetDate else targetDate[..4]
  }

  /** `Math.min(Number(targetDate.slice(0, 4)) - 1, 2024)`. */
  function EndYear(targetDate: string): JsNumber {
    Min(Sub(StringToNumber(YearPrefix(targetDate)), Fin(1.0)), Fin(2024.0))
  }

  /** The month and day of the history window's end. */
  const YEAR_END := "-12-31"

  /** `normalizedEndDate(targetDate)`: the last day of the history window sent to the backend.
      For a date that starts with a four-digit year it is 31 December of min(year - 1, 2024);
      a date whose first four characters do not read as a number gives "NaN-12-31". */
  function NormalizedEndDate(targetDate: string): (d: string)
    ensures |targetDate| >= 4 && AllDigits(targetDate[..4]) ==>
              d == IntToString(LastHistoryYear(DigitsValue(targetDate[..4]))) + YEAR_END
    ensures StringToNumber(YearPrefix(targetDate)).NaN? ==> d == NAN_TEXT + YEAR_END
  {
    if |targetDate| >= 4 && AllDigits(targetDate[..4]) then
      EndYearOfDigits(targetDate);
      NumberToStringOfInt(LastHistoryYear(DigitsValue(targetDate[..4])));
      NumberToString(EndYear(targetDate)) + YEAR_END
    else NumberToString(EndYear(targetDate)) + YEAR_END
  }

  /** `Math.min(year - 1, 2024)` for a whole year: strictly before that year and never
      after 2024. */
  function LastHistoryYear(year: int): (e: int)
    ensures e < year && e <= 2024
    ensures e == year - 1 || e == 2024
  {
    if year - 1 < 2024 then year - 1 else 2024
  }

  lemma EndYearOfDigits(targetDate: string)
    requires |targetDate| >= 4 && AllDigits(targetDate[..4])
    ensures EndYear(targetDate) == FromInt(LastHistoryYear(DigitsValue(targetDate[..4])))
  {
    var year := DigitsValue(targetDate[..4]);
    assert YearPrefix(targetDate) == targetDate[..4];
    StringToNumberDigits(targetDate[..4]);
    YearBefore(StringToNumber(YearPrefix(targetDate)), year);
  }

  /** `Math.min(year - 1, 2024)` for a whole year. */
  lemma YearBefore(n: JsNumber, year: int)
    requires n == Fin(year as real)
    ensures Min(Sub(n, Fin(1.0)), Fin(2024.0)) == FromInt(LastHistoryYear(year))
  {
    assert Sub(n, Fin(1.0)) == FromInt(year - 1);
  }

  // ---------------- stdDev ----------------

  /** `values.reduce((a, b) => a + b, 0)`: a left fold with JavaScript addition. */
  function SumLeft(values: seq<JsNumber>): JsNumber {
    if values == [] then Fin(0.0) else Add(SumLeft(values[..|values| - 1]), values[|values| - 1])
  }

  /** `a ** 2`. */
  function Square(a: JsNumber): JsNumber {
    Mul(a, a)
  }

  /** `values.reduce((a, b) => a + (b - m) ** 2, 0)`. */
  function SquaredDeviationsLeft(values: seq<JsNumber>, m: JsNumber): JsNumber {
    if values == [] then Fin(0.0)
    else Add(SquaredDeviationsLeft(values[..|values| - 1], m), Square(Sub(values[|values| - 1], m)))
  }

  /** `values.reduce((a, b) => a + term(b), 0)`: the same fold with the term left abstract. */
  function AddFold(values: seq<JsNumber>, term: JsNumber -> JsNumber): JsNumber {
    if values == [] then Fin(0.0) else Add(AddFold(values[..|values| - 1], term), term(values[|values| - 1]))
  }

  /** The term `(b - m) ** 2`. */
  function Deviation(m: JsNumber): JsNumber -> JsNumber {
    b => Square(Sub(b, m))
  }

  /** The result of `stdDev`: the literal 0 for no values, otherwise `Math.sqrt(radicand)`
      (the square root itself is not computed). */
  datatype StdDevValue = Zero | Sqrt(radicand: JsNumber)

  /** The non-negative numbers y with y * y == r: the values `Math.sqrt(r)` may stand for. */
  predicate IsRootOf(y: real, r: real) {
    y >= 0.0 && y * y == r
  }

  /** `stdDev(values)`. */
  function StdDev(values: seq<JsNumber>): (r: StdDevValue)
    ensures r.Zero? <==> values == []
  {
    if |values| == 0 then Zero
    else
      var n := FromInt(|values|);
      var m := Div(SumLeft(values), n);
      Sqrt(Div(SquaredDeviationsLeft(values, m), n))
  }

  // Reference definitions on reals, folded from the front.

  predicate AllFinite(values: seq<JsNumber>) {
    forall i :: 0 <= i < |values| ==> values[i].Fin?
  }

  function Reals(values: seq<JsNumber>): (xs: seq<real>)
    requires AllFinite(values)
    ensures |xs| == |values| && forall i :: 0 <= i < |xs| ==> xs[i] == values[i].r
  {
    if values == [] then [] else [values[0].r] + Reals(values[1..])
  }

  function Sum(xs: seq<real>): real {
    if xs == [] then 0.0 else xs[0] + Sum(xs[1..])
  }

  function SumSquaredDeviations(xs: seq<real>, mu: real): real {
    if xs == [] then 0.0 else (xs[0] - mu) * (xs[0] - mu) + SumSquaredDeviations(xs[1..], mu)
  }

  /** The population variance: the mean squared distance from the mean. */
  function PopulationVariance(xs: seq<real>): real
    requires xs != []
  {
    SumSquaredDeviations(xs, Sum(xs) / |xs| as real) / |xs| as real
  }

  lemma {:induction false} SumSnoc(xs: seq<real>, x: real)
    ensures Sum(xs + [x]) == Sum(xs) + x
  {
    if xs != [] {
      assert (xs + [x])[1..] == xs[1..] + [x];
      SumSnoc(xs[1..], x);
    }
  }

  lemma {:induction false} SumSquaredDeviationsSnoc(xs: seq<real>, x: real, mu: real)
    ensures SumSquaredDeviations(xs + [x], mu) == SumSquaredDeviations(xs, mu) + (x - mu) * (x - mu)
  {
    if xs != [] {
      assert (xs + [x])[1..] == xs[1..] + [x];
      SumSquaredDeviationsSnoc(xs[1..], x, mu);
    }
  }

  /** On finite values the left fold is the ordinary sum. */
  lemma {:induction false} SumLeftFinite(values: seq<JsNumber>)
    requires AllFinite(values)
    ensures SumLeft(values) == Fin(Sum(Reals(values)))
  {
    if values != [] {
      var p := values[..|values| - 1];
      SumLeftFinite(p);
      assert Reals(values) == Reals(p) + [values[|values| - 1].r];
      SumSnoc(Reals(p), values[|values| - 1].r);
    }
  }

  lemma {:induction false} SquaredDeviationsFinite(values: seq<JsNumber>, mu: real)
    requires AllFinite(values)
    ensures SquaredDeviationsLeft(values, Fin(mu)) == Fin(SumSquaredDeviations(Reals(values), mu))
  {
    if values != [] {
      var p := values[..|values| - 1];
      SquaredDeviationsFinite(p, mu);
      var sq := SquaredDeviationsStep(values, mu);
      RealSquaredDeviationsStep(values, mu);
      FoldStep(SquaredDeviationsLeft(values, Fin(mu)), SquaredDeviationsLeft(p, Fin(mu)),
        SumSquaredDeviations(Reals(p), mu), sq, SumSquaredDeviations(Reals(values), mu));
    }
  }

  /** Adding a finite term to a finite fold adds the two reals. */
  lemma FoldStep(whole: JsNumber, prefix: JsNumber, a: real, term: real, total: real)
    requires prefix == Fin(a) && whole == Add(prefix, Fin(term)) && total == a + term
    ensures whole == Fin(total)
  {
  }

  /** The fold's last step adds the square of the last value's distance from the mean. */
  lemma SquaredDeviationsStep(values: seq<JsNumber>, mu: real) returns (sq: real)
    requires values != [] && values[|values| - 1].Fin?
    ensures var x := values[|values| - 1].r;
      sq == (x - mu) * (x - mu)
      && SquaredDeviationsLeft(values, Fin(mu)) == Add(SquaredDeviationsLeft(values[..|values| - 1], Fin(mu)), Fin(sq))
  {
    var x := values[|values| - 1].r;
    sq := (x - mu) * (x - mu);
    assert values[|values| - 1] == Fin(x);
    SquareOfDifference(x, mu);
  }

  lemma RealSquaredDeviationsStep(values: seq<JsNumber>, mu: real)
    requires values != [] && AllFinite(values)
    ensures var x := values[|values| - 1].r;
      SumSquaredDeviations(Reals(values), mu)
      == SumSquaredDeviations(Reals(values[..|values| - 1]), mu) + (x - mu) * (x - mu)
  {
    var p := values[..|values| - 1];
    var x := values[|values| - 1].r;
    assert Reals(values) == Reals(p) + [x];
    SumSquaredDeviationsSnoc(Reals(p), x, mu);
  }

  lemma SquareOfDifference(x: real, mu: real)
    ensures Square(Sub(Fin(x), Fin(mu))) == Fin((x - mu) * (x - mu))
  {
    var a := x - mu;
    assert Sub(Fin(x), Fin(mu)) == Fin(a);
  }

  /** For finite values, `stdDev` is the square root of the population variance. */
  lemma StdDevOfFinite(values: seq<JsNumber>)
    requires values != [] && AllFinite(values)
    ensures StdDev(values) == Sqrt(Fin(PopulationVariance(Reals(values))))
  {
    var n := |values| as real;
    SumLeftFinite(values);
    var mu := Sum(Reals(values)) / n;
    SquaredDeviationsFinite(values, mu);
  }

  /** Once the left fold is not finite, adding more keeps it so. */
  lemma {:induction false} SumLeftNotFinite(values: seq<JsNumber>, k: nat)
    requires k < |values| && !values[k].Fin?
    ensures !SumLeft(values).Fin?
  {
    var n := |values| - 1;
    if k < n {
      SumLeftNotFinite(values[..n], k);
    }
  }

  /** A sum of +Infinity holds neither -Infinity nor NaN (and symmetrically). */
  lemma {:induction false} SumLeftInfinite(values: seq<JsNumber>, k: nat)
    requires k < |values|
    ensures SumLeft(values) == PosInf ==> values[k] != NegInf && values[k] != NaN
    ensures SumLeft(values) == NegInf ==> values[k] != PosInf && values[k] != NaN
  {
    var n := |values| - 1;
    var s := SumLeft(values[..n]);
    if k < n {
      SumLeftInfinite(values[..n], k);
      if s.Fin? && !values[k].Fin? {
        SumLeftNotFinite(values[..n], k);
      }
    }
  }

  /** A NaN term makes the whole fold NaN. */
  lemma {:induction false} AddFoldNaN(values: seq<JsNumber>, term: JsNumber -> JsNumber, k: nat)
    requires k < |values| && term(values[k]).NaN?
    ensures AddFold(values, term).NaN?
  {
    var n := |values| - 1;
    if k < n {
      assert values[..n][k] == values[k];
      AddFoldNaN(values[..n], term, k);
    }
    AddOfNaN(AddFold(values, term), AddFold(values[..n], term), term(values[n]));
  }

  /** A NaN squared deviation makes the whole fold of squared deviations NaN. */
  lemma SquaredDeviationsNaN(values: seq<JsNumber>, m: JsNumber, k: nat)
    requires k < |values| && Square(Sub(values[k], m)).NaN?
    ensures SquaredDeviationsLeft(values, m).NaN?
  {
    AddFoldNaN(values, Deviation(m), k);
    SquaredDeviationsAsFold(values, m);
  }

  lemma {:induction false} SquaredDeviationsAsFold(values: seq<JsNumber>, m: JsNumber)
    ensures SquaredDeviationsLeft(values, m) == AddFold(values, Deviation(m))
  {
    if values != [] {
      SquaredDeviationsAsFold(values[..|values| - 1], m);
    }
  }

  /** A NaN operand makes a sum NaN. */
  lemma AddOfNaN(whole: JsNumber, a: JsNumber, b: JsNumber)
    requires whole == Add(a, b) && (a.NaN? || b.NaN?)
    ensures whole.NaN?
  {
  }

  /** One value that is NaN or infinite makes the radicand NaN. */
  lemma StdDevOfNonFinite(values: seq<JsNumber>, k: nat)
    requires k < |values| && !values[k].Fin?
    ensures StdDev(values) == Sqrt(NaN)
  {
    var s := SumLeft(values);
    var m := Div(s, FromInt(|values|));
    SumLeftNotFinite(values, k);
    SumLeftInfinite(values, k);
    assert Square(Sub(values[k], m)).NaN?;
    SquaredDeviationsNaN(values, m, k);
  }

  /** The spread of the probabilities 0.2, 0.4 and 0.6 is the square root of 0.08 / 3. */
  lemma StdDevExample()
    ensures StdDev([Fin(0.2), Fin(0.4), Fin(0.6)]) == Sqrt(Fin(0.08 / 3.0))
  {
    var v := [Fin(0.2), Fin(0.4), Fin(0.6)];
    var xs := [0.2, 0.4, 0.6];
    StdDevOfFinite(v);
    assert Reals(v) == xs;
    assert xs[1..] == [0.4, 0.6] && xs[1..][1..] == [0.6] && xs[1..][1..][1..] == [];
    assert Sum(xs) == 1.2;
    assert SumSquaredDeviations(xs, 0.4) == 0.08;
  }

  /** The square root of 0.08 / 3 lies between 0.16329 and 0.1633. */
  lemma StdDevExampleRoot(y: real)
    requires IsRootOf(y, 0.08 / 3.0)
    ensures 0.16329 < y < 0.1633
  {
    if y >= 0.1633 {
      MulAtLeast(y, 0.1633);
    }
    if y <= 0.16329 {
      MulAtMost(y, 0.16329);
    }
  }

  lemma MulAtLeast(y: real, c: real)
    requires 0.0 <= c <= y
    ensures c * c <= y * y
  {
    assert c * c <= c * y;
  }

  lemma MulAtMost(y: real, c: real)
    requires 0.0 <= y <= c
    ensures y * y <= c * c
  {
    assert y * y <= y * c;
  }
}
