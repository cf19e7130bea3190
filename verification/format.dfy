/** The number and date formatting helpers of lib/format.ts. */
module Format {
  import opened JsNumbers
  import opened JsText
  import opened JsConvert
  import opened JsRaw

  /** The placeholder printed for a missing value. */
  const DASH: string := "—"

  /** `clamp01(x)`: non-finite input gives 0, anything else is clamped into [0, 1]. */
  function Clamp01(x: JsNumber): (r: JsNumber)
    ensures r.Fin? && 0.0 <= r.r <= 1.0
    ensures !IsFinite(x) ==> r == Fin(0.0)
    ensures x.Fin? && 0.0 <= x.r <= 1.0 ==> r == x
    ensures x.Fin? && x.r > 1.0 ==> r == Fin(1.0)
    ensures x.Fin? && x.r < 0.0 ==> r == Fin(0.0)
  {
    if !IsFinite(x) then Fin(0.0) else Min(Fin(1.0), Max(Fin(0.0), x))
  }

  /** The shape of a negative zero as `toFixed` prints it: a minus sign followed only by zeros and a point. */
  predicate NegativeZeroText(s: string) {
    |s| >= 2 && s[0] == '-' && forall i :: 1 <= i < |s| ==> s[i] == '0' || s[i] == '.'
  }

  /** `fmtNumber(n, digits)`: "—" unless `Number(n)` is finite; otherwise the value rounded
      to `digits` places, printed by `toFixed`. The source rounds by printing with `toFixed`,
      reading the text back with `Number` and printing again after turning -0 into 0;
      FmtNumberAsWritten shows that composition is this function. */
  function FmtNumber(n: Raw, digits: nat): (s: string)
    ensures s == DASH <==> !IsFinite(ToNumber(n))
  {
    var v := ToNumber(n);
    if !IsFinite(v) then DASH
    else
      var s := ToFixed(Fin(RoundFixed(v.r, digits)), digits);
      assert s != DASH by {
        assert IsDigit(s[|s| - 1]);
        assert DASH[|DASH| - 1] == '—';
      }
      s
  }

  /** `fmtPercent(n, digits)`: whatever n is, a number in [0, 100] followed by "%". */
  function FmtPercent(n: Raw, digits: nat): (s: string)
    ensures |s| >= 2 && s[|s| - 1] == '%'
    ensures var q := StringToNumber(s[..|s| - 1]); q.Fin? && 0.0 <= q.r <= 100.0
  {
    var v := ToNumber(n);
    var x := Clamp01(v).r * 100.0;
    PercentParts(v, digits);
    PercentValue(x, digits);
    var num := FmtNumber(Num(Fin(x)), digits);
    assert (num + "%")[..|num|] == num;
    PercentText(v, digits)
  }

  /** `fmtPercent` once `Number(n)` is taken. */
  function PercentText(v: JsNumber, digits: nat): string {
    FmtNumber(Num(Mul(Clamp01(v), Fin(100.0))), digits) + "%"
  }

  /** `fmtMaybe(n, unit, digits)`: "—" for non-finite input, else the formatted number, followed
      by a space and the unit when one is given. */
  function FmtMaybe(n: Raw, unit: string, digits: nat): (s: string)
    ensures !IsFinite(ToNumber(n)) ==> s == DASH
    ensures IsFinite(ToNumber(n)) && unit == "" ==> s == FmtNumber(n, digits)
    ensures IsFinite(ToNumber(n)) && unit != "" ==> s == FmtNumber(n, digits) + " " + unit
  {
    var v := ToNumber(n);
    if !IsFinite(v) then DASH
    else
      assert ToNumber(Num(v)) == v;
      assert FmtNumber(Num(v), digits) == FmtNumber(n, digits);
      var s := FmtNumber(Num(v), digits);
      if unit != "" then s + " " + unit else s
  }

  /** What `fmtDateLocalYMD` returns: a plain string, or the locale rendering of a calendar date
      (left symbolic: `toLocaleDateString` of `new Date(year, month - 1, day)`). */
  datatype DateText = Text(s: string) | LocalDate(year: JsNumber, month: JsNumber, day: JsNumber)

  /** The i-th part of a split, as `Number` reads it (`undefined` when absent). */
  function PartNumber(parts: seq<string>, i: nat): JsNumber {
    if i < |parts| then StringToNumber(parts[i]) else NaN
  }

  /** `fmtDateLocalYMD(ymd)`. */
  function FmtDateLocalYMD(ymd: string): (r: DateText)
    ensures ymd == "" ==> r == Text(DASH)
    ensures r.Text? && ymd != "" ==> r.s == ymd
    ensures r.LocalDate? ==> NumberTruthy(r.year) && NumberTruthy(r.month) && NumberTruthy(r.day)
  {
    if ymd == "" then Text(DASH)
    else
      var parts := Split(ymd, '-');
      var y := PartNumber(parts, 0);
      var m := PartNumber(parts, 1);
      var d := PartNumber(parts, 2);
      if !NumberTruthy(y) || !NumberTruthy(m) || !NumberTruthy(d) then Text(ymd)
      else LocalDate(y, m, d)
  }

  /** A valid local calendar date: `getFullYear()`, `getMonth()` (0-based) and `getDate()`. */
  datatype CalendarDate = CalendarDate(year: int, monthIndex: int, day: int)

  predicate ValidDate(dt: CalendarDate) {
    0 <= dt.monthIndex <= 11 && 1 <= dt.day <= 31
  }

  /** Two-digit zero padding of a small number. */
  function Pad2(n: nat): (s: string)
    ensures |s| >= 2 && AllDigits(s) && DigitsValue(s) == n
    ensures n < 100 ==> |s| == 2
  {
    PadStartValue(NatToString(n), 2);
    NatToStringValue(n);
    PadStart(NatToString(n), 2, '0')
  }

  /** `toYMD(date)`: for a year that is not negative, splitting the text on "-" reads back
      the year, the 1-based month and the day. */
  function ToYMD(dt: CalendarDate): (s: string)
    requires ValidDate(dt)
    ensures dt.year >= 0 ==>
              var parts := Split(s, '-');
              |parts| == 3 &&
              PartNumber(parts, 0) == FromInt(dt.year) &&
              PartNumber(parts, 1) == FromInt(dt.monthIndex + 1) &&
              PartNumber(parts, 2) == FromInt(dt.day)
    ensures dt.year >= 0 ==>
              var parts := Split(s, '-');
              |parts| == 3 && |parts[1]| == 2 && |parts[2]| == 2 && AllDigits(parts[1]) && AllDigits(parts[2])
  {
    if dt.year >= 0 then
      YMDSplit(dt.year, dt.monthIndex + 1, dt.day);
      YMDPadded(dt.year, dt.monthIndex + 1, dt.day);
      IntToString(dt.year) + "-" + Pad2(dt.monthIndex + 1) + "-" + Pad2(dt.day)
    else IntToString(dt.year) + "-" + Pad2(dt.monthIndex + 1) + "-" + Pad2(dt.day)
  }

  // ---------------- Properties ----------------

  /** The source's own composition, `toFixed` of `Number(v.toFixed(digits))` (reals carry no -0,
      so turning -0 into 0 is the identity here), is FmtNumber. */
  lemma FmtNumberAsWritten(n: Raw, digits: nat)
    requires IsFinite(ToNumber(n))
    ensures FmtNumber(n, digits) == ToFixed(StringToNumber(ToFixed(ToNumber(n), digits)), digits)
  {
    ToFixedRoundTrip(ToNumber(n).r, digits);
  }

  /** The formatted number reads back as x rounded to `digits` places. */
  lemma FmtNumberValue(n: Raw, digits: nat)
    requires IsFinite(ToNumber(n))
    ensures StringToNumber(FmtNumber(n, digits)) == Fin(RoundFixed(ToNumber(n).r, digits))
  {
    var x := ToNumber(n).r;
    var r := RoundFixed(x, digits);
    ToFixedRoundTrip(r, digits);
    RoundFixedIdempotent(x, digits);
  }

  /** A minus sign is printed exactly when the rounded value is negative. */
  lemma FmtNumberSign(n: Raw, digits: nat)
    requires IsFinite(ToNumber(n))
    ensures var s := FmtNumber(n, digits); |s| >= 1 && (s[0] == '-' <==> RoundFixed(ToNumber(n).r, digits) < 0.0)
  {
    ToFixedSign(RoundFixed(ToNumber(n).r, digits), digits);
  }

  /** Digits of a positive number are not all zero. */
  lemma DecimalTextNonZero(k: nat, d: nat)
    requires k > 0
    ensures exists i :: 0 <= i < |DecimalText(k, d)| && DecimalText(k, d)[i] != '0' && DecimalText(k, d)[i] != '.'
  {
    var body := DecimalText(k, d);
    if d == 0 {
      NatToStringValue(k);
      if forall i :: 0 <= i < |body| ==> body[i] == '0' {
        ZerosValue(body);
      }
    } else {
      var ip, fp := DecimalTextParts(k, d);
      var z := ip + fp;
      if forall i :: 0 <= i < |body| ==> body[i] == '0' || body[i] == '.' {
        assert forall i :: 0 <= i < |ip| ==> z[i] == body[i];
        assert forall i :: |ip| <= i < |z| ==> z[i] == body[i + 1];
        ZerosValue(z);
      }
    }
  }

  /** A negative value with at least one surviving unit is not printed as a negative zero. */
  lemma ToFixedNotNegativeZero(r: real, d: nat)
    requires r < 0.0 && RoundedUnits(r, d) > 0
    ensures !NegativeZeroText(ToFixed(Fin(r), d))
  {
    var k := RoundedUnits(r, d);
    var body := DecimalText(k, d);
    assert exists i :: 0 <= i < |body| && body[i] != '0' && body[i] != '.' by {
      DecimalTextNonZero(k, d);
    }
    var i :| 0 <= i < |body| && body[i] != '0' && body[i] != '.';
    assert ToFixed(Fin(r), d) == "-" + body by {
      FixedOfNegative(r, d);
    }
    MinusNonZero(ToFixed(Fin(r), d), body, i);
  }

  lemma MinusNonZero(s: string, body: string, i: nat)
    requires s == "-" + body && i < |body| && body[i] != '0' && body[i] != '.'
    ensures !NegativeZeroText(s)
  {
    assert s[i + 1] == body[i];
  }

  /** `fmtNumber` never prints a negative zero such as "-0.0". */
  lemma FmtNumberNoNegativeZero(n: Raw, digits: nat)
    ensures !NegativeZeroText(FmtNumber(n, digits))
  {
    if IsFinite(ToNumber(n)) {
      var x := ToNumber(n).r;
      var r := RoundFixed(x, digits);
      if r < 0.0 {
        RoundFixedIdempotent(x, digits);
        RoundFixedSign(r, digits);
        ToFixedNotNegativeZero(r, digits);
      } else {
        ToFixedSign(r, digits);
      }
    } else {
      assert FmtNumber(n, digits) == DASH;
      assert DASH[0] != '-';
    }
  }

  /** `fmtPercent` formats the clamped value scaled to a percentage. */
  lemma PercentParts(v: JsNumber, digits: nat)
    ensures PercentText(v, digits) == FmtNumber(Num(Fin(Clamp01(v).r * 100.0)), digits) + "%"
  {
    assert Mul(Clamp01(v), Fin(100.0)) == Fin(Clamp01(v).r * 100.0);
  }

  /** A percentage between 0 and 100 is printed as a number that reads back within [0, 100]. */
  lemma PercentValue(x: real, digits: nat)
    requires 0.0 <= x <= 100.0
    ensures var q := RoundFixed(x, digits);
            StringToNumber(FmtNumber(Num(Fin(x)), digits)) == Fin(q) && 0.0 <= q <= 100.0
  {
    FmtNumberValue(Num(Fin(x)), digits);
    RoundFixedBetween(x, digits, 100);
  }

  /** Splitting a year, a month and a day printed as `toYMD` does on "-" reads them back. */
  lemma YMDSplit(year: nat, month: nat, day: nat)
    ensures var parts := Split(IntToString(year) + "-" + Pad2(month) + "-" + Pad2(day), '-');
            |parts| == 3 &&
            PartNumber(parts, 0) == FromInt(year) &&
            PartNumber(parts, 1) == FromInt(month) &&
            PartNumber(parts, 2) == FromInt(day)
  {
    var y := NatToString(year);
    var m := Pad2(month);
    var d := Pad2(day);
    var parts := Split(IntToString(year) + "-" + m + "-" + d, '-');
    assert parts == [y, m, d] by {
      DashedParts(y, m, d);
    }
    assert StringToNumber(y) == FromInt(year) by {
      NatToStringValue(year);
      StringToNumberDigits(y);
    }
    assert StringToNumber(m) == FromInt(month) by {
      StringToNumberDigits(m);
    }
    assert StringToNumber(d) == FromInt(day) by {
      StringToNumberDigits(d);
    }
    PartsRead(parts, y, m, d, year, month, day);
  }

  /** The month and the day of a `toYMD` text are zero-padded to two digits. */
  lemma YMDPadded(year: nat, month: nat, day: nat)
    ensures var parts := Split(IntToString(year) + "-" + Pad2(month) + "-" + Pad2(day), '-');
            |parts| == 3 && AllDigits(parts[1]) && AllDigits(parts[2]) &&
            (month < 100 ==> |parts[1]| == 2) && (day < 100 ==> |parts[2]| == 2)
  {
    var y := NatToString(year);
    assert IntToString(year) == y;
    DashedParts(y, Pad2(month), Pad2(day));
  }

  lemma PartsRead(parts: seq<string>, y: string, m: string, d: string, year: int, month: int, day: int)
    requires parts == [y, m, d]
    requires StringToNumber(y) == FromInt(year) && StringToNumber(m) == FromInt(month)
    requires StringToNumber(d) == FromInt(day)
    ensures |parts| == 3 && PartNumber(parts, 0) == FromInt(year)
    ensures PartNumber(parts, 1) == FromInt(month) && PartNumber(parts, 2) == FromInt(day)
  {
  }

  /** Three digit runs joined with dashes split back into the three runs. */
  lemma DashedParts(y: string, m: string, d: string)
    requires AllDigits(y) && AllDigits(m) && AllDigits(d)
    ensures Split(y + "-" + m + "-" + d, '-') == [y, m, d]
  {
    assert '-' !in y && '-' !in m && '-' !in d;
    var parts := [y, m, d];
    assert Join(parts, "-") == y + "-" + m + "-" + d by {
      assert parts[1..] == [m, d] && [m, d][1..] == [d];
      assert Join([m, d], "-") == m + "-" + Join([d], "-");
      assert Join(parts, "-") == y + "-" + Join([m, d], "-");
    }
    SplitJoin(parts, '-');
  }

  /** A date printed by `toYMD` passes the validation of `fmtDateLocalYMD` and is rendered as that date. */
  lemma FmtDateOfToYMD(dt: CalendarDate)
    requires ValidDate(dt) && dt.year >= 1
    ensures FmtDateLocalYMD(ToYMD(dt)) == LocalDate(FromInt(dt.year), FromInt(dt.monthIndex + 1), FromInt(dt.day))
  {
  }
}
