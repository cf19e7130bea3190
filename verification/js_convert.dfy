/** Conversions between JavaScript numbers and strings: `Number(string)`,
    `Number.parseFloat`, `Number.parseInt` (radix 10), `String(number)` and
    `Number.prototype.toFixed`, all on exact decimal values. */
module JsConvert {
  import opened JsNumbers
  import opened JsText
  import opened Optional

  // ---------------- Decimal scaling ----------------

  /** a * 10^d, one factor of ten at a time. */
  function Scale(a: real, d: nat): (r: real)
    ensures a >= 0.0 ==> r >= 0.0
  {
    if d == 0 then a else Scale(a, d - 1) * 10.0
  }

  /** a / 10^d, one factor of ten at a time. */
  function Unscale(a: real, d: nat): (r: real)
    ensures a >= 0.0 ==> r >= 0.0
  {
    if d == 0 then a else Unscale(a, d - 1) / 10.0
  }

  /** a * 10^k for an integer exponent k. */
  function ScaleExp(a: real, k: int): real {
    if k >= 0 then Scale(a, k) else Unscale(a, -k)
  }

  lemma {:induction false} ScaleIsProduct(a: real, d: nat)
    ensures Scale(a, d) == a * Pow10(d) as real
  {
    if d > 0 {
      ScaleIsProduct(a, d - 1);
      assert Pow10(d) as real == Pow10(d - 1) as real * 10.0;
    }
  }

  lemma {:induction false} UnscaleIsQuotient(a: real, d: nat)
    ensures Unscale(a, d) == a / Pow10(d) as real
  {
    if d > 0 {
      UnscaleIsQuotient(a, d - 1);
      var p := Pow10(d - 1) as real;
      assert Pow10(d) as real == p * 10.0;
      assert (a / p) / 10.0 == a / (p * 10.0);
    }
  }

  // ---------------- Number.prototype.toFixed ----------------

  /** The integer `x.toFixed(d)` prints: |x| scaled by 10^d, rounded half away from zero. */
  function RoundedUnits(x: real, d: nat): nat {
    var a := if x < 0.0 then -x else x;
    (Scale(a, d) + 0.5).Floor
  }

  /** n units of 10^-d. */
  function UnitsValue(n: nat, d: nat): real {
    Unscale(n as real, d)
  }

  /** The value `x.toFixed(d)` denotes. */
  function RoundFixed(x: real, d: nat): real {
    var m := UnitsValue(RoundedUnits(x, d), d);
    if x < 0.0 then -m else m
  }

  predicate DecimalChars(s: string) {
    forall i :: 0 <= i < |s| ==> IsDigit(s[i]) || s[i] == '.'
  }

  /** n / 10^d written with exactly d decimals (no sign). */
  function DecimalText(n: nat, d: nat): (s: string)
    ensures |s| >= 1 && IsDigit(s[0]) && IsDigit(s[|s| - 1]) && DecimalChars(s)
  {
    if d == 0 then NatToString(n)
    else
      var p := PadStart(NatToString(n), d + 1, '0');
      assert AllDigits(p) by {
        forall i | 0 <= i < |p| ensures IsDigit(p[i]) {
          if i >= |p| - |NatToString(n)| {
            assert p[i] == p[|p| - |NatToString(n)|..][i - (|p| - |NatToString(n)|)];
          }
        }
      }
      p[..|p| - d] + "." + p[|p| - d..]
  }

  /** `v.toFixed(d)` (values of 1e21 and above, printed in exponent form by JavaScript, are not distinguished). */
  function ToFixed(v: JsNumber, d: nat): string {
    match v
    case NaN => NAN_TEXT
    case PosInf => INFINITY
    case NegInf => MINUS_INFINITY
    case Fin(x) => (if x < 0.0 then "-" else "") + DecimalText(RoundedUnits(x, d), d)
  }

  /** The texts JavaScript writes and reads for the non-finite numbers. */
  const INFINITY := "Infinity"
  const PLUS_INFINITY := "+Infinity"
  const MINUS_INFINITY := "-Infinity"
  const NAN_TEXT := "NaN"

  // ---------------- Number(string) ----------------

  /** Index of the first `e` or `E`, or -1. */
  function ExponentIndex(t: string): (i: int)
    ensures -1 <= i < |t|
    ensures i == -1 <==> ('e' !in t && 'E' !in t)
  {
    var e := IndexOf(t, 'e');
    var f := IndexOf(t, 'E');
    if e < 0 then f else if f < 0 then e else if e < f then e else f
  }

  /** The value of the literal `ip.fp`. */
  function PointValue(ip: string, fp: string): real
    requires AllDigits(ip) && AllDigits(fp)
  {
    DigitsValue(ip) as real + Unscale(DigitsValue(fp) as real, |fp|)
  }

  /** Digits with at most one decimal point and at least one digit. */
  function Mantissa(t: string): Option<real> {
    var dot := IndexOf(t, '.');
    if dot < 0 then
      if t != [] && AllDigits(t) then Some(DigitsValue(t) as real) else None
    else
      var ip := t[..dot];
      var fp := t[dot + 1..];
      if AllDigits(ip) && AllDigits(fp) && (ip != [] || fp != []) then
        Some(PointValue(ip, fp))
      else None
  }

  /** An optionally signed run of digits. */
  function Exponent(t: string): Option<int> {
    var digits := if t != [] && (t[0] == '-' || t[0] == '+') then t[1..] else t;
    if digits != [] && AllDigits(digits) then
      Some(if t[0] == '-' then -(DigitsValue(digits) as int) else DigitsValue(digits))
    else None
  }

  function UnsignedDecimal(t: string): Option<real> {
    var e := ExponentIndex(t);
    if e < 0 then Mantissa(t)
    else
      match (Mantissa(t[..e]), Exponent(t[e + 1..]))
      case (Some(m), Some(k)) => Some(ScaleExp(m, k))
      case _ => None
  }

  function SignedDecimal(t: string): Option<real> {
    if t != [] && (t[0] == '-' || t[0] == '+') then
      match UnsignedDecimal(t[1..])
      case Some(x) => Some(if t[0] == '-' then -x else x)
      case None => None
    else UnsignedDecimal(t)
  }

  /** `Number(s)` for a string: blank is 0, a decimal literal its value, anything else NaN
      (hexadecimal, octal and binary literals are read as NaN here). */
  function StringToNumber(s: string): JsNumber {
    var t := Trim(s);
    if t == "" then Fin(0.0)
    else if t == INFINITY || t == PLUS_INFINITY then PosInf
    else if t == MINUS_INFINITY then NegInf
    else
      match SignedDecimal(t)
      case Some(x) => Fin(x)
      case None => NaN
  }

  // ---------------- parseFloat / parseInt ----------------

  /** First index at or after i that does not hold a digit. */
  function DigitRun(u: string, i: nat): (j: nat)
    requires i <= |u|
    ensures i <= j <= |u| && AllDigits(u[i..j]) && (j < |u| ==> !IsDigit(u[j]))
    decreases |u| - i
  {
    if i < |u| && IsDigit(u[i]) then
      var j := DigitRun(u, i + 1);
      assert u[i..j] == [u[i]] + u[i + 1..j];
      j
    else i
  }

  /** The exponent written at position j (`e`, optional sign, digits), or 0 when none is. */
  function ExponentPrefix(u: string, j: nat): int
    requires j <= |u|
  {
    if j < |u| && (u[j] == 'e' || u[j] == 'E') then
      var k := if j + 1 < |u| && (u[j + 1] == '+' || u[j + 1] == '-') then j + 2 else j + 1;
      var q := DigitRun(u, k);
      if q > k then (if u[j + 1] == '-' then -(DigitsValue(u[k..q]) as int) else DigitsValue(u[k..q]))
      else 0
    else 0
  }

  /** `Number.parseFloat(s)`: the longest decimal literal at the start of s, after blanks. */
  function ParseFloat(s: string): JsNumber {
    var t := TrimStart(s);
    var neg := t != [] && t[0] == '-';
    var u := if t != [] && (t[0] == '-' || t[0] == '+') then t[1..] else t;
    if StartsWith(u, INFINITY) then (if neg then NegInf else PosInf)
    else
      var i := DigitRun(u, 0);
      var dot := i < |u| && u[i] == '.';
      var j := if dot then DigitRun(u, i + 1) else i;
      var frac := if dot then u[i + 1..j] else "";
      if i == 0 && frac == [] then NaN
      else
        var m := PointValue(u[..i], frac);
        var x := ScaleExp(m, ExponentPrefix(u, j));
        Fin(if neg then -x else x)
  }

  /** `Number.parseInt(s)` with no radix: the digits at the start of s, after blanks and a sign
      (a `0x` prefix, read as hexadecimal by JavaScript, is read here as 0). */
  function ParseInt(s: string): JsNumber {
    var t := TrimStart(s);
    var neg := t != [] && t[0] == '-';
    var u := if t != [] && (t[0] == '-' || t[0] == '+') then t[1..] else t;
    var i := DigitRun(u, 0);
    if i == 0 then NaN
    else
      var v := DigitsValue(u[..i]) as real;
      Fin(if neg then -v else v)
  }

  // ---------------- String(number) ----------------

  predicate IsIntegral(x: real) {
    x == x.Floor as real
  }

  /** Fewest decimals (at most 20) that write a exactly. */
  function FractionDigits(a: real, k: nat): nat
    decreases 20 - k
  {
    if k >= 20 || IsIntegral(Scale(a, k)) then k else FractionDigits(a, k + 1)
  }

  /** `String(v)`: integers without a point, other values with the fewest decimals that write
      them (up to 20); exponent notation (beyond 1e21 or below 1e-6) is not modelled. */
  function NumberToString(v: JsNumber): string {
    match v
    case NaN => NAN_TEXT
    case PosInf => INFINITY
    case NegInf => MINUS_INFINITY
    case Fin(x) =>
      if IsIntegral(x) then IntToString(x.Floor)
      else
        var a := if x < 0.0 then -x else x;
        var k := FractionDigits(a, 1);
        (if x < 0.0 then "-" else "") + DecimalText(RoundedUnits(a, k), k)
  }

  // ---------------- Round trips ----------------

  lemma NoExponent(s: string)
    requires DecimalChars(s)
    ensures ExponentIndex(s) == -1
  {
    assert forall i :: 0 <= i < |s| ==> s[i] != 'e' && s[i] != 'E';
  }

  /** A run of digits reads as its value. */
  lemma MantissaOfDigits(s: string)
    requires s != [] && AllDigits(s)
    ensures Mantissa(s) == Some(DigitsValue(s) as real)
  {
    assert forall i :: 0 <= i < |s| ==> s[i] != '.';
  }

  /** Digits, a point and digits read as whole part plus fraction. */
  lemma MantissaOfPoint(ip: string, fp: string)
    requires ip != [] && AllDigits(ip) && AllDigits(fp)
    ensures Mantissa(ip + "." + fp) == Some(PointValue(ip, fp))
  {
    var t := ip + "." + fp;
    assert forall j :: 0 <= j < |ip| ==> t[j] == ip[j] && t[j] != '.';
    assert t[|ip|] == '.';
    var dot := IndexOf(t, '.');
    assert dot == |ip|;
    assert t[..dot] == ip;
    assert t[dot + 1..] == fp;
  }

  lemma ShiftPoint(a: nat, b: nat, p: nat)
    requires p >= 1
    ensures a as real + b as real / p as real == (a * p + b) as real / p as real
  {
    assert (a * p + b) as real == a as real * p as real + b as real;
  }

  /** Putting the point |fp| places from the right of the digits ip + fp denotes their value over 10^|fp|. */
  lemma PointValueUnits(ip: string, fp: string)
    requires AllDigits(ip) && AllDigits(fp)
    ensures AllDigits(ip + fp)
    ensures PointValue(ip, fp) == UnitsValue(DigitsValue(ip + fp), |fp|)
  {
    DigitsValueAppend(ip, fp);
    UnscaleIsQuotient(DigitsValue(fp) as real, |fp|);
    UnscaleIsQuotient(DigitsValue(ip + fp) as real, |fp|);
    ShiftPoint(DigitsValue(ip), DigitsValue(fp), Pow10(|fp|));
  }

  lemma PaddedNumeral(n: nat, d: nat)
    ensures var p := PadStart(NatToString(n), d + 1, '0');
            |p| > d && AllDigits(p) && DigitsValue(p) == n
  {
    PadStartValue(NatToString(n), d + 1);
    NatToStringValue(n);
  }

  /** Cutting a run of more than d digits d places from its end. */
  lemma CutDigits(p: string, d: nat) returns (ip: string, fp: string)
    requires |p| > d && AllDigits(p)
    ensures ip == p[..|p| - d] && fp == p[|p| - d..] && ip + fp == p
    ensures ip != [] && AllDigits(ip) && AllDigits(fp) && |fp| == d
  {
    ip := p[..|p| - d];
    fp := p[|p| - d..];
    assert ip + fp == p;
  }

  /** The text of n with d > 0 places is whole digits, a point and d fraction digits. */
  lemma DecimalTextParts(n: nat, d: nat) returns (ip: string, fp: string)
    requires d > 0
    ensures DecimalText(n, d) == ip + "." + fp
    ensures ip != [] && AllDigits(ip) && AllDigits(fp) && |fp| == d
    ensures AllDigits(ip + fp) && DigitsValue(ip + fp) == n
  {
    var p := PadStart(NatToString(n), d + 1, '0');
    PaddedNumeral(n, d);
    ip, fp := CutDigits(p, d);
  }

  /** Reading the decimal text of n with d places gives n / 10^d. */
  lemma DecimalTextValue(n: nat, d: nat)
    ensures UnsignedDecimal(DecimalText(n, d)) == Some(UnitsValue(n, d))
  {
    var body := DecimalText(n, d);
    NoExponent(body);
    if d == 0 {
      NatToStringValue(n);
      MantissaOfDigits(body);
    } else {
      var ip, fp := DecimalTextParts(n, d);
      MantissaOfPoint(ip, fp);
      PointValueUnits(ip, fp);
    }
  }

  /** A trimmed decimal literal that is not an infinity is read as its value. */
  lemma NumberOfDecimal(t: string, x: real)
    requires t != [] && Trim(t) == t && t[0] != 'I' && t[0] != '+' && t != MINUS_INFINITY
    requires SignedDecimal(t) == Some(x)
    ensures StringToNumber(t) == Fin(x)
  {
    assert t != INFINITY && t != PLUS_INFINITY by {
      assert INFINITY[0] == 'I' && PLUS_INFINITY[0] == '+';
    }
  }

  /** A numeral starting and ending with a digit reads as its value. */
  lemma ReadUnsigned(body: string, v: real)
    requires |body| >= 1 && IsDigit(body[0]) && IsDigit(body[|body| - 1])
    requires UnsignedDecimal(body) == Some(v)
    ensures StringToNumber(body) == Fin(v)
  {
    assert Trim(body) == body by {
      assert !IsWhitespace(body[0]) && !IsWhitespace(body[|body| - 1]);
    }
    assert SignedDecimal(body) == Some(v) by {
      assert body[0] != '-' && body[0] != '+';
    }
    assert body[0] != 'I' && body[0] != '+' && body != MINUS_INFINITY by {
      assert MINUS_INFINITY[0] == '-';
    }
    NumberOfDecimal(body, v);
  }

  /** A minus sign before a numeral that ends in a digit leaves it trimmed. */
  lemma NegativeTrimmed(body: string)
    requires |body| >= 1 && IsDigit(body[|body| - 1])
    ensures Trim("-" + body) == "-" + body
  {
    var t := "-" + body;
    assert t[|t| - 1] == body[|body| - 1];
  }

  /** A minus sign before an unsigned literal negates its value. */
  lemma NegativeSigned(body: string, v: real)
    requires UnsignedDecimal(body) == Some(v)
    ensures SignedDecimal("-" + body) == Some(-v)
  {
    var t := "-" + body;
    assert t != [] && t[0] == '-' && t[1..] == body;
    NegatedTail(SignedDecimal(t), UnsignedDecimal(t[1..]), v);
  }

  lemma NegatedTail(signed: Option<real>, tail: Option<real>, v: real)
    requires tail == Some(v)
    requires signed == match tail case Some(x) => Some(-x) case None => None
    ensures signed == Some(-v)
  {
  }

  /** A minus sign before a digit is not the start of `-Infinity`. */
  lemma NegativeFinite(body: string)
    requires |body| >= 1 && IsDigit(body[0])
    ensures "-" + body != MINUS_INFINITY
  {
    var t := "-" + body;
    assert t[1] != MINUS_INFINITY[1];
  }

  /** A minus sign before such a numeral negates it. */
  lemma ReadNegative(body: string, v: real)
    requires |body| >= 1 && IsDigit(body[0]) && IsDigit(body[|body| - 1])
    requires UnsignedDecimal(body) == Some(v)
    ensures StringToNumber("-" + body) == Fin(-v)
  {
    NegativeTrimmed(body);
    NegativeSigned(body, v);
    NegativeFinite(body);
    NumberOfDecimal("-" + body, -v);
  }

  /** The text and the value of `x.toFixed(d)` for a negative x. */
  lemma FixedOfNegative(x: real, d: nat)
    requires x < 0.0
    ensures var n := RoundedUnits(x, d);
      ToFixed(Fin(x), d) == "-" + DecimalText(n, d) && RoundFixed(x, d) == -UnitsValue(n, d)
  {
  }

  /** The text and the value of `x.toFixed(d)` for x at least zero. */
  lemma FixedOfNonNegative(x: real, d: nat)
    requires x >= 0.0
    ensures var n := RoundedUnits(x, d);
      ToFixed(Fin(x), d) == DecimalText(n, d) && RoundFixed(x, d) == UnitsValue(n, d)
  {
    assert "" + DecimalText(RoundedUnits(x, d), d) == DecimalText(RoundedUnits(x, d), d);
  }

  /** `Number(x.toFixed(d))` is the rounded value x.toFixed(d) denotes: the printed text reads back. */
  lemma ToFixedRoundTrip(x: real, d: nat)
    ensures StringToNumber(ToFixed(Fin(x), d)) == Fin(RoundFixed(x, d))
  {
    var n := RoundedUnits(x, d);
    var body := DecimalText(n, d);
    var v := UnitsValue(n, d);
    if x < 0.0 {
      assert StringToNumber("-" + body) == Fin(-v) by {
        DecimalTextValue(n, d);
        ReadNegative(body, v);
      }
      FixedOfNegative(x, d);
    } else {
      assert StringToNumber(body) == Fin(v) by {
        DecimalTextValue(n, d);
        ReadUnsigned(body, v);
      }
      FixedOfNonNegative(x, d);
    }
  }

  /** `Number` ignores a blank before a text that neither starts nor ends with whitespace. */
  lemma NumberSkipsBlank(t: string)
    requires t != [] && !IsWhitespace(t[0]) && !IsWhitespace(t[|t| - 1])
    ensures StringToNumber(" " + t) == StringToNumber(t)
  {
    var s := " " + t;
    assert SpaceRunEnd(s, 1) == 1;
    assert s[1..] == t;
    assert TrimStart(s) == t;
    assert Trim(t) == t;
  }

  /** A run of digits is read by parseInt as its value. */
  lemma ParseIntDigits(s: string)
    requires s != [] && AllDigits(s)
    ensures ParseInt(s) == Fin(DigitsValue(s) as real)
  {
    assert IsDigit(s[0]);
    ParseIntUnsigned(s);
    DigitRunAll(s);
  }

  /** Text that starts with a digit is read by parseInt up to its first non-digit. */
  lemma ParseIntUnsigned(s: string)
    requires s != [] && IsDigit(s[0])
    ensures ParseInt(s) == Fin(DigitsValue(s[..DigitRun(s, 0)]) as real)
  {
    assert TrimStart(s) == s by {
      assert !IsWhitespace(s[0]);
    }
    assert s[0] != '-' && s[0] != '+';
  }

  /** In text made only of digits the run of digits is the whole text. */
  lemma DigitRunAll(s: string)
    requires AllDigits(s)
    ensures DigitRun(s, 0) == |s| && s[..DigitRun(s, 0)] == s
  {
  }

  /** parseInt reads back what String writes for an integer. */
  lemma ParseIntOfIntToString(i: int)
    ensures ParseInt(IntToString(i)) == FromInt(i)
  {
    if i < 0 {
      var digits := NatToString(-i);
      var s := IntToString(i);
      assert s == "-" + digits;
      assert TrimStart(s) == s;
      assert s[1..] == digits;
      var j := DigitRun(digits, 0);
      assert j == |digits|;
      assert digits[..j] == digits;
      NatToStringValue(-i);
    } else {
      ParseIntDigits(NatToString(i));
      NatToStringValue(i);
    }
  }

  /** parseFloat of text that starts with a letter (other than the `I` of `Infinity`) is NaN. */
  lemma ParseFloatOfWord(s: string)
    requires s != [] && 'a' <= s[0] <= 'z'
    ensures ParseFloat(s) == NaN
  {
    assert !IsWhitespace(s[0]);
    assert TrimStart(s) == s;
    if |s| >= 8 {
      assert s[..8][0] == s[0] != INFINITY[0];
    }
    assert !StartsWith(s, INFINITY);
    assert DigitRun(s, 0) == 0;
  }

  /** `Number(s)` of a run of digits is its value. */
  lemma StringToNumberDigits(s: string)
    requires s != [] && AllDigits(s)
    ensures StringToNumber(s) == Fin(DigitsValue(s) as real)
  {
    NoExponent(s);
    MantissaOfDigits(s);
    ReadUnsigned(s, DigitsValue(s) as real);
  }

  // ---------------- Rounding to d places ----------------

  lemma UnitsValueScale(n: nat, d: nat)
    ensures UnitsValue(n, d) >= 0.0
    ensures UnitsValue(n, d) * Pow10(d) as real == n as real
  {
    UnscaleIsQuotient(n as real, d);
  }

  /** Rounding to d places a value that already has d places changes nothing. */
  lemma RoundFixedIdempotent(x: real, d: nat)
    ensures RoundFixed(RoundFixed(x, d), d) == RoundFixed(x, d)
    ensures RoundedUnits(RoundFixed(x, d), d) == RoundedUnits(x, d)
  {
    var n := RoundedUnits(x, d);
    var r := RoundFixed(x, d);
    UnitsValueScale(n, d);
    var a := if r < 0.0 then -r else r;
    assert a == UnitsValue(n, d);
    ScaleIsProduct(a, d);
    assert Scale(a, d) + 0.5 == n as real + 0.5;
    assert RoundedUnits(r, d) == n;
  }

  /** The rounded value is negative exactly when x is negative and at least one unit of 10^-d survives. */
  lemma RoundFixedSign(x: real, d: nat)
    ensures RoundFixed(x, d) < 0.0 <==> x < 0.0 && RoundedUnits(x, d) > 0
    ensures RoundFixed(x, d) > 0.0 <==> x > 0.0 && RoundedUnits(x, d) > 0
  {
    var n := RoundedUnits(x, d);
    UnitsValueScale(n, d);
    ScaleIsProduct(if x < 0.0 then -x else x, d);
    if n > 0 {
      assert UnitsValue(n, d) > 0.0;
    } else {
      assert UnitsValue(n, d) == 0.0;
    }
  }

  lemma MulMonotone(a: real, b: real, c: real)
    requires a <= b && c >= 0.0
    ensures a * c <= b * c
  {
  }

  lemma CancelFactor(u: real, m: real, p: real)
    requires p > 0.0 && u * p <= m * p
    ensures u <= m
  {
    assert u * p - m * p == (u - m) * p;
  }

  lemma CastProduct(m: int, p: int)
    ensures (m * p) as real == m as real * p as real
  {
  }

  lemma WholeBelowHalf(n: int, k: int)
    requires n as real <= k as real + 0.5
    ensures n <= k
  {
  }

  /** Rounding x * p to the nearest whole number stays within m * p when x <= m. */
  lemma UnitsBelow(n: int, s: real, x: real, m: int, p: int)
    requires n as real <= s + 0.5 && s == x * p as real
    requires 0.0 <= x <= m as real && p >= 1
    ensures n <= m * p
  {
    MulMonotone(x, m as real, p as real);
    CastProduct(m, p);
    WholeBelowHalf(n, m * p);
  }

  /** Whole units within m * p make a value of at most m. */
  lemma UnitsAtMost(u: real, n: int, m: int, p: int)
    requires u * p as real == n as real && n <= m * p && p >= 1
    ensures u <= m as real
  {
    CastProduct(m, p);
    CancelFactor(u, m as real, p as real);
  }

  /** Rounding keeps a value inside [0, m] for a whole bound m. */
  lemma RoundFixedBetween(x: real, d: nat, m: nat)
    requires 0.0 <= x <= m as real
    ensures 0.0 <= RoundFixed(x, d) <= m as real
  {
    var p := Pow10(d);
    var n := RoundedUnits(x, d);
    assert n as real <= Scale(x, d) + 0.5;
    ScaleIsProduct(x, d);
    UnitsBelow(n, Scale(x, d), x, m, p);
    UnitsValueScale(n, d);
    UnitsAtMost(UnitsValue(n, d), n, m, p);
    assert RoundFixed(x, d) == UnitsValue(n, d);
  }

  /** `toFixed` writes a minus sign exactly for negative values. */
  lemma ToFixedSign(x: real, d: nat)
    ensures var s := ToFixed(Fin(x), d); |s| >= 1 && (s[0] == '-' <==> x < 0.0)
  {
  }

  /** A value that already has d decimals is left unchanged by rounding to d places. */
  lemma RoundFixedExact(m: nat, d: nat)
    ensures RoundFixed(UnitsValue(m, d), d) == UnitsValue(m, d)
    ensures RoundFixed(-UnitsValue(m, d), d) == -UnitsValue(m, d)
  {
    var u := UnitsValue(m, d);
    UnitsValueScale(m, d);
    ScaleIsProduct(u, d);
    assert RoundedUnits(u, d) == m;
    assert RoundedUnits(-u, d) == m;
  }

  /** `String(i)` of an integer is its plain numeral. */
  lemma NumberToStringOfInt(i: int)
    ensures NumberToString(FromInt(i)) == IntToString(i)
  {
    assert (i as real).Floor == i;
  }
}
