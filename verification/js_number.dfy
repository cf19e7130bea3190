/** JavaScript numbers on exact reals: a finite value, NaN, or one of the two
    infinities. IEEE-754 rounding and the sign of zero are not modelled. */
module JsNumbers {

  datatype JsNumber = Fin(r: real) | NaN | PosInf | NegInf

  function FromInt(i: int): JsNumber {
    Fin(i as real)
  }

  /** JavaScript truthiness of a number: everything but 0 and NaN. */
  predicate NumberTruthy(a: JsNumber) {
    match a
    case Fin(r) => r != 0.0
    case NaN => false
    case _ => true
  }

  /** `Number.isFinite(a)` for a number. */
  predicate IsFinite(a: JsNumber) {
    a.Fin?
  }

  predicate IsZero(a: JsNumber) {
    a.Fin? && a.r == 0.0
  }

  /** Sign of a non-NaN, non-zero number. */
  predicate Positive(a: JsNumber) {
    a == PosInf || (a.Fin? && a.r > 0.0)
  }

  function Neg(a: JsNumber): JsNumber {
    match a
    case Fin(r) => Fin(-r)
    case NaN => NaN
    case PosInf => NegInf
    case NegInf => PosInf
  }

  /** `a + b`. */
  function Add(a: JsNumber, b: JsNumber): JsNumber {
    if a.NaN? || b.NaN? then NaN
    else if a.Fin? && b.Fin? then Fin(a.r + b.r)
    else if a.Fin? then b
    else if b.Fin? then a
    else if a == b then a
    else NaN
  }

  /** `a - b`. */
  function Sub(a: JsNumber, b: JsNumber): JsNumber {
    Add(a, Neg(b))
  }

  /** `a * b`. */
  function Mul(a: JsNumber, b: JsNumber): JsNumber {
    if a.NaN? || b.NaN? then NaN
    else if a.Fin? && b.Fin? then Fin(a.r * b.r)
    else if IsZero(a) || IsZero(b) then NaN
    else if Positive(a) == Positive(b) then PosInf
    else NegInf
  }

  /** `a / b`; a zero divisor is taken as +0. */
  function Div(a: JsNumber, b: JsNumber): JsNumber {
    if a.NaN? || b.NaN? then NaN
    else if a.Fin? && b.Fin? then
      if b.r != 0.0 then Fin(a.r / b.r)
      else if a.r == 0.0 then NaN
      else if a.r > 0.0 then PosInf
      else NegInf
    else if !a.Fin? && !b.Fin? then NaN
    else if b.Fin? then (if b.r >= 0.0 then a else Neg(a))
    else Fin(0.0)
  }

  /** `a <= b` (false whenever NaN is involved). */
  predicate LessEq(a: JsNumber, b: JsNumber) {
    !a.NaN? && !b.NaN? &&
    (a == NegInf || b == PosInf || (a.Fin? && b.Fin? && a.r <= b.r))
  }

  /** `a < b` (false whenever NaN is involved). */
  predicate Less(a: JsNumber, b: JsNumber) {
    LessEq(a, b) && a != b
  }

  /** `Math.max(a, b)`: NaN if either is NaN. */
  function Max(a: JsNumber, b: JsNumber): JsNumber {
    if a.NaN? || b.NaN? then NaN else if LessEq(a, b) then b else a
  }

  /** `Math.min(a, b)`: NaN if either is NaN. */
  function Min(a: JsNumber, b: JsNumber): JsNumber {
    if a.NaN? || b.NaN? then NaN else if LessEq(a, b) then a else b
  }

  /** `Math.round`: half-way cases go towards +Infinity. */
  function Round(a: JsNumber): JsNumber {
    if a.Fin? then Fin(RoundHalfUp(a.r) as real) else a
  }

  function RoundHalfUp(x: real): (n: int)
    ensures x - 0.5 < n as real <= x + 0.5
  {
    (x + 0.5).Floor
  }

  /** `Math.abs`. */
  function Abs(a: JsNumber): JsNumber {
    match a
    case Fin(r) => Fin(if r < 0.0 then -r else r)
    case NegInf => PosInf
    case _ => a
  }

  /** `a || b` on numbers. */
  function Or(a: JsNumber, b: JsNumber): JsNumber {
    if NumberTruthy(a) then a else b
  }
}
