/** Untyped JSON as the route handler and the components read it: optional
    chaining, `??`, `Number()`, `String()`, truthiness and `Object.entries`. */
module JsRaw {
  import opened JsNumbers
  import opened JsText
  import opened JsConvert

  /** A parsed JSON value, plus `undefined` (Missing). Objects keep their key order. */
  datatype Raw =
    | Missing
    | Null
    | Num(n: JsNumber)
    | Str(s: string)
    | Bool(b: bool)
    | Obj(entries: seq<(string, Raw)>)
    | Arr(items: seq<Raw>)

  /** Index of the first entry named key, or -1. */
  function KeyIndex(entries: seq<(string, Raw)>, key: string): (i: int)
    ensures -1 <= i < |entries|
    ensures i >= 0 ==> entries[i].0 == key
    ensures forall j :: 0 <= j < |entries| && (i < 0 || j < i) ==> entries[j].0 != key
  {
    if entries == [] then -1
    else if entries[0].0 == key then 0
    else
      var i := KeyIndex(entries[1..], key);
      if i < 0 then -1 else i + 1
  }

  /** `v?.[key]`: the field of an object, `undefined` for anything else or an absent key. */
  function Get(v: Raw, key: string): (r: Raw)
    ensures !v.Obj? ==> r == Missing
    ensures v.Obj? && KeyIndex(v.entries, key) < 0 ==> r == Missing
    ensures v.Obj? && KeyIndex(v.entries, key) >= 0 ==> r == v.entries[KeyIndex(v.entries, key)].1
  {
    match v
    case Obj(entries) =>
      var i := KeyIndex(entries, key);
      if i < 0 then Missing else entries[i].1
    case _ => Missing
  }

  /** `v?.k1?.k2 ...`. */
  function Path(v: Raw, keys: seq<string>): Raw
    decreases |keys|
  {
    if keys == [] then v else Path(Get(v, keys[0]), keys[1..])
  }

  predicate IsNullish(v: Raw) {
    v.Missing? || v.Null?
  }

  /** `a ?? b`. */
  function Coalesce(a: Raw, b: Raw): (r: Raw)
    ensures IsNullish(a) ==> r == b
    ensures !IsNullish(a) ==> r == a
  {
    if IsNullish(a) then b else a
  }

  /** `String(v)`. */
  function ToStr(v: Raw): string
    decreases v
  {
    match v
    case Missing => "undefined"
    case Null => "null"
    case Num(n) => NumberToString(n)
    case Str(s) => s
    case Bool(b) => if b then "true" else "false"
    case Obj(_) => "[object Object]"
    case Arr(items) =>
      Join(seq(|items|, i requires 0 <= i < |items| =>
        if IsNullish(items[i]) then "" else ToStr(items[i])), ",")
  }

  /** A string converts to itself. */
  lemma ToStrOfStr(s: string)
    ensures ToStr(Str(s)) == s
  {
  }

  /** `Number(v)`: objects and arrays convert through their string form. */
  function ToNumber(v: Raw): JsNumber {
    match v
    case Missing => NaN
    case Null => Fin(0.0)
    case Num(n) => n
    case Str(s) => StringToNumber(s)
    case Bool(b) => if b then Fin(1.0) else Fin(0.0)
    case Obj(_) => NaN
    case Arr(_) => StringToNumber(ToStr(v))
  }

  /** JavaScript truthiness. */
  predicate Truthy(v: Raw) {
    match v
    case Missing => false
    case Null => false
    case Num(n) => NumberTruthy(n)
    case Str(s) => s != ""
    case Bool(b) => b
    case Obj(_) => true
    case Arr(_) => true
  }

  /** `Object.entries(v)`: own keys in order; array and string indices become keys. */
  function Entries(v: Raw): (es: seq<(string, Raw)>)
    ensures v.Obj? ==> es == v.entries
    ensures v.Arr? ==> |es| == |v.items|
  {
    match v
    case Obj(entries) => entries
    case Arr(items) => seq(|items|, i requires 0 <= i < |items| => (NatToString(i), items[i]))
    case Str(s) => seq(|s|, i requires 0 <= i < |s| => (NatToString(i), Str([s[i]])))
    case _ => []
  }

  /** `Object.values(v)`. */
  function Values(v: Raw): (vs: seq<Raw>)
    ensures |vs| == |Entries(v)| && forall i :: 0 <= i < |vs| ==> vs[i] == Entries(v)[i].1
  {
    var es := Entries(v);
    seq(|es|, i requires 0 <= i < |es| => es[i].1)
  }
}
