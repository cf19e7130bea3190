/** The details card: which rows it shows, in which order, and when it shows nothing.
    `data` is the card's input as JSON (null, or an object with optional fields). */
module WeatherDetails {
  import opened Optional
  import opened JsNumbers
  import opened JsRaw
  import opened Format

  datatype RowKind = TemperatureRow | ConditionRow | HumidityRow | WindRow | VisibilityRow | PressureRow

  /** A row of the card: what it shows and its value text. */
  datatype DetailRow = DetailRow(kind: RowKind, text: string)

  /** Position of a kind in the card's fixed order. */
  function Rank(k: RowKind): nat {
    match k
    case TemperatureRow => 0
    case ConditionRow => 1
    case HumidityRow => 2
    case WindRow => 3
    case VisibilityRow => 4
    case PressureRow => 5
  }

  predicate FiniteField(data: Raw, key: string) {
    IsFinite(ToNumber(Get(data, key)))
  }

  /** `hasAny`: a truthy condition or one finite numeric field. */
  predicate HasAny(data: Raw) {
    Truthy(Get(data, "condition"))
    || FiniteField(data, "temperature") || FiniteField(data, "humidity") || FiniteField(data, "windSpeed")
    || FiniteField(data, "visibility") || FiniteField(data, "pressure")
  }

  /** Whether the row of a kind is shown. */
  predicate Shown(data: Raw, k: RowKind) {
    match k
    case TemperatureRow => FiniteField(data, "temperature")
    case ConditionRow => Truthy(Get(data, "condition"))
    case HumidityRow => FiniteField(data, "humidity")
    case WindRow => FiniteField(data, "windSpeed")
    case VisibilityRow => FiniteField(data, "visibility")
    case PressureRow => FiniteField(data, "pressure")
  }

  /** A row of a numeric field, formatted by `fmtMaybe(v, unit)`, when the field is finite. */
  function NumberRow(data: Raw, k: RowKind, key: string, unit: string): (rs: seq<DetailRow>)
    ensures |rs| <= 1 && (rs != [] <==> FiniteField(data, key))
    ensures forall r :: r in rs ==> r.kind == k
  {
    if FiniteField(data, key) then [DetailRow(k, FmtMaybe(Get(data, key), unit, 0))] else []
  }

  /** The rows of one kind: its numeric field with its unit, or the condition text. */
  function KindRows(data: Raw, k: RowKind): (rs: seq<DetailRow>)
    ensures |rs| <= 1 && (rs != [] <==> Shown(data, k))
    ensures forall r :: r in rs ==> r.kind == k
  {
    match k
    case TemperatureRow => NumberRow(data, k, "temperature", "°C")
    case ConditionRow =>
      var condition := Get(data, "condition");
      if Truthy(condition) then [DetailRow(ConditionRow, ToStr(condition))] else []
    case HumidityRow => NumberRow(data, k, "humidity", "%")
    case WindRow => NumberRow(data, k, "windSpeed", " km/h")
    case VisibilityRow => NumberRow(data, k, "visibility", " km")
    case PressureRow => NumberRow(data, k, "pressure", " hPa")
  }

  /** `WeatherDetails({ data })`: None when the card renders nothing. */
  function DetailRows(data: Raw): (rows: Option<seq<DetailRow>>)
    ensures rows.None? <==> !Truthy(data) || !HasAny(data)
  {
    if !Truthy(data) || !HasAny(data) then None
    else
      Some(KindRows(data, TemperatureRow) + KindRows(data, ConditionRow) + KindRows(data, HumidityRow)
        + KindRows(data, WindRow) + KindRows(data, VisibilityRow) + KindRows(data, PressureRow))
  }

  /** A block of at most one row, all of the given kind. */
  predicate Block(b: seq<DetailRow>, k: RowKind) {
    |b| <= 1 && forall r :: r in b ==> r.kind == k
  }

  /** Rows strictly ordered by the rank of their kind. */
  predicate Ordered(rows: seq<DetailRow>) {
    forall i, j :: 0 <= i < j < |rows| ==> Rank(rows[i].kind) < Rank(rows[j].kind)
  }

  /** Appending the block of a later kind keeps the rows ordered. */
  lemma AppendBlock(rows: seq<DetailRow>, b: seq<DetailRow>, k: RowKind)
    requires Ordered(rows) && Block(b, k)
    requires forall r :: r in rows ==> Rank(r.kind) < Rank(k)
    ensures Ordered(rows + b)
    ensures forall r :: r in rows + b ==> Rank(r.kind) <= Rank(k)
  {
    var all := rows + b;
    forall i, j | 0 <= i < j < |all|
      ensures Rank(all[i].kind) < Rank(all[j].kind)
    {
      if j >= |rows| {
        assert all[i] in rows && all[j] in b;
      }
    }
  }

  /** The block of a kind among the six. */
  function BlockOf(k: RowKind, t: seq<DetailRow>, c: seq<DetailRow>, h: seq<DetailRow>,
                   w: seq<DetailRow>, v: seq<DetailRow>, p: seq<DetailRow>): seq<DetailRow> {
    match k
    case TemperatureRow => t
    case ConditionRow => c
    case HumidityRow => h
    case WindRow => w
    case VisibilityRow => v
    case PressureRow => p
  }

  /** Six blocks, one per kind in the fixed order, concatenate to ordered rows that hold a
      kind exactly when its block is non-empty. */
  lemma BlocksInOrder(t: seq<DetailRow>, c: seq<DetailRow>, h: seq<DetailRow>,
                      w: seq<DetailRow>, v: seq<DetailRow>, p: seq<DetailRow>)
    requires Block(t, TemperatureRow) && Block(c, ConditionRow) && Block(h, HumidityRow)
    requires Block(w, WindRow) && Block(v, VisibilityRow) && Block(p, PressureRow)
    ensures var rows := t + c + h + w + v + p;
            && |rows| <= 6
            && Ordered(rows)
            && forall k :: (exists r :: r in rows && r.kind == k) <==> BlockOf(k, t, c, h, w, v, p) != []
  {
    var rows := t + c + h + w + v + p;
    AppendBlock([], t, TemperatureRow);
    AppendBlock(t, c, ConditionRow);
    AppendBlock(t + c, h, HumidityRow);
    AppendBlock(t + c + h, w, WindRow);
    AppendBlock(t + c + h + w, v, VisibilityRow);
    AppendBlock(t + c + h + w + v, p, PressureRow);
    forall k
      ensures (exists r :: r in rows && r.kind == k) <==> BlockOf(k, t, c, h, w, v, p) != []
    {
      var blk := BlockOf(k, t, c, h, w, v, p);
      if blk != [] {
        assert blk[0] in rows;
      }
    }
  }

  lemma KindBlock(data: Raw, k: RowKind)
    ensures BlockOf(k, KindRows(data, TemperatureRow), KindRows(data, ConditionRow), KindRows(data, HumidityRow),
                    KindRows(data, WindRow), KindRows(data, VisibilityRow), KindRows(data, PressureRow))
            == KindRows(data, k)
  {
    match k
    case TemperatureRow =>
    case ConditionRow =>
    case HumidityRow =>
    case WindRow =>
    case VisibilityRow =>
    case PressureRow =>
  }

  /** Whatever the card shows is non-empty, in the fixed order, and holds the row of a kind
      exactly when that kind's value is finite (the condition: truthy). */
  lemma DetailRowsShape(data: Raw)
    requires DetailRows(data).Some?
    ensures var rows := DetailRows(data).value;
            && 1 <= |rows| <= 6
            && Ordered(rows)
            && (forall k :: Shown(data, k) <==> exists r :: r in rows && r.kind == k)
  {
    var t := KindRows(data, TemperatureRow);
    var c := KindRows(data, ConditionRow);
    var h := KindRows(data, HumidityRow);
    var w := KindRows(data, WindRow);
    var v := KindRows(data, VisibilityRow);
    var p := KindRows(data, PressureRow);
    BlocksInOrder(t, c, h, w, v, p);
    forall k
      ensures BlockOf(k, t, c, h, w, v, p) == KindRows(data, k)
    {
      KindBlock(data, k);
    }
  }

  /** Number(null) is 0: a null field is shown as a zero. */
  lemma NullFieldIsShown()
    ensures DetailRows(Obj([("humidity", Null)])) == Some([DetailRow(HumidityRow, FmtMaybe(Null, "%", 0))])
  {
    var d := Obj([("humidity", Null)]);
    OnlyHumidity(d);
    assert Get(d, "humidity") == Null;
  }

  /** An object whose only field is a finite humidity shows the humidity row alone. */
  lemma OnlyHumidity(d: Raw)
    requires d.Obj? && |d.entries| == 1 && d.entries[0].0 == "humidity" && FiniteField(d, "humidity")
    ensures DetailRows(d) == Some(KindRows(d, HumidityRow))
  {
    var x := KindRows(d, HumidityRow);
    assert Get(d, "condition") == Missing && Get(d, "temperature") == Missing;
    assert Get(d, "windSpeed") == Missing && Get(d, "visibility") == Missing && Get(d, "pressure") == Missing;
    assert DetailRows(d) == Some([] + [] + x + [] + [] + []);
    assert [] + [] + x + [] + [] + [] == x;
  }

  /** A null input, or one with no condition and no finite value, renders nothing. */
  lemma NothingToShow()
    ensures DetailRows(Null).None? && DetailRows(Missing).None?
    ensures DetailRows(Obj([("condition", Str("")), ("humidity", Obj([]))])).None?
  {
  }
}
