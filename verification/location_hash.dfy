/** The location fallback of the weather route: the 31x string hash of a place
    name, wrapped to a signed 32-bit integer after every UTF-16 code unit, and
    the pseudo-coordinates derived from it. */
module LocationHash {
  import opened JsNumbers
  import opened JsText
  import opened JsConvert

  const TWO_31: int := 0x8000_0000
  const TWO_32: int := 0x1_0000_0000

  /** ECMAScript ToInt32: x reduced modulo 2^32 into [-2^31, 2^31). */
  function Int32(x: int): (r: int)
    ensures -TWO_31 <= r < TWO_31
    ensures (r - x) % TWO_32 == 0
  {
    (x + TWO_31) % TWO_32 - TWO_31
  }

  /** The hash of the code units u, wrapped after every unit. */
  function HashOf(u: seq<int>): (h: int)
    ensures -TWO_31 <= h < TWO_31
  {
    if u == [] then 0 else Int32(31 * HashOf(u[..|u| - 1]) + u[|u| - 1])
  }

  /** The same polynomial without wrapping: the sum of u[i] * 31^(|u|-1-i). */
  function Poly(u: seq<int>): int {
    if u == [] then 0 else 31 * Poly(u[..|u| - 1]) + u[|u| - 1]
  }

  /** Congruent numbers wrap to the same int32. */
  lemma Int32Congruent(x: int, y: int)
    requires (x - y) % TWO_32 == 0
    ensures Int32(x) == Int32(y)
  {
    var k := (x - y) / TWO_32;
    assert x == y + TWO_32 * k;
    assert (x + TWO_31) % TWO_32 == (y + TWO_31) % TWO_32;
  }

  /** An affine step preserves congruence modulo 2^32. */
  lemma StepCongruent(a: int, b: int, m: int, c: int)
    requires (a - b) % TWO_32 == 0
    ensures ((m * a + c) - (m * b + c)) % TWO_32 == 0
  {
    var k := (a - b) / TWO_32;
    assert a - b == TWO_32 * k;
    assert (m * a + c) - (m * b + c) == m * (a - b);
    assert m * (a - b) == TWO_32 * (m * k);
  }

  /** Wrapping after every step is the same as wrapping once at the end. */
  lemma {:induction false} HashOfIsWrappedPoly(u: seq<int>)
    ensures HashOf(u) == Int32(Poly(u))
  {
    if u != [] {
      var p := u[..|u| - 1];
      var c := u[|u| - 1];
      HashOfIsWrappedPoly(p);
      StepCongruent(HashOf(p), Poly(p), 31, c);
      Int32Congruent(31 * HashOf(p) + c, 31 * Poly(p) + c);
    }
  }

  /** `hashStringToNumber(input)` as a value: the absolute wrapped hash of the UTF-16 code units. */
  function LocationHash(input: string): (h: nat)
    ensures h <= TWO_31
  {
    var w := HashOf(CodeUnits(input));
    if w < 0 then -w else w
  }

  /** `hashStringToNumber(input)`: `hash = (hash << 5) - hash + code unit`, then `hash |= 0`. */
  method HashStringToNumber(input: string) returns (h: int)
    ensures h == LocationHash(input)
    ensures 0 <= h <= TWO_31
  {
    var units := CodeUnits(input);
    var hash := 0;
    for i := 0 to |units|
      invariant hash == HashOf(units[..i])
    {
      var shifted := Int32(hash * 32);
      StepCongruent(shifted, hash * 32, 1, -hash + units[i]);
      hash := shifted - hash + units[i];
      Int32Congruent(hash, 31 * HashOf(units[..i]) + units[i]);
      hash := Int32(hash);
      assert units[..i + 1][..i] == units[..i];
    }
    assert units[..|units|] == units;
    h := if hash < 0 then -hash else hash;
  }

  lemma LocationHashExamples()
    ensures LocationHash("") == 0
    ensures LocationHash("a") == 97
    ensures LocationHash("ab") == 3105
  {
    assert "ab"[..1] == "a";
    assert CodeUnits("a") == [97];
    assert CodeUnits("ab") == [97, 98];
    assert [97, 98][..1] == [97];
    assert HashOf([97]) == 97;
    assert HashOf([97, 98]) == Int32(31 * 97 + 98);
  }

  datatype Coordinates = Coordinates(lat: JsNumber, lon: JsNumber)

  /** `x % 36000` on a non-negative double (the remainder of truncating division). */
  function Mod36000(x: real): (r: real)
    requires x >= 0.0
    ensures 0.0 <= r < 36000.0
  {
    x - 36000.0 * (x / 36000.0).Floor as real
  }

  /** The latitude before `toFixed(2)`: (h mod 18000) / 100 - 90. */
  function RawLatitude(h: nat): real {
    (h % 18000) as real / 100.0 - 90.0
  }

  /** The longitude before `toFixed(2)`: ((h / 18000) mod 36000) / 100 - 180. */
  function RawLongitude(h: nat): real {
    Mod36000(h as real / 18000.0) / 100.0 - 180.0
  }

  /** `deriveCoordinates(location)`: each raw coordinate rounded to two decimals
      (`Number(x.toFixed(2))`, see DeriveCoordinatesAsWritten). The latitude needs no rounding
      and lies in [-90, 89.99]; the longitude lies in [-180, 180]. */
  function DeriveCoordinates(location: string): (c: Coordinates)
    ensures c.lat == Fin(RawLatitude(LocationHash(location))) && -90.0 <= c.lat.r <= 89.99
    ensures c.lon.Fin? && -180.0 <= c.lon.r <= 180.0
  {
    var h := LocationHash(location);
    LatitudeRange(h);
    LongitudeRange(h);
    Coordinates(Fin(RoundFixed(RawLatitude(h), 2)), Fin(RoundFixed(RawLongitude(h), 2)))
  }

  /** The source's `Number(x.toFixed(2))` is the rounded value DeriveCoordinates uses. */
  lemma DeriveCoordinatesAsWritten(location: string)
    ensures var h := LocationHash(location);
            DeriveCoordinates(location) ==
              Coordinates(StringToNumber(ToFixed(Fin(RawLatitude(h)), 2)),
                          StringToNumber(ToFixed(Fin(RawLongitude(h)), 2)))
  {
    var h := LocationHash(location);
    ToFixedRoundTrip(RawLatitude(h), 2);
    ToFixedRoundTrip(RawLongitude(h), 2);
  }

  /** The fallback latitude (h mod 18000) / 100 - 90 has at most two decimals, so rounding
      keeps it, and lies in [-90, 89.99]. */
  lemma LatitudeRange(h: nat)
    ensures RoundFixed(RawLatitude(h), 2) == RawLatitude(h)
    ensures -90.0 <= RawLatitude(h) <= 89.99
  {
    var k: int := (h % 18000) as int - 9000;
    var m: nat := if k < 0 then -k else k;
    UnscaleIsQuotient(m as real, 2);
    assert UnitsValue(m, 2) == m as real / 100.0;
    RoundFixedExact(m, 2);
  }

  /** The fallback longitude lies in [-180, 180) before rounding and in [-180, 180] after. */
  lemma LongitudeRange(h: nat)
    ensures -180.0 <= RawLongitude(h) < 180.0
    ensures -180.0 <= RoundFixed(RawLongitude(h), 2) <= 180.0
  {
    var x := RawLongitude(h);
    var a := if x < 0.0 then -x else x;
    RoundFixedBetween(a, 2, 180);
    assert RoundedUnits(x, 2) == RoundedUnits(a, 2);
  }
}
