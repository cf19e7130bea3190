/** The weather animation: a decision table over the condition text and the humidity. */
module WeatherAnimation {
  import opened JsNumbers
  import opened JsText
  import opened ForecastMappers

  /** The scene drawn; `droplets` is the humidity overlay on the cloud scene. */
  datatype Animation = RainAnimation | CloudAnimation(droplets: bool) | SunnyAnimation | DryAnimation | DefaultCloud

  /** The condition mentions a word, ignoring letter case. */
  predicate Mentions(condition: string, word: string) {
    Contains(ToLower(condition), word)
  }

  predicate Rainy(condition: string) {
    Mentions(condition, "rain") || Mentions(condition, "drizzle")
  }

  /** `humidity > 70` (false for NaN). */
  predicate Humid(humidity: JsNumber) {
    Less(Fin(70.0), humidity)
  }

  /** `getAnimation()`: rain or drizzle wins whatever the humidity; humidity above 70 can only
      give rain or the cloud scene with droplets, and droplets appear exactly then; the dry
      scene needs a humidity under 30 and a condition naming neither rain, clouds nor sun. */
  function GetAnimation(condition: string, humidity: JsNumber): (a: Animation)
    ensures a == RainAnimation <==> Rainy(condition)
    ensures Humid(humidity) ==> a == RainAnimation || a == CloudAnimation(true)
    ensures a.CloudAnimation? ==> a.droplets == Humid(humidity)
    ensures a == DryAnimation ==>
              && Less(humidity, Fin(30.0)) && !Rainy(condition) && !Mentions(condition, "cloud")
              && !Mentions(condition, "clear") && !Mentions(condition, "sun")
  {
    if Rainy(condition) then RainAnimation
    else if Mentions(condition, "cloud") || Humid(humidity) then CloudAnimation(Humid(humidity))
    else if Mentions(condition, "clear") || Mentions(condition, "sun") then SunnyAnimation
    else if Less(humidity, Fin(30.0)) then DryAnimation
    else DefaultCloud
  }

  /** Otherwise clouds come next, on "cloud" or humidity above 70, with the droplets
      exactly when the humidity is above 70. */
  lemma CloudsSecond(condition: string, humidity: JsNumber)
    requires !Rainy(condition)
    ensures GetAnimation(condition, humidity).CloudAnimation? <==> Mentions(condition, "cloud") || Humid(humidity)
    ensures GetAnimation(condition, humidity).CloudAnimation? ==>
              GetAnimation(condition, humidity).droplets == Humid(humidity)
  {
  }

  /** Then "clear" or "sun" selects the sunny scene, then humidity under 30 the dry one, and
      anything else the default cloud. */
  lemma SunThenDry(condition: string, humidity: JsNumber)
    requires !Rainy(condition) && !Mentions(condition, "cloud") && !Humid(humidity)
    ensures GetAnimation(condition, humidity) == SunnyAnimation <==> Mentions(condition, "clear") || Mentions(condition, "sun")
    ensures !Mentions(condition, "clear") && !Mentions(condition, "sun") ==>
              (GetAnimation(condition, humidity) == DryAnimation <==> Less(humidity, Fin(30.0)))
    ensures !Mentions(condition, "clear") && !Mentions(condition, "sun") && !Less(humidity, Fin(30.0)) ==>
              GetAnimation(condition, humidity) == DefaultCloud
  {
  }

  /** A NaN humidity neither adds droplets nor selects the dry scene. */
  lemma NaNHumidity(condition: string)
    ensures GetAnimation(condition, NaN) != DryAnimation
    ensures GetAnimation(condition, NaN) != CloudAnimation(true)
  {
  }

  /** The conditions the forecast route produces: "Rain" and "Drizzle" select the rain scene. */
  lemma RouteRainConditions(humidity: JsNumber)
    ensures GetAnimation(ConditionName(Rain), humidity) == RainAnimation
    ensures GetAnimation(ConditionName(Drizzle), humidity) == RainAnimation
  {
    ContainsLowered("Rain", 0, "rain");
    ContainsLowered("Drizzle", 0, "drizzle");
  }

  /** "Clouds" selects the cloud scene, with droplets when the humidity is above 70. */
  lemma RouteCloudsCondition(humidity: JsNumber)
    ensures GetAnimation(ConditionName(Clouds), humidity) == CloudAnimation(Humid(humidity))
  {
    var clouds := ToLower("Clouds");
    assert clouds == "clouds";
    ContainsLowered("Clouds", 0, "cloud");
    MissingChar(clouds, "rain", 0);
    MissingChar(clouds, "drizzle", 4);
  }

  /** The words "Clear" mentions. */
  lemma ClearWords()
    ensures Mentions("Clear", "clear") && !Rainy("Clear") && !Mentions("Clear", "cloud")
  {
    var clear := ToLower("Clear");
    assert clear == "clear";
    ContainsLowered("Clear", 0, "clear");
    MissingChar(clear, "rain", 3);
    MissingChar(clear, "drizzle", 0);
    MissingChar(clear, "cloud", 2);
  }

  /** "Clear" is sunny unless the humidity is above 70, which brings the clouds back. */
  lemma RouteClearCondition(humidity: JsNumber)
    ensures GetAnimation(ConditionName(Clear), humidity) == if Humid(humidity) then CloudAnimation(true) else SunnyAnimation
  {
    ClearWords();
  }
}
