/** The agricultural dashboard of `server.py`: the crop metrics, the climate label handed to the
    recommendation generator, the confidence-to-priority mapping, the daily forecast reduction, the
    weather icon and the alerts. Temperatures (°F), humidity (%), rain (inches) and UV are `real`s. */
module Server {
  import opened Optional
  import opened Text
  import opened Values
  import opened AiClient

  // ----- Crop metrics -----

  /** The base temperature of the growing-degree-days formula. */
  const BaseTemp: real := 50.0

  /** The daily mean temperature. */
  function MeanTemp(tempMax: real, tempMin: real): real {
    (tempMax + tempMin) / 2.0
  }

  /** `calculate_growing_degree_days`: the excess of the mean temperature over the base, never negative. */
  function GrowingDegreeDays(tempMax: real, tempMin: real, base: real): (gdd: real)
    ensures gdd >= 0.0 && gdd >= MeanTemp(tempMax, tempMin) - base
    ensures gdd == 0.0 || gdd == MeanTemp(tempMax, tempMin) - base
    ensures gdd == 0.0 <==> MeanTemp(tempMax, tempMin) <= base
  {
    var excess := MeanTemp(tempMax, tempMin) - base;
    if excess > 0.0 then excess else 0.0
  }

  /** A warmer mean never accumulates fewer degree days. */
  lemma GrowingDegreeDaysMonotone(tempMax: real, tempMin: real, tempMax': real, tempMin': real, base: real)
    requires MeanTemp(tempMax, tempMin) <= MeanTemp(tempMax', tempMin')
    ensures GrowingDegreeDays(tempMax, tempMin, base) <= GrowingDegreeDays(tempMax', tempMin', base)
  {
  }

  /** The three frost-risk classes, shown as "High Risk", "Moderate Risk" and "Low Risk". */
  datatype Risk = HighRisk | ModerateRisk | LowRisk {
    function Name(): string {
      match this
      case HighRisk => "High Risk"
      case ModerateRisk => "Moderate Risk"
      case LowRisk => "Low Risk"
    }
  }

  /** `assess_frost_risk`: high for a freezing night with humid air, else moderate up to 36 °F, else low. */
  function FrostRisk(tempMin: real, humidity: real): (r: Risk)
    ensures r == HighRisk <==> tempMin <= 32.0 && humidity > 80.0
    ensures r == ModerateRisk <==> tempMin <= 36.0 && !(tempMin <= 32.0 && humidity > 80.0)
    ensures r == LowRisk <==> tempMin > 36.0
  {
    if tempMin <= 32.0 && humidity > 80.0 then HighRisk
    else if tempMin <= 36.0 then ModerateRisk
    else LowRisk
  }

  /** The names of the risk classes are distinct, so comparing names is comparing classes. */
  lemma RiskNamesDistinct(a: Risk, b: Risk)
    ensures a.Name() == b.Name() <==> a == b
  {
    assert |HighRisk.Name()| == 9 && |ModerateRisk.Name()| == 13 && |LowRisk.Name()| == 8;
  }

  /** One reading in each class: a freezing humid night, a cold one, and a mild one. */
  lemma FrostRiskExamples()
    ensures FrostRisk(31.0, 85.0) == HighRisk && FrostRisk(35.0, 50.0) == ModerateRisk
    ensures FrostRisk(40.0, 50.0) == LowRisk && FrostRisk(30.0, 80.0) == ModerateRisk
  {
  }

  /** A level "Low", "Medium" or "High", used for irrigation need and for priorities. */
  datatype Level = Low | Medium | High {
    function Name(): string {
      match this
      case Low => "Low"
      case Medium => "Medium"
      case High => "High"
    }
  }

  /** `get_irrigation_need`: low after more than half an inch of rain, whatever else holds; otherwise high
      for dry air on a hot day, medium for moderately dry air, and low otherwise. */
  function IrrigationNeed(humidity: real, precipitation: real, temp: real): (r: Level)
    ensures precipitation > 0.5 ==> r == Low
    ensures r == High <==> precipitation <= 0.5 && humidity < 40.0 && temp > 80.0
    ensures r == Medium <==> precipitation <= 0.5 && humidity < 60.0 && !(humidity < 40.0 && temp > 80.0)
    ensures r == Low <==> precipitation > 0.5 || humidity >= 60.0
  {
    if precipitation > 0.5 then Low
    else if humidity < 40.0 && temp > 80.0 then High
    else if humidity < 60.0 then Medium
    else Low
  }

  /** The dashboard's current metrics: degree days, frost risk and irrigation need of today's reading.
      The irrigation need is computed with no rain, so rain never lowers it. */
  datatype CurrentMetrics = CurrentMetrics(gdd: real, frostRisk: Risk, irrigationNeed: Level)

  function Current(tempMax: real, tempMin: real, humidity: real, temp: real): (m: CurrentMetrics)
    ensures m.gdd == GrowingDegreeDays(tempMax, tempMin, BaseTemp)
    ensures m.frostRisk == FrostRisk(tempMin, humidity)
    ensures m.irrigationNeed == IrrigationNeed(humidity, 0.0, temp)
  {
    CurrentMetrics(GrowingDegreeDays(tempMax, tempMin, BaseTemp), FrostRisk(tempMin, humidity),
                   IrrigationNeed(humidity, 0.0, temp))
  }

  /** Today's irrigation need depends on humidity and temperature only: low exactly when humidity is at least 60%. */
  lemma CurrentIrrigationByHumidity(tempMax: real, tempMin: real, humidity: real, temp: real)
    ensures var need := Current(tempMax, tempMin, humidity, temp).irrigationNeed;
      && (need == High <==> humidity < 40.0 && temp > 80.0)
      && (need == Low <==> humidity >= 60.0)
  {
  }

  // ----- The climate label -----

  /** `weather_data.get('weather', [{}])[0].get('main', '').lower()`; `None` where the expression raises:
      the reading is not a dict, the list is empty or not a list, or its first item or `main` has the wrong type. */
  function MainCondition(weather: Json): (c: Option<string>)
    ensures c.Some? ==> weather.JObject? && Lower(c.value) == c.value
    ensures !weather.JObject? ==> c.None?
    ensures weather.JObject? && "weather" !in weather.fields ==> c == Some("")
    ensures weather.JObject? && "weather" in weather.fields ==>
      var w := weather.fields["weather"];
      if w.JArray? && |w.items| > 0 && w.items[0].JObject? then
        var first := w.items[0].fields;
        if "main" !in first then c == Some("")
        else if first["main"].JString? then c == Some(Lower(first["main"].s))
        else c.None?
      else c.None?
  {
    if !weather.JObject? then None
    else
      match Get(weather, "weather").GetOr(JArray([JObject(map[])]))
      case JArray(items) =>
        if |items| == 0 || !items[0].JObject? then None
        else
          (match Get(items[0], "main").GetOr(JString(""))
           case JString(s) => LowerIdempotent(s); Some(Lower(s))
           case _ => None)
      case _ => None
  }

  /** `weather_data['main']['temp']`; `None` where a key is missing or `main` is not a dict. */
  function CurrentTemp(weather: Json): (t: Option<Json>)
    ensures t.Some? <==> (weather.JObject? && "main" in weather.fields
      && weather.fields["main"].JObject? && "temp" in weather.fields["main"].fields)
    ensures t.Some? ==> t.value == weather.fields["main"].fields["temp"]
  {
    match Get(weather, "main")
    case Some(m) => Get(m, "temp")
    case None => None
  }

  /** A condition that the label classifier reads as sunny. */
  predicate Sunny(c: string) {
    Contains(c, "clear") || Contains(c, "sun")
  }

  /** The label rules, first match wins: rain words; then snow or at most 36 °F; then clear or sun; else
      the condition itself, or "moderate" for an empty condition. `None` where `temp <= 36` raises
      (a temperature that is not a number); that comparison is only made once rain and snow are ruled out. */
  function Classify(c: string, temp: Json): (name: Option<string>)
    ensures RainWord(c) ==> name == Some("rain")
    ensures !RainWord(c) && Contains(c, "snow") ==> name == Some("winter")
    ensures !RainWord(c) && !Contains(c, "snow") ==>
      match AsNumber(temp)
      case None => name.None?
      case Some(t) =>
        && (t <= 36.0 ==> name == Some("winter"))
        && (t > 36.0 && Sunny(c) ==> name == Some("sunny"))
        && (t > 36.0 && !Sunny(c) ==> name == Some(if c == "" then "moderate" else c))
  {
    if RainWord(c) then Some("rain")
    else if Contains(c, "snow") then Some("winter")
    else match AsNumber(temp)
      case None => None
      case Some(t) =>
        if t <= 36.0 then Some("winter")
        else if Sunny(c) then Some("sunny")
        else if c == "" then Some("moderate")
        else Some(c)
  }

  /** The label of a reading, or `None` where deriving it raises. */
  function ClimateLabelOf(weather: Json): (name: Option<string>)
    ensures MainCondition(weather).None? || CurrentTemp(weather).None? ==> name.None?
    ensures MainCondition(weather).Some? && CurrentTemp(weather).Some?
      ==> name == Classify(MainCondition(weather).value, CurrentTemp(weather).value)
  {
    match MainCondition(weather)
    case None => None
    case Some(c) =>
      match CurrentTemp(weather)
      case None => None
      case Some(t) => Classify(c, t)
  }

  /** Rain takes precedence over everything else: the temperature, even a missing number, plays no part. */
  lemma RainIgnoresTemperature(c: string, t1: Json, t2: Json)
    requires RainWord(c)
    ensures Classify(c, t1) == Classify(c, t2) == Some("rain")
  {
  }

  /** "light rain" is rain, whatever the temperature. */
  lemma LightRainExample(t: Json)
    ensures Classify("light rain", t) == Some("rain")
  {
    ContainsAt("light rain", "rain", 6);
  }

  /** "snow" is winter at any temperature. */
  lemma SnowExample(t: Json)
    ensures Classify("snow", t) == Some("winter")
  {
    var s := "snow";
    MissingChar(s, "rain", 0);
    MissingChar(s, "drizzle", 0);
    MissingChar(s, "thunderstorm", 0);
    assert StartsWith(s, "snow");
  }

  /** "clear" at 70 °F is sunny. */
  lemma ClearExample()
    ensures Classify("clear", JInt(70)) == Some("sunny")
  {
    var c := "clear";
    MissingChar(c, "rain", 2);
    MissingChar(c, "drizzle", 0);
    MissingChar(c, "thunderstorm", 0);
    MissingChar(c, "snow", 0);
    assert StartsWith(c, "clear");
  }

  /** An empty condition at 50 °F is "moderate". */
  lemma EmptyConditionExample()
    ensures Classify("", JInt(50)) == Some("moderate")
  {
    ShorterNotContains("", "rain");
    ShorterNotContains("", "drizzle");
    ShorterNotContains("", "thunderstorm");
    ShorterNotContains("", "snow");
    ShorterNotContains("", "clear");
    ShorterNotContains("", "sun");
  }

  /** Every label is one of "rain", "winter", "sunny" or "moderate", or else the condition itself, which then
      is non-empty and mentions none of rain, drizzle, thunderstorm, snow, clear or sun. */
  lemma LabelShape(c: string, temp: Json)
    requires Classify(c, temp).Some?
    ensures var name := Classify(c, temp).value;
      || name in {"rain", "winter", "sunny", "moderate"}
      || (name == c && c != "" && !RainWord(c) && !Contains(c, "snow") && !Sunny(c))
  {
  }

  /** The classifier and the fallback table agree on rain: the label is read by the table as rain exactly
      when the condition was. The "winter" and "sunny" labels use the winter and sunny rows. */
  lemma LabelRowAgrees(c: string, temp: Json)
    requires Lower(c) == c && Classify(c, temp).Some?
    ensures var name := Classify(c, temp).value;
      && (BucketOf(name) == RainBucket <==> RainWord(c))
      && (name == "winter" ==> BucketOf(name) == WinterBucket)
      && (name == "sunny" ==> BucketOf(name) == SunnyBucket)
  {
    var name := Classify(c, temp).value;
    if name == "rain" {
      BucketOfRain();
    } else if name == "winter" {
      BucketOfWinter();
    } else if name == "sunny" {
      BucketOfSunny();
    } else if name == "moderate" {
      ModerateNotRainy();
    } else {
      assert name == c;
    }
  }

  /** "moderate" has none of the rain words. */
  lemma ModerateNotRainy()
    ensures Lower("moderate") == "moderate" && !RainWord("moderate")
  {
    LowerUnchanged("moderate");
    MissingChar("moderate", "rain", 2);
    NoStartMatch("moderate", "drizzle");
    ShorterNotContains("moderate", "thunderstorm");
  }

  // ----- Priorities and the analysis -----

  /** `_priority_from_conf`: "Medium" where `int(c)` raises, else by the thresholds 80 and 60. */
  function PriorityFromConf(c: Json): (p: Level)
    ensures ToInt(c).None? ==> p == Medium
    ensures ToInt(c).Some? ==> var n := ToInt(c).value;
      && (p == High <==> n >= 80)
      && (p == Medium <==> 60 <= n < 80)
      && (p == Low <==> n < 60)
  {
    match ToInt(c)
    case None => Medium
    case Some(n) => if n >= 80 then High else if n >= 60 then Medium else Low
  }

  /** One analysis entry of the dashboard: a recommendation and its priority. */
  datatype Advice = Advice(recommendation: string, priority: Level)

  /** The priorities of an analysis, in the order irrigation, pest, field, crop. */
  function Priorities(r: Report<Advice>): seq<Level> {
    [r.irrigation.priority, r.pest.priority, r.field.priority, r.crop.priority]
  }

  /** An entry of the generator's report, with its confidence turned into a priority. */
  function Prioritize(rec: Recommendation): (a: Advice)
    ensures a.recommendation == rec.text
    ensures a.priority == PriorityFromConf(JInt(rec.confidence))
  {
    Advice(rec.text, PriorityFromConf(JInt(rec.confidence)))
  }

  const FixedIrrigation := "Monitor soil moisture and delay irrigation if rain is expected."
  const FixedPest := "Inspect fields for pests and disease if warm/wet conditions persist."
  const FixedField := "Avoid heavy machinery during wet soil conditions to prevent compaction."
  const FixedCrop := "Adjust fertilization and scouting based on crop stage."

  /** The analysis returned when deriving the label or generating the recommendations raises. */
  function FixedAnalysis(): (r: Report<Advice>)
    ensures Priorities(r) == [Medium, Medium, Low, Medium]
  {
    Report(Advice(FixedIrrigation, Medium), Advice(FixedPest, Medium),
           Advice(FixedField, Low), Advice(FixedCrop, Medium))
  }

  /** The generator's report with each confidence turned into a priority. */
  function PrioritizeAll(ai: Report<Recommendation>): (r: Report<Advice>)
    ensures |Priorities(r)| == 4
    ensures forall k :: 0 <= k < 4 ==> Priorities(r)[k] == PriorityFromConf(JInt(Confidences(ai)[k]))
    ensures r.irrigation.recommendation == ai.irrigation.text && r.pest.recommendation == ai.pest.text
    ensures r.field.recommendation == ai.field.text && r.crop.recommendation == ai.crop.text
  {
    Report(Prioritize(ai.irrigation), Prioritize(ai.pest), Prioritize(ai.field), Prioritize(ai.crop))
  }

  /** `get_ai_agricultural_analysis`: the generator's report for the reading's label with priorities in place
      of confidences, or the fixed analysis where deriving the label raises. The generator's inputs other
      than the label and the city (environment, client library, call outcome, decoder) are parameters. */
  function AgriculturalAnalysis(weather: Json, city: string, env: Env, clientLoaded: bool,
                                call: CallOutcome, loads: string -> Option<Json>): (r: Report<Advice>)
    ensures ClimateLabelOf(weather).None? ==> r == FixedAnalysis()
    ensures ClimateLabelOf(weather).Some? ==>
      r == PrioritizeAll(GenerateAiAnalysis(ClimateLabelOf(weather).value, city, env, clientLoaded, call, loads))
  {
    match ClimateLabelOf(weather)
    case None => FixedAnalysis()
    case Some(climate) => PrioritizeAll(GenerateAiAnalysis(climate, city, env, clientLoaded, call, loads))
  }

  /** Confidences of at least 80 all become "High". */
  lemma HighConfidencesAllHigh(ai: Report<Recommendation>)
    requires forall c <- Confidences(ai) :: 80 <= c
    ensures Priorities(PrioritizeAll(ai)) == [High, High, High, High]
  {
    var cs := Confidences(ai);
    assert cs[0] in cs && cs[1] in cs && cs[2] in cs && cs[3] in cs;
    HighAbove80(ai.irrigation.confidence);
    HighAbove80(ai.pest.confidence);
    HighAbove80(ai.field.confidence);
    HighAbove80(ai.crop.confidence);
  }

  /** A confidence of at least 80 is "High". */
  lemma HighAbove80(n: int)
    requires n >= 80
    ensures PriorityFromConf(JInt(n)) == High
  {
    assert ToInt(JInt(n)) == Some(n);
  }

  /** Without an external generator every priority is "High": the fallback table's confidences are all at
      least 80. */
  lemma UnconfiguredAllHigh(weather: Json, city: string, env: Env, clientLoaded: bool,
                            call: CallOutcome, loads: string -> Option<Json>)
    requires ClimateLabelOf(weather).Some? && !Configured(env, clientLoaded)
    ensures Priorities(AgriculturalAnalysis(weather, city, env, clientLoaded, call, loads)) == [High, High, High, High]
  {
    var ai := GenerateAiAnalysis(ClimateLabelOf(weather).value, city, env, clientLoaded, call, loads);
    HighConfidencesAllHigh(ai);
  }

  /** Whatever happens, every priority is one of the three levels named "High", "Medium" and "Low". */
  lemma PriorityNames(c: Json)
    ensures PriorityFromConf(c).Name() in {"High", "Medium", "Low"}
  {
  }

  // ----- The daily forecast -----

  /** One entry of the forecast list, as read by the reducer: `dt`, `dt_txt`, `main.temp_max`, `main.temp_min`,
      `main.humidity`, the optional `rain` dict, `wind.speed` and `weather[0].description`. */
  datatype ForecastPoint = ForecastPoint(
    dt: int, dtText: string, tempMax: real, tempMin: real, humidity: real,
    rain: Option<map<string, real>>, windSpeed: real, description: string)

  /** One day of the dashboard's forecast table. The formatted date is left out; `dt` is the timestamp it
      is made from. */
  datatype DailySummary = DailySummary(
    date: string, dt: int, tempMax: real, tempMin: real, humidity: real, precipitation: real,
    windSpeed: real, gdd: real, frostRisk: Risk, weather: string, weatherIcon: string)

  function Min(a: int, b: int): int {
    if a <= b then a else b
  }

  /** `day_data.get('rain', {}).get('3h', 0)`: the three-hour rain, 0 when either key is absent. */
  function Precipitation(p: ForecastPoint): (r: real)
    ensures p.rain.None? ==> r == 0.0
    ensures p.rain.Some? && "3h" !in p.rain.value ==> r == 0.0
    ensures p.rain.Some? && "3h" in p.rain.value ==> r == p.rain.value["3h"]
  {
    match p.rain
    case None => 0.0
    case Some(m) => if "3h" in m then m["3h"] else 0.0
  }

  /** `dt_txt[:10]`: the first ten characters, or all of a shorter text. */
  function DatePart(dtText: string): (d: string)
    ensures |d| == Min(|dtText|, 10) && d == dtText[..|d|]
  {
    dtText[..Min(|dtText|, 10)]
  }

  /** The day entry the reducer builds from one forecast point. */
  function Summarize(p: ForecastPoint): (s: DailySummary)
    ensures s.gdd == GrowingDegreeDays(p.tempMax, p.tempMin, BaseTemp)
    ensures s.frostRisk == FrostRisk(p.tempMin, p.humidity)
    ensures s.precipitation == Precipitation(p) && s.date == DatePart(p.dtText)
    ensures s.weatherIcon == "cloud-sun"
  {
    DailySummary(DatePart(p.dtText), p.dt, p.tempMax, p.tempMin, p.humidity, Precipitation(p), p.windSpeed,
                 GrowingDegreeDays(p.tempMax, p.tempMin, BaseTemp), FrostRisk(p.tempMin, p.humidity),
                 p.description, "cloud-sun")
  }

  /** The forecast covers at most seven days of eight three-hour points each. */
  const MaxPoints := 56
  const Stride := 8

  /** The number of days the reducer produces from `n` points: one per started block of eight, at most seven. */
  function DayCount(n: nat): nat {
    (Min(n, MaxPoints) + Stride - 1) / Stride
  }

  /** The day count is `ceil(min(n, 56) / 8)`, at most 7, and 0 only for an empty forecast. */
  lemma DayCountBounds(n: nat)
    ensures DayCount(n) <= 7
    ensures n > 0 ==> Stride * (DayCount(n) - 1) < Min(n, MaxPoints) <= Stride * DayCount(n)
    ensures DayCount(n) == 0 <==> n == 0
  {
  }

  /** The usual five-day, forty-point forecast gives five days; anything from 49 points on gives seven. */
  lemma DayCountExamples(n: nat)
    ensures DayCount(40) == 5
    ensures n >= 49 ==> DayCount(n) == 7
  {
  }

  /** The reducer loop: every eighth point of the first 56, turned into a day entry and four chart series
      (mean temperature, humidity, degree days and the timestamps the chart labels are formatted from). */
  method ReduceForecast(points: seq<ForecastPoint>)
    returns (daily: seq<DailySummary>, temps: seq<real>, humidities: seq<real>, gdds: seq<real>, labels: seq<int>)
    ensures |daily| == DayCount(|points|)
    ensures |temps| == |daily| && |humidities| == |daily| && |gdds| == |daily| && |labels| == |daily|
    ensures forall k :: 0 <= k < |daily| ==> Stride * k < |points| && daily[k] == Summarize(points[Stride * k])
    ensures forall k :: 0 <= k < |daily| ==> var p := points[Stride * k];
      && temps[k] == MeanTemp(p.tempMax, p.tempMin)
      && humidities[k] == p.humidity
      && gdds[k] == GrowingDegreeDays(p.tempMax, p.tempMin, BaseTemp)
      && labels[k] == p.dt
  {
    var n := Min(|points|, MaxPoints);
    daily, temps, humidities, gdds, labels := [], [], [], [], [];
    var i := 0;
    while i < n
      invariant i == Stride * |daily| && i <= n + Stride - 1
      invariant |temps| == |daily| && |humidities| == |daily| && |gdds| == |daily| && |labels| == |daily|
      invariant forall k :: 0 <= k < |daily| ==> Stride * k < n && daily[k] == Summarize(points[Stride * k])
      invariant forall k :: 0 <= k < |daily| ==> var p := points[Stride * k];
        && temps[k] == MeanTemp(p.tempMax, p.tempMin)
        && humidities[k] == p.humidity
        && gdds[k] == GrowingDegreeDays(p.tempMax, p.tempMin, BaseTemp)
        && labels[k] == p.dt
      decreases n - i
    {
      var day := points[i];
      var gdd := GrowingDegreeDays(day.tempMax, day.tempMin, BaseTemp);
      var risk := FrostRisk(day.tempMin, day.humidity);
      daily := daily + [DailySummary(DatePart(day.dtText), day.dt, day.tempMax, day.tempMin, day.humidity,
                                     Precipitation(day), day.windSpeed, gdd, risk, day.description, "cloud-sun")];
      temps := temps + [MeanTemp(day.tempMax, day.tempMin)];
      humidities := humidities + [day.humidity];
      gdds := gdds + [gdd];
      labels := labels + [day.dt];
      i := i + Stride;
    }
    DayCountOfStride(|points|, |daily|);
  }

  /** A stride count that overshoots the limit by less than one stride is the day count. */
  lemma DayCountOfStride(n: nat, m: nat)
    requires Min(n, MaxPoints) <= Stride * m <= Min(n, MaxPoints) + Stride - 1
    ensures m == DayCount(n)
  {
  }

  // ----- The weather icon and the alerts -----

  /** `weather_icon_map`: the Font Awesome icon for each of five condition names. */
  const IconMap: map<string, string> :=
    map["clear" := "sun", "clouds" := "cloud", "rain" := "cloud-rain", "snow" := "snowflake", "thunderstorm" := "bolt"]

  /** The icon for the current condition, looked up after lower-casing, "cloud-sun" for any other condition. */
  function WeatherIcon(main: string): (icon: string)
    ensures Lower(main) in IconMap ==> icon == IconMap[Lower(main)]
    ensures Lower(main) !in IconMap ==> icon == "cloud-sun"
  {
    var c := Lower(main);
    if c in IconMap then IconMap[c] else "cloud-sun"
  }

  /** The icon falls back to "cloud-sun" exactly for the conditions outside the map: no mapped icon is "cloud-sun". */
  lemma WeatherIconFallback(main: string)
    ensures WeatherIcon(main) == "cloud-sun" <==> Lower(main) !in IconMap
  {
    assert forall k <- IconMap :: IconMap[k] != "cloud-sun" by {
      assert "snowflake"[0] != "cloud-sun"[0];
    }
  }

  /** The icon ignores the case of the condition: "Rain" and "rain" both give "cloud-rain". */
  lemma WeatherIconIgnoresCase(a: string, b: string)
    requires Lower(a) == Lower(b)
    ensures WeatherIcon(a) == WeatherIcon(b)
  {
  }

  /** `get_uv_index`'s result: the reply's `value`, or 0 when the request or the lookup fails. */
  function UvIndex(reply: Option<Json>): (uv: Json)
    ensures reply.Some? && reply.value.JObject? && "value" in reply.value.fields ==> uv == reply.value.fields["value"]
    ensures !(reply.Some? && reply.value.JObject? && "value" in reply.value.fields) ==> uv == JInt(0)
  {
    match reply
    case Some(JObject(m)) => if "value" in m then m["value"] else JInt(0)
    case _ => JInt(0)
  }

  /** An alert shown on the dashboard. */
  datatype Severity = Danger | Warning
  datatype Alert = Alert(severity: Severity, icon: string, message: string)

  const FrostAlert := Alert(Danger, "exclamation-triangle", "Frost Warning: Protect sensitive crops tonight!")

  /** The UV alert; `uvText` is the UV index as Python prints it. */
  function UvAlert(uvText: string): Alert {
    Alert(Warning, "sun", "High UV Index (" + uvText + "): Limit field work during midday")
  }

  /** The alert list: the frost warning for a high frost risk, then the UV warning for a UV index above 7. */
  method ComposeAlerts(frost: Risk, uv: real, uvText: string) returns (alerts: seq<Alert>)
    ensures |alerts| <= 2
    ensures FrostAlert in alerts <==> frost == HighRisk
    ensures UvAlert(uvText) in alerts <==> uv > 7.0
    ensures |alerts| == (if frost == HighRisk then 1 else 0) + (if uv > 7.0 then 1 else 0)
    ensures frost == HighRisk ==> alerts[0] == FrostAlert
    ensures uv > 7.0 ==> alerts[|alerts| - 1] == UvAlert(uvText)
  {
    alerts := [];
    if frost == HighRisk {
      alerts := alerts + [FrostAlert];
    }
    if uv > 7.0 {
      alerts := alerts + [UvAlert(uvText)];
    }
  }
}
