# Agricultural weather dashboard: a Dafny model

This project models the core of a small Flask weather dashboard for farmers. It has two parts.

- `server.py` turns a weather reading and a forecast into crop metrics:
  - growing degree days, frost risk and irrigation need;
  - a one-word climate label;
  - a per-day forecast table with chart series;
  - a weather icon and a list of alerts.

  It asks `ai_client.py` for four recommendations (irrigation, pest, field, crop) and maps each confidence to a priority.
- `ai_client.py` decides whether an external text generator is configured. It cleans up and normalises the reply. Whenever anything goes wrong, it falls back to a fixed table of recommendations indexed by the climate label.

The model is split into five modules:

- `Optional` (`optional.dfy`) holds the option type.
- `Text` (`text.dfy`) holds the Python string operations the code relies on. These are `lower()`, the `in` substring test, `startswith`, `strip()`, `find` and `split(sep)`. It proves facts about them, such as that `sep.join(s.split(sep)) == s`.
- `Values` (`values.dfy`) holds the values that `json.loads` produces, and Python's `int(v)` and numeric comparison on them. `int()` of a string is modelled with its own whitespace set, `_` separators and the default 4300-digit limit. It also proves that `int(str(n)) == n` within that limit.
- `AiClient` (`ai_client.dfy`) models `ai_client.py`:
  - the configuration gate and the fallback table;
  - the fence clean-up, both as the source's loop and as a specification function;
  - the normaliser and the control flow of `generate_ai_analysis`.
- `Server` (`server.py`'s model, in `server.dfy`) holds:
  - the metric functions and the climate label;
  - the priority mapping and the analysis with its fixed fallback;
  - the forecast reducer, as a method with a loop;
  - the icon lookup and the alert composition.

Some things the source does are inputs to the model:

- Everything that raises in the source becomes an `Option` that is `None` on that path.
- The external chat call is an input: a `CallOutcome`, which either raised or replied with a text.
- `json.loads` is an input function `string -> Option<Json>`, with `None` for a decoding error.
- The environment is a map from variable names to values.
- Whether the `openai` library could be imported is a boolean input.

Three behaviours of the code are easy to miss, and the model keeps each of them:

- **A reply with a missing top-level key is accepted.** `data.get(key, {})` normalises the missing entry to an empty recommendation with confidence 50 (`AiClient.Entry`, `AiClient.EmptyObjectAccepted`).
- **Confidences are not checked against 0..100.** An integer confidence such as 150 is kept (`AiClient.ConfidenceNotClamped`).
- **A forecast without a `list` raises** at `forecast['list']`. The reducer here takes the list itself, so this case is outside the model.

## Model

| member | source | states |
|---|---|---|
| Text.StartsWithIff | ai_client.py:178 | `s.startswith(p)` holds exactly when `s` is at least as long as `p` and agrees with it at every position of `p` |
| Text.ContainsIff | server.py:68 | `p in s` holds exactly when `p` occurs in `s` at some position |
| Text.ContainsAt | server.py:68 | an occurrence of `p` at any position makes `p in s` true |
| Text.ContainsWitness | server.py:68 | `p in s` yields a position at which `p` occurs |
| Text.Lower | ai_client.py:21 | `lower()` keeps the length and maps the capital ASCII letters at every position to lower case |
| Text.LowerIdempotent | server.py:65 | lower-casing the already lower-cased condition again (as the fallback table does) changes nothing |
| Text.Strip | ai_client.py:184 | `strip()` is a slice of the text with only whitespace before and after it, and it neither starts nor ends with whitespace |
| Text.Find | ai_client.py:180 | the position found holds the separator, no earlier position does, and there is none exactly when the separator does not occur |
| Text.Split | ai_client.py:180 | `split(sep)` always yields at least one piece |
| Text.SplitJoin | ai_client.py:180 | joining the pieces of `split(sep)` with `sep` gives back the original text |
| Text.SplitPiecesFree | ai_client.py:180 | no piece of `split(sep)` contains `sep` |
| Values.Get | ai_client.py:198 | `d.get(key)` is present exactly for a dict holding the key, and then is its value |
| Values.Truncate | ai_client.py:194 | `int()` of a float rounds toward zero: the result is within one of the input, on the same side of zero |
| Values.ParseInt | ai_client.py:194 | `int()` of a string skips the whitespace that `int()` skips. It then accepts exactly a numeral, "+" and a numeral, or "-" and a numeral, with the value of the digits and the sign applied; anything else raises. A numeral is digits with single `_` separators between them, at most 4300 digits in all |
| Values.IntStrip | ai_client.py:194 | the text `int()` reads is a slice of the string with only `int()` whitespace around it, and it neither starts nor ends with such whitespace |
| Values.NumeralOfDigits | ai_client.py:194 | plain digits are a numeral exactly when there are at most 4300 of them |
| Values.SeparatorNotSkipped | ai_client.py:194 | `strip()` removes U+001C around "85", but `int()` of that text raises |
| Values.GroupedDigits | ai_client.py:194 | `int("1_000") == 1000` |
| Values.MisplacedSeparator | ai_client.py:194 | `int()` of "1__000" and of "_1" raises |
| Values.ToInt | ai_client.py:194 | `int(v)` keeps integers, maps booleans to 1/0, truncates floats, reads strings as `Values.ParseInt` does, and raises for null, lists and dicts |
| Values.AsNumber | server.py:70 | a reading can be compared with 36 exactly when it is an integer, a float or a boolean, and it compares as its own value (a boolean as 1 or 0) |
| Values.IntOfDecimalText | ai_client.py:194 | `int(str(n)) == n`, also with `int()` whitespace around the digits, when `str(n)` has at most 4300 digits; with more, `int()` raises |
| Values.IntOfNegativeDecimalText | ai_client.py:194 | `int("-" + str(n)) == -n` when `str(n)` has at most 4300 digits; with more, `int()` raises |
| AiClient.GetEnv | ai_client.py:13 | `os.getenv(name, default)` is the variable's value when it is set, and the default otherwise |
| AiClient.ApiKey | ai_client.py:11-16 | no key unless `USE_EXTERNAL_AI` is "true" in any case; then `OPENAI_API_KEY` unless it is unset or empty, else `OPENAI_KEY` |
| AiClient.Configured | ai_client.py:115-117 | the external path is taken exactly when the client library loaded, external generation is on, and one of the two key variables is set and non-empty |
| AiClient.BucketOf | ai_client.py:21-81 | the fallback row is chosen on the lower-cased label, first match wins: rain/drizzle/thunderstorm, then winter/snow/cold, then sunny/clear, else the default row (each row stated as an if-and-only-if) |
| AiClient.MockRecommendations | ai_client.py:19-98 | the fallback table is total, and every confidence it gives lies between 80 and 100 |
| AiClient.TableConfidences | ai_client.py:24-98 | the four rows' confidences are 92/88/95/90, 95/88/95/92, 92/88/95/90 and 85/82/88/85 |
| AiClient.MockIgnoresCaseAndCity | ai_client.py:19-21 | labels equal up to case give the same recommendations, whatever the two cities are |
| AiClient.BucketOfRain | ai_client.py:23 | the label "rain" uses the rain row |
| AiClient.BucketOfWinter | ai_client.py:42 | the label "winter" uses the winter row |
| AiClient.BucketOfSunny | ai_client.py:61 | the label "sunny" uses the sunny row |
| AiClient.DefaultWithoutLetters | ai_client.py:23-81 | a label with none of the letters l, n, r in either case (such as "mist" or "haze") uses the default row |
| AiClient.FirstJsonIndex | ai_client.py:183-187 | the first piece that, stripped, starts with '{'; no earlier piece does |
| AiClient.FenceStripped | ai_client.py:178-187 | a text not starting with a fence is unchanged; otherwise it is the first stripped fence piece starting with '{', or unchanged when there is none; any change yields text starting with '{' |
| AiClient.StripFences | ai_client.py:178-187 | the source's loop computes exactly the fence clean-up above |
| AiClient.TaggedFenceNotStripped | ai_client.py:178-187 | a fenced block with a language tag, such as "```json\n{...}\n```", comes out unchanged, still fenced |
| AiClient.FencedNoJsonUnchanged | ai_client.py:178-187 | a fenced block whose inside does not start with '{' once stripped is left as it is |
| AiClient.SplitFenced | ai_client.py:180 | a backquote-free inside wrapped in two fences splits into "", the inside and "" |
| AiClient.FirstBraceIndex | ai_client.py:183-187 | corrected piece selection: the first piece that, stripped, contains '{'; no earlier piece does |
| AiClient.BraceCut | ai_client.py:184-186 | corrected cut: the stripped piece from its first '{' on, a suffix that starts with '{' with no '{' before it |
| AiClient.FenceStrippedFixed | ai_client.py:178-187 | corrected clean-up: a text not starting with a fence is unchanged; otherwise it is the first piece containing '{', cut at that '{', or unchanged when there is none; any change yields text starting with '{' |
| AiClient.FixedStripsTaggedFence | ai_client.py:178-187 | with the correction, "```tag\n{...}\n```" becomes exactly the JSON body |
| AiClient.Normalize | ai_client.py:192-195 | succeeds exactly for a dict whose recommendation is absent or a string and whose confidence is absent, null or convertible; then the stripped recommendation ("" when absent), and confidence 50 when absent or null, else `int(confidence)` |
| AiClient.Entry | ai_client.py:198-201 | an absent analysis key normalises like `{}`, to ("", 50); a present one is normalised as it is |
| AiClient.ReadReport | ai_client.py:197-203 | the reply is accepted exactly when it is a dict and all four entries normalise, and then it consists of those four entries |
| AiClient.EmptyObjectAccepted | ai_client.py:197-202 | the reply `{}` is accepted as four empty recommendations with confidence 50 |
| AiClient.NormalizeEntry | ai_client.py:193-195 | a string recommendation with a convertible, non-null confidence gives the stripped text and `int(confidence)` |
| AiClient.ConfidenceNotClamped | ai_client.py:194 | an integer confidence such as 150 or -3 is kept as it is |
| AiClient.ConfidenceFromDigits | ai_client.py:194 | a confidence given as the string `str(n)` becomes `n`; with more than 4300 digits, the entry is rejected |
| AiClient.ReplyReport | ai_client.py:150-203 | a raised call, or a reply that does not decode after stripping and the source's fence clean-up, gives no report; a decodable one gives the report read from it |
| AiClient.ReplyReportFixed | ai_client.py:150-203 | the same, with the corrected fence clean-up |
| AiClient.GenerateAiAnalysis | ai_client.py:101-210 | the fallback table when unconfigured, when the call raises or when the reply cannot be read; otherwise the reply's report; always one of the two |
| AiClient.UndecodableReplyLikeUnconfigured | ai_client.py:113-210 | a reply that does not decode after the source's clean-up gives the same result as any run without an external generator |
| AiClient.TaggedReplyFallsBack | ai_client.py:178-210 | a reply that is a tagged fenced block, such as "```json\n{...}\n```", stays fenced and so yields the fallback table. That the fenced text does not decode is assumed of `json.loads`: it rejects any text starting with a backquote |
| AiClient.TaggedReplyReadFixed | ai_client.py:178-203 | with the corrected clean-up, such a reply is read from the JSON body inside the fence |
| AiClient.WinterFallbackForFargo | ai_client.py:42-60 | with external generation off, "winter" for Fargo gives confidences 95, 88, 95, 92 |
| Server.GrowingDegreeDays | server.py:24-28 | degree days are never negative, are 0 or the excess of the mean over the base, and are 0 exactly when the mean is at most the base |
| Server.GrowingDegreeDaysMonotone | server.py:24-28 | a day with a higher mean temperature never gives fewer degree days |
| Server.FrostRisk | server.py:30-36 | high exactly for at most 32 °F with humidity above 80%; moderate exactly for at most 36 °F otherwise; low exactly above 36 °F |
| Server.FrostRiskExamples | server.py:30-36 | (31, 85) is high, (35, 50) moderate, (40, 50) low, and (30, 80) only moderate since humidity must exceed 80 |
| Server.RiskNamesDistinct | server.py:242 | two risk names are equal exactly when the risks are, so the alert's test on the name "High Risk" is a test on the class |
| Server.IrrigationNeed | server.py:38-46 | low whenever rain exceeds 0.5; otherwise high exactly for humidity below 40 and temperature above 80, medium exactly for other humidity below 60, low exactly for rain above 0.5 or humidity at least 60 |
| Server.Current | server.py:162-168 | today's degree days use base 50, the frost risk uses today's minimum and humidity, and the irrigation need uses no rain |
| Server.CurrentIrrigationByHumidity | server.py:168 | since no rain is passed, today's irrigation need is low exactly when humidity is at least 60%, and high exactly for humidity below 40 with temperature above 80 |
| Server.MainCondition | server.py:65 | the lower-cased `main` of the first item of `weather`; "" when `weather` or `main` is absent; raises for a non-dict reading, a `weather` that is not a non-empty list of a dict first, or a non-string `main` |
| Server.CurrentTemp | server.py:66 | the temperature is present exactly when `main` is a dict holding `temp`, and then it is `main.temp` |
| Server.Classify | server.py:68-75 | first match wins: rain words give "rain"; then snow gives "winter"; then at most 36 °F gives "winter", clear/sun "sunny", else the condition or "moderate"; a non-numeric temperature raises only once rain and snow are ruled out |
| Server.ClimateLabelOf | server.py:63-75 | the label raises when extracting the condition or the temperature raises, and otherwise is the classification of the two |
| Server.RainIgnoresTemperature | server.py:68-69 | a rainy condition is "rain" for every temperature, even one that is not a number |
| Server.LightRainExample | server.py:68-69 | "light rain" is "rain" |
| Server.SnowExample | server.py:70-71 | "snow" is "winter" at every temperature |
| Server.ClearExample | server.py:72-73 | "clear" at 70 °F is "sunny" |
| Server.EmptyConditionExample | server.py:75 | an empty condition at 50 °F is "moderate" |
| Server.LabelShape | server.py:68-75 | every label is rain, winter, sunny or moderate, or else the non-empty condition itself, mentioning none of the words tested |
| Server.LabelRowAgrees | server.py:68-78 | the fallback table reads a label as rain exactly when the classifier saw rain; "winter" and "sunny" land on their own rows |
| Server.ModerateNotRainy | server.py:75 | "moderate" is lower case and has none of the rain words |
| Server.PriorityFromConf | server.py:82-91 | "Medium" when `int(c)` raises; otherwise "High" exactly at 80 or more, "Medium" exactly in 60..79, "Low" exactly below 60 |
| Server.Prioritize | server.py:94-97 | an entry keeps its recommendation and gets the priority of its confidence |
| Server.PrioritizeAll | server.py:93-110 | the k-th priority is the priority of the k-th confidence, and the four recommendations are carried over |
| Server.FixedAnalysis | server.py:111-118 | the fixed analysis has priorities Medium, Medium, Low, Medium |
| Server.AgriculturalAnalysis | server.py:57-118 | the fixed analysis when the label cannot be derived; otherwise the generator's report for the label, prioritised |
| Server.HighAbove80 | server.py:87-88 | a confidence of 80 or more is "High" |
| Server.HighConfidencesAllHigh | server.py:87-88 | confidences all at least 80 give four "High" priorities |
| Server.UnconfiguredAllHigh | server.py:63-110 | without an external generator, and with a derivable label, all four priorities are "High" |
| Server.PriorityNames | server.py:82-91 | every priority is shown as "High", "Medium" or "Low" |
| Server.Precipitation | server.py:182 | the three-hour rain, 0 when `rain` or `3h` is absent |
| Server.DatePart | server.py:192 | the first ten characters of `dt_txt`, or all of a shorter text |
| Server.Summarize | server.py:178-203 | a day entry carries base-50 degree days, the frost risk of its minimum and humidity, its rain, its date prefix and the icon "cloud-sun" |
| Server.DayCountBounds | server.py:177 | the reducer yields ceil(min(n, 56) / 8) days, at most 7, and none only for an empty forecast |
| Server.DayCountExamples | server.py:177 | 40 points give 5 days; 49 or more give 7 |
| Server.DayCountOfStride | server.py:177 | a count of eight-point strides that overshoots min(n, 56) by less than one stride is the day count |
| Server.ReduceForecast | server.py:177-209 | one entry per eighth point of the first 56; entry k is the summary of point 8k, with its mean temperature, humidity, degree days and timestamp in the four series |
| Server.WeatherIcon | server.py:230-238 | the icon of the lower-cased condition from the five-entry map, "cloud-sun" otherwise |
| Server.WeatherIconFallback | server.py:238 | the icon is "cloud-sun" exactly for conditions outside the map |
| Server.WeatherIconIgnoresCase | server.py:230 | conditions equal up to case get the same icon |
| Server.UvIndex | server.py:48-55 | the reply's `value`, and 0 when the request fails, the reply is not a dict or has no `value` |
| Server.ComposeAlerts | server.py:241-253 | the frost alert is present exactly for high frost risk and comes first; the UV alert is present exactly above 7 and comes last; at most two alerts, counted exactly |

## Left out

- The Flask routes, templates, HTTP requests and `.env` loading. The model starts from the decoded readings and replies, which are its inputs.
- The forecast request, `get_weather_forecast`, and the current-weather request. The reducer takes the forecast list.
- The prompt texts, `print` and the traceback output of `generate_ai_analysis`. They do not affect the result.
- Constructing the client at ai_client.py:121-134. An exception other than `ImportError` there would propagate. Choosing between the new and the legacy call API is folded into `CallOutcome`.
- `json.loads` itself. It is the parameter `loads`.
- Floating-point arithmetic. Temperatures, humidity, rain and UV are exact `real`s.
- ReduceForecast: `round(..., 1)` on the mean temperature and the degree days is not modelled, because rounding reals to one decimal is not needed for the properties stated. The series hold the unrounded values.
- ReduceForecast: date formatting (`strftime`, `date_formatted`) and the chart labels `'%m/%d'` need the local clock and time zone. The model keeps the timestamp `dt` in their place.
- ReduceForecast: a point missing one of the keys it reads would raise. Points here always carry their fields, and that failure is not modelled.
- ComposeAlerts: takes the UV index as a number, together with its printed form `uvText`. A non-numeric UV `value`, for which `uv_index > 7` raises, is not modelled, because the reply is assumed numeric.
- Text.Lower: lower-cases ASCII letters only. Python also lower-cases other Unicode letters.
- Values.ParseInt: reads ASCII digits only. Python's `int()` also accepts non-ASCII decimal digits, such as Arabic-Indic ones; these would need the Unicode database.
- Values.MaxStrDigits: the digit limit is the default 4300. It can be changed through `sys.set_int_max_str_digits` or `PYTHONINTMAXSTRDIGITS`, and Python releases before 3.11 without the security update that added it have no limit.
- Values.ToInt: `int()` of an infinite or NaN float raises in Python; reals have neither.

## Findings

| source | as written | input that shows it | evidently intended | confidence | as-written member | corrected member |
|---|---|---|---|---|---|---|
| ai_client.py:178-187 | the clean-up keeps a fence piece only if, stripped, it starts with '{', so a block tagged with a language keeps its tag and the text stays fenced; `json.loads` then fails and the fallback table is used | "```json\n{}\n```", the very shape the code's own comment names as typical | drop the fence and the language tag and decode the JSON inside | not executed | AiClient.TaggedFenceNotStripped, AiClient.TaggedReplyFallsBack | AiClient.FenceStrippedFixed, AiClient.FixedStripsTaggedFence, AiClient.TaggedReplyReadFixed |

`AiClient.ReplyReport`, `AiClient.GenerateAiAnalysis` and `Server.AgriculturalAnalysis` model the program as written, through `AiClient.FenceStripped`. The correction is kept beside them, in `AiClient.FenceStrippedFixed` and `AiClient.ReplyReportFixed`.
