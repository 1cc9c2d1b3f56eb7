/** The recommendation generator of `ai_client.py`: the configuration gate, the climate-indexed fallback
    table, the clean-up of the reply text, the per-entry normaliser, and the fallback control flow.
    The chat-completion call and `json.loads` are inputs: a `CallOutcome` and a decoding function. */
module AiClient {
  import opened Optional
  import opened Text
  import opened Values

  /** One analysis entry: `{"recommendation": text, "confidence": n}`. */
  datatype Recommendation = Recommendation(text: string, confidence: int)

  /** The four analyses, under the keys `irrigation_analysis`, `pest_analysis`, `field_analysis` and
      `crop_analysis`. A value of this type has all four keys. */
  datatype Report<T> = Report(irrigation: T, pest: T, field: T, crop: T)

  /** The process environment, as `os.getenv` sees it. */
  type Env = map<string, string>

  /** `os.getenv(name, default)`. */
  function GetEnv(env: Env, name: string, default: string): (v: string)
    ensures name in env ==> v == env[name]
    ensures name !in env ==> v == default
  {
    if name in env then env[name] else default
  }

  /** External text generation is switched on by `USE_EXTERNAL_AI`, compared case-insensitively with "true". */
  predicate ExternalEnabled(env: Env) {
    Lower(GetEnv(env, "USE_EXTERNAL_AI", "false")) == "true"
  }

  /** `_get_openai_api_key()`: no key unless external generation is enabled; then `OPENAI_API_KEY`
      unless it is unset or empty (Python's `or`), else `OPENAI_KEY`, which may itself be unset or empty. */
  function ApiKey(env: Env): (key: Option<string>)
    ensures !ExternalEnabled(env) ==> key.None?
    ensures ExternalEnabled(env) && "OPENAI_API_KEY" in env && env["OPENAI_API_KEY"] != ""
      ==> key == Some(env["OPENAI_API_KEY"])
    ensures ExternalEnabled(env) && ("OPENAI_API_KEY" !in env || env["OPENAI_API_KEY"] == "")
      ==> key == (if "OPENAI_KEY" in env then Some(env["OPENAI_KEY"]) else None)
  {
    if !ExternalEnabled(env) then None
    else if "OPENAI_API_KEY" in env && env["OPENAI_API_KEY"] != "" then Some(env["OPENAI_API_KEY"])
    else if "OPENAI_KEY" in env then Some(env["OPENAI_KEY"])
    else None
  }

  /** The external path is taken only with a non-empty key (`not api_key` fails) and a loaded client library:
      exactly when the library loaded, `USE_EXTERNAL_AI=true`, and one of the two key variables is set and non-empty. */
  predicate Configured(env: Env, clientLoaded: bool)
    ensures Configured(env, clientLoaded) <==>
      && clientLoaded
      && ExternalEnabled(env)
      && (("OPENAI_API_KEY" in env && env["OPENAI_API_KEY"] != "") || ("OPENAI_KEY" in env && env["OPENAI_KEY"] != ""))
  {
    var key := ApiKey(env);
    key.Some? && key.value != "" && clientLoaded
  }

  /** The four rows of the fallback table. */
  datatype Bucket = RainBucket | WinterBucket | SunnyBucket | DefaultBucket

  /** The rain words, which both the fallback table here and the label classifier of `server.py` test. */
  predicate RainWord(c: string) {
    Contains(c, "rain") || Contains(c, "drizzle") || Contains(c, "thunderstorm")
  }

  predicate WinterWord(c: string) {
    Contains(c, "winter") || Contains(c, "snow") || Contains(c, "cold")
  }

  predicate SunnyWord(c: string) {
    Contains(c, "sunny") || Contains(c, "clear")
  }

  /** The row the fallback table uses for a label, checked after lower-casing, first match wins. */
  function BucketOf(climateLabel: string): (b: Bucket)
    ensures var c := Lower(climateLabel);
      && (b == RainBucket <==> RainWord(c))
      && (b == WinterBucket <==> !RainWord(c) && WinterWord(c))
      && (b == SunnyBucket <==> !RainWord(c) && !WinterWord(c) && SunnyWord(c))
      && (b == DefaultBucket <==> !RainWord(c) && !WinterWord(c) && !SunnyWord(c))
  {
    var c := Lower(climateLabel);
    if RainWord(c) then RainBucket
    else if WinterWord(c) then WinterBucket
    else if SunnyWord(c) then SunnyBucket
    else DefaultBucket
  }

  const RainIrrigation := "Delay irrigation for 3-5 days. Check soil moisture at 4-6 inch depth before resuming watering schedule."
  const RainPest := "Apply fungicide preventively. Inspect for slug damage and use baits in problem areas. Increase scouting frequency during warm, humid periods."
  const RainField := "Avoid field operations until soil dries. Wait 24-48 hours after rain stops before using heavy machinery to prevent soil compaction."
  const RainCrop := "Ensure proper drainage in low areas. Delay nitrogen application until drier conditions. Monitor for signs of waterlogging stress."
  const WinterIrrigation := "Drain and winterize irrigation systems. Protect pipes from freezing. Only water if temperatures consistently above 40°F and soil is dry."
  const WinterPest := "Inspect stored grain weekly. Remove crop residue to eliminate pest habitat. Apply dormant oil sprays on fruit trees if temperatures above 40°F."
  const WinterField := "Suspend all field operations when ground is frozen or snow-covered. Cover sensitive equipment. Service machinery indoors during downtime."
  const WinterCrop := "Cover sensitive crops with row covers or mulch before freeze. Protect young trees with trunk wraps. Delay pruning until late winter."
  const SunnyIrrigation := "Increase watering frequency. Irrigate early morning (4-8 AM) or evening to minimize evaporation. Apply 1-1.5 inches per week for most crops."
  const SunnyPest := "Scout for spider mites and aphids twice weekly. Apply insecticidal soap early if pest threshold reached. Maintain beneficial insect habitat with cover crops."
  const SunnyField := "Complete spraying, harvesting and planting operations now. Schedule work before 10 AM or after 4 PM. Provide shade and water breaks for workers."
  const SunnyCrop := "Apply shade cloth for heat-sensitive crops. Increase mulch depth to 3-4 inches. Monitor for wilting and apply supplemental water as needed."
  const DefaultIrrigation := "Water when top 2 inches of soil is dry. Apply 0.75-1 inch per week. Install moisture sensors for precise scheduling."
  const DefaultPest := "Scout fields twice weekly. Set up yellow sticky traps to monitor pest populations. Apply treatments only when thresholds are exceeded."
  const DefaultField := "Proceed with planned field operations. Check 3-day forecast before critical activities. Avoid spraying if rain expected within 24 hours."
  const DefaultCrop := "Apply balanced fertilizer based on soil test results. Monitor crop growth stage weekly. Adjust nitrogen rates according to leaf color and vigor."

  /** The pre-authored recommendations of one row of the fallback table. */
  function Table(b: Bucket): Report<Recommendation> {
    match b
    case RainBucket => Report(
      Recommendation(RainIrrigation, 92), Recommendation(RainPest, 88),
      Recommendation(RainField, 95), Recommendation(RainCrop, 90))
    case WinterBucket => Report(
      Recommendation(WinterIrrigation, 95), Recommendation(WinterPest, 88),
      Recommendation(WinterField, 95), Recommendation(WinterCrop, 92))
    case SunnyBucket => Report(
      Recommendation(SunnyIrrigation, 92), Recommendation(SunnyPest, 88),
      Recommendation(SunnyField, 95), Recommendation(SunnyCrop, 90))
    case DefaultBucket => Report(
      Recommendation(DefaultIrrigation, 85), Recommendation(DefaultPest, 82),
      Recommendation(DefaultField, 88), Recommendation(DefaultCrop, 85))
  }

  /** The confidences of a report, in the order irrigation, pest, field, crop. */
  function Confidences(r: Report<Recommendation>): seq<int> {
    [r.irrigation.confidence, r.pest.confidence, r.field.confidence, r.crop.confidence]
  }

  /** `_get_mock_recommendations(label, city)`: total, with a confidence in 0..100 (in fact at least 80)
      for each of the four entries; the city is not used. */
  function MockRecommendations(climateLabel: string, city: string): (r: Report<Recommendation>)
    ensures forall c <- Confidences(r) :: 80 <= c <= 100
  {
    Table(BucketOf(climateLabel))
  }

  /** The confidences of the four rows of the fallback table. */
  lemma TableConfidences()
    ensures Confidences(Table(RainBucket)) == [92, 88, 95, 90]
    ensures Confidences(Table(WinterBucket)) == [95, 88, 95, 92]
    ensures Confidences(Table(SunnyBucket)) == [92, 88, 95, 90]
    ensures Confidences(Table(DefaultBucket)) == [85, 82, 88, 85]
  {
  }

  /** The fallback table reads the label case-insensitively, and it ignores the city. */
  lemma MockIgnoresCaseAndCity(a: string, b: string, city: string, other: string)
    requires Lower(a) == Lower(b)
    ensures MockRecommendations(a, city) == MockRecommendations(b, other)
  {
  }

  /** The four labels the classifier produces land in their own rows: "moderate" uses the default row. */
  lemma BucketOfRain()
    ensures BucketOf("rain") == RainBucket
  {
    LowerUnchanged("rain");
    assert StartsWith("rain", "rain");
  }

  lemma BucketOfWinter()
    ensures BucketOf("winter") == WinterBucket
  {
    var w := "winter";
    LowerUnchanged(w);
    MissingChar(w, "rain", 1);
    ShorterNotContains(w, "drizzle");
    ShorterNotContains(w, "thunderstorm");
    assert StartsWith(w, "winter");
  }

  lemma BucketOfSunny()
    ensures BucketOf("sunny") == SunnyBucket
  {
    var s := "sunny";
    LowerUnchanged(s);
    MissingChar(s, "rain", 0);
    MissingChar(s, "drizzle", 0);
    MissingChar(s, "thunderstorm", 0);
    MissingChar(s, "winter", 0);
    MissingChar(s, "snow", 2);
    MissingChar(s, "cold", 0);
    assert StartsWith(s, "sunny");
  }

  /** A label with none of the letters 'l', 'n' and 'r', in either case, uses the default row: each of
      the eight words has one of them. So do labels such as "mist", "haze" or "fog". */
  lemma DefaultWithoutLetters(climateLabel: string)
    requires forall i :: 0 <= i < |climateLabel| ==> LowerChar(climateLabel[i]) !in "lnr"
    ensures BucketOf(climateLabel) == DefaultBucket
  {
    var c := Lower(climateLabel);
    assert forall i :: 0 <= i < |c| ==> c[i] != 'l' && c[i] != 'n' && c[i] != 'r' by {
      forall i | 0 <= i < |c| ensures c[i] != 'l' && c[i] != 'n' && c[i] != 'r' {
        assert c[i] !in "lnr";
        assert "lnr"[0] == 'l' && "lnr"[1] == 'n' && "lnr"[2] == 'r';
      }
    }
    MissingChar(c, "rain", 0);
    MissingChar(c, "drizzle", 1);
    MissingChar(c, "thunderstorm", 3);
    MissingChar(c, "winter", 2);
    MissingChar(c, "snow", 1);
    MissingChar(c, "cold", 2);
    MissingChar(c, "sunny", 2);
    MissingChar(c, "clear", 1);
  }

  // ----- The reply text -----

  /** A Markdown code fence. */
  const Fence: string := "```"

  /** A piece "looks like JSON" when, once stripped, it starts with '{'. */
  predicate LooksLikeJson(part: string) {
    StartsWith(Strip(part), "{")
  }

  /** The position of the first piece that looks like JSON, or `|parts|` when there is none. */
  function FirstJsonIndex(parts: seq<string>): (k: nat)
    ensures k <= |parts|
    ensures k < |parts| ==> LooksLikeJson(parts[k])
    ensures forall j :: 0 <= j < k ==> !LooksLikeJson(parts[j])
    decreases |parts|
  {
    if |parts| == 0 then 0
    else if LooksLikeJson(parts[0]) then 0
    else
      var k := FirstJsonIndex(parts[1..]);
      assert forall j :: 1 <= j < |parts| ==> parts[1..][j - 1] == parts[j];
      k + 1
  }

  /** What the fence clean-up does to the reply: a text that starts with a fence becomes the first piece
      between fences that, stripped, starts with '{'; any other text, or one with no such piece, is left
      as it is. */
  function FenceStripped(text: string): (r: string)
    ensures !StartsWith(text, Fence) ==> r == text
    ensures StartsWith(text, Fence) ==> var parts := Split(text, Fence);
      && (FirstJsonIndex(parts) == |parts| ==> r == text)
      && (FirstJsonIndex(parts) < |parts| ==> r == Strip(parts[FirstJsonIndex(parts)]))
    ensures r != text ==> StartsWith(text, Fence) && StartsWith(r, "{")
  {
    if StartsWith(text, Fence) then
      var parts := Split(text, Fence);
      var k := FirstJsonIndex(parts);
      if k < |parts| then Strip(parts[k]) else text
    else text
  }

  /** The clean-up loop: split at the fences, strip each piece, keep the first that starts with '{'. */
  method StripFences(text: string) returns (r: string)
    ensures r == FenceStripped(text)
  {
    r := text;
    if StartsWith(text, Fence) {
      var parts := Split(text, Fence);
      var i := 0;
      while i < |parts|
        invariant 0 <= i <= |parts|
        invariant forall j :: 0 <= j < i ==> !LooksLikeJson(parts[j])
        invariant r == text
      {
        var part := Strip(parts[i]);
        if StartsWith(part, "{") {
          r := part;
          break;
        }
        i := i + 1;
      }
    }
  }

  /** The fence clean-up repairs a reply only when one piece is bare JSON: a block with a language tag
      after the opening fence, such as "```json\n{...}\n```", is left fenced, so it cannot decode. */
  lemma TaggedFenceNotStripped(tag: string, body: string)
    requires |tag| > 0 && !IsSpace(tag[0]) && tag[0] != '{'
    requires forall i :: 0 <= i < |tag| ==> tag[i] != '`'
    requires forall i :: 0 <= i < |body| ==> body[i] != '`'
    ensures var text := Fence + tag + "\n" + body + "\n" + Fence;
      FenceStripped(text) == text
  {
    var inner := tag + "\n" + body + "\n";
    assert Fence + tag + "\n" + body + "\n" + Fence == Fence + inner + Fence;
    NoBackquote(tag, body);
    assert inner[0] == tag[0];
    StripKeepsFirst(inner);
    FencedNoJsonUnchanged(inner);
  }

  /** A fenced block whose inside does not look like JSON is left as it is. */
  lemma FencedNoJsonUnchanged(inner: string)
    requires forall i :: 0 <= i < |inner| ==> inner[i] != '`'
    requires !LooksLikeJson(inner)
    ensures FenceStripped(Fence + inner + Fence) == Fence + inner + Fence
  {
    SplitFenced(inner);
    var parts := Split(Fence + inner + Fence, Fence);
    assert Strip("") == "";
    assert forall j :: 0 <= j < |parts| ==> !LooksLikeJson(parts[j]);
  }

  /** The inside of a tagged block has no backquote when neither its tag nor its body has one. */
  lemma NoBackquote(tag: string, body: string)
    requires forall i :: 0 <= i < |tag| ==> tag[i] != '`'
    requires forall i :: 0 <= i < |body| ==> body[i] != '`'
    ensures var inner := tag + "\n" + body + "\n";
      forall i :: 0 <= i < |inner| ==> inner[i] != '`'
  {
    var inner := tag + "\n" + body + "\n";
    forall i | 0 <= i < |inner| ensures inner[i] != '`' {
      if i < |tag| {
        assert inner[i] == tag[i];
      } else if |tag| < i < |tag| + 1 + |body| {
        assert inner[i] == body[i - |tag| - 1];
      }
    }
  }

  /** A stripped text keeps the first character when that character is not whitespace. */
  lemma StripKeepsFirst(s: string)
    requires |s| > 0 && !IsSpace(s[0])
    ensures |Strip(s)| > 0 && Strip(s)[0] == s[0]
  {
    var r := Strip(s);
    assert StripFrom(s) == 0;
  }

  /** A text wrapped in a pair of fences, with no backquote inside, splits into an empty piece, the inside
      and another empty piece. */
  lemma SplitFenced(inner: string)
    requires forall i :: 0 <= i < |inner| ==> inner[i] != '`'
    ensures Split(Fence + inner + Fence, Fence) == ["", inner, ""]
  {
    var s := Fence + inner + Fence;
    var rest := inner + Fence;
    assert s == Fence + rest;
    SplitOpening(rest);
    SplitClosingFence(inner);
    var tail := Split(rest, Fence);
    assert Split(s, Fence) == [""] + tail;
    assert [""] + [inner, ""] == ["", inner, ""];
  }

  /** A text that starts with a fence splits into an empty piece, then the pieces of what follows the fence. */
  lemma SplitOpening(t: string)
    ensures Split(Fence + t, Fence) == [""] + Split(t, Fence)
  {
    var s := Fence + t;
    assert s[..|Fence|] == Fence;
    SplitPieces(s, Fence, 0);
    var front := s[..0];
    var back := s[|Fence|..];
    assert front == "" && back == t;
  }

  /** A backquote-free text followed by a fence splits into the text and an empty piece. */
  lemma SplitClosingFence(inner: string)
    requires forall i :: 0 <= i < |inner| ==> inner[i] != '`'
    ensures Split(inner + Fence, Fence) == [inner, ""]
  {
    var rest := inner + Fence;
    FindAfter(inner);
    SplitPieces(rest, Fence, |inner|);
    var front := rest[..|inner|];
    var back := rest[|inner| + |Fence|..];
    assert front == inner && back == "";
    SplitEmpty(Fence);
  }

  /** In a backquote-free text followed by a fence, the first fence is the one at the end. */
  lemma {:induction false} FindAfter(inner: string)
    requires forall i :: 0 <= i < |inner| ==> inner[i] != '`'
    ensures Find(inner + Fence, Fence) == Some(|inner|)
    decreases |inner|
  {
    var s := inner + Fence;
    if |inner| == 0 {
      assert s == Fence;
      assert s[..|Fence|] == Fence;
    } else {
      assert !StartsWith(s, Fence) by {
        assert s[..|Fence|][0] == inner[0];
      }
      FindAfter(inner[1..]);
      assert s[1..] == inner[1..] + Fence;
    }
  }

  /** A piece that, once stripped, contains '{'. */
  predicate HasBrace(part: string) {
    Contains(Strip(part), "{")
  }

  /** The position of the first piece that has a '{', or `|parts|` when there is none. */
  function FirstBraceIndex(parts: seq<string>): (k: nat)
    ensures k <= |parts|
    ensures k < |parts| ==> HasBrace(parts[k])
    ensures forall j :: 0 <= j < k ==> !HasBrace(parts[j])
    decreases |parts|
  {
    if |parts| == 0 then 0
    else if HasBrace(parts[0]) then 0
    else
      var k := FirstBraceIndex(parts[1..]);
      assert forall j :: 1 <= j < |parts| ==> parts[1..][j - 1] == parts[j];
      k + 1
  }

  /** The stripped piece from its first '{' on: a suffix that starts with '{', with no '{' cut away before it. */
  function BraceCut(part: string): (r: string)
    requires HasBrace(part)
    ensures var p := Strip(part);
      && |r| <= |p| && r == p[|p| - |r|..] && StartsWith(r, "{")
      && forall j :: 0 <= j < |p| - |r| ==> !StartsWith(p[j..], "{")
  {
    var p := Strip(part);
    p[Find(p, "{").value..]
  }

  /** The corrected clean-up: a text that starts with a fence becomes the first stripped piece that contains
      '{', cut at its first '{', so that the language tag of a fenced block ("```json") is dropped. */
  function FenceStrippedFixed(text: string): (r: string)
    ensures !StartsWith(text, Fence) ==> r == text
    ensures StartsWith(text, Fence) ==> var parts := Split(text, Fence);
      && (FirstBraceIndex(parts) == |parts| ==> r == text)
      && (FirstBraceIndex(parts) < |parts| ==> r == BraceCut(parts[FirstBraceIndex(parts)]))
    ensures r != text ==> StartsWith(text, Fence) && StartsWith(r, "{")
  {
    if StartsWith(text, Fence) then
      var parts := Split(text, Fence);
      var k := FirstBraceIndex(parts);
      if k < |parts| then BraceCut(parts[k]) else text
    else text
  }

  /** With the correction, a fenced reply with a language tag becomes the JSON object inside it. */
  lemma FixedStripsTaggedFence(tag: string, body: string)
    requires forall i :: 0 <= i < |tag| ==> tag[i] != '`' && tag[i] != '{'
    requires forall i :: 0 <= i < |body| ==> body[i] != '`'
    requires StartsWith(body, "{") && !IsSpace(body[|body| - 1])
    ensures FenceStrippedFixed(Fence + tag + "\n" + body + "\n" + Fence) == body
  {
    var inner := tag + "\n" + body + "\n";
    assert Fence + tag + "\n" + body + "\n" + Fence == Fence + inner + Fence;
    NoBackquote(tag, body);
    StrippedTagged(tag, body);
    var p := Strip(inner);
    assert HasBrace(inner);
    FencedBraceCut(inner);
  }

  /** The corrected clean-up of a fenced block that has a '{' inside cuts the stripped inside at it. */
  lemma FencedBraceCut(inner: string)
    requires forall i :: 0 <= i < |inner| ==> inner[i] != '`'
    requires HasBrace(inner)
    ensures FenceStrippedFixed(Fence + inner + Fence) == BraceCut(inner)
  {
    SplitFenced(inner);
    var parts := Split(Fence + inner + Fence, Fence);
    assert !HasBrace("") by {
      assert Strip("") == "";
      ShorterNotContains("", "{");
    }
    assert parts[1..] == [inner, ""];
    assert FirstBraceIndex(parts) == 1;
  }

  /** Stripping the inside of a tagged block and cutting at the first '{' gives the body. */
  lemma StrippedTagged(tag: string, body: string)
    requires forall i :: 0 <= i < |tag| ==> tag[i] != '{'
    requires StartsWith(body, "{") && !IsSpace(body[|body| - 1])
    ensures var p := Strip(tag + "\n" + body + "\n");
      Find(p, "{").Some? && p[Find(p, "{").value..] == body
  {
    var inner := tag + "\n" + body + "\n";
    var start := |tag| + 1;
    var a := TaggedStripSlice(tag, body);
    var p := Strip(inner);
    var k := start - a;
    assert p[k] == '{' by {
      assert body[..1][0] == body[0];
      assert inner[start] == body[0];
    }
    forall i | 0 <= i < k ensures p[i] != '{' {
      var j := a + i;
      assert p[i] == inner[j];
      if j < |tag| {
        assert inner[j] == tag[j];
      } else {
        assert inner[j] == '\n';
      }
    }
    FindFirstBrace(p, k);
    assert p[k..] == inner[start..start + |body|];
    assert inner[start..start + |body|] == body;
  }

  /** Stripping the inside of a tagged block keeps everything from a point at or before the body's first
      character up to the body's last character. */
  lemma TaggedStripSlice(tag: string, body: string) returns (a: nat)
    requires StartsWith(body, "{") && !IsSpace(body[|body| - 1])
    ensures var inner := tag + "\n" + body + "\n";
      a <= |tag| + 1 && Strip(inner) == inner[a..|tag| + 1 + |body|]
  {
    var inner := tag + "\n" + body + "\n";
    var start := |tag| + 1;
    var end := start + |body|;
    assert body[0] == '{' by {
      assert body[..1][0] == body[0];
    }
    assert inner[start] == body[0] && inner[end - 1] == body[|body| - 1] && inner[end] == '\n';
    a := StripFrom(inner);
    assert a <= start;
    assert BackSpaces(inner, a, |inner|) == end;
  }

  /** `Find` of '{' is the first position holding '{'. */
  lemma {:induction false} FindFirstBrace(p: string, k: nat)
    requires k < |p| && p[k] == '{' && forall i :: 0 <= i < k ==> p[i] != '{'
    ensures Find(p, "{") == Some(k)
    decreases k
  {
    if k > 0 {
      assert !StartsWith(p, "{") by {
        assert p[..1][0] == p[0];
      }
      FindFirstBrace(p[1..], k - 1);
    } else {
      assert p[..1] == "{";
    }
  }

  // ----- Normalising the decoded reply -----

  /** `_normalize(obj)`: the stripped recommendation ("" when absent) and the confidence (50 when absent
      or null, else `int(confidence)`). `None` where the Python code raises: `obj` is not a dict, the
      recommendation is not a string, or the confidence does not convert. */
  function Normalize(obj: Json): (r: Option<Recommendation>)
    ensures r.Some? <==> (
      && obj.JObject?
      && ("recommendation" !in obj.fields || obj.fields["recommendation"].JString?)
      && ("confidence" !in obj.fields || obj.fields["confidence"] == JNull || ToInt(obj.fields["confidence"]).Some?))
    ensures !obj.JObject? ==> r.None?
    ensures obj.JObject? && "recommendation" !in obj.fields && "confidence" !in obj.fields
      ==> r == Some(Recommendation("", 50))
    ensures obj.JObject? && "recommendation" in obj.fields && !obj.fields["recommendation"].JString? ==> r.None?
    ensures r.Some? && "recommendation" in obj.fields
      ==> obj.fields["recommendation"].JString? && r.value.text == Strip(obj.fields["recommendation"].s)
    ensures r.Some? && "recommendation" !in obj.fields ==> r.value.text == ""
    ensures r.Some? && ("confidence" !in obj.fields || obj.fields["confidence"] == JNull) ==> r.value.confidence == 50
    ensures r.Some? && "confidence" in obj.fields && obj.fields["confidence"] != JNull
      ==> Some(r.value.confidence) == ToInt(obj.fields["confidence"])
    ensures (obj.JObject? && "confidence" in obj.fields && obj.fields["confidence"] != JNull
             && ToInt(obj.fields["confidence"]).None?) ==> r.None?
  {
    if !obj.JObject? then None
    else
      var rec := Get(obj, "recommendation").GetOr(JString(""));
      if !rec.JString? then None
      else
        var conf := Get(obj, "confidence");
        if conf.None? || conf.value == JNull then Some(Recommendation(Strip(rec.s), 50))
        else match ToInt(conf.value)
          case Some(c) => Some(Recommendation(Strip(rec.s), c))
          case None => None
  }

  /** The normalised entry under `key`: an absent key is normalised as the empty dict `{}`. */
  function Entry(data: Json, key: string): (r: Option<Recommendation>)
    requires data.JObject?
    ensures key !in data.fields ==> r == Some(Recommendation("", 50))
    ensures key in data.fields ==> r == Normalize(data.fields[key])
  {
    Normalize(Get(data, key).GetOr(JObject(map[])))
  }

  /** The decoded reply as a report; `None` where any step raises (the reply is not a dict, or one of the
      four entries cannot be normalised). There is no other validation. */
  function ReadReport(data: Json): (r: Option<Report<Recommendation>>)
    ensures r.Some? <==> (data.JObject?
      && Entry(data, "irrigation_analysis").Some? && Entry(data, "pest_analysis").Some?
      && Entry(data, "field_analysis").Some? && Entry(data, "crop_analysis").Some?)
    ensures r.Some? ==> r.value == Report(
      Entry(data, "irrigation_analysis").value, Entry(data, "pest_analysis").value,
      Entry(data, "field_analysis").value, Entry(data, "crop_analysis").value)
  {
    if !data.JObject? then None
    else
      var irrigation := Entry(data, "irrigation_analysis");
      var pest := Entry(data, "pest_analysis");
      var field := Entry(data, "field_analysis");
      var crop := Entry(data, "crop_analysis");
      if irrigation.Some? && pest.Some? && field.Some? && crop.Some? then
        Some(Report(irrigation.value, pest.value, field.value, crop.value))
      else None
  }

  /** A reply that decodes to `{}` is accepted: four empty recommendations with confidence 50. */
  lemma EmptyObjectAccepted()
    ensures ReadReport(JObject(map[])) == Some(Report(
      Recommendation("", 50), Recommendation("", 50), Recommendation("", 50), Recommendation("", 50)))
  {
  }

  /** An entry with a string recommendation and a convertible, non-null confidence normalises to the
      stripped text and the converted confidence. */
  lemma NormalizeEntry(text: string, conf: Json)
    requires conf != JNull && ToInt(conf).Some?
    ensures Normalize(JObject(map["recommendation" := JString(text), "confidence" := conf]))
      == Some(Recommendation(Strip(text), ToInt(conf).value))
  {
  }

  /** Confidences are taken as they convert, with no clamping to 0..100: an integer confidence such as 150
      or -3 is kept as it is. */
  lemma ConfidenceNotClamped(text: string, n: int)
    ensures Normalize(JObject(map["recommendation" := JString(text), "confidence" := JInt(n)]))
      == Some(Recommendation(Strip(text), n))
  {
    NormalizeEntry(text, JInt(n));
  }

  /** A confidence written as a decimal string, such as "85", is converted to its value; one of more than
      `MaxStrDigits` digits makes `int()` raise, and the entry is rejected. */
  lemma ConfidenceFromDigits(text: string, n: nat)
    ensures Normalize(JObject(map["recommendation" := JString(text), "confidence" := JString(DecimalText(n))]))
      == if |DecimalText(n)| <= MaxStrDigits then Some(Recommendation(Strip(text), n)) else None
  {
    var conf := JString(DecimalText(n));
    IntOfDecimalText(n, "");
    if |DecimalText(n)| <= MaxStrDigits {
      NormalizeEntry(text, conf);
    }
  }

  // ----- The generator -----

  /** What the chat-completion call did: it raised, or it returned message content. A `None` content makes
      `.strip()` raise inside the same `try`, so it is a `Raised` here. */
  datatype CallOutcome = Raised | Replied(content: string)

  /** The report carried by the reply, if any step from the call to the normalisation fails it is `None`:
      the reply is stripped, cleaned of fences as the source does, decoded and read.
      `loads` stands for `json.loads`, with `None` for a `JSONDecodeError`. */
  function ReplyReport(call: CallOutcome, loads: string -> Option<Json>): (r: Option<Report<Recommendation>>)
    ensures call.Raised? ==> r.None?
    ensures call.Replied? && loads(FenceStripped(Strip(call.content))).None? ==> r.None?
    ensures call.Replied? && loads(FenceStripped(Strip(call.content))).Some?
      ==> r == ReadReport(loads(FenceStripped(Strip(call.content))).value)
  {
    match call
    case Raised => None
    case Replied(content) =>
      match loads(FenceStripped(Strip(content)))
      case None => None
      case Some(data) => ReadReport(data)
  }

  /** The reply's report with the corrected fence clean-up in place of the source's. */
  function ReplyReportFixed(call: CallOutcome, loads: string -> Option<Json>): (r: Option<Report<Recommendation>>)
    ensures call.Raised? ==> r.None?
    ensures call.Replied? && loads(FenceStrippedFixed(Strip(call.content))).None? ==> r.None?
    ensures call.Replied? && loads(FenceStrippedFixed(Strip(call.content))).Some?
      ==> r == ReadReport(loads(FenceStrippedFixed(Strip(call.content))).value)
  {
    match call
    case Raised => None
    case Replied(content) =>
      match loads(FenceStrippedFixed(Strip(content)))
      case None => None
      case Some(data) => ReadReport(data)
  }

  /** `generate_ai_analysis(label, city)`: the external reply when the generator is configured and every
      step succeeds, and otherwise exactly the fallback table for the label. */
  function GenerateAiAnalysis(climateLabel: string, city: string, env: Env, clientLoaded: bool,
                              call: CallOutcome, loads: string -> Option<Json>): (r: Report<Recommendation>)
    ensures !Configured(env, clientLoaded) ==> r == MockRecommendations(climateLabel, city)
    ensures call.Raised? ==> r == MockRecommendations(climateLabel, city)
    ensures ReplyReport(call, loads).None? ==> r == MockRecommendations(climateLabel, city)
    ensures Configured(env, clientLoaded) && ReplyReport(call, loads).Some? ==> r == ReplyReport(call, loads).value
    ensures r == MockRecommendations(climateLabel, city) || Some(r) == ReplyReport(call, loads)
  {
    var fallback := MockRecommendations(climateLabel, city);
    if !Configured(env, clientLoaded) then fallback
    else match ReplyReport(call, loads)
      case Some(report) => report
      case None => fallback
  }

  /** A reply that does not decode gives the same report as any run without an external generator. */
  lemma UndecodableReplyLikeUnconfigured(climateLabel: string, city: string, env: Env, clientLoaded: bool,
                                         content: string, loads: string -> Option<Json>,
                                         otherEnv: Env, otherLoaded: bool, otherCall: CallOutcome,
                                         otherLoads: string -> Option<Json>)
    requires loads(FenceStripped(Strip(content))).None?
    requires !Configured(otherEnv, otherLoaded)
    ensures GenerateAiAnalysis(climateLabel, city, env, clientLoaded, Replied(content), loads)
         == GenerateAiAnalysis(climateLabel, city, otherEnv, otherLoaded, otherCall, otherLoads)
  {
  }

  /** With external generation switched off, "winter" for Fargo gives the winter row: 95, 88, 95, 92. */
  lemma WinterFallbackForFargo(env: Env, clientLoaded: bool, call: CallOutcome, loads: string -> Option<Json>)
    requires !ExternalEnabled(env)
    ensures Confidences(GenerateAiAnalysis("winter", "Fargo", env, clientLoaded, call, loads)) == [95, 88, 95, 92]
  {
    BucketOfWinter();
    TableConfidences();
  }

  /** A fenced reply is its own stripped form: it starts and ends with a backquote. */
  lemma FencedUnpadded(inner: string)
    ensures Strip(Fence + inner + Fence) == Fence + inner + Fence
  {
    var t := Fence + inner + Fence;
    assert t[0] == '`' && t[|t| - 1] == '`';
    StripUnpadded(t);
  }

  /** As written, a configured generator whose reply is a tagged fenced block, such as "```json\n{...}\n```",
      hands the fenced text to `json.loads`. Taking `json.loads` to reject any text that starts with a
      backquote, as no JSON value does, the result is the fallback table. */
  lemma TaggedReplyFallsBack(climateLabel: string, city: string, env: Env, clientLoaded: bool,
                             tag: string, body: string, loads: string -> Option<Json>)
    requires |tag| > 0 && !IsSpace(tag[0]) && tag[0] != '{'
    requires forall i :: 0 <= i < |tag| ==> tag[i] != '`'
    requires forall i :: 0 <= i < |body| ==> body[i] != '`'
    requires forall t {:trigger StartsWith(t, "`")} :: StartsWith(t, "`") ==> loads(t).None?
    ensures GenerateAiAnalysis(climateLabel, city, env, clientLoaded, Replied(Fence + tag + "\n" + body + "\n" + Fence), loads)
         == MockRecommendations(climateLabel, city)
  {
    var reply := Fence + tag + "\n" + body + "\n" + Fence;
    assert StartsWith(reply, "`");
    TaggedReplyUndecoded(climateLabel, city, env, clientLoaded, tag, body, loads);
  }

  /** The same, for a `loads` that rejects this one fenced text. */
  lemma TaggedReplyUndecoded(climateLabel: string, city: string, env: Env, clientLoaded: bool,
                             tag: string, body: string, loads: string -> Option<Json>)
    requires |tag| > 0 && !IsSpace(tag[0]) && tag[0] != '{'
    requires forall i :: 0 <= i < |tag| ==> tag[i] != '`'
    requires forall i :: 0 <= i < |body| ==> body[i] != '`'
    requires loads(Fence + tag + "\n" + body + "\n" + Fence).None?
    ensures GenerateAiAnalysis(climateLabel, city, env, clientLoaded, Replied(Fence + tag + "\n" + body + "\n" + Fence), loads)
         == MockRecommendations(climateLabel, city)
  {
    var inner := tag + "\n" + body + "\n";
    assert Fence + tag + "\n" + body + "\n" + Fence == Fence + inner + Fence;
    FencedUnpadded(inner);
    TaggedFenceNotStripped(tag, body);
  }

  /** With the corrected clean-up, the same reply is read from the JSON body inside the fence. */
  lemma TaggedReplyReadFixed(tag: string, body: string, loads: string -> Option<Json>)
    requires forall i :: 0 <= i < |tag| ==> tag[i] != '`' && tag[i] != '{'
    requires forall i :: 0 <= i < |body| ==> body[i] != '`'
    requires StartsWith(body, "{") && !IsSpace(body[|body| - 1])
    requires loads(body).Some?
    ensures ReplyReportFixed(Replied(Fence + tag + "\n" + body + "\n" + Fence), loads) == ReadReport(loads(body).value)
  {
    var inner := tag + "\n" + body + "\n";
    assert Fence + tag + "\n" + body + "\n" + Fence == Fence + inner + Fence;
    FencedUnpadded(inner);
    FixedStripsTaggedFence(tag, body);
  }
}
