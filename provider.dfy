/**
 * The generation gateway (`groq_service.py`): turning the provider's reply
 * into a draft analysis, with per-field defaults and a fixed degraded draft
 * when the reply is not valid JSON, and the error wrapping around it.
 */
module Provider {
  import opened Wrappers
  import opened Text
  import opened Schemas

  /** What `json.loads` made of the reply's message content. */
  datatype Parsed =
    | Decoded(value: Json)
    | DecodeError   // the content is a string but not valid JSON
    | NotText       // the content is not a string at all (`null`)

  /** The outcome of `_call_groq_api(prompt)`. */
  datatype ApiReply =
    | Content(parsed: Parsed)
    | Timeout
    | StatusError(code: nat)
    | Failure(reason: string)   // any other exception while calling or reading the reply

  function DigitChar(d: nat): char
    requires d < 10
  {
    ('0' as int + d) as char
  }

  /** Decimal rendering of a status code. */
  function NatToString(n: nat): string
    decreases n
  {
    if n < 10 then [DigitChar(n)] else NatToString(n / 10) + [DigitChar(n % 10)]
  }

  /** The text of the exception `_call_groq_api` raises. */
  function ApiErrorMessage(reply: ApiReply): string
    requires !reply.Content?
  {
    match reply
    case Timeout => "Timeout na comunicação com a Groq"
    case StatusError(code) => "Erro na API Groq: " + NatToString(code)
    case Failure(reason) => "Erro na comunicação com a Groq: " + reason
  }

  const DefaultAnalysis := "Análise não disponível."
  const FallbackAnalysis :=
    "A IA não conseguiu estruturar a análise, mas a mensagem central parece ser um poderoso manifesto sobre resiliência e a condição humana."
  const FallbackUnknown := "Desconhecido"
  const FallbackStyle := "Contestatário"
  const FallbackEmotions: seq<string> := ["struggle", "resilience", "hope"]
  const AnalysisErrorPrefix := "Erro na análise da obra: "

  /** The keys every draft of `_extract_analysis_data` carries. */
  predicate HasDraftKeys(d: Dict) {
    && ArtworkName in d && Analysis in d && Artist in d && Year in d && Style in d
    && Emotions in d && ProcessingTime in d
  }

  /** Python's name for the type of a JSON value. */
  function PyTypeName(j: Json): string {
    match j
    case JNull => "NoneType"
    case JBool(_) => "bool"
    case JInt(_) => "int"
    case JFloat(_) => "float"
    case JStr(_) => "str"
    case JArr(_) => "list"
    case JObj(_) => "dict"
  }

  /** `data.get(key, default)`. */
  function Get(data: map<string, Json>, key: string, default: Json): Json {
    if key in data then data[key] else default
  }

  /** A draft dictionary with the seven keys the provider's reply fills. */
  function Draft(name: Json, analysis: Json, artist: Json, year: Json, style: Json, emotions: Json, processingTime: real): (d: Dict)
    ensures HasDraftKeys(d) && ImageHash !in d
    ensures d[ArtworkName] == name && d[Analysis] == analysis
    ensures d[Artist] == artist && d[Year] == year && d[Style] == style
    ensures d[Emotions] == emotions && d[ProcessingTime] == JFloat(processingTime)
  {
    map[
      ArtworkName := name,
      Analysis := analysis,
      Artist := artist,
      Year := year,
      Style := style,
      Emotions := emotions,
      ProcessingTime := JFloat(processingTime)]
  }

  /** The degraded draft used when the reply is not valid JSON. */
  function FallbackDraft(originalName: string, processingTime: real): Dict {
    map[
      ArtworkName := JStr(originalName),
      Analysis := JStr(FallbackAnalysis),
      Artist := JStr(FallbackUnknown),
      Year := JStr(FallbackUnknown),
      Style := JStr(FallbackStyle),
      Emotions := JArr(StringsToJson(FallbackEmotions)),
      ProcessingTime := JFloat(processingTime)]
  }

  /**
   * `_extract_analysis_data`. A JSON object gives a draft whose name is the
   * provider's when it sent one and the query's otherwise, whose text is the
   * provider's (or a default) stripped of surrounding whitespace, and whose
   * other fields are the provider's or `null` / `[]`. Invalid JSON never
   * raises: it gives the fixed degraded draft. Only a reply that is JSON but
   * not an object, an `analysis` that is not a string, or content that is
   * not text raise.
   */
  function ExtractAnalysisData(parsed: Parsed, originalName: string, processingTime: real): (r: Result<Dict, string>)
    ensures parsed.DecodeError? ==> r == Ok(FallbackDraft(originalName, processingTime))
    ensures parsed.NotText? || (parsed.Decoded? && !parsed.value.JObj?) ==> r.Err?
    ensures r.Ok? ==> HasDraftKeys(r.value) && ImageHash !in r.value
    ensures parsed.Decoded? && parsed.value.JObj? ==>
      var data := parsed.value.fields;
      && (r.Ok? <==> "analysis" !in data || data["analysis"].JStr?)
      && (r.Ok? ==>
        && r.value[ArtworkName] == (if "artwork_name" in data then data["artwork_name"] else JStr(originalName))
        && r.value[Analysis] == JStr(Strip(if "analysis" in data then data["analysis"].s else DefaultAnalysis))
        && r.value[Artist] == (if "artist" in data then data["artist"] else JNull)
        && r.value[Year] == (if "year" in data then data["year"] else JNull)
        && r.value[Style] == (if "style" in data then data["style"] else JNull)
        && r.value[Emotions] == (if "emotions" in data then data["emotions"] else JArr([])))
    ensures r.Ok? ==> r.value[ProcessingTime] == JFloat(processingTime)
  {
    match parsed
    case NotText => Err("the JSON object must be str, bytes or bytearray, not NoneType")
    case DecodeError => Ok(FallbackDraft(originalName, processingTime))
    case Decoded(value) =>
      if !value.JObj? then Err("'" + PyTypeName(value) + "' object has no attribute 'get'")
      else
        var data := value.fields;
        var analysis := Get(data, "analysis", JStr(DefaultAnalysis));
        if !analysis.JStr? then Err("'" + PyTypeName(analysis) + "' object has no attribute 'strip'")
        else
          Ok(Draft(
            Get(data, "artwork_name", JStr(originalName)),
            JStr(Strip(analysis.s)),
            Get(data, "artist", JNull),
            Get(data, "year", JNull),
            Get(data, "style", JNull),
            Get(data, "emotions", JArr([])),
            processingTime))
  }

  /**
   * The degraded draft passes validation, so a reply that is not JSON still
   * yields a storable analysis with the fixed, non-empty text.
   */
  lemma FallbackDraftValidates(originalName: string, processingTime: real)
    ensures CreateFromDict(FallbackDraft(originalName, processingTime)) ==
      Ok(ArtworkAnalysisCreate(originalName, FallbackAnalysis, processingTime,
                               Some(FallbackUnknown), Some(FallbackUnknown), Some(FallbackStyle),
                               Some(FallbackEmotions), None))
    ensures |FallbackAnalysis| > 0
  {
    var d := FallbackDraft(originalName, processingTime);
    assert Strings(d[Emotions].items) == FallbackEmotions;
  }

  /** The value of an optional string field a provider object may carry. */
  predicate OptionalString(data: map<string, Json>, key: string) {
    key !in data || data[key].JNull? || data[key].JStr?
  }

  function OptionalStringValue(data: map<string, Json>, key: string): Option<string> {
    if key in data && data[key].JStr? then Some(data[key].s) else None
  }

  /** A provider field the draft copies is the JSON form of its optional value. */
  lemma OptionalField(data: map<string, Json>, name: string)
    requires OptionalString(data, name)
    ensures Get(data, name, JNull) == OptStrJson(OptionalStringValue(data, name))
  {
  }

  /**
   * A draft whose seven fields have the declared kinds validates to exactly
   * those values, with no image hash.
   */
  lemma DraftValidates(d: Dict, name: string, text: string, artist: Option<string>, year: Option<string>,
                       style: Option<string>, emotions: seq<string>, processingTime: real)
    requires HasDraftKeys(d) && ImageHash !in d
    requires d[ArtworkName] == JStr(name) && d[Analysis] == JStr(text)
    requires d[Artist] == OptStrJson(artist) && d[Year] == OptStrJson(year) && d[Style] == OptStrJson(style)
    requires d[Emotions].JArr? && AllStrings(d[Emotions].items) && Strings(d[Emotions].items) == emotions
    requires d[ProcessingTime] == JFloat(processingTime)
    ensures CreateFromDict(d) == Ok(ArtworkAnalysisCreate(name, text, processingTime, artist, year, style,
                                                          Some(emotions), None))
  {
    assert OptStrField(d, Artist) == Ok(artist);
    assert OptStrField(d, Year) == Ok(year);
    assert OptStrField(d, Style) == Ok(style);
  }

  /**
   * When the provider sends an object whose fields have the declared kinds,
   * the draft validates to exactly those fields: the name is the provider's
   * or the query's, the text is stripped, and missing emotions become `[]`.
   */
  lemma ExtractedDraftValidates(data: map<string, Json>, originalName: string, processingTime: real)
    requires "artwork_name" !in data || data["artwork_name"].JStr?
    requires "analysis" !in data || data["analysis"].JStr?
    requires OptionalString(data, "artist") && OptionalString(data, "year") && OptionalString(data, "style")
    requires "emotions" !in data || (data["emotions"].JArr? && AllStrings(data["emotions"].items))
    ensures var r := ExtractAnalysisData(Decoded(JObj(data)), originalName, processingTime);
      && r.Ok?
      && CreateFromDict(r.value) == Ok(ArtworkAnalysisCreate(
        if "artwork_name" in data then data["artwork_name"].s else originalName,
        Strip(if "analysis" in data then data["analysis"].s else DefaultAnalysis),
        processingTime,
        OptionalStringValue(data, "artist"),
        OptionalStringValue(data, "year"),
        OptionalStringValue(data, "style"),
        Some(if "emotions" in data then Strings(data["emotions"].items) else []),
        None))
  {
    var r := ExtractAnalysisData(Decoded(JObj(data)), originalName, processingTime);
    assert r.Ok?;
    var d := r.value;
    OptionalField(data, "artist");
    OptionalField(data, "year");
    OptionalField(data, "style");
    var emotions := if "emotions" in data then Strings(data["emotions"].items) else [];
    if "emotions" !in data {
      assert Strings(d[Emotions].items) == [];
    }
    DraftValidates(d, if "artwork_name" in data then data["artwork_name"].s else originalName,
                   Strip(if "analysis" in data then data["analysis"].s else DefaultAnalysis),
                   OptionalStringValue(data, "artist"), OptionalStringValue(data, "year"),
                   OptionalStringValue(data, "style"), emotions, processingTime);
  }

  /**
   * The outcome of `analyze_artwork` given the provider's reply: the
   * extracted draft, unaltered, when the reply came back and extraction
   * succeeded; otherwise an error with the `Erro na análise da obra: `
   * prefix, carrying the underlying message. No partial draft is returned.
   */
  function AnalysisOutcome(reply: ApiReply, artworkName: string, elapsed: real): (r: Result<Dict, string>)
    ensures r.Ok? <==> reply.Content? && ExtractAnalysisData(reply.parsed, artworkName, elapsed).Ok?
    ensures r.Ok? ==> r.value == ExtractAnalysisData(reply.parsed, artworkName, elapsed).value
    ensures r.Err? ==> |AnalysisErrorPrefix| <= |r.error| && r.error[..|AnalysisErrorPrefix|] == AnalysisErrorPrefix
    ensures !reply.Content? ==> r.error == AnalysisErrorPrefix + ApiErrorMessage(reply)
    ensures reply.Content? && ExtractAnalysisData(reply.parsed, artworkName, elapsed).Err? ==>
      r == Err(AnalysisErrorPrefix + ExtractAnalysisData(reply.parsed, artworkName, elapsed).error)
  {
    if !reply.Content? then Err(AnalysisErrorPrefix + ApiErrorMessage(reply))
    else
      var extracted := ExtractAnalysisData(reply.parsed, artworkName, elapsed);
      if extracted.Err? then Err(AnalysisErrorPrefix + extracted.error) else Ok(extracted.value)
  }

  /**
   * `analyze_artwork`: ask the provider about `artworkName` (the reply and
   * the elapsed time are inputs), then extract the draft, wrapping any
   * failure on the way.
   */
  method AnalyzeArtwork(artworkName: string, callApi: string -> ApiReply, elapsed: real)
    returns (r: Result<Dict, string>)
    ensures r == AnalysisOutcome(callApi(artworkName), artworkName, elapsed)
  {
    var responseText := callApi(artworkName);
    if !responseText.Content? {
      return Err(AnalysisErrorPrefix + ApiErrorMessage(responseText));
    }
    var processingTime := elapsed;
    var analysisData := ExtractAnalysisData(responseText.parsed, artworkName, processingTime);
    if analysisData.Err? {
      return Err(AnalysisErrorPrefix + analysisData.error);
    }
    return Ok(analysisData.value);
  }
}
