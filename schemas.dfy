/**
 * The data schemas of the analysis pipeline (`artwork_analysis.py`): the
 * request body, the draft that is validated before saving, the stored
 * document model and the response sent to the client, plus the JSON values
 * and dictionaries they are built from.
 */
module Schemas {
  import opened Wrappers
  import opened ObjectIds

  /** A JSON value as `json.loads` produces it. */
  datatype Json =
    | JNull
    | JBool(b: bool)
    | JInt(i: int)
    | JFloat(r: real)
    | JStr(s: string)
    | JArr(items: seq<Json>)
    | JObj(fields: map<string, Json>)

  /** The keys the schemas declare, as they are spelled in a dictionary. */
  const DeclaredKeys: set<string> :=
    {"artwork_name", "analysis", "artist", "year", "style", "emotions", "processing_time", "image_hash"}

  /** A dictionary key that is none of the declared ones. */
  type OtherKey = k: string | k !in DeclaredKeys witness ""

  /**
   * The keys of a draft dictionary: those the schemas declare, and any other
   * key.
   */
  datatype Field =
    | ArtworkName | Analysis | Artist | Year | Style | Emotions | ProcessingTime | ImageHash
    | Other(name: OtherKey)

  /** The key as it is spelled in the dictionary. */
  function FieldName(f: Field): string {
    match f
    case ArtworkName => "artwork_name"
    case Analysis => "analysis"
    case Artist => "artist"
    case Year => "year"
    case Style => "style"
    case Emotions => "emotions"
    case ProcessingTime => "processing_time"
    case ImageHash => "image_hash"
    case Other(name) => name
  }

  /** Each key has one spelling and each spelling names one key. */
  lemma FieldNameInjective(f: Field, g: Field)
    ensures FieldName(f) == FieldName(g) <==> f == g
  {
  }

  /** A draft analysis: a Python dictionary from keys to JSON values. */
  type Dict = map<Field, Json>

  // ------------------------------------------------------------ request

  const MinNameLength: nat := 1
  const MaxNameLength: nat := 200

  /** Body of the name-driven request. */
  datatype ArtworkAnalysisRequest = ArtworkAnalysisRequest(artworkName: string)

  /**
   * Validation of the request body: the name must have between 1 and 200
   * characters. Whitespace counts, so a blank name passes this check.
   */
  function ValidateRequest(name: string): (r: Result<ArtworkAnalysisRequest, string>)
    ensures r.Ok? <==> MinNameLength <= |name| <= MaxNameLength
    ensures r.Ok? ==> r.value.artworkName == name
  {
    if |name| < MinNameLength then Err("artwork_name: too short")
    else if |name| > MaxNameLength then Err("artwork_name: too long")
    else Ok(ArtworkAnalysisRequest(name))
  }

  // -------------------------------------------------------------- create

  /**
   * A new analysis before it is stored. Only the name, the text and the
   * processing time are required; every other field defaults to `None`.
   * (The source declares this class twice with the same fields; the second
   * declaration is the one in force.)
   */
  datatype ArtworkAnalysisCreate = ArtworkAnalysisCreate(
    artworkName: string,
    analysis: string,
    processingTime: real,
    artist: Option<string> := None,
    year: Option<string> := None,
    style: Option<string> := None,
    emotions: Option<seq<string>> := None,
    imageHash: Option<string> := None)

  /** A required `str` field. */
  function StrField(d: Dict, key: Field): (r: Result<string, string>)
    ensures r.Ok? <==> key in d && d[key].JStr?
    ensures r.Ok? ==> d[key] == JStr(r.value)
  {
    if key in d && d[key].JStr? then Ok(d[key].s) else Err(FieldName(key))
  }

  /** An `Optional[str]` field: missing or `null` is `None`. */
  function OptStrField(d: Dict, key: Field): (r: Result<Option<string>, string>)
    ensures r.Ok? <==> key !in d || d[key].JNull? || d[key].JStr?
    ensures r == Ok(None) <==> key !in d || d[key].JNull?
    ensures r.Ok? && r.value.Some? ==> d[key] == JStr(r.value.value)
  {
    if key !in d || d[key].JNull? then Ok(None)
    else if d[key].JStr? then Ok(Some(d[key].s))
    else Err(FieldName(key))
  }

  predicate AllStrings(items: seq<Json>) {
    forall k :: 0 <= k < |items| ==> items[k].JStr?
  }

  function Strings(items: seq<Json>): (ss: seq<string>)
    requires AllStrings(items)
    ensures |ss| == |items|
    ensures forall k :: 0 <= k < |items| ==> items[k] == JStr(ss[k])
  {
    seq(|items|, k requires 0 <= k < |items| => items[k].s)
  }

  function StringsToJson(ss: seq<string>): (items: seq<Json>)
    ensures AllStrings(items) && Strings(items) == ss
  {
    seq(|ss|, k requires 0 <= k < |ss| => JStr(ss[k]))
  }

  /** An `Optional[List[str]]` field. */
  function OptStrListField(d: Dict, key: Field): (r: Result<Option<seq<string>>, string>)
    ensures r.Ok? <==> key !in d || d[key].JNull? || (d[key].JArr? && AllStrings(d[key].items))
    ensures r == Ok(None) <==> key !in d || d[key].JNull?
  {
    if key !in d || d[key].JNull? then Ok(None)
    else if d[key].JArr? && AllStrings(d[key].items) then Ok(Some(Strings(d[key].items)))
    else Err(FieldName(key))
  }

  /** A required `float` field; an integer is accepted and widened. */
  function FloatField(d: Dict, key: Field): (r: Result<real, string>)
    ensures r.Ok? <==> key in d && (d[key].JFloat? || d[key].JInt?)
  {
    if key in d && d[key].JFloat? then Ok(d[key].r)
    else if key in d && d[key].JInt? then Ok(d[key].i as real)
    else Err(FieldName(key))
  }

  /**
   * `ArtworkAnalysisCreate(**d)`: validation of a draft dictionary; keys the
   * model does not declare are ignored; a failure names the first bad field.
   */
  function CreateFromDict(d: Dict): (r: Result<ArtworkAnalysisCreate, string>)
    ensures r.Ok? <==>
      && StrField(d, ArtworkName).Ok? && StrField(d, Analysis).Ok?
      && FloatField(d, ProcessingTime).Ok?
      && OptStrField(d, Artist).Ok? && OptStrField(d, Year).Ok? && OptStrField(d, Style).Ok?
      && OptStrListField(d, Emotions).Ok? && OptStrField(d, ImageHash).Ok?
    ensures r.Ok? ==>
      && d[ArtworkName] == JStr(r.value.artworkName)
      && d[Analysis] == JStr(r.value.analysis)
      && r.value.artist == OptStrField(d, Artist).value
      && r.value.year == OptStrField(d, Year).value
      && r.value.style == OptStrField(d, Style).value
      && r.value.emotions == OptStrListField(d, Emotions).value
      && r.value.imageHash == OptStrField(d, ImageHash).value
      && r.value.processingTime == FloatField(d, ProcessingTime).value
  {
    var name := StrField(d, ArtworkName);
    var text := StrField(d, Analysis);
    var time := FloatField(d, ProcessingTime);
    var artist := OptStrField(d, Artist);
    var year := OptStrField(d, Year);
    var style := OptStrField(d, Style);
    var emotions := OptStrListField(d, Emotions);
    var hash := OptStrField(d, ImageHash);
    if name.Err? then Err(name.error)
    else if text.Err? then Err(text.error)
    else if time.Err? then Err(time.error)
    else if artist.Err? then Err(artist.error)
    else if year.Err? then Err(year.error)
    else if style.Err? then Err(style.error)
    else if emotions.Err? then Err(emotions.error)
    else if hash.Err? then Err(hash.error)
    else Ok(ArtworkAnalysisCreate(name.value, text.value, time.value, artist.value, year.value,
                                  style.value, emotions.value, hash.value))
  }

  function OptStrJson(o: Option<string>): Json {
    match o
    case None => JNull
    case Some(s) => JStr(s)
  }

  /** `.dict()` of a validated draft: every declared key, `None` as `null`. */
  function CreateToDict(c: ArtworkAnalysisCreate): Dict {
    map[
      ArtworkName := JStr(c.artworkName),
      Analysis := JStr(c.analysis),
      Artist := OptStrJson(c.artist),
      Year := OptStrJson(c.year),
      Style := OptStrJson(c.style),
      Emotions := (if c.emotions.Some? then JArr(StringsToJson(c.emotions.value)) else JNull),
      ProcessingTime := JFloat(c.processingTime),
      ImageHash := OptStrJson(c.imageHash)]
  }

  /** Validating the `.dict()` of a draft gives the draft back. */
  lemma CreateDictRoundTrip(c: ArtworkAnalysisCreate)
    ensures CreateFromDict(CreateToDict(c)) == Ok(c)
  {
    var d := CreateToDict(c);
    var r := CreateFromDict(d);
    assert r.Ok?;
    if c.emotions.Some? {
      assert Strings(d[Emotions].items) == c.emotions.value;
    }
  }

  // ------------------------------------------------------ stored document

  /**
   * `ArtworkAnalysisDB`: the draft's fields plus `created_at` and
   * `updated_at`, both set when the model is built (time is a counter here).
   */
  datatype ArtworkAnalysisDB = ArtworkAnalysisDB(
    artworkName: string,
    analysis: string,
    processingTime: real,
    artist: Option<string>,
    year: Option<string>,
    style: Option<string>,
    emotions: Option<seq<string>>,
    imageHash: Option<string>,
    createdAt: nat,
    updatedAt: nat)

  /** `ArtworkAnalysisDB(**create.dict())` built at time `now`. */
  function DocumentModel(c: ArtworkAnalysisCreate, now: nat): (m: ArtworkAnalysisDB)
    ensures m.createdAt == now && m.updatedAt == now
    ensures m.artworkName == c.artworkName && m.analysis == c.analysis
    ensures m.processingTime == c.processingTime && m.imageHash == c.imageHash
    ensures m.artist == c.artist && m.year == c.year && m.style == c.style && m.emotions == c.emotions
  {
    ArtworkAnalysisDB(c.artworkName, c.analysis, c.processingTime, c.artist, c.year, c.style,
                      c.emotions, c.imageHash, now, now)
  }

  /** The draft fields of a stored model, without its timestamps. */
  function DraftOf(m: ArtworkAnalysisDB): ArtworkAnalysisCreate {
    ArtworkAnalysisCreate(m.artworkName, m.analysis, m.processingTime, m.artist, m.year, m.style,
                          m.emotions, m.imageHash)
  }

  /**
   * Building the stored model loses nothing of the validated draft and
   * stamps both timestamps with the same instant.
   */
  lemma DocumentModelKeepsDraft(c: ArtworkAnalysisCreate, now: nat)
    ensures DraftOf(DocumentModel(c, now)) == c
    ensures DocumentModel(c, now).createdAt == DocumentModel(c, now).updatedAt == now
  {
  }

  /**
   * A document of the `artwork_analyses` collection. Documents written by
   * this service carry every key; documents written by other means may not:
   * `None` for the name or text, and `Absent` for the emotions or the
   * processing time, stand for a missing key.
   */
  datatype StoredDoc = StoredDoc(
    id: ObjectId,
    artworkName: Option<string>,
    analysis: Option<string>,
    artist: Option<string>,
    year: Option<string>,
    style: Option<string>,
    emotions: Slot<Option<seq<string>>>,
    processingTime: Slot<real>,
    imageHash: Option<string>,
    createdAt: nat,
    updatedAt: nat)

  /** `insert_one(model.dict())` with the identifier the store assigned. */
  function Inserted(m: ArtworkAnalysisDB, id: ObjectId): (d: StoredDoc)
    ensures d.id == id && d.artworkName == Some(m.artworkName) && d.analysis == Some(m.analysis)
    ensures d.emotions == Present(m.emotions) && d.processingTime == Present(m.processingTime)
    ensures d.imageHash == m.imageHash && d.createdAt == m.createdAt
  {
    StoredDoc(id, Some(m.artworkName), Some(m.analysis), m.artist, m.year, m.style,
              Present(m.emotions), Present(m.processingTime), m.imageHash, m.createdAt, m.updatedAt)
  }

  /** The model a stored document holds, when every key the model requires is present. */
  function ModelOf(d: StoredDoc): Option<ArtworkAnalysisDB> {
    if d.artworkName.Some? && d.analysis.Some? && d.emotions.Present? && d.processingTime.Present? then
      Some(ArtworkAnalysisDB(d.artworkName.value, d.analysis.value, d.processingTime.value, d.artist, d.year,
                             d.style, d.emotions.value, d.imageHash, d.createdAt, d.updatedAt))
    else None
  }

  /** The inserted document holds exactly the model it was built from, under the assigned id. */
  lemma InsertedKeepsModel(m: ArtworkAnalysisDB, id: ObjectId)
    ensures ModelOf(Inserted(m, id)) == Some(m) && Inserted(m, id).id == id
  {
  }

  // ------------------------------------------------------------- response

  /** What the API returns for an analysis; `cached` defaults to false. */
  datatype ArtworkAnalysisResponse = ArtworkAnalysisResponse(
    id: string,
    artworkName: string,
    analysis: string,
    processingTime: real,
    artist: Option<string> := None,
    year: Option<string> := None,
    style: Option<string> := None,
    emotions: Option<seq<string>> := None,
    cached: bool := false)
}
