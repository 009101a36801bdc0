/**
 * The analysis router (`routers/analyze.py`): the two analysis flows.
 * Each looks the work up in the store first and only asks the provider
 * when nothing is cached; a generated analysis is saved before it
 * is returned.
 *
 * Each flow returns, beside its answer, the trace of external steps it took
 * (file read, hashing, store lookups, provider calls, the save), so that the
 * contracts can say what was consulted and in which order.
 */
module AnalyzeRouter {
  import opened Wrappers
  import opened Text
  import Encoding
  import opened ObjectIds
  import opened Schemas
  import opened Config
  import opened Provider
  import opened Database

  /** An `HTTPException`. */
  datatype HttpError = HttpError(status: nat, detail: string)

  /** The external steps a flow can take. */
  datatype Step =
    | ReadFile
    | Hash
    | LookupHash(hash: string)
    | Identify
    | LookupName(name: string)
    | Generate(name: string)
    | AnalyzeImage
    | Save(attached: Option<string>)

  /** The store's answers that the caller cannot see in advance. */
  datatype Faults = Faults(hashRead: bool, nameRead: bool, insert: Option<string>)

  const NameRequired := "O nome da obra de arte é obrigatório."
  const NameFlowError := "Ocorreu um erro interno ao processar a sua solicitação."
  const ImageFlowError := "Ocorreu um erro interno ao processar a imagem."

  /** The 415 detail: the allowed types, comma separated. */
  function UnsupportedTypeDetail(): string {
    "Tipo de ficheiro não suportado. Use um dos seguintes: " + JoinTypes(AllowedImageTypes)
  }

  /** The 413 detail, with the ceiling in whole mebibytes. */
  function TooLargeDetail(): string {
    "Ficheiro muito grande. O tamanho máximo é " + NatToString(MaxFileSize / (1024 * 1024)) + "MB."
  }

  /** The allowed types as the 415 detail lists them. */
  lemma JoinedTypes()
    ensures JoinTypes(AllowedImageTypes) == "image/jpeg" + ", " + "image/png" + ", " + "image/webp"
  {
    var types := AllowedImageTypes;
    assert types[1..][1..] == ["image/webp"];
    assert JoinTypes(types[1..]) == "image/png" + ", " + "image/webp";
  }

  /** The ceiling the 413 detail quotes: 10 (MB). */
  lemma CeilingInMegabytes()
    ensures NatToString(MaxFileSize / (1024 * 1024)) == "10"
  {
    assert MaxFileSize / (1024 * 1024) == 10;
  }

  /**
   * The request schema admits a whitespace-only name, so the router's own
   * check after stripping is what rejects it.
   */
  lemma BlankNamePassesValidation(name: string)
    requires MinNameLength <= |name| <= MaxNameLength
    requires forall k :: 0 <= k < |name| ==> IsSpace(name[k])
    ensures ValidateRequest(name).Ok? && Strip(name) == ""
  {
    StripSpec(name);
  }


  /**
   * What saving a generated draft leaves behind, from the store before
   * (`oldDocs`, `oldClock`, `clientSet`) to the store after (`newDocs`,
   * `newClock`): the draft is saved with no image hash, and the reply is the
   * saved record or the save's error, reported through `report`.
   */
  predicate DraftSaveOutcome(oldDocs: seq<StoredDoc>, oldClock: nat, clientSet: bool,
                             newDocs: seq<StoredDoc>, newClock: nat, draft: Dict,
                             insertFault: Option<string>, report: string -> HttpError, before: seq<Step>,
                             r: Result<ArtworkAnalysisResponse, HttpError>, trace: seq<Step>)
    requires oldClock < IdSpace
  {
    && trace == before + [Save(None)]
    && SaveEffect(oldDocs, oldClock, clientSet, draft, None, insertFault, newDocs, r.Ok?)
    && newClock == oldClock + (if r.Ok? then 1 else 0)
    && (r.Ok? ==>
      && |newDocs| > 0 && newDocs[|newDocs| - 1].imageHash.None?
      && ConvertToResponse(newDocs[|newDocs| - 1], false) == Ok(r.value))
    && (r.Err? ==> r.error == report(SaveError(clientSet, draft, None, insertFault)))
  }

  /**
   * What the generate-then-save tail of a name flow leaves behind, given the
   * outcome of generation for `name`: a failed generation is reported
   * through `report` and writes nothing; a draft is saved as
   * `DraftSaveOutcome` says.
   */
  predicate GenerateOutcome(oldDocs: seq<StoredDoc>, oldClock: nat, clientSet: bool,
                            newDocs: seq<StoredDoc>, newClock: nat, name: string, draft: Result<Dict, string>,
                            insertFault: Option<string>, report: string -> HttpError, before: seq<Step>,
                            r: Result<ArtworkAnalysisResponse, HttpError>, trace: seq<Step>)
    requires oldClock < IdSpace
  {
    && (draft.Err? ==>
      && r == Err(report(draft.error)) && trace == before + [Generate(name)]
      && newDocs == oldDocs && newClock == oldClock)
    && (draft.Ok? ==>
      DraftSaveOutcome(oldDocs, oldClock, clientSet, newDocs, newClock, draft.value, insertFault, report,
                       before + [Generate(name)], r, trace))
  }

  /**
   * Save a generated draft with no image hash; the provider's drafts carry
   * no `image_hash` key. `before` is the trace so far.
   */
  method SaveDraft(db: DatabaseService, draft: Dict, insertFault: Option<string>, report: string -> HttpError,
                   before: seq<Step>)
    returns (r: Result<ArtworkAnalysisResponse, HttpError>, trace: seq<Step>)
    requires db.Valid() && db.clock < IdSpace && ImageHash !in draft
    modifies db
    ensures db.Valid() && db.clientSet == old(db.clientSet)
    ensures DraftSaveOutcome(old(db.docs), old(db.clock), old(db.clientSet), db.docs, db.clock, draft,
                             insertFault, report, before, r, trace)
  {
    trace := before + [Save(None)];
    var savedAnalysis := db.SaveAnalysis(draft, None, insertFault);
    if savedAnalysis.Err? {
      return Err(report(savedAnalysis.error)), trace;
    }
    r := Ok(savedAnalysis.value);
  }

  /**
   * The generate-then-save tail shared by the name flows: ask the provider
   * about `name`, then save the draft, with no image hash, as exactly one new
   * record, which is returned. The text a failing step raised is turned into
   * the flow's HTTP error by `report`. `before` is the trace so far.
   */
  method GenerateAndSave(db: DatabaseService, name: string, callApi: string -> ApiReply, elapsed: real,
                         insertFault: Option<string>, report: string -> HttpError, before: seq<Step>)
    returns (r: Result<ArtworkAnalysisResponse, HttpError>, trace: seq<Step>)
    requires db.Valid() && db.clock < IdSpace
    modifies db
    ensures db.Valid() && db.clientSet == old(db.clientSet)
    ensures GenerateOutcome(old(db.docs), old(db.clock), old(db.clientSet), db.docs, db.clock, name,
                            AnalysisOutcome(callApi(name), name, elapsed), insertFault, report, before, r, trace)
  {
    trace := before + [Generate(name)];
    var analysisData := AnalyzeArtwork(name, callApi, elapsed);
    if analysisData.Err? {
      return Err(report(analysisData.error)), trace;
    }
    r, trace := SaveDraft(db, analysisData.value, insertFault, report, trace);
  }

  /** The router's name flow hides the underlying error behind one fixed 500 detail. */
  function RouterNameError(error: string): HttpError {
    HttpError(500, NameFlowError)
  }

  /**
   * `analyze_artwork_by_name` (router version). The request schema has
   * already admitted the body (1 to 200 characters; anything else is the
   * framework's 422 and never reaches the handler). A name that is blank
   * after stripping is rejected with 400 before anything is consulted. A cached record for the stripped
   * name is returned as it is, without generating or writing. Otherwise the
   * provider is asked about the stripped name and the draft is saved, with
   * no image hash, as exactly one new record, which is returned. Failures of
   * generation or saving become the same 500 and leave the store as it was.
   */
  method AnalyzeArtworkByName(db: DatabaseService, request: ArtworkAnalysisRequest,
                              callApi: string -> ApiReply, elapsed: real, faults: Faults)
    returns (r: Result<ArtworkAnalysisResponse, HttpError>, trace: seq<Step>)
    requires ValidateRequest(request.artworkName).Ok?
    requires db.Valid() && db.clock < IdSpace
    modifies db
    ensures db.Valid() && db.clientSet == old(db.clientSet)
    ensures var name := Strip(request.artworkName);
      name == "" ==> r == Err(HttpError(400, NameRequired)) && trace == [] && unchanged(db)
    ensures var name := Strip(request.artworkName);
      var cached := old(db.GetAnalysisByName(name, faults.nameRead));
      name != "" && cached.Some? ==>
        r == Ok(cached.value) && trace == [LookupName(name)] && unchanged(db)
    ensures var name := Strip(request.artworkName);
      var cached := old(db.GetAnalysisByName(name, faults.nameRead));
      name != "" && cached.None? ==>
        GenerateOutcome(old(db.docs), old(db.clock), old(db.clientSet), db.docs, db.clock, name,
                        AnalysisOutcome(callApi(name), name, elapsed), faults.insert, RouterNameError,
                        [LookupName(name)], r, trace)
  {
    var artworkName := Strip(request.artworkName);
    if artworkName == "" {
      return Err(HttpError(400, NameRequired)), [];
    }
    var cachedAnalysis := db.GetAnalysisByName(artworkName, faults.nameRead);
    if cachedAnalysis.Some? {
      return Ok(cachedAnalysis.value), [LookupName(artworkName)];
    }
    r, trace := GenerateAndSave(db, artworkName, callApi, elapsed, faults.insert, RouterNameError,
                                [LookupName(artworkName)]);
  }

  /**
   * The name the lookup after identification searches for: the store
   * interpolates `identification_result.get("artwork_name")` into its
   * pattern, so a missing name renders as "None".
   */
  function IdentifiedName(identification: Option<string>): (name: string)
    ensures identification.Some? ==> name == identification.value
    ensures identification.None? ==> name == "None"
  {
    identification.GetOr("None")
  }

  /**
   * An identification that gives no name still triggers a lookup, for the
   * name "None": whatever it finds is a record named "None" up to case.
   */
  lemma NamelessIdentificationLooksUpNone(db: DatabaseService, readFault: bool)
    ensures LookedUpName(Ok(Some(None))) == "None"
    ensures var hit := db.GetAnalysisByName(LookedUpName(Ok(Some(None))), readFault);
      hit.Some? ==> EqualsIgnoreCase(hit.value.artworkName, "None")
  {
  }

  /** The identified name that overrides the draft's: only a non-empty one. */
  function NameOverride(identification: Option<Option<string>>): (o: Option<string>)
    ensures o.Some? <==> identification.Some? && identification.value.Some? && identification.value.value != ""
    ensures o.Some? ==> o.value == identification.value.value
  {
    if identification.Some? && identification.value.Some? && identification.value.value != "" then
      identification.value
    else None
  }

  /** `analysis_data["artwork_name"] = ...` when the identifier gave a non-empty name. */
  function NamedDraft(draft: Dict, identification: Option<Option<string>>): (d: Dict)
    ensures NameOverride(identification).Some? ==>
      ArtworkName in d && d[ArtworkName] == JStr(NameOverride(identification).value)
    ensures forall f :: f != ArtworkName ==> (f in d <==> f in draft) && (f in d ==> d[f] == draft[f])
    ensures NameOverride(identification).None? ==> d == draft
  {
    var o := NameOverride(identification);
    if o.Some? then draft[ArtworkName := JStr(o.value)] else draft
  }

  /**
   * The record the image flow saves is named by the identifier whenever it
   * gave a non-empty name, and by the draft otherwise.
   */
  lemma SavedImageName(draft: Dict, identification: Option<Option<string>>, hash: string)
    ensures var c := CreateFromDict(WithHash(NamedDraft(draft, identification), Some(hash)));
      && (c.Ok? && NameOverride(identification).Some? ==> c.value.artworkName == NameOverride(identification).value)
      && (c.Ok? && NameOverride(identification).None? ==>
            ArtworkName in draft && draft[ArtworkName] == JStr(c.value.artworkName))
  {
    var d := WithHash(NamedDraft(draft, identification), Some(hash));
    var c := CreateFromDict(d);
    if c.Ok? {
      assert StrField(d, ArtworkName).Ok?;
    }
  }

  /** The upload passes both checks: an allowed type and at most the size ceiling. */
  predicate Accepted(contentType: Option<string>, size: nat) {
    contentType.Some? && contentType.value in AllowedImageTypes && size <= MaxFileSize
  }

  /** A sixty-four digit hash is always truthy, so the save attaches it. */
  lemma HashIsTruthy(sha256: Encoding.Sha256, data: seq<Encoding.byte>)
    ensures Truthy(Some(Encoding.ImageHash(sha256, data)))
  {
  }

  /** The name the image flow looks up: the identified one, or none when the identifier said nothing. */
  function LookedUpName(identification: Result<Option<Option<string>>, string>): string {
    if identification.Ok? && identification.value.Some? then IdentifiedName(identification.value.value) else ""
  }

  /**
   * What the analyse-and-save stage of the image flow leaves behind, from
   * the store before (`oldDocs`, `oldClock`, `clientSet`) to the store after
   * (`newDocs`, `newClock`): a failed analysis is a 500 after one more step
   * and no write; a successful one is saved under the identified name with
   * the hash attached, and the reply is the saved record or a 500.
   */
  predicate ImageSaveOutcome(oldDocs: seq<StoredDoc>, oldClock: nat, clientSet: bool,
                             newDocs: seq<StoredDoc>, newClock: nat,
                             identification: Option<Option<string>>, draft: Result<Dict, string>, h: string,
                             insertFault: Option<string>, before: seq<Step>,
                             r: Result<ArtworkAnalysisResponse, HttpError>, trace: seq<Step>)
    requires oldClock < IdSpace
  {
    && (draft.Err? ==>
      && r == Err(HttpError(500, ImageFlowError)) && trace == before + [AnalyzeImage]
      && newDocs == oldDocs && newClock == oldClock)
    && (draft.Ok? ==>
      && trace == before + [AnalyzeImage, Save(Some(h))]
      && SaveEffect(oldDocs, oldClock, clientSet, NamedDraft(draft.value, identification), Some(h), insertFault,
                    newDocs, r.Ok?)
      && newClock == oldClock + (if r.Ok? then 1 else 0)
      && (r.Ok? ==>
        && |newDocs| > 0 && newDocs[|newDocs| - 1].imageHash == Some(h)
        && ConvertToResponse(newDocs[|newDocs| - 1], false) == Ok(r.value))
      && (r.Err? ==> r.error == HttpError(500, ImageFlowError)))
  }

  /**
   * The last stage of the image flow: the full image analysis, the name
   * override, and the save with the hash attached. `before` is the trace so
   * far.
   */
  method AnalyzeAndSave(db: DatabaseService, imageData: seq<Encoding.byte>, identification: Option<Option<string>>,
                        h: string, analyzeImage: seq<Encoding.byte> -> Result<Dict, string>,
                        insertFault: Option<string>, before: seq<Step>)
    returns (r: Result<ArtworkAnalysisResponse, HttpError>, trace: seq<Step>)
    requires db.Valid() && db.clock < IdSpace && Truthy(Some(h))
    modifies db
    ensures db.Valid() && db.clientSet == old(db.clientSet)
    ensures ImageSaveOutcome(old(db.docs), old(db.clock), old(db.clientSet), db.docs, db.clock, identification,
                             analyzeImage(imageData), h, insertFault, before, r, trace)
  {
    trace := before + [AnalyzeImage];
    var analysisData := analyzeImage(imageData);
    if analysisData.Err? {
      return Err(HttpError(500, ImageFlowError)), trace;
    }
    var data := analysisData.value;
    var override := NameOverride(identification);
    if override.Some? {
      data := data[ArtworkName := JStr(override.value)];
    }
    trace := trace + [Save(Some(h))];
    var savedAnalysis := db.SaveAnalysis(data, Some(h), insertFault);
    if savedAnalysis.Err? {
      return Err(HttpError(500, ImageFlowError)), trace;
    }
    r := Ok(savedAnalysis.value);
  }

  /**
   * What the image flow does after a hash miss, given the identifier's
   * answer and the record cached under the name it gave (`byName`): a failed
   * identification is a 500; a cached record is returned as it is; otherwise
   * the image is analysed and saved as `ImageSaveOutcome` says. Only the
   * last case writes.
   */
  predicate UnhashedOutcome(oldDocs: seq<StoredDoc>, oldClock: nat, clientSet: bool,
                            newDocs: seq<StoredDoc>, newClock: nat,
                            identification: Result<Option<Option<string>>, string>,
                            byName: Option<ArtworkAnalysisResponse>, draft: Result<Dict, string>, h: string,
                            insertFault: Option<string>, before: seq<Step>,
                            r: Result<ArtworkAnalysisResponse, HttpError>, trace: seq<Step>)
    requires oldClock < IdSpace
  {
    var looked := identification.Ok? && identification.value.Some?;
    && (identification.Err? ==>
      && r == Err(HttpError(500, ImageFlowError)) && trace == before + [Identify]
      && newDocs == oldDocs && newClock == oldClock)
    && (looked && byName.Some? ==>
      && r == Ok(byName.value) && trace == before + [Identify, LookupName(LookedUpName(identification))]
      && newDocs == oldDocs && newClock == oldClock)
    && (identification.Ok? && !(looked && byName.Some?) ==>
      ImageSaveOutcome(oldDocs, oldClock, clientSet, newDocs, newClock, identification.value, draft, h,
                       insertFault,
                       before + [Identify] + (if looked then [LookupName(LookedUpName(identification))] else []),
                       r, trace))
  }

  /**
   * The image flow after a hash miss: ask the identifier; when it answers,
   * return the record cached under the identified name; otherwise analyse
   * and save. `before` is the trace so far.
   */
  method ResolveUnhashed(db: DatabaseService, imageData: seq<Encoding.byte>, h: string,
                         identify: seq<Encoding.byte> -> Result<Option<Option<string>>, string>,
                         analyzeImage: seq<Encoding.byte> -> Result<Dict, string>, faults: Faults, before: seq<Step>)
    returns (r: Result<ArtworkAnalysisResponse, HttpError>, trace: seq<Step>)
    requires db.Valid() && db.clock < IdSpace && Truthy(Some(h))
    modifies db
    ensures db.Valid() && db.clientSet == old(db.clientSet)
    ensures var name := LookedUpName(identify(imageData));
      UnhashedOutcome(old(db.docs), old(db.clock), old(db.clientSet), db.docs, db.clock,
                            identify(imageData), old(db.GetAnalysisByName(name, faults.nameRead)),
                            analyzeImage(imageData), h, faults.insert, before, r, trace)
  {
    trace := before + [Identify];
    var identificationResult := identify(imageData);
    if identificationResult.Err? {
      return Err(HttpError(500, ImageFlowError)), trace;
    }
    if identificationResult.value.Some? {
      var artworkName := IdentifiedName(identificationResult.value.value);
      trace := trace + [LookupName(artworkName)];
      var cachedByName := db.GetAnalysisByName(artworkName, faults.nameRead);
      if cachedByName.Some? {
        return Ok(cachedByName.value), trace;
      }
    }
    r, trace := AnalyzeAndSave(db, imageData, identificationResult.value, h, analyzeImage, faults.insert, trace);
  }

  /**
   * `analyze_artwork_by_image`. The content type is checked (415) before the
   * file is read, and the size (413, inclusive ceiling) before it is hashed.
   * A record with exactly this hash is returned without asking the provider
   * or writing. Otherwise the identifier is asked; when it answers, the
   * record cached under the identified name is returned without writing and
   * without linking the new hash. Otherwise the full image analysis runs,
   * the identified name (when non-empty) replaces the draft's, and the draft
   * is saved as exactly one new record carrying the hash. Failures after
   * the checks become 500 and leave the store as it was.
   */
  method AnalyzeArtworkByImage(db: DatabaseService, contentType: Option<string>, imageData: seq<Encoding.byte>,
                               sha256: Encoding.Sha256, identify: seq<Encoding.byte> -> Result<Option<Option<string>>, string>,
                               analyzeImage: seq<Encoding.byte> -> Result<Dict, string>, faults: Faults)
    returns (r: Result<ArtworkAnalysisResponse, HttpError>, trace: seq<Step>)
    requires db.Valid() && db.clock < IdSpace
    modifies db
    ensures db.Valid() && db.clientSet == old(db.clientSet)
    ensures contentType.None? || contentType.value !in AllowedImageTypes ==>
      r == Err(HttpError(415, UnsupportedTypeDetail())) && trace == [] && unchanged(db)
    ensures contentType.Some? && contentType.value in AllowedImageTypes && |imageData| > MaxFileSize ==>
      r == Err(HttpError(413, TooLargeDetail())) && trace == [ReadFile] && unchanged(db)
    ensures var h := Encoding.ImageHash(sha256, imageData);
      var byHash := old(db.GetAnalysisByImageHash(h, faults.hashRead));
      Accepted(contentType, |imageData|) && byHash.Some? ==>
        r == Ok(byHash.value) && trace == [ReadFile, Hash, LookupHash(h)] && unchanged(db)
    ensures var h := Encoding.ImageHash(sha256, imageData);
      var byHash := old(db.GetAnalysisByImageHash(h, faults.hashRead));
      var name := LookedUpName(identify(imageData));
      Accepted(contentType, |imageData|) && byHash.None? ==>
        UnhashedOutcome(old(db.docs), old(db.clock), old(db.clientSet), db.docs, db.clock,
                        identify(imageData), old(db.GetAnalysisByName(name, faults.nameRead)),
                        analyzeImage(imageData), h, faults.insert, [ReadFile, Hash, LookupHash(h)], r, trace)
  {
    if contentType.None? || contentType.value !in AllowedImageTypes {
      return Err(HttpError(415, UnsupportedTypeDetail())), [];
    }
    if |imageData| > MaxFileSize {
      return Err(HttpError(413, TooLargeDetail())), [ReadFile];
    }
    var imageHash := Encoding.ImageHash(sha256, imageData);
    trace := [ReadFile, Hash, LookupHash(imageHash)];
    var cachedAnalysis := db.GetAnalysisByImageHash(imageHash, faults.hashRead);
    if cachedAnalysis.Some? {
      return Ok(cachedAnalysis.value), trace;
    }
    HashIsTruthy(sha256, imageData);
    r, trace := ResolveUnhashed(db, imageData, imageHash, identify, analyzeImage, faults, trace);
  }
}
