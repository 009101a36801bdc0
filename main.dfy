/**
 * The application module (`main.py`): the health endpoint and the
 * application's own copy of the by-name flow, which differs from the
 * router's only in the 400 detail and in reporting the underlying error
 * text in its 500 detail.
 */
module App {
  import opened Wrappers
  import opened Text
  import opened ObjectIds
  import opened Schemas
  import opened Provider
  import opened Database
  import opened AnalyzeRouter

  /** The body of `GET /health`. */
  datatype Health = Health(status: string, service: string, database: string)

  const ServiceName := "Artell API"
  const NameRequiredDetail := "Nome da obra de arte é obrigatório"
  const InternalErrorPrefix := "Erro interno do servidor: "

  /**
   * `health_check`: always "healthy"; the database is reported connected
   * exactly when a client has been created, whether or not its ping
   * succeeded.
   */
  function HealthCheck(db: DatabaseService): (h: Health)
    reads db
    ensures h.status == "healthy" && h.service == ServiceName
    ensures h.database == "connected" <==> db.clientSet
    ensures !db.clientSet ==> h.database == "disconnected"
  {
    Health("healthy", ServiceName, if db.clientSet then "connected" else "disconnected")
  }

  /** The application's name flow reports the underlying error text in its 500 detail. */
  function AppNameError(error: string): HttpError {
    HttpError(500, InternalErrorPrefix + error)
  }

  /**
   * `analyze_artwork_by_name` (application version). The request schema
   * has already admitted the body (1 to 200 characters). A name that is
   * blank after stripping is rejected with 400 before anything is consulted; a cached record for the
   * stripped name is returned as it is; otherwise the provider is asked and
   * the draft is saved, with no image hash, as exactly one new record. A
   * failure of generation or saving becomes 500 whose detail carries the
   * text the failing step raised, and leaves the store as it was.
   */
  method AnalyzeArtworkByNameApp(db: DatabaseService, request: ArtworkAnalysisRequest,
                                 callApi: string -> ApiReply, elapsed: real, faults: Faults)
    returns (r: Result<ArtworkAnalysisResponse, HttpError>, trace: seq<Step>)
    requires ValidateRequest(request.artworkName).Ok?
    requires db.Valid() && db.clock < IdSpace
    modifies db
    ensures db.Valid() && db.clientSet == old(db.clientSet)
    ensures var name := Strip(request.artworkName);
      name == "" ==> r == Err(HttpError(400, NameRequiredDetail)) && trace == [] && unchanged(db)
    ensures var name := Strip(request.artworkName);
      var cached := old(db.GetAnalysisByName(name, faults.nameRead));
      name != "" && cached.Some? ==>
        r == Ok(cached.value) && trace == [LookupName(name)] && unchanged(db)
    ensures var name := Strip(request.artworkName);
      var cached := old(db.GetAnalysisByName(name, faults.nameRead));
      name != "" && cached.None? ==>
        GenerateOutcome(old(db.docs), old(db.clock), old(db.clientSet), db.docs, db.clock, name,
                        AnalysisOutcome(callApi(name), name, elapsed), faults.insert, AppNameError,
                        [LookupName(name)], r, trace)
  {
    var artworkName := Strip(request.artworkName);
    if artworkName == "" {
      return Err(HttpError(400, NameRequiredDetail)), [];
    }
    var cachedAnalysis := db.GetAnalysisByName(artworkName, faults.nameRead);
    if cachedAnalysis.Some? {
      return Ok(cachedAnalysis.value), [LookupName(artworkName)];
    }
    r, trace := GenerateAndSave(db, artworkName, callApi, elapsed, faults.insert, AppNameError,
                                [LookupName(artworkName)]);
  }
}
