/**
 * `DatabaseService`: the `artwork_analyses` collection seen as the sequence
 * of its documents in insertion (natural) order, plus a monotone counter that
 * stands for both the clock and the object-id generator.
 *
 * Reads that raise (no client, or a driver error, passed in as `readFault`)
 * answer "not found": `None`, `[]`, `([], 0)` or a zero count. Writes that
 * raise are re-raised as `Err` with the prefix "Erro ao salvar análise: ".
 */
module Database {
  import opened Wrappers
  import opened Text
  import opened ObjectIds
  import opened Schemas

  // ------------------------------------------------------------ conversion

  /**
   * `_convert_to_response`. A document lacking `artwork_name` or `analysis`
   * raises `KeyError`; otherwise the response carries the document's fields,
   * the string form of its id, `[]` for missing emotions, `0.0` for a
   * missing processing time, and exactly the `cached` flag passed in.
   */
  function ConvertToResponse(doc: StoredDoc, cached: bool): (r: Result<ArtworkAnalysisResponse, string>)
    ensures r.Err? <==> doc.artworkName.None? || doc.analysis.None?
    ensures r.Err? ==> r.error == (if doc.artworkName.None? then "'artwork_name'" else "'analysis'")
    ensures r.Ok? ==>
      && r.value.id == IdString(doc.id)
      && doc.artworkName == Some(r.value.artworkName)
      && doc.analysis == Some(r.value.analysis)
      && r.value.artist == doc.artist && r.value.year == doc.year && r.value.style == doc.style
      && (doc.emotions.Present? ==> r.value.emotions == doc.emotions.value)
      && (doc.emotions.Absent? ==> r.value.emotions == Some([]))
      && (doc.processingTime.Present? ==> r.value.processingTime == doc.processingTime.value)
      && (doc.processingTime.Absent? ==> r.value.processingTime == 0.0)
      && r.value.cached == cached
  {
    if doc.artworkName.None? then Err("'artwork_name'")
    else if doc.analysis.None? then Err("'analysis'")
    else
      Ok(ArtworkAnalysisResponse(IdString(doc.id), doc.artworkName.value, doc.analysis.value,
                                 doc.processingTime.GetOr(0.0), doc.artist, doc.year, doc.style,
                                 doc.emotions.GetOr(Some([])), cached))
  }

  /**
   * A document this service wrote converts back to the draft it came from:
   * same fields, the assigned id, and the `cached` flag passed in.
   */
  lemma SavedDocumentConverts(c: ArtworkAnalysisCreate, now: nat, id: ObjectId, cached: bool)
    ensures ConvertToResponse(Inserted(DocumentModel(c, now), id), cached) ==
      Ok(ArtworkAnalysisResponse(IdString(id), c.artworkName, c.analysis, c.processingTime,
                                 c.artist, c.year, c.style, c.emotions, cached))
  {
  }

  // ------------------------------------------------------------- find_one

  /** The filter documents `find_one` is called with. */
  datatype Selector =
    | HashIs(hash: string)        // {"image_hash": hash}
    | NameIs(name: string)        // {"artwork_name": {"$regex": "^name$", "$options": "i"}}
    | IdIs(id: ObjectId)          // {"_id": ObjectId(id)}

  predicate Selects(s: Selector, d: StoredDoc) {
    match s
    case HashIs(h) => d.imageHash == Some(h)
    case NameIs(n) => d.artworkName.Some? && EqualsIgnoreCase(d.artworkName.value, n)
    case IdIs(id) => d.id == id
  }

  /** Position of the first document the filter selects. */
  function FirstMatch(ds: seq<StoredDoc>, s: Selector): (i: Option<nat>)
    ensures i.Some? ==> i.value < |ds| && Selects(s, ds[i.value])
    ensures i.Some? ==> forall k :: 0 <= k < i.value ==> !Selects(s, ds[k])
    ensures i.None? <==> forall k :: 0 <= k < |ds| ==> !Selects(s, ds[k])
    decreases |ds|
  {
    if |ds| == 0 then None
    else if Selects(s, ds[0]) then Some(0)
    else
      match FirstMatch(ds[1..], s)
      case None => None
      case Some(j) => Some(j + 1)
  }

  /** Every document can be converted: no name or text key is missing. */
  predicate AllConvertible(ds: seq<StoredDoc>) {
    forall k :: 0 <= k < |ds| ==> ds[k].artworkName.Some? && ds[k].analysis.Some?
  }

  /**
   * `find_one(filter)` followed by `_convert_to_response(doc, cached=True)`.
   * A result is a selected document's conversion; no selected document means
   * `None`; over convertible documents `None` means exactly that.
   */
  function FindOne(ds: seq<StoredDoc>, s: Selector): (r: Option<ArtworkAnalysisResponse>)
    ensures r.Some? ==> exists i :: 0 <= i < |ds| && Selects(s, ds[i]) && ConvertToResponse(ds[i], true) == Ok(r.value)
    ensures (forall i :: 0 <= i < |ds| ==> !Selects(s, ds[i])) ==> r.None?
    ensures AllConvertible(ds) && (exists i :: 0 <= i < |ds| && Selects(s, ds[i])) ==> r.Some?
  {
    match FirstMatch(ds, s)
    case None => None
    case Some(i) => ConvertToResponse(ds[i], true).ToOption()
  }

  // -------------------------------------------------------------- queries

  /** The `query` dictionary of `get_analyses`: one optional regex per field. */
  datatype Query = Query(artworkName: Option<string>, artist: Option<string>, style: Option<string>)

  const EmptyQuery := Query(None, None, None)

  /** Python truthiness of an `Optional[str]`. */
  predicate Truthy(s: Option<string>) {
    s.Some? && s.value != ""
  }

  /** The query `get_analyses` builds: a filter for each truthy argument. */
  function QueryOf(artworkName: Option<string>, artist: Option<string>, style: Option<string>): Query {
    Query(if Truthy(artworkName) then artworkName else None,
          if Truthy(artist) then artist else None,
          if Truthy(style) then style else None)
  }

  /** `{"$regex": pattern, "$options": "i"}` on one field: a case-insensitive substring. */
  predicate FieldMatches(field: Option<string>, pattern: Option<string>) {
    pattern.None? || (field.Some? && Contains(Lower(field.value), Lower(pattern.value)))
  }

  /** A document satisfies every filter of the query. */
  predicate Matches(d: StoredDoc, q: Query) {
    && FieldMatches(d.artworkName, q.artworkName)
    && FieldMatches(d.artist, q.artist)
    && FieldMatches(d.style, q.style)
  }

  predicate IdsIncreasing(ds: seq<StoredDoc>) {
    forall i, j :: 0 <= i < j < |ds| ==> ds[i].id < ds[j].id
  }

  /**
   * `find(query)` in natural order: the documents the query matches, and
   * only those, in their stored order.
   */
  function Matching(ds: seq<StoredDoc>, q: Query): (r: seq<StoredDoc>)
    ensures |r| <= |ds|
    ensures forall d :: d in r <==> d in ds && Matches(d, q)
    ensures IdsIncreasing(ds) ==> IdsIncreasing(r)
    ensures forall d :: d in r ==> exists k :: 0 <= k < |ds| && ds[k] == d
    decreases |ds|
  {
    if |ds| == 0 then []
    else
      var init := Matching(ds[..|ds| - 1], q);
      var last := ds[|ds| - 1];
      assert ds == ds[..|ds| - 1] + [last];
      if Matches(last, q) then
        assert IdsIncreasing(ds) ==> forall d :: d in init ==> d.id < last.id by {
          if IdsIncreasing(ds) {
            forall d | d in init ensures d.id < last.id {
              var k :| 0 <= k < |ds| - 1 && ds[..|ds| - 1][k] == d;
              assert ds[k] == d;
            }
          }
        }
        init + [last]
      else init
  }

  /** The empty query matches every document. */
  lemma {:induction false} EmptyQueryMatchesAll(ds: seq<StoredDoc>)
    ensures Matching(ds, EmptyQuery) == ds
    decreases |ds|
  {
    if |ds| > 0 {
      EmptyQueryMatchesAll(ds[..|ds| - 1]);
      assert ds == ds[..|ds| - 1] + [ds[|ds| - 1]];
    }
  }

  function Abs(n: int): nat {
    if n < 0 then -n else n
  }

  function Min(a: nat, b: nat): nat {
    if a <= b then a else b
  }

  /**
   * `cursor.skip(skip).limit(limit)`: the documents from offset `skip`, at
   * most `|limit|` of them; a zero limit means no limit.
   */
  function Window(ds: seq<StoredDoc>, skip: nat, limit: int): (r: seq<StoredDoc>)
    ensures |r| == (if skip >= |ds| then 0 else if limit == 0 then |ds| - skip else Min(Abs(limit), |ds| - skip))
    ensures forall k :: 0 <= k < |r| ==> r[k] == ds[skip + k]
  {
    if skip >= |ds| then []
    else if limit == 0 then ds[skip..]
    else ds[skip..skip + Min(Abs(limit), |ds| - skip)]
  }

  /**
   * With a positive page size, the record at position `i` of the matches is
   * on page `i / limit + 1`, at position `i % limit`.
   */
  lemma PageOfIndex(ds: seq<StoredDoc>, limit: int, i: nat)
    requires limit > 0 && i < |ds|
    ensures var page := i / limit + 1; var skip := (page - 1) * limit;
      && 0 <= skip <= i
      && i - skip < |Window(ds, skip, limit)|
      && Window(ds, skip, limit)[i - skip] == ds[i]
  {
    var skip := (i / limit) * limit;
    assert i == skip + i % limit;
  }

  /**
   * `sort("created_at", -1).limit(n)` over documents in creation order: the
   * `n` newest, newest first.
   */
  function Newest(ds: seq<StoredDoc>, n: nat): (r: seq<StoredDoc>)
    ensures |r| == Min(n, |ds|)
    ensures forall k :: 0 <= k < |r| ==> r[k] == ds[|ds| - 1 - k]
    decreases n
  {
    if n == 0 || |ds| == 0 then []
    else [ds[|ds| - 1]] + Newest(ds[..|ds| - 1], n - 1)
  }

  predicate Chronological(ds: seq<StoredDoc>) {
    forall i, j :: 0 <= i < j < |ds| ==> ds[i].createdAt < ds[j].createdAt
  }

  /**
   * Over documents in creation order, `Newest` is in strictly descending
   * `created_at` order and every document it leaves out is older than every
   * document it keeps.
   */
  lemma NewestAreLatest(ds: seq<StoredDoc>, n: nat)
    requires Chronological(ds)
    ensures var r := Newest(ds, n);
      && (forall i, j :: 0 <= i < j < |r| ==> r[i].createdAt > r[j].createdAt)
      && (forall m, k :: 0 <= m < |ds| - |r| && 0 <= k < |r| ==> ds[m].createdAt < r[k].createdAt)
  {
  }

  /** How many documents `limit(limit)` lets through out of `size`. */
  function LimitCount(limit: int, size: nat): nat {
    if limit == 0 then size else Abs(limit)
  }

  /**
   * `[convert(doc, cached=True) async for doc in cursor]`: the conversions in
   * order, or `None` when one of them raises, which discards the whole list.
   */
  method ConvertAll(ds: seq<StoredDoc>) returns (r: Option<seq<ArtworkAnalysisResponse>>)
    ensures r.Some? <==> AllConvertible(ds)
    ensures r.Some? ==> |r.value| == |ds|
    ensures r.Some? ==> forall k :: 0 <= k < |ds| ==> ConvertToResponse(ds[k], true) == Ok(r.value[k])
  {
    var out: seq<ArtworkAnalysisResponse> := [];
    var i := 0;
    while i < |ds|
      invariant 0 <= i <= |ds| && |out| == i
      invariant AllConvertible(ds[..i])
      invariant forall k :: 0 <= k < i ==> ConvertToResponse(ds[k], true) == Ok(out[k])
    {
      var c := ConvertToResponse(ds[i], true);
      if c.Err? {
        return None;
      }
      out := out + [c.value];
      i := i + 1;
      assert ds[..i] == ds[..i - 1] + [ds[i - 1]];
    }
    assert ds[..i] == ds;
    return Some(out);
  }

  // --------------------------------------------------------------- writes

  const SaveErrorPrefix := "Erro ao salvar análise: "

  /** What subscripting the missing database (`None[...]`) raises. */
  const NoClientError := "'NoneType' object is not subscriptable"

  /** `analysis_data['image_hash'] = image_hash` when the hash is truthy. */
  function WithHash(data: Dict, imageHash: Option<string>): (d: Dict)
    ensures Truthy(imageHash) ==> ImageHash in d && d[ImageHash] == JStr(imageHash.value)
    ensures forall f :: f != ImageHash ==> (f in d <==> f in data) && (f in d ==> d[f] == data[f])
    ensures !Truthy(imageHash) ==> d == data
  {
    if Truthy(imageHash) then data[ImageHash := JStr(imageHash.value)] else data
  }

  /**
   * What `save_analysis` does to the collection: exactly one new document,
   * built from the validated draft (with the hash attached when truthy),
   * stamped with the current instant and given the next id, when the client
   * is set, the draft validates and the insert goes through; nothing
   * otherwise.
   */
  predicate SaveEffect(oldDocs: seq<StoredDoc>, oldClock: nat, clientSet: bool, data: Dict,
                       imageHash: Option<string>, insertFault: Option<string>,
                       newDocs: seq<StoredDoc>, saved: bool)
    requires oldClock < IdSpace
  {
    var c := CreateFromDict(WithHash(data, imageHash));
    && (saved <==> clientSet && c.Ok? && insertFault.None?)
    && (saved ==> newDocs == oldDocs + [Inserted(DocumentModel(c.value, oldClock), oldClock)])
    && (!saved ==> newDocs == oldDocs)
  }

  /** The text `save_analysis` re-raises, for the first step that failed. */
  function SaveError(clientSet: bool, data: Dict, imageHash: Option<string>, insertFault: Option<string>): string {
    var c := CreateFromDict(WithHash(data, imageHash));
    SaveErrorPrefix + (if !clientSet then NoClientError else if c.Err? then c.error
                       else if insertFault.Some? then insertFault.value else "")
  }

  /** The usage statistics `get_analysis_stats` reports. */
  datatype Stats = Stats(totalAnalyses: nat)

  class DatabaseService {
    /** Whether `self.client` has been set by `connect`. */
    var clientSet: bool
    /** The collection, in insertion order. */
    var docs: seq<StoredDoc>
    /** The next instant; also the next object id. */
    var clock: nat

    /**
     * Documents are in creation order with strictly increasing ids and
     * timestamps, all before the clock, and the clock stays in the id space.
     */
    predicate Valid()
      reads this
    {
      && clock <= IdSpace
      && (forall i :: 0 <= i < |docs| ==> docs[i].id < clock && docs[i].createdAt < clock)
      && IdsIncreasing(docs)
      && Chronological(docs)
    }

    /** `__init__`: no client yet. */
    constructor ()
      ensures Valid() && !clientSet && docs == [] && clock == 0
    {
      clientSet := false;
      docs := [];
      clock := 0;
    }

    /**
     * `connect`: the client is set before the ping, so it stays set when the
     * ping fails (`ok` is false, the source re-raises). `collection` is what
     * the server holds and `now` the current instant.
     */
    method Connect(collection: seq<StoredDoc>, now: nat, pingOk: bool) returns (ok: bool)
      requires now <= IdSpace && IdsIncreasing(collection) && Chronological(collection)
      requires forall i :: 0 <= i < |collection| ==> collection[i].id < now && collection[i].createdAt < now
      modifies this
      ensures Valid() && clientSet && docs == collection && clock == now && ok == pingOk
    {
      clientSet := true;
      docs := collection;
      clock := now;
      ok := pingOk;
    }

    /**
     * `get_analysis_by_image_hash`: a result is a stored record whose
     * `image_hash` equals the query exactly; no match, no client or a read
     * error give `None`.
     */
    function GetAnalysisByImageHash(imageHash: string, readFault: bool): (r: Option<ArtworkAnalysisResponse>)
      reads this
      ensures r.Some? ==> r.value.cached
      ensures r.Some? ==>
        exists i :: 0 <= i < |docs| && docs[i].imageHash == Some(imageHash) && ConvertToResponse(docs[i], true) == Ok(r.value)
      ensures !clientSet || readFault || (forall i :: 0 <= i < |docs| ==> docs[i].imageHash != Some(imageHash)) ==> r.None?
      ensures clientSet && !readFault && AllConvertible(docs) && (exists i :: 0 <= i < |docs| && docs[i].imageHash == Some(imageHash)) ==> r.Some?
    {
      if !clientSet || readFault then None else FindOne(docs, HashIs(imageHash))
    }

    /**
     * `get_analysis_by_name`: a result is a stored record whose whole name
     * equals the query up to case; no match, no client or a read error give
     * `None`.
     */
    function GetAnalysisByName(artworkName: string, readFault: bool): (r: Option<ArtworkAnalysisResponse>)
      reads this
      ensures r.Some? ==> r.value.cached && EqualsIgnoreCase(r.value.artworkName, artworkName)
      ensures r.Some? ==>
        exists i :: 0 <= i < |docs| && Selects(NameIs(artworkName), docs[i]) && ConvertToResponse(docs[i], true) == Ok(r.value)
      ensures !clientSet || readFault || (forall i :: 0 <= i < |docs| ==> !Selects(NameIs(artworkName), docs[i])) ==> r.None?
      ensures clientSet && !readFault && AllConvertible(docs) && (exists i :: 0 <= i < |docs| && Selects(NameIs(artworkName), docs[i])) ==> r.Some?
    {
      if !clientSet || readFault then None else FindOne(docs, NameIs(artworkName))
    }

    /**
     * `get_analysis_by_id`: a string that is not a valid object id gives
     * `None` whatever the store holds; a result is the record with that id.
     */
    function GetAnalysisById(analysisId: string, readFault: bool): (r: Option<ArtworkAnalysisResponse>)
      reads this
      ensures !IsValidId(analysisId) ==> r.None?
      ensures r.Some? ==> IsValidId(analysisId) && r.value.id == IdString(ParseId(analysisId)) && r.value.cached
      ensures r.Some? ==>
        exists i :: 0 <= i < |docs| && docs[i].id == ParseId(analysisId) && ConvertToResponse(docs[i], true) == Ok(r.value)
      ensures !clientSet || readFault ==> r.None?
      ensures (&& clientSet && !readFault && IsValidId(analysisId) && AllConvertible(docs)
               && (exists i :: 0 <= i < |docs| && docs[i].id == ParseId(analysisId))) ==> r.Some?
    {
      if !clientSet || readFault then None
      else if !IsValidId(analysisId) then None
      else FindOne(docs, IdIs(ParseId(analysisId)))
    }

    /**
     * Ids are unique in a valid store, so the record `get_analysis_by_id`
     * finds is the one and only document with that id.
     */
    lemma ByIdIsUnique(analysisId: string, readFault: bool, i: nat)
      requires Valid() && i < |docs|
      requires GetAnalysisById(analysisId, readFault).Some?
      requires docs[i].id == ParseId(analysisId)
      ensures ConvertToResponse(docs[i], true) == Ok(GetAnalysisById(analysisId, readFault).value)
    {
      var r := GetAnalysisById(analysisId, readFault);
      var j :| 0 <= j < |docs| && docs[j].id == ParseId(analysisId) && ConvertToResponse(docs[j], true) == Ok(r.value);
      assert i == j;
    }

    /**
     * `get_analysis_stats`: the number of documents `count_documents({})`
     * matches, or zero when the read raises.
     */
    function GetAnalysisStats(readFault: bool): (r: Stats)
      reads this
      ensures clientSet && !readFault ==> r.totalAnalyses == |Matching(docs, EmptyQuery)|
      ensures !clientSet || readFault ==> r.totalAnalyses == 0
    {
      EmptyQueryMatchesAll(docs);
      if !clientSet || readFault then Stats(0) else Stats(|docs|)
    }

    /**
     * `get_recent_analyses`: the newest `limit` records (all of them for a
     * zero limit, `|limit|` for a negative one), newest first; a read error
     * or a record that cannot be converted gives `[]`. The store keeps its
     * documents in creation order (`Valid`), so by `NewestAreLatest` this is
     * the order `sort("created_at", -1)` gives.
     */
    method GetRecentAnalyses(limit: int, readFault: bool) returns (r: seq<ArtworkAnalysisResponse>)
      requires Valid()
      ensures |r| <= LimitCount(limit, |docs|)
      ensures !clientSet || readFault ==> r == []
      ensures clientSet && !readFault ==>
        var recent := Newest(docs, LimitCount(limit, |docs|));
        if AllConvertible(recent) then
          |r| == |recent| && forall k :: 0 <= k < |r| ==> ConvertToResponse(recent[k], true) == Ok(r[k])
        else r == []
    {
      if !clientSet || readFault {
        return [];
      }
      var cursor := Newest(docs, LimitCount(limit, |docs|));
      var analyses := ConvertAll(cursor);
      if analyses.None? {
        return [];
      }
      r := analyses.value;
    }

    /**
     * `get_analyses`: `total` counts every record matching all truthy
     * filters, whatever the page; the page holds the matches from offset
     * `(page - 1) * limit`, at most `|limit|` of them. A negative offset
     * (which the driver rejects), a read error or a record that cannot be
     * converted gives `([], 0)`.
     */
    method GetAnalyses(page: int, limit: int, artworkName: Option<string>, artistName: Option<string>,
                       style: Option<string>, readFault: bool)
      returns (analyses: seq<ArtworkAnalysisResponse>, total: nat)
      ensures !clientSet || readFault || (page - 1) * limit < 0 ==> analyses == [] && total == 0
      ensures clientSet && !readFault && (page - 1) * limit >= 0 ==>
        var matched := Matching(docs, QueryOf(artworkName, artistName, style));
        var window := Window(matched, (page - 1) * limit, limit);
        if AllConvertible(window) then
          && total == |matched|
          && |analyses| == |window|
          && forall k :: 0 <= k < |analyses| ==> ConvertToResponse(window[k], true) == Ok(analyses[k])
        else analyses == [] && total == 0
    {
      if !clientSet || readFault {
        return [], 0;
      }
      var query := EmptyQuery;
      if Truthy(artworkName) {
        query := query.(artworkName := artworkName);
      }
      if Truthy(artistName) {
        query := query.(artist := artistName);
      }
      if Truthy(style) {
        query := query.(style := style);
      }
      var matched := Matching(docs, query);
      total := |matched|;
      var skipCount := (page - 1) * limit;
      if skipCount < 0 {
        return [], 0;
      }
      var cursor := Window(matched, skipCount, limit);
      var converted := ConvertAll(cursor);
      if converted.None? {
        return [], 0;
      }
      analyses := converted.value;
    }

    /**
     * `save_analysis`: attach the hash when it is truthy, validate the draft,
     * stamp it with the current instant, insert it under the next id and
     * return it with `cached` false. Exactly one document is appended on
     * success; on any failure nothing is written and the error is re-raised.
     */
    method SaveAnalysis(analysisData: Dict, imageHash: Option<string>, insertFault: Option<string>)
      returns (r: Result<ArtworkAnalysisResponse, string>)
      requires Valid() && clock < IdSpace
      modifies this
      ensures Valid() && clientSet == old(clientSet)
      ensures SaveEffect(old(docs), old(clock), old(clientSet), analysisData, imageHash, insertFault, docs, r.Ok?)
      ensures clock == old(clock) + (if r.Ok? then 1 else 0)
      ensures r.Ok? ==> |docs| > 0 && ConvertToResponse(docs[|docs| - 1], false) == r
      ensures r.Ok? ==> !r.value.cached && r.value.id == IdString(old(clock))
      ensures r.Ok? && Truthy(imageHash) ==> docs[|docs| - 1].imageHash == imageHash
      ensures r.Err? ==> r.error == SaveError(old(clientSet), analysisData, imageHash, insertFault)
    {
      if !clientSet {
        return Err(SaveErrorPrefix + NoClientError);
      }
      var data := analysisData;
      if Truthy(imageHash) {
        data := data[ImageHash := JStr(imageHash.value)];
      }
      var analysisToCreate := CreateFromDict(data);
      if analysisToCreate.Err? {
        return Err(SaveErrorPrefix + analysisToCreate.error);
      }
      var analysisDoc := DocumentModel(analysisToCreate.value, clock);
      if insertFault.Some? {
        return Err(SaveErrorPrefix + insertFault.value);
      }
      var inserted := Inserted(analysisDoc, clock);
      docs := docs + [inserted];
      clock := clock + 1;
      SavedDocumentConverts(analysisToCreate.value, analysisDoc.createdAt, inserted.id, false);
      r := ConvertToResponse(inserted, false);
    }
  }
}
