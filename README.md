# Artell analysis pipeline — a Dafny model

Artell answers "what does this artwork mean?". It either finds an interpretation it computed before, or asks a generative-AI provider (Groq) for one and stores the result for reuse. This project models the backend's analysis pipeline, which looks an analysis up in the store and generates one only when none is stored, and proves properties of that model. It also covers the pure helpers the pipeline uses and the gallery page's client-side filter.

- **`AnalyzeRouter`** (`analyze.dfy`) models `routers/analyze.py`, which has two flows.
  - The name flow: strip the name, look it up, and on a miss generate a draft and save it.
  - The image flow, in order:
    1. the content-type check (415) and the size check (413);
    2. the SHA-256 image hash and a lookup by image hash;
    3. identification, then a lookup by the identified name;
    4. a full image analysis, where the identified name overrides the draft's own name;
    5. a save that carries the image hash.

  Each flow returns the trace of external steps it took. This lets the contracts say what was consulted, in which order, and what was never consulted.
- **`App`** (`main.py`): `health_check`, and the application's own copy of the name flow. That copy differs from the router's only in its error details.
- **`Database`** (`store.dfy`) models `DatabaseService` as a class. It holds a client flag, the collection as a sequence of documents, and a clock. The clock gives both the next ObjectId and the creation instant. The class models every read and `save_analysis`, plus the conversion of a stored document to a response.
- **`Provider`** (`provider.dfy`): `_extract_analysis_data` (per-field defaults, the stripped text, the fixed fallback draft for invalid JSON) and the error wrapping of `analyze_artwork`.
- **`Schemas`** (`schemas.dfy`): the request, create, stored-document and response schemas, together with the validation of a draft dictionary.
- **`Encoding`** (`encoding.dfy`): `generate_image_hash` (the lowercase hexdigest of a digest) and `image_to_base64` (Base64, section 4 of RFC 4648).
- **`ObjectIds`** (`objectid.dfy`): ObjectIds, their string form and `ObjectId.is_valid`.
- **`Text`** (`text.dfy`): `str.strip()`, ASCII case folding and substring search.
- **`Config`** (`config.dfy`): the upload limits.
- **`Gallery`** (`gallery.dfy`): `Gallery.tsx`'s search and style filter, the list of styles, and the first three emotions on a card.
- **`Wrappers`** (`wrappers.dfy`): `Option`, `Result` and `Slot`. A `Slot` is a dictionary key that may be absent.

Everything outside the program is passed in as a parameter:

- SHA-256 is a function from bytes to a 32-byte digest.
- The provider's reply is a function of the prompt subject.
- The image identifier and the image analyser are functions of the image bytes.
- The elapsed generation time is a number.
- Store read faults and insert faults are flags.

## Behaviour of the code worth noting

- **Any truthy identification leads to a name lookup** (`backend/app/routers/analyze.py:100-104`):
  - the identified name is looked up as it is, never stripped or checked;
  - when the identification holds no name, the pattern the store builds renders that `None` as the string `"None"` (`backend/app/services/database_service.py:64`), so the lookup is for a record named "None" (`AnalyzeRouter.NamelessIdentificationLooksUpNone`).
- **`image_url` is passed but dropped.** The conversion reads an `image_url` key (`backend/app/services/database_service.py:164`), but the response schema declares no such field (`backend/app/models/artwork_analysis.py:34-44`).
- **Each router flow has one fixed 500 detail:**
  - the name flow answers every failure after the 400 check with the same detail (`backend/app/routers/analyze.py:58-60`), and so does the image flow (`backend/app/routers/analyze.py:128-130`);
  - this covers a provider that cannot be reached, a reply that cannot be used, and a failed save;
  - the application's copy of the name flow instead appends the underlying message (`backend/main.py:117-119`).
- **Generation can fail.** Only a reply that is not JSON gets the fixed fallback draft (`backend/app/services/groq_service.py:119-129`). A timeout, an HTTP error or any other failure of the call (`backend/app/services/groq_service.py:97-105`) fails the request, and so do content that is not text, JSON that is not an object, and an `analysis` that is not a string (`backend/app/services/groq_service.py:109-112`).
- **The text may be empty.** The analysis text is stripped (`backend/app/services/groq_service.py:112`), and nothing rejects a text that strips to the empty string.
- **Emotions may be `null`.** A provider object may send `"emotions": null`. It is kept (`backend/app/services/groq_service.py:116`), stored, and served as `null` (`backend/app/services/database_service.py:163`). The gallery does not expect that (see "## Findings").

## Model

| member | source | states |
|---|---|---|
| Text.StripSpec | backend/app/routers/analyze.py:34-35 | `strip()` removes whitespace, and only whitespace, from both ends; the result is the remaining infix, neither starts nor ends with whitespace, and is empty exactly when the input is blank |
| Text.StripIdempotent | backend/app/routers/analyze.py:34 | stripping a stripped name changes nothing |
| Text.LowerSpec | backend/app/services/database_service.py:64 | after case folding no ASCII capital remains, each capital becomes its small letter, every other character is unchanged, and the length is kept |
| Text.LowerIdempotent | frontend/src/pages/Gallery.tsx:21 | folding an already folded string changes nothing |
| Text.Contains | backend/app/services/database_service.py:128-133 | the substring test holds exactly when the pattern occurs at some offset of the string |
| Text.ContainsEmpty | frontend/src/pages/Gallery.tsx:21 | the empty search term occurs in every string |
| Encoding.Hex | backend/app/core/utils.py:11 | `hexdigest()` gives two lowercase hexadecimal digits per byte |
| Encoding.FromHexOfHex | backend/app/core/utils.py:11 | the hex rendering decodes back to the bytes it came from |
| Encoding.HexOfFromHex | backend/app/services/database_service.py:109 | decoding a lowercase hex string and rendering it again gives the string back |
| Encoding.ImageHash | backend/app/core/utils.py:6-11 | the image hash is 64 lowercase hexadecimal characters |
| Encoding.ImageHashInjective | backend/app/core/utils.py:6-11 | two images have the same image hash exactly when their digests are equal |
| Encoding.Base64Encode | backend/app/core/utils.py:13-18 | the encoding has four characters for every started group of three bytes |
| Encoding.Base64Padding | backend/app/core/utils.py:13-18 | one spare byte gives `==`, two give `=`, none gives no padding, and every other character is in the alphabet |
| Encoding.Base64Alphabet | backend/app/core/utils.py:13-18 | every character of an encoding is an alphabet character or `=` |
| Encoding.Base64RoundTrip | backend/app/core/utils.py:13-18 | decoding the encoding gives back the original bytes |
| ObjectIds.ParseIdString | backend/app/services/database_service.py:107-109 | the string form of an id is 24 lowercase hex digits, passes `is_valid`, and parses back to the same id |
| ObjectIds.ParseIdRendersBack | backend/app/services/database_service.py:107-109 | a string that `ObjectId.is_valid` accepts and that is lowercase is the string form of the id `ObjectId(s)` parses from it |
| ObjectIds.FromBigEndianOf | backend/app/services/database_service.py:109 | reading back the 12 bytes of an id gives the id |
| Schemas.ValidateRequest | backend/app/models/artwork_analysis.py:7-15 | a request is accepted exactly when the name has 1 to 200 characters, whitespace included, and the name is kept as given |
| Schemas.CreateFromDict | backend/app/models/artwork_analysis.py:46-57 | a draft validates exactly when name and text are strings, the processing time is a number, and each optional field is missing, null or of its type; the result carries exactly those values |
| Schemas.FieldNameInjective | backend/app/models/artwork_analysis.py:46-57 | every dictionary key names exactly one field: two fields have the same spelling only when they are the same field |
| Schemas.CreateDictRoundTrip | backend/app/services/database_service.py:81-82 | validating the dictionary form of a validated draft gives the same draft back |
| Schemas.DocumentModelKeepsDraft | backend/app/models/artwork_analysis.py:59-70 | building the stored model from the validated draft keeps every draft field, and both timestamps are the same instant |
| Schemas.InsertedKeepsModel | backend/app/services/database_service.py:85-86 | the inserted document holds exactly the model's fields and timestamps under the id the store assigned |
| Provider.ExtractAnalysisData | backend/app/services/groq_service.py:107-129 | invalid JSON gives the fixed fallback draft; for a JSON object, each field is the provider's value or its default, and the text is stripped; no draft has an image hash; content that is not text, JSON that is not an object, or a text that is not a string raise |
| Provider.FallbackDraftValidates | backend/app/services/groq_service.py:119-129 | the fallback draft validates to the fixed non-empty text, "Desconhecido" artist and year, "Contestatário" style and three emotions, under the query's name |
| Provider.ExtractedDraftValidates | backend/app/services/groq_service.py:108-118 | a provider object with fields of the declared kinds validates to exactly those fields; the query's name replaces a missing name, and missing emotions become `[]` |
| Provider.AnalysisOutcome | backend/app/services/groq_service.py:23-44 | the draft is returned unaltered when the call returned and extraction succeeded; every other outcome is an error prefixed "Erro na análise da obra: " that carries the underlying message |
| Provider.AnalyzeArtwork | backend/app/services/groq_service.py:23-44 | the method's answer is `AnalysisOutcome` of the provider's reply |
| Database.ConvertToResponse | backend/app/services/database_service.py:154-167 | conversion fails exactly when the name or the text is missing, with that key's `KeyError` text; otherwise the id is the document's id as a string, optional fields are copied, emotions default to `[]` and processing time to 0.0 |
| Database.SavedDocumentConverts | backend/app/services/database_service.py:83-89 | a document this service wrote converts back to exactly the validated draft's fields under its id |
| Database.FindOne | backend/app/services/database_service.py:52-55 | `find_one` returns a converted matching document; it returns nothing when no document matches; it returns something when a document matches and the conversion succeeds |
| Database.Matching | backend/app/services/database_service.py:127-137 | `find(query)` returns exactly the documents matching every filter, in stored order |
| Database.EmptyQueryMatchesAll | backend/app/services/database_service.py:148 | the empty query matches the whole collection |
| Database.Window | backend/app/services/database_service.py:136-137 | `skip(n).limit(l)` is the slice from offset `n`, with at most `abs(l)` elements and no bound when `l` is 0 |
| Database.PageOfIndex | backend/app/services/database_service.py:136-137 | with a positive page size, the match at position `i` is on page `i / limit + 1` |
| Database.Newest | backend/app/services/database_service.py:97 | `sort("created_at", -1).limit(n)` over a collection in creation order gives the `n` last documents, newest first |
| Database.NewestAreLatest | backend/app/services/database_service.py:97 | the recent list is strictly newest-first, and every document it leaves out is older than every document it keeps |
| Database.ConvertAll | backend/app/services/database_service.py:98 | the list comprehension converts every document in order, or fails as a whole when one conversion raises |
| Database.WithHash | backend/app/services/database_service.py:78-79 | the hash is attached only when it is truthy, and every other key is left as it was |
| Database.DatabaseService.constructor | backend/app/services/database_service.py:16-19 | a new service has no client and an empty collection |
| Database.DatabaseService.Connect | backend/app/services/database_service.py:21-30 | the client is set before the ping, so it stays set when the ping fails |
| Database.DatabaseService.GetAnalysisByImageHash | backend/app/services/database_service.py:49-59 | a result is a stored document whose hash equals the query exactly, marked cached; no match, no client or a read error give `None` |
| Database.DatabaseService.GetAnalysisByName | backend/app/services/database_service.py:61-73 | a result is a stored document whose whole name equals the query up to case, marked cached; no match, no client or a read error give `None` |
| Database.DatabaseService.GetAnalysisById | backend/app/services/database_service.py:104-115 | an invalid id string gives `None` without reading; a result has exactly the requested id |
| Database.DatabaseService.ByIdIsUnique | backend/app/services/database_service.py:104-112 | ids are unique, so the document found by id is the only one with that id |
| Database.DatabaseService.GetAnalysisStats | backend/app/services/database_service.py:145-152 | the total is the number of documents the empty query matches, or 0 when the read fails |
| Database.DatabaseService.GetRecentAnalyses | backend/app/services/database_service.py:94-102 | the newest `limit` documents (all of them for 0, `abs(limit)` for a negative limit), converted newest first; a read or conversion error gives `[]` |
| Database.DatabaseService.GetAnalyses | backend/app/services/database_service.py:117-143 | `total` counts every document matching all truthy filters on every page; the page is the window at `(page - 1) * limit`; a negative offset, a read error or a conversion error give `([], 0)` |
| Database.DatabaseService.SaveAnalysis | backend/app/services/database_service.py:75-92 | on success exactly one document is appended: the validated draft, with the hash when truthy, the current instant and the next id; the result converts from that document, with `cached` false; on failure nothing is written and the error is re-raised with its prefix; the store stays valid |
| AnalyzeRouter.JoinedTypes | backend/app/routers/analyze.py:73-77 | the 415 detail lists the three allowed types, comma separated, in configuration order |
| AnalyzeRouter.CeilingInMegabytes | backend/app/routers/analyze.py:80-84 | the 413 detail quotes a 10 MB ceiling |
| AnalyzeRouter.BlankNamePassesValidation | backend/app/routers/analyze.py:34-36 | every name of 1 to 200 whitespace characters passes schema validation and strips to the empty string, so the router's own check after stripping is what rejects it |
| AnalyzeRouter.SaveDraft | backend/app/routers/analyze.py:50-54 | a draft is saved with no hash as exactly one new document, and the reply is that document or the save's error; nothing is written on failure |
| AnalyzeRouter.GenerateAndSave | backend/app/routers/analyze.py:46-54 | the provider is asked about the given name, then the draft is saved with no hash as exactly one new document, which is returned; a failure leaves the store unchanged and reports the text of the step that failed |
| AnalyzeRouter.AnalyzeArtworkByName | backend/app/routers/analyze.py:24-60 | for a request the schema admitted, a name that strips to nothing gives 400 with nothing consulted; a cached record is returned with no generation and no write; otherwise the stripped name is generated and saved once without a hash; every failure is a 500 and leaves the store as it was |
| AnalyzeRouter.NamelessIdentificationLooksUpNone | backend/app/services/database_service.py:63-65 | an identification with no name looks up "None", so the only record it can return is one named "None" up to case |
| AnalyzeRouter.NamedDraft | backend/app/routers/analyze.py:117-118 | the override replaces only the name; every other key is unchanged |
| AnalyzeRouter.SavedImageName | backend/app/routers/analyze.py:113-121 | the saved record is named by the identifier when it gave a non-empty name, and by the draft otherwise |
| AnalyzeRouter.HashIsTruthy | backend/app/routers/analyze.py:121 | the computed image hash is always truthy, so the save always attaches it |
| AnalyzeRouter.AnalyzeAndSave | backend/app/routers/analyze.py:111-124 | the image is analysed; a failure gives 500 with no write; otherwise the named draft is saved once with the image hash, and the reply is the saved record or a 500 |
| AnalyzeRouter.ResolveUnhashed | backend/app/routers/analyze.py:96-124 | after a hash miss: a failed identification gives 500; a record cached under the identified name is returned with no write and the new hash is not linked; otherwise the analyse-and-save stage runs |
| AnalyzeRouter.AnalyzeArtworkByImage | backend/app/routers/analyze.py:63-130 | a disallowed type gives 415 before the file is read; more than 10 MB gives 413 before hashing, and exactly 10 MB is accepted; an image-hash hit is returned with no identifier, generator or write; otherwise the steps follow in the stated order and only the last one writes |
| App.HealthCheck | backend/main.py:81-88 | always "healthy" for "Artell API"; the database is "connected" exactly when a client was created |
| App.AnalyzeArtworkByNameApp | backend/main.py:90-119 | for a request the schema admitted, the same cases as the router's name flow; the 400 detail is "Nome da obra de arte é obrigatório", and a 500 detail is "Erro interno do servidor: " followed by the failing step's message |
| Gallery.FilteredAnalyses | frontend/src/pages/Gallery.tsx:18-26 | an analysis is kept exactly when its lowercased name or artist contains the lowercased term, and no style is selected or its style is the selected one |
| Gallery.FilterKeepsEveryCopy | frontend/src/pages/Gallery.tsx:19 | every copy of a matching analysis is kept and no copy of any other: each analysis occurs as often as in the input when it matches, and not at all otherwise |
| Gallery.FilterIsSubsequence | frontend/src/pages/Gallery.tsx:19 | the filtered list is an order-preserving subsequence of the fetched list |
| Gallery.EmptyFilterKeepsAll | frontend/src/pages/Gallery.tsx:20-23 | an empty term with no selected style keeps every analysis, in order |
| Gallery.PresentStyles | frontend/src/pages/Gallery.tsx:30 | the truthy styles are exactly the non-empty styles some analysis has |
| Gallery.Dedup | frontend/src/pages/Gallery.tsx:31 | building the set keeps exactly the values of the input |
| Gallery.DedupSpec | frontend/src/pages/Gallery.tsx:31 | the set's values are distinct and in order of first occurrence |
| Gallery.Styles | frontend/src/pages/Gallery.tsx:29-32 | the offered styles are exactly the non-empty styles of the analyses |
| Gallery.StylesSpec | frontend/src/pages/Gallery.tsx:29-32 | each offered style appears once, in the order the analyses first show it |
| Gallery.CardEmotionsAsWritten | frontend/src/pages/Gallery.tsx:142 | the card throws exactly when the emotions are `null`; otherwise it shows at most the first three |
| Gallery.NullEmotionsBreakCard | backend/app/services/groq_service.py:116 | a well-typed provider object whose emotions are `null` is extracted, validated, stored and served with no emotions, and the card for it throws |
| Gallery.CardEmotions | frontend/src/pages/Gallery.tsx:142 | corrected card: no emotions for a `null` list; otherwise the first three, or all of them when there are fewer |
| Gallery.CardEmotionsAgree | frontend/src/pages/Gallery.tsx:142 | wherever the card as written renders, it shows the same emotions as the corrected card |

## Left out

- The provider's HTTP call, the prompt text and the vision identifier and analyser are not modelled. They are network I/O and natural-language strings, so they enter as functions of their inputs. `identify_artwork_from_image` and `analyze_artwork_from_image` are not even defined in the service.
- SHA-256 itself is not modelled: its compression function is a parameter, and only the hex rendering is modelled.
- Time is not modelled as a real clock:
  - the elapsed generation time is an input;
  - the two `utcnow()` defaults are one clock tick, so `created_at == updated_at`;
  - floating-point rounding of `processing_time` is not modelled.
- Concurrency is out of scope. One request runs at a time, so the race where two concurrent misses both generate and save is out of scope.
- Database.DatabaseService.GetAnalysisByName: the name is interpolated unescaped into `^…$`, so regular-expression metacharacters in a name change what matches. The model compares whole names for equality up to case. The same applies to the substring filters of `GetAnalyses`.
- Text.Lower: case folding is ASCII only. MongoDB's `i` option and JavaScript's `toLowerCase` fold more letters.
- Database.FindOne: the driver's choice among several matches is unspecified. The model takes the first, and the contract promises only "some matching document".
- Database.DatabaseService.SaveAnalysis: it requires the clock to be below 2^96, the number of ObjectIds. The store's id and timestamp generation are one counter.
- Database.DatabaseService.Connect:
  - the collection it finds must already be in creation order, with ids and timestamps before `now`;
  - server selection, the ping's own failure text and `_create_indexes` are not modelled;
  - `disconnect` closes the client but never clears the flag, so it is left out.
- `save_analysis` adds the hash by mutating the caller's dictionary. The model builds a new dictionary, and no caller reads the old one afterwards.
- Pydantic's coercions are not modelled beyond int-to-float for the processing time, and neither is the wording of its validation errors. Validation errors are reported by the name of the first bad field.
- `_convert_to_response` passes `image_url`, which the response schema does not declare and pydantic ignores, so it is left out.
- `ObjectId.is_valid` also accepts some 24-character strings with whitespace that `bytes.fromhex` skips. The model accepts exactly 24 hex digits.
- `GroqService.__init__` reads a `GROQ_MODEL` setting that `Settings` does not define. `main.py` imports module-level `groq_service` and `database_service` objects that the services do not export. The model assumes both of these work.
- The root endpoint, startup and shutdown events, CORS and logging are left out. They are route and process wiring.
- `backend/app/services/analysis_service.py` and `backend/app/routers/analyses.py` are left out because they only delegate. `backend/app/models/analysis.py` is left out because the pipeline does not use it.
- `MAX_FILE_SIZE` and `ALLOWED_IMAGE_TYPES` are constants here. `Settings` is a `BaseSettings`, so environment variables or a `.env` file can override both (`backend/app/core/config.py:33-34`, `42-44`); the model fixes the defaults.

## Findings

| source | as written | input that shows it | evidently intended | confidence | as-written member | corrected member |
|---|---|---|---|---|---|---|
| frontend/src/pages/Gallery.tsx:142 | every card calls `analysis.emotions.slice(0, 3)`, though the backend can serve `emotions: null` (`backend/app/services/database_service.py:163`) | a provider object `{"analysis": "…", "emotions": null}` for any name: it is extracted, stored and served with `null` emotions, and rendering its card throws a `TypeError` | a card with no emotions, as the result page guards the same field (`frontend/src/pages/AnalysisResult.tsx:182`) | medium; not executed | Gallery.CardEmotionsAsWritten, Gallery.NullEmotionsBreakCard | Gallery.CardEmotions |
