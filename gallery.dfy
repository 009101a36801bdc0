/**
 * The gallery page's client-side logic (`Gallery.tsx`): the search and
 * style filter over the fetched analyses, the list of styles offered in
 * the style selector, and the emotions a card shows.
 */
module Gallery {
  import opened Wrappers
  import opened Text
  import opened ObjectIds
  import opened Schemas
  import Provider
  import Database

  /** The search term occurs, up to case, in the name or in the artist (when there is one). */
  predicate MatchesSearch(a: ArtworkAnalysisResponse, searchTerm: string) {
    var term := Lower(searchTerm);
    Contains(Lower(a.artworkName), term) || (a.artist.Some? && Contains(Lower(a.artist.value), term))
  }

  /** No style is selected, or the analysis has exactly the selected style. */
  predicate MatchesStyle(a: ArtworkAnalysisResponse, selectedStyle: string) {
    selectedStyle == "" || a.style == Some(selectedStyle)
  }

  predicate Keeps(a: ArtworkAnalysisResponse, searchTerm: string, selectedStyle: string) {
    MatchesSearch(a, searchTerm) && MatchesStyle(a, selectedStyle)
  }

  /** `filteredAnalyses`: the analyses that match both the search and the style, in their order. */
  function FilteredAnalyses(analyses: seq<ArtworkAnalysisResponse>, searchTerm: string, selectedStyle: string)
    : (r: seq<ArtworkAnalysisResponse>)
    ensures |r| <= |analyses|
    ensures forall a :: a in r <==> a in analyses && Keeps(a, searchTerm, selectedStyle)
  {
    if |analyses| == 0 then []
    else
      var init := FilteredAnalyses(analyses[..|analyses| - 1], searchTerm, selectedStyle);
      var last := analyses[|analyses| - 1];
      assert analyses == analyses[..|analyses| - 1] + [last];
      if Keeps(last, searchTerm, selectedStyle) then init + [last] else init
  }

  /** `xs` is `ys` with some elements dropped and the rest in their order. */
  predicate IsSubsequence<T(==)>(xs: seq<T>, ys: seq<T>) {
    if |ys| == 0 then |xs| == 0
    else
      || (|xs| > 0 && xs[|xs| - 1] == ys[|ys| - 1] && IsSubsequence(xs[..|xs| - 1], ys[..|ys| - 1]))
      || IsSubsequence(xs, ys[..|ys| - 1])
  }

  /** The filter keeps the analyses in the order they were fetched. */
  lemma {:induction false} FilterIsSubsequence(analyses: seq<ArtworkAnalysisResponse>, searchTerm: string,
                                               selectedStyle: string)
    ensures IsSubsequence(FilteredAnalyses(analyses, searchTerm, selectedStyle), analyses)
    decreases |analyses|
  {
    if |analyses| > 0 {
      var prefix := analyses[..|analyses| - 1];
      var last := analyses[|analyses| - 1];
      var init := FilteredAnalyses(prefix, searchTerm, selectedStyle);
      FilterIsSubsequence(prefix, searchTerm, selectedStyle);
      assert analyses[..|analyses| - 1] == prefix;
      if Keeps(last, searchTerm, selectedStyle) {
        var r := init + [last];
        assert r[..|r| - 1] == init;
      }
    }
  }

  /**
   * The filter keeps every copy of a matching analysis and no copy of any
   * other: each analysis occurs in the result exactly as often as in the
   * input when it matches, and not at all otherwise.
   */
  lemma {:induction false} FilterKeepsEveryCopy(analyses: seq<ArtworkAnalysisResponse>, searchTerm: string,
                                                selectedStyle: string)
    ensures var r := FilteredAnalyses(analyses, searchTerm, selectedStyle);
      forall a :: multiset(r)[a] == if Keeps(a, searchTerm, selectedStyle) then multiset(analyses)[a] else 0
    decreases |analyses|
  {
    if |analyses| > 0 {
      var prefix := analyses[..|analyses| - 1];
      var last := analyses[|analyses| - 1];
      FilterKeepsEveryCopy(prefix, searchTerm, selectedStyle);
      assert analyses == prefix + [last];
      assert multiset(analyses) == multiset(prefix) + multiset{last};
    }
  }

  /** An empty search with no style selected shows every analysis. */
  lemma {:induction false} EmptyFilterKeepsAll(analyses: seq<ArtworkAnalysisResponse>)
    ensures FilteredAnalyses(analyses, "", "") == analyses
    decreases |analyses|
  {
    if |analyses| > 0 {
      var last := analyses[|analyses| - 1];
      EmptyFilterKeepsAll(analyses[..|analyses| - 1]);
      EmptyFilterKeeps(last);
      assert analyses[..|analyses| - 1] + [last] == analyses;
    }
  }

  /** Every analysis matches the empty search with no style selected. */
  lemma EmptyFilterKeeps(a: ArtworkAnalysisResponse)
    ensures Keeps(a, "", "")
  {
    assert Lower("") == "";
    ContainsEmpty(Lower(a.artworkName));
  }

  /** `analyses.map(a => a.style).filter(Boolean)`: the non-empty styles, in order, repeats included. */
  function PresentStyles(analyses: seq<ArtworkAnalysisResponse>): (r: seq<string>)
    ensures forall s :: s in r <==> s != "" && exists a :: a in analyses && a.style == Some(s)
  {
    if |analyses| == 0 then []
    else
      var init := PresentStyles(analyses[..|analyses| - 1]);
      var last := analyses[|analyses| - 1];
      assert analyses == analyses[..|analyses| - 1] + [last];
      if last.style.Some? && last.style.value != "" then init + [last.style.value] else init
  }

  /** `[...new Set(xs)]`: each value once, at the place it first occurs. */
  function Dedup(xs: seq<string>): (r: seq<string>)
    ensures forall s :: s in r <==> s in xs
  {
    if |xs| == 0 then []
    else
      var d := Dedup(xs[..|xs| - 1]);
      var last := xs[|xs| - 1];
      assert xs == xs[..|xs| - 1] + [last];
      if last in d then d else d + [last]
  }

  predicate Distinct(xs: seq<string>) {
    forall i, j :: 0 <= i < j < |xs| ==> xs[i] != xs[j]
  }

  /**
   * `r` is in first-occurrence order of `xs`: whenever `r[j]` occurs in
   * `xs`, `r[i]` for an earlier `i` has already occurred before it.
   */
  predicate FirstOccurrenceOrder(r: seq<string>, xs: seq<string>) {
    forall i, j, k :: 0 <= i < j < |r| && 0 <= k < |xs| && xs[k] == r[j] ==> r[i] in xs[..k]
  }

  /** The set keeps each value once, in order of first occurrence. */
  lemma {:induction false} DedupSpec(xs: seq<string>)
    ensures Distinct(Dedup(xs)) && FirstOccurrenceOrder(Dedup(xs), xs)
    decreases |xs|
  {
    if |xs| > 0 {
      var prefix := xs[..|xs| - 1];
      var last := xs[|xs| - 1];
      var d := Dedup(prefix);
      DedupSpec(prefix);
      var r := Dedup(xs);
      forall i, j, k | 0 <= i < j < |r| && 0 <= k < |xs| && xs[k] == r[j] ensures r[i] in xs[..k] {
        if k < |xs| - 1 {
          assert prefix[k] == xs[k];
          assert xs[..k] == prefix[..k];
        } else {
          assert r[i] in d;
          assert xs[..k] == prefix;
        }
      }
    }
  }

  /** `styles`: the distinct non-empty styles, in order of first appearance. */
  function Styles(analyses: seq<ArtworkAnalysisResponse>): (r: seq<string>)
    ensures forall s :: s in r <==> s != "" && exists a :: a in analyses && a.style == Some(s)
  {
    Dedup(PresentStyles(analyses))
  }

  /** Each offered style appears once, and in the order the analyses first show it. */
  lemma StylesSpec(analyses: seq<ArtworkAnalysisResponse>)
    ensures Distinct(Styles(analyses)) && FirstOccurrenceOrder(Styles(analyses), PresentStyles(analyses))
  {
    DedupSpec(PresentStyles(analyses));
  }

  /** At most the first three emotions of a list. */
  function FirstThree(emotions: seq<string>): (r: seq<string>)
    ensures |r| <= 3 && |r| <= |emotions|
    ensures r == emotions[..|r|]
    ensures |emotions| >= 3 ==> |r| == 3
    ensures |emotions| < 3 ==> r == emotions
  {
    if |emotions| <= 3 then emotions else emotions[..3]
  }

  /**
   * `analysis.emotions.slice(0, 3)` as the card evaluates it: a `null` list
   * has no `slice`, so rendering the card throws a `TypeError`.
   */
  function CardEmotionsAsWritten(a: ArtworkAnalysisResponse): (r: Result<seq<string>, string>)
    ensures r.Err? <==> a.emotions.None?
    ensures r.Ok? ==> r.value == FirstThree(a.emotions.value)
  {
    if a.emotions.None? then Err("TypeError: Cannot read properties of null (reading 'slice')")
    else Ok(FirstThree(a.emotions.value))
  }

  /** A draft with the provider's keys whose emotions are `null` validates with no emotions. */
  lemma NullEmotionsValidate(d: Dict)
    requires Provider.HasDraftKeys(d) && ImageHash !in d
    requires d[Emotions] == JNull && d[ArtworkName].JStr? && d[Analysis].JStr?
    requires d[Artist].JNull? || d[Artist].JStr?
    requires d[Year].JNull? || d[Year].JStr?
    requires d[Style].JNull? || d[Style].JStr?
    requires d[ProcessingTime].JFloat?
    ensures CreateFromDict(d).Ok? && CreateFromDict(d).value.emotions.None?
  {
  }

  /**
   * The backend can serve an analysis whose emotions are `null`: a provider
   * object whose fields are well typed but whose `"emotions"` is `null` is
   * extracted, validated and stored as it is, and the stored document
   * converts with no emotions, so the gallery card for it throws.
   */
  lemma NullEmotionsBreakCard(data: map<string, Json>, originalName: string, processingTime: real,
                              now: nat, id: ObjectId)
    requires "emotions" in data && data["emotions"] == JNull
    requires "artwork_name" !in data || data["artwork_name"].JStr?
    requires "analysis" !in data || data["analysis"].JStr?
    requires Provider.OptionalString(data, "artist") && Provider.OptionalString(data, "year")
    requires Provider.OptionalString(data, "style")
    ensures var draft := Provider.ExtractAnalysisData(Provider.Decoded(JObj(data)), originalName, processingTime);
      && draft.Ok?
      && var c := CreateFromDict(draft.value);
      && c.Ok? && c.value.emotions.None?
      && var served := Database.ConvertToResponse(Inserted(DocumentModel(c.value, now), id), true);
      && served.Ok? && served.value.emotions.None?
      && CardEmotionsAsWritten(served.value).Err?
  {
    var draft := Provider.ExtractAnalysisData(Provider.Decoded(JObj(data)), originalName, processingTime);
    NullEmotionsValidate(draft.value);
    var c := CreateFromDict(draft.value);
    Database.SavedDocumentConverts(c.value, now, id, true);
  }

  /**
   * The emotions a card is meant to show: at most the first three, and none
   * when the list is `null`, as the result page's own guard treats it.
   */
  function CardEmotions(a: ArtworkAnalysisResponse): (r: seq<string>)
    ensures a.emotions.None? ==> r == []
    ensures a.emotions.Some? ==> |r| <= 3 && |r| <= |a.emotions.value| && r == a.emotions.value[..|r|]
    ensures a.emotions.Some? && |a.emotions.value| >= 3 ==> |r| == 3
    ensures a.emotions.Some? && |a.emotions.value| < 3 ==> r == a.emotions.value
  {
    if a.emotions.None? then [] else FirstThree(a.emotions.value)
  }

  /** Wherever the card as written renders, it shows what the corrected card shows. */
  lemma CardEmotionsAgree(a: ArtworkAnalysisResponse)
    ensures CardEmotionsAsWritten(a).Ok? ==> CardEmotionsAsWritten(a).value == CardEmotions(a)
  {
  }
}
