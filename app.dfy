/** The session state of the top-level component in App.tsx and the event
    handlers that move it: uploads, analysis, style selection, generation,
    the history strip, the compare gesture, reset and the language toggle.
    Each handler runs to completion; the hosted model's reply, the current
    time and the user's answer to the confirmation dialog are inputs. */
module App {
  import opened Wrappers
  import opened Types
  import Gemini

  /** The active-view id that stands for the uploaded front image. */
  const Original := "original"

  /** Why a handler sent no request (the first two raise an alert). */
  datatype Refusal = MissingImages | NoSelection | NotReady

  /** What a request handler did: refused, or sent `request` and got `result`. */
  datatype Outcome<T> = Refused(reason: Refusal) | Sent(request: seq<Gemini.RequestPart>, result: Result<T>)

  /** The position of the item `history.find(h => h.id === id)` returns,
      with `None` where it returns `undefined`. */
  function FindIndexById(history: seq<GenerationHistoryItem>, id: string): (r: Option<nat>)
    ensures r.None? <==> forall k | 0 <= k < |history| :: history[k].id != id
    ensures r.Some? ==> r.value < |history| && history[r.value].id == id
    ensures r.Some? ==> forall k | 0 <= k < r.value :: history[k].id != id
  {
    if history == [] then None
    else if history[0].id == id then Some(0)
    else match FindIndexById(history[1..], id)
      case None => None
      case Some(k) => Some(k + 1)
  }

  /** The options recorded with a generated image: the hairstyle's `name`
      and the glasses' `style`, each absent when nothing was selected. */
  function OptionsOf(hair: Option<Hairstyle>, glasses: Option<Glasses>): (r: HistoryOptions)
    ensures r.hairName.Some? <==> hair.Some?
    ensures r.glassesName.Some? <==> glasses.Some?
    ensures hair.Some? ==> r.hairName.value == hair.value.name
    ensures glasses.Some? ==> r.glassesName.value == glasses.value.style
  {
    HistoryOptions(
      match hair case Some(h) => Some(h.name) case None => None,
      match glasses case Some(g) => Some(g.style) case None => None)
  }

  /** A selection index is -1 ("none") or an index into a list of length `n`. */
  predicate SelectionIn(idx: int, n: nat)
  {
    idx == -1 || 0 <= idx < n
  }

  function HairCount(analysis: Option<AnalysisResult>): nat
  {
    if analysis.Some? then |analysis.value.recommendedHairstyles| else 0
  }

  function GlassesCount(analysis: Option<AnalysisResult>): nat
  {
    if analysis.Some? then |analysis.value.recommendedGlasses| else 0
  }

  function Toggle(lang: Language): (r: Language)
    ensures r != lang
  {
    if lang == EN then CN else EN
  }

  /** Toggling the language twice restores it. */
  lemma ToggleTwice(lang: Language)
    ensures Toggle(Toggle(lang)) == lang
  {
  }

  /** The state-list after generating `items` in order, from an empty
      history: each new item is put in front. */
  function HistoryAfter(items: seq<GenerationHistoryItem>): seq<GenerationHistoryItem>
  {
    if items == [] then [] else [items[|items| - 1]] + HistoryAfter(items[..|items| - 1])
  }

  ghost predicate NewestFirst(history: seq<GenerationHistoryItem>)
  {
    forall i, j | 0 <= i < j < |history| :: history[i].timestamp >= history[j].timestamp
  }

  /** No item of `history` is newer than `timestamp`. */
  ghost predicate NoneNewerThan(history: seq<GenerationHistoryItem>, timestamp: int)
  {
    forall k | 0 <= k < |history| :: history[k].timestamp <= timestamp
  }

  /** Putting an item no older than any other in front of a newest-first
      history keeps it newest first. */
  lemma PrependKeepsNewestFirst(item: GenerationHistoryItem, history: seq<GenerationHistoryItem>)
    ensures NewestFirst(history) && NoneNewerThan(history, item.timestamp) ==> NewestFirst([item] + history)
  {
    var h := [item] + history;
    forall i, j | 0 <= i < j < |h| && NewestFirst(history) && NoneNewerThan(history, item.timestamp)
      ensures h[i].timestamp >= h[j].timestamp
    {
      assert h[j] == history[j - 1];
      if i > 0 {
        assert h[i] == history[i - 1];
      }
    }
  }

  /** Generating items whose timestamps never decrease leaves a history that
      holds them all, the last one first, ordered newest first. */
  lemma {:induction false} HistoryAfterIsNewestFirst(items: seq<GenerationHistoryItem>)
    requires forall i, j | 0 <= i < j < |items| :: items[i].timestamp <= items[j].timestamp
    ensures |HistoryAfter(items)| == |items|
    ensures forall k | 0 <= k < |items| :: HistoryAfter(items)[k] == items[|items| - 1 - k]
    ensures NewestFirst(HistoryAfter(items))
  {
    if items != [] {
      var init := items[..|items| - 1];
      HistoryAfterIsNewestFirst(init);
      var h := HistoryAfter(items);
      assert h == [items[|items| - 1]] + HistoryAfter(init);
      forall k | 0 <= k < |items|
        ensures h[k] == items[|items| - 1 - k]
      {
        if k > 0 {
          assert h[k] == HistoryAfter(init)[k - 1];
        }
      }
    }
  }

  class Session {
    var lang: Language
    var images: ImageState
    var analysis: Option<AnalysisResult>
    var selectedHairIdx: int
    var selectedGlassesIdx: int
    var history: seq<GenerationHistoryItem>
    var activeImageId: string
    var isComparing: bool

    /** Each selection is -1 or an index into the current analysis' list
        (so both are -1 while there is no analysis), and the active view is
        the original or an item of the history. */
    ghost predicate Valid()
      reads this
    {
      && SelectionIn(selectedHairIdx, HairCount(analysis))
      && SelectionIn(selectedGlassesIdx, GlassesCount(analysis))
      && (activeImageId == Original || FindIndexById(history, activeImageId).Some?)
    }

    /** Everything that a confirmed reset restores. */
    ghost predicate Cleared()
      reads this
    {
      && images == NoImages
      && analysis.None?
      && history == []
      && activeImageId == Original
      && selectedHairIdx == -1
      && selectedGlassesIdx == -1
    }

    constructor ()
      ensures Valid() && Cleared()
      ensures lang == CN && !isComparing
    {
      lang := CN;
      images := NoImages;
      analysis := None;
      selectedHairIdx := -1;
      selectedGlassesIdx := -1;
      history := [];
      activeImageId := Original;
      isComparing := false;
    }

    /** The hairstyle chosen by `selectedHairIdx`, if any. */
    function SelectedHair(): (r: Option<Hairstyle>)
      reads this`analysis, this`selectedHairIdx
      requires SelectionIn(selectedHairIdx, HairCount(analysis))
      ensures r.None? <==> selectedHairIdx == -1
      ensures r.Some? ==> r.value == analysis.value.recommendedHairstyles[selectedHairIdx]
    {
      if selectedHairIdx == -1 then None else Some(analysis.value.recommendedHairstyles[selectedHairIdx])
    }

    /** The glasses chosen by `selectedGlassesIdx`, if any. */
    function SelectedGlasses(): (r: Option<Glasses>)
      reads this`analysis, this`selectedGlassesIdx
      requires SelectionIn(selectedGlassesIdx, GlassesCount(analysis))
      ensures r.None? <==> selectedGlassesIdx == -1
      ensures r.Some? ==> r.value == analysis.value.recommendedGlasses[selectedGlassesIdx]
    {
      if selectedGlassesIdx == -1 then None else Some(analysis.value.recommendedGlasses[selectedGlassesIdx])
    }

    /** `getDisplayImage`: the front image while comparing or when the
        original is active; otherwise the image of the first history item
        with the active id, falling back to the front image. */
    function GetDisplayImage(): (r: Option<string>)
      reads this
      ensures isComparing || activeImageId == Original ==> r == images.front
      ensures !isComparing && activeImageId != Original ==>
        forall k | 0 <= k < |history| && history[k].id == activeImageId ::
          (forall j | 0 <= j < k :: history[j].id != activeImageId) ==> r == Some(history[k].imageUrl)
      ensures !isComparing && (forall k | 0 <= k < |history| :: history[k].id != activeImageId) ==>
        r == images.front
    {
      if isComparing || activeImageId == Original then images.front
      else match FindIndexById(history, activeImageId)
        case Some(k) => Some(history[k].imageUrl)
        case None => images.front
    }

    /** An upload overwrites its own slot and nothing else. */
    method Upload(view: View, dataUrl: string)
      requires Valid()
      modifies this`images
      ensures Valid()
      ensures images.Get(view) == Some(dataUrl)
      ensures forall w :: w != view ==> images.Get(w) == old(images).Get(w)
    {
      images := images.Set(view, Some(dataUrl));
    }

    /** `handleAnalyze`: without all three images nothing changes and nothing
        is sent. Otherwise the analysis, history, active view and both
        selections are cleared before the request, and only a successful
        reply sets the analysis. */
    method Analyze(reply: Reply<Gemini.AnalysisAnswer>) returns (outcome: Outcome<AnalysisResult>)
      requires Valid()
      modifies this
      ensures Valid()
      ensures outcome.Refused? <==> !old(images).Complete()
      ensures outcome.Refused? ==> outcome.reason == MissingImages && unchanged(this)
      ensures outcome.Sent? ==>
        && lang == old(lang) && images == old(images) && isComparing == old(isComparing)
        && outcome.request == Gemini.AnalysisRequest(
             images.front.value, images.left.value, images.right.value, lang)
        && outcome.result == Gemini.AnalysisOutcome(reply)
        && analysis == (if outcome.result.Success? then Some(outcome.result.value) else None)
        && history == [] && activeImageId == Original
        && selectedHairIdx == -1 && selectedGlassesIdx == -1
    {
      if !images.Complete() {
        return Refused(MissingImages);
      }
      analysis := None;
      history := [];
      activeImageId := Original;
      selectedHairIdx := -1;
      selectedGlassesIdx := -1;
      var request := Gemini.AnalysisRequest(images.front.value, images.left.value, images.right.value, lang);
      var result := Gemini.AnalysisOutcome(reply);
      if result.Success? {
        analysis := Some(result.value);
      }
      return Sent(request, result);
    }

    /** `handleGenerate`: nothing happens without an analysis and a front
        image, or (with an alert) when neither selection is made. Otherwise
        the front image and the selected styles are sent; a successful reply
        puts one new item in front of the history and makes it the active
        view, and a failed one changes nothing. */
    method Generate(id: string, timestamp: int, reply: Reply<Gemini.GenerateContentResponse>)
      returns (outcome: Outcome<string>)
      requires Valid()
      modifies this`history, this`activeImageId
      ensures Valid()
      ensures outcome.Sent? <==>
        analysis.Some? && Truthy(images.front) && (selectedHairIdx != -1 || selectedGlassesIdx != -1)
      ensures outcome.Refused? ==>
        outcome.reason == if analysis.None? || !Truthy(images.front) then NotReady else NoSelection
      ensures outcome.Refused? || outcome.result.Failure? ==> unchanged(this)
      ensures outcome.Sent? ==>
        outcome.request == Gemini.GenerationRequest(images.front.value, SelectedHair(), SelectedGlasses(), lang)
      ensures outcome.Sent? && reply.Answered? ==>
        outcome.result == Gemini.ImageOf(Gemini.ResponseParts(reply.value))
      ensures outcome.Sent? && reply.Rejected? ==> outcome.result == Failure(reply.error)
      ensures outcome.Sent? && outcome.result.Success? ==>
        && history == [GenerationHistoryItem(id, outcome.result.value, timestamp,
             OptionsOf(SelectedHair(), SelectedGlasses()))] + old(history)
        && activeImageId == id
      ensures outcome.Sent? && outcome.result.Success? ==>
        (NewestFirst(old(history)) && NoneNewerThan(old(history), timestamp) ==> NewestFirst(history))
    {
      if analysis.None? || !Truthy(images.front) {
        return Refused(NotReady);
      }
      if selectedHairIdx == -1 && selectedGlassesIdx == -1 {
        return Refused(NoSelection);
      }
      var hair := SelectedHair();
      var glasses := SelectedGlasses();
      var request, result := Gemini.GenerateMakeoverImage(images.front.value, hair, glasses, lang, reply);
      if result.Success? {
        var options := OptionsOf(hair, glasses);
        var item := GenerationHistoryItem(id, result.value, timestamp, options);
        PrependKeepsNewestFirst(item, history);
        history := [item] + history;
        activeImageId := item.id;
        assert FindIndexById(history, activeImageId) == Some(0);
      }
      return Sent(request, result);
    }

    /** Clicking hairstyle `idx`: the selected one is deselected, any other
        replaces the selection. */
    method ToggleHair(idx: nat)
      requires Valid() && analysis.Some? && idx < |analysis.value.recommendedHairstyles|
      modifies this`selectedHairIdx
      ensures Valid()
      ensures selectedHairIdx == if idx == old(selectedHairIdx) then -1 else idx
    {
      selectedHairIdx := if idx == selectedHairIdx then -1 else idx;
    }

    /** Clicking glasses `idx`: the selected one is deselected, any other
        replaces the selection. */
    method ToggleGlasses(idx: nat)
      requires Valid() && analysis.Some? && idx < |analysis.value.recommendedGlasses|
      modifies this`selectedGlassesIdx
      ensures Valid()
      ensures selectedGlassesIdx == if idx == old(selectedGlassesIdx) then -1 else idx
    {
      selectedGlassesIdx := if idx == selectedGlassesIdx then -1 else idx;
    }

    /** Clicking the original thumbnail. */
    method SelectOriginal()
      requires Valid()
      modifies this`activeImageId
      ensures Valid() && activeImageId == Original
    {
      activeImageId := Original;
    }

    /** Clicking the thumbnail of history item `k`. */
    method SelectHistoryItem(k: nat)
      requires Valid() && k < |history|
      modifies this`activeImageId
      ensures Valid() && activeImageId == history[k].id
      ensures !isComparing && history[k].id != Original ==>
        GetDisplayImage() == Some(history[FindIndexById(history, history[k].id).value].imageUrl)
    {
      activeImageId := history[k].id;
    }

    /** Pressing the compare button shows the original until release. */
    method PressCompare()
      requires Valid()
      modifies this`isComparing
      ensures Valid() && isComparing
      ensures GetDisplayImage() == images.front
    {
      isComparing := true;
    }

    /** Releasing the compare button; the active view was never touched. */
    method ReleaseCompare()
      requires Valid()
      modifies this`isComparing
      ensures Valid() && !isComparing
      ensures activeImageId == old(activeImageId)
    {
      isComparing := false;
    }

    /** `handleReset`: once confirmed, everything but the language and the
        compare flag returns to its initial value; unconfirmed, nothing changes. */
    method Reset(confirmed: bool)
      requires Valid()
      modifies this`images, this`analysis, this`history, this`activeImageId,
        this`selectedHairIdx, this`selectedGlassesIdx
      ensures Valid()
      ensures confirmed ==> Cleared()
      ensures !confirmed ==> unchanged(this)
      ensures lang == old(lang)
    {
      if confirmed {
        images := NoImages;
        analysis := None;
        history := [];
        activeImageId := Original;
        selectedHairIdx := -1;
        selectedGlassesIdx := -1;
      }
    }

    /** The language button flips EN and CN. */
    method ToggleLanguage()
      requires Valid()
      modifies this`lang
      ensures Valid() && lang == Toggle(old(lang))
    {
      lang := Toggle(lang);
    }
  }

  /** A client of the session: upload three views (non-empty, as the data
      URLs `FileReader` produces always are) and analyze them into the
      given result. */
  method AnalyzedSession(front: string, left: string, right: string, analysis: AnalysisResult)
    returns (s: Session)
    requires front != "" && left != "" && right != ""
    ensures fresh(s) && s.Valid() && !s.isComparing
    ensures s.images == ImageState(Some(front), Some(left), Some(right))
    ensures s.analysis == Some(analysis) && s.history == [] && s.activeImageId == Original
    ensures s.selectedHairIdx == -1 && s.selectedGlassesIdx == -1
  {
    s := new Session();
    s.Upload(Front, front);
    s.Upload(Left, left);
    s.Upload(Right, right);
    var analyzed := s.Analyze(Answered(Gemini.AnalysisAnswer(Some("{}"), Some(analysis))));
  }

  /** Continuing that client: with three hairstyles and three glasses, choose
      hairstyle 1 only and generate one image. The history then holds exactly
      that image, it is the active and displayed view, and it records the
      hairstyle's name and no glasses. */
  method SingleLookScenario(
    front: string, left: string, right: string, analysis: AnalysisResult,
    id: string, timestamp: int, data: string)
    requires front != "" && left != "" && right != ""
    requires |analysis.recommendedHairstyles| == 3 && |analysis.recommendedGlasses| == 3
    requires id != Original
  {
    var s := AnalyzedSession(front, left, right, analysis);
    s.ToggleHair(1);
    var image := Gemini.Part(Some(Gemini.Blob(Some("image/png"), Some(data))), None);
    var response := Gemini.GenerateContentResponse(
      Some([Gemini.Candidate(Some(Gemini.Content(Some([image]))))]));
    assert Gemini.ResponseParts(response) == [image];
    var generated := s.Generate(id, timestamp, Answered(response));
    assert generated.Sent? && generated.result == Success(Gemini.PngDataUrl(data));
    assert |s.history| == 1 && s.activeImageId == id;
    assert s.history[0].imageUrl == Gemini.PngDataUrl(data);
    assert s.history[0].options == HistoryOptions(Some(analysis.recommendedHairstyles[1].name), None);
    assert s.GetDisplayImage() == Some(Gemini.PngDataUrl(data));
  }
}
