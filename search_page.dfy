/**
 * The search page: one candidate slot, the visibility of the upload area,
 * preview and result sections, and the result panel, driven by the page's
 * event handlers. A search is issued and answered in two steps, since the
 * page awaits the reply and nothing stops a second search in the meantime.
 */
module SearchPage {
  import opened Wrappers
  import opened Protocol
  import opened Client

  /** The score line: the percentage and what follows its `%` sign. */
  datatype ScoreText = ScoreText(percent: real, suffix: string)

  /** The result section's fields. */
  datatype ResultPanel = ResultPanel(
    score: ScoreText,
    scoreColor: string,
    imageSrc: string,
    filename: string,
    info: string,
    date: string)

  /**
   * `p` is the panel `displaySearchResult` leaves behind when it was `before`:
   * the score with its tier label and colour, the match's image, name and
   * description (a placeholder when empty), and the date only when the match
   * has one.
   */
  ghost predicate Displays(p: ResultPanel, before: ResultPanel, result: SearchData)
    requires result.image.Some?
  {
    var image := result.image.value;
    var tier := TierOf(result.similarity);
    && p.score == ScoreText(result.similarity * 100.0, " " + TierLabel(tier))
    && p.scoreColor == TierColor(tier)
    && p.imageSrc == result.imageUrl
    && p.filename == image.filename
    && p.info == Description(image.info)
    && p.date == (if Truthy(image.createdAt) then image.createdAt.value else before.date)
  }

  /**
   * Displaying a result replaces every field of the panel but one: the date
   * of a match without `created_at` is whatever the previous result left.
   */
  lemma DisplayReplacesAllButDate(p1: ResultPanel, before1: ResultPanel, p2: ResultPanel, before2: ResultPanel, result: SearchData)
    requires result.image.Some?
    requires Displays(p1, before1, result) && Displays(p2, before2, result)
    ensures p1.(date := "") == p2.(date := "")
    ensures Truthy(result.image.value.createdAt) ==> p1 == p2
    ensures !Truthy(result.image.value.createdAt) ==> (p1 == p2 <==> before1.date == before2.date)
  {
  }

  class Page {
    var selected: Option<File>
    /** The file the preview image shows. */
    var preview: Option<File>
    /** What the hidden file input holds. */
    var picker: seq<File>
    var uploadAreaShown: bool
    var previewShown: bool
    var resultShown: bool
    var loading: bool
    /** The last text put up by `showError`. */
    var error: Option<string>
    var panel: ResultPanel
    /** Every request issued, in order. */
    var sent: seq<Request>
    /** Searches issued and not yet answered. */
    var pending: nat

    /** The upload area is shown exactly when there is no candidate, the preview exactly when there is one, and it shows that candidate. */
    ghost predicate Valid()
      reads this
    {
      && uploadAreaShown == selected.None?
      && previewShown == selected.Some?
      && (selected.Some? ==> preview == selected)
    }

    /** The page as loaded: nothing selected, only the upload area visible. */
    constructor (initialPanel: ResultPanel)
      ensures Valid()
      ensures selected == None && preview == None && picker == []
      ensures uploadAreaShown && !previewShown && !resultShown && !loading
      ensures error == None && panel == initialPanel && sent == [] && pending == 0
    {
      selected, preview, picker := None, None, [];
      uploadAreaShown, previewShown, resultShown, loading := true, false, false, false;
      error, panel, sent, pending := None, initialPanel, [], 0;
    }

    /**
     * `handleFileSelect`: a non-image is refused with an error and nothing
     * else changes; an image replaces the candidate, hides the upload area
     * and any stale result, and shows the preview.
     */
    method HandleFileSelect(file: File)
      requires Valid()
      modifies this`selected, this`preview, this`uploadAreaShown, this`previewShown, this`resultShown, this`error
      ensures Valid()
      ensures !IsImage(file) ==>
        && error == Some(NOT_AN_IMAGE)
        && selected == old(selected) && preview == old(preview)
        && uploadAreaShown == old(uploadAreaShown) && previewShown == old(previewShown)
        && resultShown == old(resultShown)
      ensures IsImage(file) ==>
        && selected == Some(file) && preview == Some(file)
        && !uploadAreaShown && previewShown && !resultShown
        && error == old(error)
    {
      if !IsImage(file) {
        error := Some(NOT_AN_IMAGE);
        return;
      }
      selected := Some(file);
      preview := Some(file);
      uploadAreaShown := false;
      previewShown := true;
      resultShown := false;
    }

    /** The file input's `change`: the browser fills the input; its first file, if any, is proposed. */
    method FilePicked(files: seq<File>)
      requires Valid()
      modifies this`picker, this`selected, this`preview, this`uploadAreaShown, this`previewShown, this`resultShown, this`error
      ensures Valid() && picker == files
      ensures files == [] ==>
        unchanged(this`selected, this`preview, this`uploadAreaShown, this`previewShown, this`resultShown, this`error)
      ensures files != [] && IsImage(files[0]) ==>
        && selected == Some(files[0]) && preview == Some(files[0])
        && !uploadAreaShown && previewShown && !resultShown && error == old(error)
      ensures files != [] && !IsImage(files[0]) ==>
        && selected == old(selected) && error == Some(NOT_AN_IMAGE)
        && preview == old(preview) && resultShown == old(resultShown)
        && uploadAreaShown == old(uploadAreaShown) && previewShown == old(previewShown)
    {
      picker := files;
      if |files| > 0 {
        HandleFileSelect(files[0]);
      }
    }

    /** A drop on the upload area: only the first dropped file is proposed. */
    method FileDropped(files: seq<File>)
      requires Valid()
      modifies this`selected, this`preview, this`uploadAreaShown, this`previewShown, this`resultShown, this`error
      ensures Valid()
      ensures files == [] ==>
        unchanged(this`selected, this`preview, this`uploadAreaShown, this`previewShown, this`resultShown, this`error)
      ensures files != [] && IsImage(files[0]) ==>
        && selected == Some(files[0]) && preview == Some(files[0])
        && !uploadAreaShown && previewShown && !resultShown && error == old(error)
      ensures files != [] && !IsImage(files[0]) ==>
        && selected == old(selected) && error == Some(NOT_AN_IMAGE)
        && preview == old(preview) && resultShown == old(resultShown)
        && uploadAreaShown == old(uploadAreaShown) && previewShown == old(previewShown)
    {
      if |files| > 0 {
        HandleFileSelect(files[0]);
      }
    }

    /** The cancel button: no candidate, an empty file input, the upload area back, preview and result hidden. */
    method Cancel()
      requires Valid()
      modifies this`selected, this`picker, this`uploadAreaShown, this`previewShown, this`resultShown
      ensures Valid()
      ensures selected == None && picker == []
      ensures uploadAreaShown && !previewShown && !resultShown
    {
      selected := None;
      picker := [];
      uploadAreaShown := true;
      previewShown := false;
      resultShown := false;
    }

    /**
     * The search button up to its `await`: without a candidate, an error
     * and no request; with one, loading on, the result hidden and exactly
     * one search request for that candidate.
     */
    method BeginSearch() returns (requested: bool)
      requires Valid()
      modifies this`error, this`loading, this`resultShown, this`sent, this`pending
      ensures Valid()
      ensures requested <==> old(selected).Some?
      ensures !requested ==> error == Some(NO_CANDIDATE) && unchanged(this`loading, this`resultShown, this`sent, this`pending)
      ensures requested ==>
        && loading && !resultShown && error == old(error)
        && sent == old(sent) + [SearchRequest(selected.value)] && pending == old(pending) + 1
    {
      if selected.None? {
        error := Some(NO_CANDIDATE);
        return false;
      }
      loading := true;
      resultShown := false;
      sent := sent + [SearchRequest(selected.value)];
      pending := pending + 1;
      return true;
    }

    /** `displaySearchResult`: the panel filled in from the match, and the result section shown. */
    method DisplaySearchResult(result: SearchData)
      requires result.image.Some?
      modifies this`panel, this`resultShown
      ensures resultShown && Displays(panel, old(panel), result)
    {
      var image := result.image.value;
      var tier := TierOf(result.similarity);
      var date := if Truthy(image.createdAt) then image.createdAt.value else panel.date;
      panel := ResultPanel(ScoreText(result.similarity * 100.0, " " + TierLabel(tier)), TierColor(tier),
                           result.imageUrl, image.filename, Description(image.info), date);
      resultShown := true;
    }

    /**
     * `searchImage` after its `await`: the reply goes through the search
     * ladder; every path ends with loading off, the candidate untouched, and
     * the result section shown only on a match.
     */
    method FinishSearch(reply: Reply<SearchData>)
      requires Valid() && pending > 0
      modifies this`error, this`loading, this`resultShown, this`panel, this`pending
      ensures Valid()
      ensures !loading && pending == old(pending) - 1
      ensures match ClassifySearch(reply)
        case SearchFailed(message) => error == Some(message) && unchanged(this`resultShown, this`panel)
        case NoMatch => error == Some(NO_MATCH) && unchanged(this`resultShown, this`panel)
        case Found(result) => resultShown && error == old(error) && Displays(panel, old(panel), result)
    {
      pending := pending - 1;
      match ClassifySearch(reply) {
        case SearchFailed(message) =>
          error := Some(message);
          loading := false;
        case NoMatch =>
          error := Some(NO_MATCH);
          loading := false;
        case Found(result) =>
          DisplaySearchResult(result);
          loading := false;
      }
    }

    /**
     * The search button with its reply arriving before anything else
     * happens: loading ends off, the candidate survives, and the result is
     * visible exactly when the reply is a match.
     */
    method SearchClick(reply: Reply<SearchData>)
      requires Valid()
      modifies this`error, this`loading, this`resultShown, this`panel, this`sent, this`pending
      ensures Valid()
      ensures old(selected).None? ==> error == Some(NO_CANDIDATE) && unchanged(this`loading, this`resultShown, this`panel, this`sent, this`pending)
      ensures old(selected).Some? ==>
        && !loading && pending == old(pending)
        && sent == old(sent) + [SearchRequest(old(selected).value)]
        && (resultShown <==> ClassifySearch(reply).Found?)
        && match ClassifySearch(reply)
           case SearchFailed(message) => error == Some(message) && panel == old(panel)
           case NoMatch => error == Some(NO_MATCH) && panel == old(panel)
           case Found(result) => error == old(error) && Displays(panel, old(panel), result)
    {
      var requested := BeginSearch();
      if requested {
        FinishSearch(reply);
      }
    }
  }
}
