/**
 * The older script that drives both pages when they load it instead of
 * their own: the same workflows with fewer guards. Selecting a file leaves a
 * stale result visible, the score has no tier label or colour, the upload
 * button is never disabled, cards have no delete button, and a failed list
 * load leaves the grid as it was.
 */
module LegacyPages {
  import opened Wrappers
  import opened Protocol
  import opened Client
  import opened SearchPage

  const EMPTY_GRID := "尚無上傳的圖像"

  /**
   * `p` is the panel the older `displaySearchResult` leaves behind when it
   * was `before`: the bare percentage, the colour left as it was, and
   * otherwise what the newer page shows.
   */
  ghost predicate ShowsPlain(p: ResultPanel, before: ResultPanel, result: SearchData)
    requires result.image.Some?
  {
    var image := result.image.value;
    && p.score == ScoreText(result.similarity * 100.0, "")
    && p.scoreColor == before.scoreColor
    && p.imageSrc == result.imageUrl
    && p.filename == image.filename
    && p.info == Description(image.info)
    && p.date == (if Truthy(image.createdAt) then image.createdAt.value else before.date)
  }

  /**
   * From the same panel and result, the older page shows what the newer one
   * does except the tier label and the colour; the percentage is the same.
   */
  lemma PlainLacksOnlyTier(p: ResultPanel, q: ResultPanel, before: ResultPanel, result: SearchData)
    requires result.image.Some?
    requires ShowsPlain(p, before, result) && Displays(q, before, result)
    ensures p.score.percent == q.score.percent && p.score.suffix == ""
    ensures p.scoreColor == before.scoreColor
    ensures p.(score := q.score, scoreColor := q.scoreColor) == q
  {
  }

  /** The search page under the older script. */
  class SearchScreen {
    var selected: Option<File>
    var preview: Option<File>
    var picker: seq<File>
    var uploadAreaShown: bool
    var previewShown: bool
    var resultShown: bool
    var loading: bool
    var error: Option<string>
    var panel: ResultPanel
    var sent: seq<Request>
    var pending: nat

    ghost predicate Valid()
      reads this
    {
      && uploadAreaShown == selected.None?
      && previewShown == selected.Some?
      && (selected.Some? ==> preview == selected)
    }

    constructor (initialPanel: ResultPanel)
      ensures Valid()
      ensures selected == None && preview == None && picker == []
      ensures uploadAreaShown && !previewShown && !resultShown && !loading
      ensures error == None && panel == initialPanel && sent == [] && pending == 0
    {
      selected, preview, picker := None, None, [];
      uploadAreaShown, previewShown, resultShown, loading := true, false, false, false;
      error, panel, sent, pending := None, initialPanel, [], 0;
    }

    /** `handleFileSelect`: as on the newer page, except that a visible result stays visible. */
    method HandleFileSelect(file: File)
      requires Valid()
      modifies this`selected, this`preview, this`uploadAreaShown, this`previewShown, this`error
      ensures Valid()
      ensures !IsImage(file) ==>
        error == Some(NOT_AN_IMAGE) && unchanged(this`selected, this`preview, this`uploadAreaShown, this`previewShown)
      ensures IsImage(file) ==>
        selected == Some(file) && preview == Some(file) && !uploadAreaShown && previewShown && error == old(error)
    {
      if !IsImage(file) {
        error := Some(NOT_AN_IMAGE);
        return;
      }
      selected := Some(file);
      preview := Some(file);
      uploadAreaShown := false;
      previewShown := true;
    }

    method FilePicked(files: seq<File>)
      requires Valid()
      modifies this`picker, this`selected, this`preview, this`uploadAreaShown, this`previewShown, this`error
      ensures Valid() && picker == files
      ensures files == [] ==>
        unchanged(this`selected, this`preview, this`uploadAreaShown, this`previewShown, this`error)
      ensures files != [] && IsImage(files[0]) ==>
        && selected == Some(files[0]) && preview == Some(files[0])
        && !uploadAreaShown && previewShown && error == old(error)
      ensures files != [] && !IsImage(files[0]) ==>
        && error == Some(NOT_AN_IMAGE)
        && unchanged(this`selected, this`preview, this`uploadAreaShown, this`previewShown)
    {
      picker := files;
      if |files| > 0 {
        HandleFileSelect(files[0]);
      }
    }

    method FileDropped(files: seq<File>)
      requires Valid()
      modifies this`selected, this`preview, this`uploadAreaShown, this`previewShown, this`error
      ensures Valid()
      ensures files == [] ==>
        unchanged(this`selected, this`preview, this`uploadAreaShown, this`previewShown, this`error)
      ensures files != [] && IsImage(files[0]) ==>
        && selected == Some(files[0]) && preview == Some(files[0])
        && !uploadAreaShown && previewShown && error == old(error)
      ensures files != [] && !IsImage(files[0]) ==>
        && error == Some(NOT_AN_IMAGE)
        && unchanged(this`selected, this`preview, this`uploadAreaShown, this`previewShown)
    {
      if |files| > 0 {
        HandleFileSelect(files[0]);
      }
    }

    /** The cancel button: no candidate, an empty file input, the upload area back, preview and result hidden. */
    method Cancel()
      requires Valid()
      modifies this`selected, this`picker, this`uploadAreaShown, this`previewShown, this`resultShown
      ensures Valid()
      ensures selected == None && picker == [] && uploadAreaShown && !previewShown && !resultShown
    {
      selected := None;
      picker := [];
      uploadAreaShown := true;
      previewShown := false;
      resultShown := false;
    }

    /** The search button up to its `await`, as on the newer page. */
    method BeginSearch() returns (requested: bool)
      requires Valid()
      modifies this`error, this`loading, this`resultShown, this`sent, this`pending
      ensures Valid()
      ensures requested <==> old(selected).Some?
      ensures !requested ==> error == Some(NO_CANDIDATE) && unchanged(this`loading, this`resultShown, this`sent, this`pending)
      ensures requested ==>
        && loading && !resultShown && error == old(error)
        && sent == old(sent) + [SearchRequest(selected.value)] && pending == old(pending) + 1
    {
      if selected.None? {
        error := Some(NO_CANDIDATE);
        return false;
      }
      loading := true;
      resultShown := false;
      sent := sent + [SearchRequest(selected.value)];
      pending := pending + 1;
      return true;
    }

    /** The older `displaySearchResult`: no tier, no colour. */
    method DisplaySearchResult(result: SearchData)
      requires result.image.Some?
      modifies this`panel, this`resultShown
      ensures resultShown && ShowsPlain(panel, old(panel), result)
    {
      var image := result.image.value;
      var date := if Truthy(image.createdAt) then image.createdAt.value else panel.date;
      panel := ResultPanel(ScoreText(result.similarity * 100.0, ""), panel.scoreColor,
                           result.imageUrl, image.filename, Description(image.info), date);
      resultShown := true;
    }

    /** `searchImage` after its `await`: the same ladder as the newer page, the plainer panel. */
    method FinishSearch(reply: Reply<SearchData>)
      requires Valid() && pending > 0
      modifies this`error, this`loading, this`resultShown, this`panel, this`pending
      ensures Valid()
      ensures !loading && pending == old(pending) - 1
      ensures match ClassifySearch(reply)
        case SearchFailed(message) => error == Some(message) && unchanged(this`resultShown, this`panel)
        case NoMatch => error == Some(NO_MATCH) && unchanged(this`resultShown, this`panel)
        case Found(result) => resultShown && error == old(error) && ShowsPlain(panel, old(panel), result)
    {
      pending := pending - 1;
      match ClassifySearch(reply) {
        case SearchFailed(message) =>
          error := Some(message);
          loading := false;
        case NoMatch =>
          error := Some(NO_MATCH);
          loading := false;
        case Found(result) =>
          DisplaySearchResult(result);
          loading := false;
      }
    }

    /** The search button with its reply arriving before anything else happens. */
    method SearchClick(reply: Reply<SearchData>)
      requires Valid()
      modifies this`error, this`loading, this`resultShown, this`panel, this`sent, this`pending
      ensures Valid()
      ensures old(selected).None? ==> error == Some(NO_CANDIDATE) && unchanged(this`loading, this`resultShown, this`panel, this`sent, this`pending)
      ensures old(selected).Some? ==>
        && !loading && pending == old(pending)
        && sent == old(sent) + [SearchRequest(old(selected).value)]
        && (resultShown <==> ClassifySearch(reply).Found?)
        && match ClassifySearch(reply)
           case SearchFailed(message) => error == Some(message) && panel == old(panel)
           case NoMatch => error == Some(NO_MATCH) && panel == old(panel)
           case Found(result) => error == old(error) && ShowsPlain(panel, old(panel), result)
    {
      var requested := BeginSearch();
      if requested {
        FinishSearch(reply);
      }
    }
  }

  /** The admin page under the older script. */
  class AdminScreen {
    var selected: Option<File>
    var preview: Option<File>
    var picker: seq<File>
    var info: string
    var uploadAreaShown: bool
    var previewShown: bool
    var loading: bool
    var error: Option<string>
    var success: Option<string>
    var grid: seq<GridItem>
    var sent: seq<Request>
    /** Uploads issued and not yet answered; nothing keeps this below two. */
    var pendingUploads: nat
    var pendingLists: nat

    ghost predicate Valid()
      reads this
    {
      && uploadAreaShown == selected.None?
      && previewShown == selected.Some?
      && (selected.Some? ==> preview == selected)
    }

    /** The page as loaded, with the list load of `DOMContentLoaded` issued. */
    constructor ()
      ensures Valid()
      ensures selected == None && preview == None && picker == [] && info == ""
      ensures uploadAreaShown && !previewShown && !loading
      ensures error == None && success == None && grid == []
      ensures sent == [ListRequest] && pendingUploads == 0 && pendingLists == 1
    {
      selected, preview, picker, info := None, None, [], "";
      uploadAreaShown, previewShown, loading := true, false, false;
      error, success, grid := None, None, [];
      sent, pendingUploads, pendingLists := [ListRequest], 0, 1;
    }

    method HandleFileSelect(file: File)
      requires Valid()
      modifies this`selected, this`preview, this`uploadAreaShown, this`previewShown, this`error
      ensures Valid()
      ensures !IsImage(file) ==>
        error == Some(NOT_AN_IMAGE) && unchanged(this`selected, this`preview, this`uploadAreaShown, this`previewShown)
      ensures IsImage(file) ==>
        selected == Some(file) && preview == Some(file) && !uploadAreaShown && previewShown && error == old(error)
    {
      if !IsImage(file) {
        error := Some(NOT_AN_IMAGE);
        return;
      }
      selected := Some(file);
      preview := Some(file);
      uploadAreaShown := false;
      previewShown := true;
    }

    method FilePicked(files: seq<File>)
      requires Valid()
      modifies this`picker, this`selected, this`preview, this`uploadAreaShown, this`previewShown, this`error
      ensures Valid() && picker == files
      ensures files == [] ==>
        unchanged(this`selected, this`preview, this`uploadAreaShown, this`previewShown, this`error)
      ensures files != [] && IsImage(files[0]) ==>
        && selected == Some(files[0]) && preview == Some(files[0])
        && !uploadAreaShown && previewShown && error == old(error)
      ensures files != [] && !IsImage(files[0]) ==>
        && error == Some(NOT_AN_IMAGE)
        && unchanged(this`selected, this`preview, this`uploadAreaShown, this`previewShown)
    {
      picker := files;
      if |files| > 0 {
        HandleFileSelect(files[0]);
      }
    }

    method FileDropped(files: seq<File>)
      requires Valid()
      modifies this`selected, this`preview, this`uploadAreaShown, this`previewShown, this`error
      ensures Valid()
      ensures files == [] ==>
        unchanged(this`selected, this`preview, this`uploadAreaShown, this`previewShown, this`error)
      ensures files != [] && IsImage(files[0]) ==>
        && selected == Some(files[0]) && preview == Some(files[0])
        && !uploadAreaShown && previewShown && error == old(error)
      ensures files != [] && !IsImage(files[0]) ==>
        && error == Some(NOT_AN_IMAGE)
        && unchanged(this`selected, this`preview, this`uploadAreaShown, this`previewShown)
    {
      if |files| > 0 {
        HandleFileSelect(files[0]);
      }
    }

    method EditInfo(text: string)
      modifies this`info
      ensures info == text
    {
      info := text;
    }

    /** The cancel button: no candidate, empty file input and description, the upload area back. */
    method Cancel()
      requires Valid()
      modifies this`selected, this`picker, this`info, this`uploadAreaShown, this`previewShown
      ensures Valid()
      ensures selected == None && picker == [] && info == "" && uploadAreaShown && !previewShown
    {
      selected := None;
      picker := [];
      info := "";
      uploadAreaShown := true;
      previewShown := false;
    }

    /** `loadImagesList` up to its `await`; also the refresh button. */
    method RequestList()
      modifies this`sent, this`pendingLists
      ensures sent == old(sent) + [ListRequest] && pendingLists == old(pendingLists) + 1
    {
      sent := sent + [ListRequest];
      pendingLists := pendingLists + 1;
    }

    /**
     * The older `loadImagesList` after its `await`. A failed request only
     * shows an error and leaves the grid as it was; a body without `data`
     * has already emptied the grid when `data.data.length` throws, whose
     * text, `missingDataText`, the script engine chooses; otherwise the
     * grid is refilled with delete-less cards or a placeholder.
     */
    method FinishList(reply: Reply<seq<ImageRecord>>, missingDataText: string)
      requires pendingLists > 0
      modifies this`grid, this`error, this`pendingLists
      ensures pendingLists == old(pendingLists) - 1
      ensures match ClassifyList(reply)
        case ListFailed(message) => error == Some(message) && grid == old(grid)
        case ListMissing => error == Some(missingDataText) && grid == []
        case Listed(entries) =>
          error == old(error) && grid == (if entries == [] then [EmptyMessage(EMPTY_GRID)] else CardsOf(entries, false))
    {
      pendingLists := pendingLists - 1;
      match ClassifyList(reply) {
        case ListFailed(message) =>
          error := Some(message);
        case ListMissing =>
          grid := [];
          error := Some(missingDataText);
        case Listed(entries) =>
          grid := [];
          if |entries| == 0 {
            grid := [EmptyMessage(EMPTY_GRID)];
            return;
          }
          for i := 0 to |entries|
            invariant grid == CardsOf(entries[..i], false)
            invariant pendingLists == old(pendingLists) - 1 && error == old(error)
          {
            grid := grid + [CardItem(CardFor(entries[i], false))];
          }
          assert entries[..|entries|] == entries;
      }
    }

    /**
     * The upload button up to its `await`: without a candidate, an error
     * and no request; with one, loading on and one upload of the candidate
     * with the current description. Nothing is disabled, so this may run
     * again before the reply.
     */
    method BeginUpload() returns (requested: bool)
      requires Valid()
      modifies this`error, this`loading, this`sent, this`pendingUploads
      ensures Valid()
      ensures requested <==> old(selected).Some?
      ensures !requested ==> error == Some(NO_CANDIDATE) && unchanged(this`loading, this`sent, this`pendingUploads)
      ensures requested ==>
        && loading && error == old(error)
        && sent == old(sent) + [UploadRequest(selected.value, info)] && pendingUploads == old(pendingUploads) + 1
    {
      if selected.None? {
        error := Some(NO_CANDIDATE);
        return false;
      }
      loading := true;
      sent := sent + [UploadRequest(selected.value, info)];
      pendingUploads := pendingUploads + 1;
      return true;
    }

    /** `uploadImage` after its `await`: as on the newer page, without a button to restore. */
    method FinishUpload(reply: Reply<ImageRecord>)
      requires Valid() && pendingUploads > 0
      modifies this`selected, this`picker, this`info, this`uploadAreaShown, this`previewShown,
               this`loading, this`error, this`success, this`sent, this`pendingLists, this`pendingUploads
      ensures Valid()
      ensures !loading && pendingUploads == old(pendingUploads) - 1
      ensures match ClassifyUpload(reply)
        case Uploaded =>
          && success == Some(UPLOAD_OK) && error == old(error)
          && selected == None && picker == [] && info == "" && uploadAreaShown && !previewShown
          && sent == old(sent) + [ListRequest] && pendingLists == old(pendingLists) + 1
        case UploadFailed(message) =>
          && error == Some(message) && success == old(success)
          && unchanged(this`selected, this`picker, this`info, this`uploadAreaShown, this`previewShown)
          && unchanged(this`sent, this`pendingLists)
    {
      pendingUploads := pendingUploads - 1;
      match ClassifyUpload(reply) {
        case Uploaded =>
          success := Some(UPLOAD_OK);
          Cancel();
          RequestList();
          loading := false;
        case UploadFailed(message) =>
          error := Some(message);
          loading := false;
      }
    }

    /** Two clicks before the first reply send the same candidate twice. */
    method DoubleUploadClick() returns (first: bool, second: bool)
      requires Valid()
      modifies this`error, this`loading, this`sent, this`pendingUploads
      ensures first == second == old(selected).Some?
      ensures first ==>
        sent == old(sent) + [UploadRequest(old(selected).value, old(info)), UploadRequest(old(selected).value, old(info))]
        && pendingUploads == old(pendingUploads) + 2
    {
      first := BeginUpload();
      second := BeginUpload();
    }
  }
}
