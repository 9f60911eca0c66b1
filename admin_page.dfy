/**
 * The admin page: one candidate slot with its description, the upload
 * button that is disabled and relabelled while its upload is outstanding,
 * and the catalogue grid that every list load replaces wholesale.
 * Requests and their replies are separate steps.
 */
module AdminPage {
  import opened Wrappers
  import opened Protocol
  import opened Client

  const GRID_ERROR := "無法載入列表"
  const EMPTY_GRID := "目前沒有任何拾獲物品"

  /** The grid a list load leaves: an error, a placeholder, or one card with a delete button per entry. */
  function GridAfter(outcome: ListOutcome): (g: seq<GridItem>)
    ensures outcome.Listed? && outcome.entries != [] ==> g == CardsOf(outcome.entries, true)
    ensures outcome.Listed? && outcome.entries == [] ==> g == [EmptyMessage(EMPTY_GRID)]
    ensures !outcome.Listed? ==> g == [ErrorMessage(GRID_ERROR)]
  {
    match outcome
    case Listed(entries) => if entries == [] then [EmptyMessage(EMPTY_GRID)] else CardsOf(entries, true)
    case _ => [ErrorMessage(GRID_ERROR)]
  }

  class Page {
    var selected: Option<File>
    var preview: Option<File>
    var picker: seq<File>
    /** The description text area. */
    var info: string
    var uploadAreaShown: bool
    var previewShown: bool
    var uploadDisabled: bool
    var uploadLabel: string
    /** The label the outstanding upload will put back. */
    var savedLabel: string
    var loading: bool
    var error: Option<string>
    var success: Option<string>
    /** The last `alert` text. */
    var alert: Option<string>
    var grid: seq<GridItem>
    /** Every request issued, in order. */
    var sent: seq<Request>
    var pendingLists: nat
    var pendingDeletes: nat

    /**
     * The upload area is shown exactly when there is no candidate, the
     * preview exactly when there is one; a disabled button carries the busy
     * label.
     */
    ghost predicate Valid()
      reads this
    {
      && uploadAreaShown == selected.None?
      && previewShown == selected.Some?
      && (selected.Some? ==> preview == selected)
      && (uploadDisabled ==> uploadLabel == BUSY_LABEL)
    }

    /** The page as loaded, with the initial list load already issued. */
    constructor (initialLabel: string)
      ensures Valid()
      ensures selected == None && preview == None && picker == [] && info == ""
      ensures uploadAreaShown && !previewShown && !uploadDisabled && uploadLabel == initialLabel && !loading
      ensures error == None && success == None && alert == None && grid == []
      ensures sent == [ListRequest] && pendingLists == 1 && pendingDeletes == 0
    {
      selected, preview, picker, info := None, None, [], "";
      uploadAreaShown, previewShown := true, false;
      uploadDisabled, uploadLabel, savedLabel, loading := false, initialLabel, initialLabel, false;
      error, success, alert, grid := None, None, None, [];
      sent, pendingLists, pendingDeletes := [ListRequest], 1, 0;
    }

    /**
     * `handleFileSelect`: a non-image is refused with an error and nothing
     * else changes; an image becomes the only candidate, hides the upload
     * area and shows the preview.
     */
    method HandleFileSelect(file: File)
      requires Valid()
      modifies this`selected, this`preview, this`uploadAreaShown, this`previewShown, this`error
      ensures Valid()
      ensures !IsImage(file) ==>
        && error == Some(NOT_AN_IMAGE)
        && unchanged(this`selected, this`preview, this`uploadAreaShown, this`previewShown)
      ensures IsImage(file) ==>
        selected == Some(file) && preview == Some(file) && !uploadAreaShown && previewShown && error == old(error)
    {
      if !IsImage(file) {
        error := Some(NOT_AN_IMAGE);
        return;
      }
      selected := Some(file);
      preview := Some(file);
      uploadAreaShown := false;
      previewShown := true;
    }

    /** The file input's `change`: the browser fills the input; its first file, if any, is proposed. */
    method FilePicked(files: seq<File>)
      requires Valid()
      modifies this`picker, this`selected, this`preview, this`uploadAreaShown, this`previewShown, this`error
      ensures Valid() && picker == files
      ensures files == [] ==>
        unchanged(this`selected, this`preview, this`uploadAreaShown, this`previewShown, this`error)
      ensures files != [] && IsImage(files[0]) ==>
        && selected == Some(files[0]) && preview == Some(files[0])
        && !uploadAreaShown && previewShown && error == old(error)
      ensures files != [] && !IsImage(files[0]) ==>
        && error == Some(NOT_AN_IMAGE)
        && unchanged(this`selected, this`preview, this`uploadAreaShown, this`previewShown)
    {
      picker := files;
      if |files| > 0 {
        HandleFileSelect(files[0]);
      }
    }

    /** A drop on the upload area: only the first dropped file is proposed. */
    method FileDropped(files: seq<File>)
      requires Valid()
      modifies this`selected, this`preview, this`uploadAreaShown, this`previewShown, this`error
      ensures Valid()
      ensures files == [] ==>
        unchanged(this`selected, this`preview, this`uploadAreaShown, this`previewShown, this`error)
      ensures files != [] && IsImage(files[0]) ==>
        && selected == Some(files[0]) && preview == Some(files[0])
        && !uploadAreaShown && previewShown && error == old(error)
      ensures files != [] && !IsImage(files[0]) ==>
        && error == Some(NOT_AN_IMAGE)
        && unchanged(this`selected, this`preview, this`uploadAreaShown, this`previewShown)
    {
      if |files| > 0 {
        HandleFileSelect(files[0]);
      }
    }

    /** Typing into the description area. */
    method EditInfo(text: string)
      modifies this`info
      ensures info == text
    {
      info := text;
    }

    /** The cancel button: no candidate, empty file input and description, the upload area back, the preview hidden. */
    method Cancel()
      requires Valid()
      modifies this`selected, this`picker, this`info, this`uploadAreaShown, this`previewShown
      ensures Valid()
      ensures selected == None && picker == [] && info == "" && uploadAreaShown && !previewShown
    {
      selected := None;
      picker := [];
      info := "";
      uploadAreaShown := true;
      previewShown := false;
    }

    /** `loadImagesList` up to its `await`: one list request. */
    method RequestList()
      modifies this`sent, this`pendingLists
      ensures sent == old(sent) + [ListRequest] && pendingLists == old(pendingLists) + 1
    {
      sent := sent + [ListRequest];
      pendingLists := pendingLists + 1;
    }

    /**
     * `loadImagesList` after its `await`: the grid is emptied and refilled
     * card by card in server order, or holds one message instead; it never
     * depends on what it held before.
     */
    method FinishList(reply: Reply<seq<ImageRecord>>)
      requires pendingLists > 0
      modifies this`grid, this`pendingLists
      ensures grid == GridAfter(ClassifyList(reply))
      ensures pendingLists == old(pendingLists) - 1
    {
      pendingLists := pendingLists - 1;
      match ClassifyList(reply) {
        case Listed(entries) =>
          grid := [];
          if |entries| == 0 {
            grid := [EmptyMessage(EMPTY_GRID)];
            return;
          }
          for i := 0 to |entries|
            invariant grid == CardsOf(entries[..i], true)
            invariant pendingLists == old(pendingLists) - 1
          {
            grid := grid + [CardItem(CardFor(entries[i], true))];
          }
          assert entries[..|entries|] == entries;
        case ListMissing =>
          grid := [];
          grid := [ErrorMessage(GRID_ERROR)];
        case ListFailed(_) =>
          grid := [ErrorMessage(GRID_ERROR)];
      }
    }

    /**
     * The upload button up to its `await`: without a candidate, an error,
     * the button left alone and no request; with one, the button disabled
     * and relabelled (its label kept for later), loading on, and exactly one
     * upload of the candidate with the current description.
     */
    method BeginUpload() returns (requested: bool)
      requires Valid() && !uploadDisabled
      modifies this`error, this`uploadDisabled, this`uploadLabel, this`savedLabel, this`loading, this`sent
      ensures Valid()
      ensures requested <==> old(selected).Some?
      ensures !requested ==>
        error == Some(NO_CANDIDATE) && unchanged(this`uploadDisabled, this`uploadLabel, this`savedLabel, this`loading, this`sent)
      ensures requested ==>
        && uploadDisabled && uploadLabel == BUSY_LABEL && savedLabel == old(uploadLabel) && loading
        && sent == old(sent) + [UploadRequest(selected.value, info)] && error == old(error)
    {
      if selected.None? {
        error := Some(NO_CANDIDATE);
        return false;
      }
      uploadDisabled := true;
      savedLabel := uploadLabel;
      uploadLabel := BUSY_LABEL;
      loading := true;
      sent := sent + [UploadRequest(selected.value, info)];
      return true;
    }

    /**
     * `uploadImage` after its `await`, then the rest of the button handler.
     * Success: a toast, candidate, file input and description cleared, the
     * upload area back and a list reload issued. Failure: the ladder's
     * message, with candidate and preview kept. Either way loading ends and
     * the button is enabled again with the label it had.
     */
    method FinishUpload(reply: Reply<ImageRecord>)
      requires Valid() && uploadDisabled
      modifies this`selected, this`picker, this`info, this`uploadAreaShown, this`previewShown,
               this`uploadDisabled, this`uploadLabel, this`loading, this`error, this`success,
               this`sent, this`pendingLists
      ensures Valid()
      ensures !uploadDisabled && uploadLabel == old(savedLabel) && !loading
      ensures match ClassifyUpload(reply)
        case Uploaded =>
          && success == Some(UPLOAD_OK) && error == old(error)
          && selected == None && picker == [] && info == "" && uploadAreaShown && !previewShown
          && sent == old(sent) + [ListRequest] && pendingLists == old(pendingLists) + 1
        case UploadFailed(message) =>
          && error == Some(message) && success == old(success)
          && unchanged(this`selected, this`picker, this`info, this`uploadAreaShown, this`previewShown)
          && unchanged(this`sent, this`pendingLists)
    {
      match ClassifyUpload(reply) {
        case Uploaded =>
          success := Some(UPLOAD_OK);
          Cancel();
          RequestList();
          loading := false;
        case UploadFailed(message) =>
          error := Some(message);
          loading := false;
      }
      uploadDisabled := false;
      uploadLabel := savedLabel;
    }

    /**
     * The upload button with its reply arriving before anything else
     * happens: the button ends enabled with its original label, and success
     * alone clears the candidate.
     */
    method UploadClick(reply: Reply<ImageRecord>)
      requires Valid() && !uploadDisabled
      modifies this`selected, this`picker, this`info, this`uploadAreaShown, this`previewShown,
               this`uploadDisabled, this`uploadLabel, this`savedLabel, this`loading, this`error,
               this`success, this`sent, this`pendingLists
      ensures Valid()
      ensures !uploadDisabled && uploadLabel == old(uploadLabel)
      ensures old(selected).None? ==> error == Some(NO_CANDIDATE) && unchanged(this`loading, this`sent, this`selected)
      ensures old(selected).Some? ==>
        && !loading
        && old(sent) + [UploadRequest(old(selected).value, old(info))] <= sent
        && (selected == None <==> ClassifyUpload(reply).Uploaded?)
    {
      var requested := BeginUpload();
      if requested {
        FinishUpload(reply);
      }
    }

    /** `deleteImage` up to its `await`: nothing unless confirmed, then one delete request for that id. */
    method DeleteClick(id: int, confirmed: bool)
      modifies this`sent, this`pendingDeletes
      ensures !confirmed ==> unchanged(this`sent, this`pendingDeletes)
      ensures confirmed ==> sent == old(sent) + [DeleteRequest(id)] && pendingDeletes == old(pendingDeletes) + 1
    {
      if !confirmed {
        return;
      }
      sent := sent + [DeleteRequest(id)];
      pendingDeletes := pendingDeletes + 1;
    }

    /**
     * `deleteImage` after its `await`: success puts up a toast and reloads
     * the list; a refusal or an exception only alerts. The grid itself is
     * never touched here.
     */
    method FinishDelete(reply: Reply<()>)
      requires pendingDeletes > 0
      modifies this`success, this`alert, this`sent, this`pendingLists, this`pendingDeletes
      ensures pendingDeletes == old(pendingDeletes) - 1
      ensures match ClassifyDelete(reply)
        case Deleted =>
          success == Some(DELETE_OK) && alert == old(alert) &&
          sent == old(sent) + [ListRequest] && pendingLists == old(pendingLists) + 1
        case DeleteRefused(text) =>
          alert == Some(text) && success == old(success) && unchanged(this`sent, this`pendingLists)
        case DeleteCrashed =>
          alert == Some(DELETE_CRASHED) && success == old(success) && unchanged(this`sent, this`pendingLists)
    {
      pendingDeletes := pendingDeletes - 1;
      match ClassifyDelete(reply) {
        case Deleted =>
          success := Some(DELETE_OK);
          RequestList();
        case DeleteRefused(text) =>
          alert := Some(text);
        case DeleteCrashed =>
          alert := Some(DELETE_CRASHED);
      }
    }
  }
}
