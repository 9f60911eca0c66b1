/**
 * Whole interactions driven through the page models: the search, upload
 * and delete walkthroughs, and the interleavings the pages
 * allow because nothing ties a reply to the request it answers.
 */
module Scenarios {
  import opened Wrappers
  import opened Protocol
  import opened Client
  import SearchPage
  import AdminPage

  const PHOTO := File("photo.jpg", "image/jpeg")

  /** The reply of a search whose match is `a.jpg`, described as "wallet". */
  function WalletMatch(id: int, uuid: string): Reply<SearchData> {
    Received(true, Body(true, None, None, Some(SearchData(0.91, "/x.jpg",
      Some(ImageRecord(id, uuid, "a.jpg", Some("wallet"), Some("2024-01-01T00:00:00Z")))))))
  }

  /**
   * A search scoring 0.91 shows 91% in the high tier, with the match's name
   * and description; the label follows the `%` after two spaces, one from
   * the template and one its own.
   */
  method SearchFindsWallet(initial: SearchPage.ResultPanel, id: int, uuid: string) returns (p: SearchPage.Page)
    ensures p.resultShown && !p.loading && p.selected == Some(PHOTO)
    ensures p.panel.score == SearchPage.ScoreText(91.0, "  (高度符合！)") && p.panel.scoreColor == "#28a745"
    ensures p.panel.filename == "a.jpg" && p.panel.info == "wallet" && p.panel.imageSrc == "/x.jpg"
    ensures p.sent == [SearchRequest(PHOTO)]
  {
    p := new SearchPage.Page(initial);
    p.FilePicked([PHOTO]);
    p.SearchClick(WalletMatch(id, uuid));
  }

  /** A search answered with `data: null` reports "no match" and keeps the candidate and its preview. */
  method SearchFindsNothing(initial: SearchPage.ResultPanel) returns (p: SearchPage.Page)
    ensures p.error == Some(NO_MATCH) && !p.resultShown && !p.loading
    ensures p.selected == Some(PHOTO) && p.previewShown && !p.uploadAreaShown
  {
    p := new SearchPage.Page(initial);
    p.FilePicked([PHOTO]);
    p.SearchClick(Received(true, Body(true, None, None, None)));
  }

  /**
   * An upload of `img.png` described as "blue backpack" that succeeds
   * clears the candidate and its description and asks for the list again.
   */
  method UploadClearsAndReloads(buttonText: string) returns (p: AdminPage.Page)
    ensures p.selected == None && p.info == "" && p.uploadAreaShown && !p.previewShown
    ensures !p.uploadDisabled && p.uploadLabel == buttonText && p.success == Some(UPLOAD_OK)
    ensures p.sent == [ListRequest, UploadRequest(File("img.png", "image/png"), "blue backpack"), ListRequest]
  {
    p := new AdminPage.Page(buttonText);
    p.FilePicked([File("img.png", "image/png")]);
    p.EditInfo("blue backpack");
    var requested := p.BeginUpload();
    p.FinishUpload(Received(true, Body(true, None, None, None)));
  }

  /**
   * A confirmed delete of entry 7 that the service refuses with "not
   * found" alerts the prefixed text and leaves entry 7's card in the grid.
   */
  method RefusedDeleteKeepsCard(buttonText: string, entry: ImageRecord) returns (p: AdminPage.Page)
    requires entry.id == 7
    ensures p.alert == Some(DELETE_REFUSED + "not found") && p.success == None
    ensures p.grid == [CardItem(CardFor(entry, true))] && p.grid[0].card.deleteId == Some(7)
    ensures p.sent == [ListRequest, DeleteRequest(7)]
  {
    p := new AdminPage.Page(buttonText);
    p.FinishList(Received(true, Body(true, None, None, Some([entry]))));
    p.DeleteClick(7, true);
    p.FinishDelete(Received(false, Body(false, None, Some("not found"), None)));
  }

  /**
   * A reply that arrives after the user picked another file is shown anyway:
   * the result section describes the first file's match while the preview
   * holds the second.
   */
  method StaleReplyShown(initial: SearchPage.ResultPanel, other: File, id: int, uuid: string) returns (p: SearchPage.Page)
    requires IsImage(other)
    ensures p.selected == Some(other) && p.preview == Some(other)
    ensures p.resultShown && p.panel.filename == "a.jpg"
    ensures p.sent == [SearchRequest(PHOTO)] && p.pending == 0
  {
    p := new SearchPage.Page(initial);
    p.FilePicked([PHOTO]);
    var requested := p.BeginSearch();
    p.FilePicked([other]);
    p.FinishSearch(WalletMatch(id, uuid));
  }

  /** Nothing disables the search button: a second click before the reply sends a second search. */
  method SearchTwiceBeforeReply(initial: SearchPage.ResultPanel) returns (p: SearchPage.Page)
    ensures p.sent == [SearchRequest(PHOTO), SearchRequest(PHOTO)] && p.pending == 2 && p.loading
  {
    p := new SearchPage.Page(initial);
    p.FilePicked([PHOTO]);
    var first := p.BeginSearch();
    var second := p.BeginSearch();
  }

  /**
   * The upload button is disabled while its upload is outstanding, so a
   * second upload needs the first reply; the delete button works meanwhile.
   */
  method DeleteDuringUpload(buttonText: string) returns (p: AdminPage.Page)
    ensures p.uploadDisabled && p.uploadLabel == BUSY_LABEL && p.loading
    ensures p.sent == [ListRequest, UploadRequest(PHOTO, ""), DeleteRequest(3), ListRequest]
    ensures p.success == Some(DELETE_OK) && p.selected == Some(PHOTO)
  {
    p := new AdminPage.Page(buttonText);
    p.FilePicked([PHOTO]);
    var requested := p.BeginUpload();
    p.DeleteClick(3, true);
    p.FinishDelete(Received(true, Body(true, None, None, None)));
  }
}
