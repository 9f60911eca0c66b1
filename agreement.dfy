/**
 * How the two sides fit together: the URL a page derives for a catalogue
 * entry is the one the service stores the file under and reports in a
 * search, and each kind of answer the routes give is read by the pages as
 * that kind of outcome.
 */
module Agreement {
  import opened Wrappers
  import opened Text
  import opened Protocol
  import opened Server
  import opened Client

  /**
   * For every row the service can hold, the card's URL, built with
   * JavaScript's `split` and `pop`, is the service's stored name, built
   * with Python's `rsplit`, under the uploads path; and it is the URL a
   * search reports for that row.
   */
  lemma CardUrlIsStoredFile(row: Row, score: real)
    requires '.' in row.filename
    ensures AssetUrl(ToDict(row)) == UPLOADS_URL + StoredName(row.uuid, row.filename).value
    ensures MatchReply(row, score).body.data.value.imageUrl == AssetUrl(ToDict(row))
  {
    StoredNameUsesUrlExtension(row.uuid, row.filename);
    assert UPLOADS_PATH == UPLOADS_URL;
  }

  /** Both sides take the same extension from a dotted name. */
  lemma StoredNameUsesUrlExtension(fileUuid: string, filename: string)
    requires '.' in filename
    ensures StoredName(fileUuid, filename) == Some(fileUuid + "." + UrlExtension(filename))
  {
    LastPartAgreesWithRSplit(filename, '.');
  }

  /** Every row of a valid catalogue qualifies. */
  lemma CatalogueUrlsAgree(rows: seq<Row>, nextId: int, i: nat)
    requires RowsValid(rows, nextId) && i < |rows|
    ensures AssetUrl(ToDict(rows[i])) == UPLOADS_URL + StoredName(rows[i].uuid, rows[i].filename).value
  {
    CardUrlIsStoredFile(rows[i], 0.0);
  }

  /**
   * A JSON error with a failing status and a non-empty message reaches the
   * search and upload pages as a failure carrying exactly that message,
   * whatever the parse-error text.
   */
  lemma ErrorShownVerbatim(e: ApiError, parseError: string)
    requires !IsOk(e.status) && e.message != ""
    ensures ClassifySearch(Deliver(ErrorReply(e), parseError)) == SearchFailed(e.message)
    ensures ClassifyUpload(Deliver(ErrorReply(e), parseError)) == UploadFailed(e.message)
  {
  }

  /** Whatever the three checks reject, the page shows the service's own message. */
  lemma ValidationErrorShownVerbatim(part: Option<FilePart>, parseError: string)
    requires ValidateFile(part).Some?
    ensures ClassifySearch(Deliver(ErrorReply(ValidateFile(part).value), parseError)) ==
      SearchFailed(ValidateFile(part).value.message)
    ensures ClassifyUpload(Deliver(ErrorReply(ValidateFile(part).value), parseError)) ==
      UploadFailed(ValidateFile(part).value.message)
  {
    ErrorShownVerbatim(ValidateFile(part).value, parseError);
  }

  /** A search of an empty catalogue, or any other 200 without `data`, is "no match", not a failure. */
  lemma NoResultIsNoMatch(message: string, parseError: string)
    ensures ClassifySearch(Deliver(NoResultReply(message), parseError)) == NoMatch
  {
  }

  /** A match is shown with its score, the stored file's URL and the row's public fields. */
  lemma MatchIsFound(row: Row, score: real, parseError: string)
    requires '.' in row.filename
    ensures ClassifySearch(Deliver(MatchReply(row, score), parseError)) ==
      Found(SearchData(score, AssetUrl(ToDict(row)), Some(ToDict(row))))
  {
    CardUrlIsStoredFile(row, score);
  }

  /**
   * The HTML page of a refused admin call is not JSON: the upload shows the
   * parse error, the list shows it too (and the newer page its fixed
   * message), and a delete only alerts.
   */
  lemma ForbiddenReadsAsException(parseError: string)
    ensures ClassifyUpload(Deliver(ForbiddenPage, parseError)) == UploadFailed(parseError)
    ensures ClassifyList(Deliver(ForbiddenPage, parseError)) == ListFailed(parseError)
    ensures ClassifyDelete(Deliver(ForbiddenPage, parseError)) == DeleteCrashed
  {
  }

  /** A successful upload reads as success on both admin pages. */
  lemma UploadReplyRead(record: ImageRecord, parseError: string)
    ensures ClassifyUpload(Deliver(Json(200, Body(true, Some(UPLOADED), None, Some(record))), parseError)) == Uploaded
  {
  }

  /**
   * The delete route's answers as the admin page reads them: success, the
   * 404 with its message, and a failed commit (with the placeholder
   * when the database gave no text).
   */
  lemma DeleteRepliesRead(reason: string, parseError: string)
    ensures ClassifyDelete(Deliver<()>(Json(200, Body(true, Some(DELETED), None, None)), parseError)) == Deleted
    ensures ClassifyDelete(Deliver(ErrorReply<()>(ApiError(404, NOT_FOUND)), parseError)) ==
      DeleteRefused(DELETE_REFUSED + NOT_FOUND)
    ensures ClassifyDelete(Deliver(ErrorReply<()>(ApiError(500, reason)), parseError)) ==
      DeleteRefused(DELETE_REFUSED + (if reason == "" then UNKNOWN_ERROR else reason))
  {
  }
}
