# Lost-and-found image search, modelled in Dafny

The system is a small lost-and-found service. An administrator on the local
machine uploads photos of found items, each with a description. Anyone can
upload a photo of a lost item and get back the most similar photo in the
catalogue. There are two sides:

- **The Flask service** (`app.py`, `ai_engine.py`) checks the upload: is
  there a file, does it have a name, is its extension whitelisted. It keeps
  admin routes to requests whose client address is `127.0.0.1`. It stores
  files as `<uuid>.<lower-cased extension>` and picks the catalogue row with
  the best clamped cosine score.
- **Two browser pages** (`static/js/index.js` for search, `static/js/admin.js`
  for upload, list and delete). `static/js/main.js` is an older
  script that holds both pages' logic, each half guarded by an element only
  that page has (`static/js/main.js:63`, `static/js/main.js:202`). Each page keeps one candidate file, a
  few visibility flags, a loading flag, the last error or success text and,
  on the admin page, a grid of catalogue cards. Each page reads the
  service's JSON replies through a fixed ladder of checks.

The model has one module per part:

| module | models |
|---|---|
| `Text` | the string built-ins the code relies on: JavaScript `split`/`pop`, Python `rsplit(sep, 1)`, `split(',')[0]`, `strip`, `lower` |
| `Protocol` | the browser's `File`, catalogue records, JSON bodies, and what `fetch` plus `response.json()` yields |
| `Similarity` | `calculate_similarity`'s clamp and the argmax loop of `find_most_similar` |
| `Server` | `allowed_file`, `get_client_ip`, `admin_only`, the validation ladder, the stored name, and the upload, search and delete routes over a `Catalogue` class (rows, files on disk, next id) |
| `Client` | the decisions the pages share: the reply ladders, the tiers, cards and asset URLs |
| `SearchPage` | `index.js`, as a class whose methods are its handlers |
| `AdminPage` | `admin.js`, likewise |
| `LegacyPages` | `main.js`'s two drifted copies, as two classes |
| `Agreement` | lemmas joining the two sides: the client's URL is the service's stored name, and each service answer reads on the page as that kind of outcome |
| `Scenarios` | whole interactions driven through the page classes |

Every `await` splits a handler in two. A `Begin…` or `…Click` method runs up
to the request and appends it to the page's `sent` log. A `Finish…` method
applies a reply. A composite `…Click` method runs both halves, for the case
where the reply comes back before anything else happens. The cosine
similarity is a parameter: any real-valued function of two vectors. How the
page derives its URL and how the service names the file are proved equal
(`Agreement.CardUrlIsStoredFile`).

Passing validation does not guarantee that an upload can be stored. The
stored name is taken from the `secure_filename` result, not from the name
that was validated, and `secure_filename` can drop the dot (a name such as
`..png` or one made only of non-ASCII letters before the dot). Then
`rsplit('.', 1)[1]` raises `IndexError` and the route answers 500;
`Server.Catalogue.Upload` models that path. Only the search's temporary
name is guaranteed by validation (`Server.ValidatedFileHasTempName`).

### Behaviour worth knowing

- **Outstanding requests.** Only `admin.js` disables its upload button
  while an upload is outstanding (`static/js/admin.js:124-131`). The search
  button of `index.js` and `main.js`, and the upload button of `main.js`,
  can fire again before the reply arrives
  (`Scenarios.SearchTwiceBeforeReply`,
  `LegacyPages.AdminScreen.DoubleUploadClick`).
- **Replacing the result.** Showing a search result writes the date only
  when `created_at` is truthy (`static/js/index.js:119-123`), so a date from
  an earlier result can survive. `main.js` never sets the score colour
  (`SearchPage.DisplayReplacesAllButDate`, `LegacyPages.PlainLacksOnlyTier`).
- **Refused delete.** `admin.js` reports a refused delete with `alert`,
  prefixed by "刪除失敗: ", and not in the page's error banner
  (`static/js/admin.js:184-186`, `Scenarios.RefusedDeleteKeepsCard`).
- **Delete button.** The cards `main.js` builds have no delete button
  (`Client.CardFor` with `deletable == false`).
- **Score text.** `index.js` writes `${similarity}% ${message}`, and every
  tier label starts with a space, so there are two spaces between the `%`
  and the label (`Scenarios.SearchFindsWallet`).

## Model

| member | source | states |
|---|---|---|
| `Similarity.Clamp` | ai_engine.py:114 | the result always lies in [0, 1]; it is the input itself inside that interval, 0 below it and 1 above it |
| `Similarity.CalculateSimilarity` | ai_engine.py:95-116 | whatever the cosine returns, the similarity lies in [0, 1] |
| `Similarity.FindMostSimilar` | ai_engine.py:118-141 | no candidates gives `(None, 0.0)`; otherwise the id is some candidate's id, and its score is at least every candidate's score and above every earlier one (first maximum); the id is absent exactly when there are no candidates |
| `Similarity.FirstMaxUnique` | ai_engine.py:137 | with the strict `>`, a list of scores has only one first maximum, so the winner on ties is determined |
| `Text.Split` | static/js/admin.js:44 | at least one part; no part contains the separator; one part exactly when the separator is absent, and then that part is the whole string |
| `Text.JoinSplit` | app.py:36 | splitting loses nothing: joining the parts with the separator gives back the string |
| `Text.RSplitOnce` | app.py:28 | two parts exactly when the separator occurs |
| `Text.LastPartIsTail` | static/js/admin.js:44 | `split(sep).pop()` is the separator-free suffix that follows the last separator, or the whole string when there is none |
| `Text.LastPartAgreesWithRSplit` | static/js/admin.js:44 | JavaScript's `split('.').pop()` and Python's `rsplit('.', 1)[1]` take the same text whenever there is a dot |
| `Text.FirstPart` | app.py:36 | `split(',')[0]` contains no comma, and is the whole string when there is none |
| `Text.FirstPartIsHead` | app.py:36 | `split(',')[0]` is the prefix of the string up to its first comma, or the whole string |
| `Text.FirstPartOfPrefix` | app.py:36 | `split(',')[0]` of `a + "," + rest` is `a` when `a` has no comma |
| `Text.Lower` | app.py:28 | same length; each character is lower-cased on its own |
| `Text.Strip` | app.py:36 | the result is a slice of the input with only whitespace before and after it, and no whitespace at either end of its own |
| `Text.StripPadded` | app.py:36 | stripping any whitespace-padded text gives back exactly the text between the padding |
| `Protocol.Deliver` | app.py:255-258 | an assumption about the browser, not code of the system: the page receives a parsed body exactly when the service answered JSON, that body unchanged and `ok` exactly for a 2xx status; the HTML page of `abort(403)` makes `response.json()` throw with the parse-error text |
| `Protocol.Or` | static/js/index.js:81 | JavaScript's `s \|\| fallback`: the text when it is truthy, else the fallback; empty only when both are |
| `Server.ExtensionOf` | app.py:28 | present exactly when the name has a dot, and then it is a dot-free tail that follows a dot |
| `Server.ExtensionUnique` | app.py:28 | a dot-free tail after a dot is always the extension `rsplit` takes |
| `Server.AllowedFile` | app.py:25-29 | holds exactly when the name has an extension whose lower-cased form is png, jpg, jpeg, gif, bmp or webp |
| `Server.UpperCaseExtensionAllowed` | app.py:28 | `photo.JPG` is allowed |
| `Server.InnerExtensionIgnored` | app.py:28 | `image.png.exe` is refused: only the last extension counts |
| `Server.StoredName` | app.py:91-94 | present exactly when the name has a dot, and then it is `<uuid>.<lower-cased extension>` |
| `Server.ClientIp` | app.py:32-41 | a truthy `X-Forwarded-For` gives a comma-free, whitespace-trimmed address; otherwise a truthy `X-Real-IP` verbatim; otherwise the peer address |
| `Server.FirstForwardedEntryWins` | app.py:35-36 | for any header, padded first entry plus the rest from its first comma on, the address is that entry without its padding; `X-Real-IP` and the peer are ignored |
| `Server.AdminGate` | app.py:44-53 | with a truthy `X-Forwarded-For`, the request passes exactly when its stripped first entry is 127.0.0.1; else with a truthy `X-Real-IP`, exactly when that is 127.0.0.1; else exactly when the peer is |
| `Server.AdminGateDirect` | app.py:44-53 | without proxy headers, a request passes the gate exactly when its peer is 127.0.0.1 |
| `Server.ForwardedForPassesGate` | app.py:35-36 | any client that sends `X-Forwarded-For: 127.0.0.1,…`, padded or not, passes the gate |
| `Server.ForeignForwardedForRefused` | app.py:35-36 | a single forwarded address other than 127.0.0.1 is refused whatever the peer is |
| `Server.ValidateFile` | app.py:78-88 | checks in order: no file part, then an empty name, then a refused extension, each a 400 with its message; passes exactly when all three hold |
| `Server.ValidatedFileHasTempName` | app.py:160-165 | a search file that passes the checks has an extension, so its temporary name `temp_<uuid>.<ext>` exists |
| `Server.ErrorReply` | app.py:154 | the error answer: the given status, `success` false, only `error` set to the message |
| `Server.NoResultReply` | app.py:185-190 | a 200 answer, `success` true, the message, `data: null` |
| `Server.MatchReply` | app.py:213-221 | a 200 successful answer with "搜尋完成", the score, the row's public fields, and the URL of its stored file |
| `Server.FindRow` | app.py:210-211 | absent exactly when no row has the id; otherwise the first row with it |
| `Server.CollectCandidates` | app.py:193-196 | the loop gathers every row's `(id, vector)` pair in table order |
| `Server.FindRowOfValid` | app.py:210-211 | in a table with unique ids, looking up row k's id finds row k |
| `Server.AppendKeepsValid` | app.py:111-121 | adding a row with the next id and a dotted name keeps ids unique and names dotted |
| `Server.RemoveKeepsValid` | app.py:285-286 | deleting a row keeps ids unique and names dotted |
| `Server.Catalogue.AddRow` | app.py:111-121 | the row is appended and the id counter advances; the table stays valid |
| `Server.Catalogue.DropRow` | app.py:285-286 | exactly that row leaves the table; the table stays valid |
| `Server.Catalogue.Store` | app.py:97-139 | the saved file is removed again when extraction or the commit fails, with the table unchanged; otherwise the file stays and a row is added; the reply says which |
| `Server.Catalogue.Upload` | app.py:69-142 | 403 page unless the gate passes; validation errors and a sanitised name without a dot change nothing; the rest as in `Store`, with a missing `info` stored as empty |
| `Server.Catalogue.Search` | app.py:145-229 | the validation ladder, the extraction failure, `data: null` for an empty table, otherwise the first best-scoring row with its URL; the "no similar image" answer never occurs |
| `Server.Catalogue.Delete` | app.py:263-292 | 403 page unless the gate passes; an unknown id is a 404 that changes nothing; otherwise the file is removed unless removal fails, and the row goes exactly when the commit succeeds |
| `Client.RequestFailure` | static/js/index.js:81-82 | success exactly when the reply arrived with a 2xx status and `success`; an exception keeps its message; a non-2xx status reads `error`; a failing 2xx reads `message`; both fall back |
| `Client.RequestFailureReadsOneField` | static/js/admin.js:151-152 | a non-2xx reply's text never depends on `message`, and an unsuccessful 2xx reply's text never depends on `error` |
| `Client.ClassifySearch` | static/js/index.js:81-90 | failures as in `RequestFailure` with "搜尋失敗"; then a missing `data` or `data.image` is "no match"; otherwise the result, which has an image |
| `Client.SearchFoundExactly` | static/js/index.js:81-89 | a result is shown exactly when the reply is 2xx, successful and carries both `data` and `data.image` |
| `Client.ClassifyUpload` | static/js/admin.js:151-152 | success exactly when the reply is 2xx and successful; otherwise the shared ladder's message with "上傳失敗" |
| `Client.ClassifyList` | static/js/admin.js:73-83 | an exception keeps its message; non-2xx or no `success` gives "載入圖像列表失敗"; entries exactly when a successful 2xx reply has `data`; the missing-`data` failure exactly when it lacks it |
| `Client.ClassifyDelete` | static/js/admin.js:174-190 | deleted exactly when the reply parsed and `success` holds; crashed exactly when it threw; otherwise "刪除失敗: " plus `error` or "未知錯誤" |
| `Client.DeleteIgnoresStatus` | static/js/admin.js:181 | the HTTP status never changes how a delete reply is read |
| `Client.TierOf` | static/js/index.js:101-111 | high exactly above 0.85, possible exactly in (0.6, 0.85], low exactly at or below 0.6 |
| `Client.TierPresentation` | static/js/index.js:101-111 | by interval, the label and colour the score line gets: "(高度符合！)" green, "(可能是這個)" yellow, "(相似度低)" red |
| `Client.TierMonotone` | static/js/index.js:101-111 | a higher score never gets a lower tier |
| `Client.TierBoundaries` | static/js/index.js:101-105 | 0.86 is high, 0.85 possible, 0.61 possible, 0.6 and 0.59 low |
| `Client.ImageTypesRecognised` | static/js/index.js:38 | the image test is a case-sensitive prefix test on the media type: `image/png` and `image/heic` pass; `application/pdf`, `Image/png`, `image` and `text/image/png` do not |
| `Client.Description` | static/js/admin.js:56 | the description itself when it is truthy, otherwise "無描述"; so never empty |
| `Client.UrlExtension` | static/js/admin.js:44 | the lower-cased dot-free tail of the name that follows its last dot, or the whole name lower-cased when there is no dot |
| `Client.AssetUrl` | static/js/admin.js:44-45 | the uploads path, the entry's uuid, a dot, then the page's extension of the name |
| `Client.CardFor` | static/js/admin.js:40-67 | the card shows the asset URL, the name, the description and the entry's `created_at` as its date; its delete button, on the newer page only, targets the entry's id |
| `Client.CardsOf` | static/js/admin.js:89-92 | exactly one card per entry, in server order |
| `SearchPage.DisplayReplacesAllButDate` | static/js/index.js:97-127 | showing a result determines every field of the panel, except that a match without `created_at` keeps the previous date |
| `SearchPage.Page.constructor` | static/js/index.js:7-13 | nothing selected, only the upload area shown, nothing sent |
| `SearchPage.Page.HandleFileSelect` | static/js/index.js:37-48 | a non-image sets "請選擇圖像檔案" and changes nothing else; an image becomes the only candidate, hides the upload area and any stale result, and shows the preview |
| `SearchPage.Page.FilePicked` | static/js/index.js:33-35 | the input holds the picked files; only the first one, if any, is proposed: an image becomes the candidate as in `HandleFileSelect`, a non-image only sets the error and leaves preview and result as they were |
| `SearchPage.Page.FileDropped` | static/js/index.js:26-31 | only the first dropped file, if any, is proposed, with the same two outcomes as a pick |
| `SearchPage.Page.Cancel` | static/js/index.js:50-56 | no candidate, empty input, upload area shown, preview and result hidden |
| `SearchPage.Page.BeginSearch` | static/js/index.js:58-74 | without a candidate, "請先選擇圖像" and no request; with one, loading on, result hidden, and exactly one search of that candidate sent |
| `SearchPage.Page.DisplaySearchResult` | static/js/index.js:97-127 | result shown, with the score, tier label and colour, image, name, description or placeholder, and the date only when `created_at` is truthy |
| `SearchPage.Page.FinishSearch` | static/js/index.js:79-94 | loading ends off on every path and the candidate survives; a failure or "no match" shows its message and leaves the result hidden; a match is displayed |
| `SearchPage.Page.SearchClick` | static/js/index.js:58-95 | the whole click: one search sent, loading off at the end, candidate kept, result shown exactly on a match, with what each outcome shows |
| `AdminPage.GridAfter` | static/js/admin.js:69-97 | after a list load, the grid is one "無法載入列表" message on any failure, one placeholder for an empty list, otherwise one deletable card per entry |
| `AdminPage.Page.constructor` | static/js/admin.js:2-15 | nothing selected, button enabled with its label, and the first list request sent |
| `AdminPage.Page.HandleFileSelect` | static/js/admin.js:99-108 | a non-image sets the error and changes nothing else; an image becomes the only candidate, hides the upload area and shows the preview |
| `AdminPage.Page.FilePicked` | static/js/admin.js:35-37 | the input holds the picked files; only the first one, if any, is proposed; an image becomes the candidate and shows its preview with the error left as it was, a non-image only sets the error |
| `AdminPage.Page.FileDropped` | static/js/admin.js:28-33 | only the first dropped file, if any, is proposed; an image becomes the candidate and shows its preview with the error left as it was, a non-image only sets the error |
| `AdminPage.Page.EditInfo` | static/js/admin.js:128 | the description is what was typed, and it is what the next upload sends |
| `AdminPage.Page.Cancel` | static/js/admin.js:110-116 | no candidate, empty input and description, upload area shown, preview hidden |
| `AdminPage.Page.RequestList` | static/js/admin.js:69-74 | one list request sent |
| `AdminPage.Page.FinishList` | static/js/admin.js:75-96 | the loop rebuilds the grid from nothing: exactly the grid `GridAfter` gives for the reply, whatever was there before |
| `AdminPage.Page.BeginUpload` | static/js/admin.js:118-128 | without a candidate, an error, the button untouched and no request; with one, the button disabled and relabelled "上傳中..." (old label kept), loading on, and one upload of the candidate with its description |
| `AdminPage.Page.FinishUpload` | static/js/admin.js:128-168 | the button is enabled again with its saved label and loading is off on every path; success clears candidate, input and description and reloads the list; failure shows the ladder's message and keeps the candidate |
| `AdminPage.Page.UploadClick` | static/js/admin.js:118-132 | the whole click: the button ends enabled with its original label; the candidate is cleared exactly on success |
| `AdminPage.Page.DeleteClick` | static/js/admin.js:171-177 | nothing is sent unless confirmed; then one delete of that id |
| `AdminPage.Page.FinishDelete` | static/js/admin.js:179-190 | success shows "刪除成功" and reloads the list; a refusal or an exception only alerts; the grid is never touched |
| `LegacyPages.PlainLacksOnlyTier` | static/js/main.js:183-197 | the older display differs from the newer only in the score line's tier label and colour; the colour is left as it was |
| `LegacyPages.SearchScreen.constructor` | static/js/main.js:63-70 | nothing selected, only the upload area shown, nothing sent |
| `LegacyPages.SearchScreen.HandleFileSelect` | static/js/main.js:107-117 | as on the newer page, except that a visible result stays visible |
| `LegacyPages.SearchScreen.FilePicked` | static/js/main.js:98-102 | only the first picked file, if any, is proposed; an image becomes the candidate and shows its preview with the error left as it was, a non-image only sets the error |
| `LegacyPages.SearchScreen.FileDropped` | static/js/main.js:87-95 | only the first dropped file, if any, is proposed; an image becomes the candidate and shows its preview with the error left as it was, a non-image only sets the error |
| `LegacyPages.SearchScreen.Cancel` | static/js/main.js:120-126 | no candidate, empty input, upload area shown, preview and result hidden |
| `LegacyPages.SearchScreen.BeginSearch` | static/js/main.js:129-152 | without a candidate, an error and no request; with one, loading on, result hidden, one search sent |
| `LegacyPages.SearchScreen.DisplaySearchResult` | static/js/main.js:183-197 | result shown with the bare percentage, the colour as it was, name, description or placeholder, and the date only when truthy |
| `LegacyPages.SearchScreen.FinishSearch` | static/js/main.js:154-177 | the same four-way ladder as the newer page; loading off on every path |
| `LegacyPages.SearchScreen.SearchClick` | static/js/main.js:129-178 | the whole click, as on the newer page, with the plainer display |
| `LegacyPages.AdminScreen.constructor` | static/js/main.js:202-210 | nothing selected and the list request of page load sent |
| `LegacyPages.AdminScreen.HandleFileSelect` | static/js/main.js:247-257 | a non-image sets the error and changes nothing else; an image becomes the only candidate |
| `LegacyPages.AdminScreen.FilePicked` | static/js/main.js:238-242 | only the first picked file, if any, is proposed; an image becomes the candidate and shows its preview with the error left as it was, a non-image only sets the error |
| `LegacyPages.AdminScreen.FileDropped` | static/js/main.js:227-235 | only the first dropped file, if any, is proposed; an image becomes the candidate and shows its preview with the error left as it was, a non-image only sets the error |
| `LegacyPages.AdminScreen.EditInfo` | static/js/main.js:275 | the description is what was typed |
| `LegacyPages.AdminScreen.Cancel` | static/js/main.js:260-266 | no candidate, empty input and description, upload area shown |
| `LegacyPages.AdminScreen.RequestList` | static/js/main.js:331-336 | one list request sent |
| `LegacyPages.AdminScreen.FinishList` | static/js/main.js:337-357 | a failed request only shows its error and keeps the grid; a body without `data` leaves an emptied grid and the engine's error text; otherwise one delete-less card per entry, or the "尚無上傳的圖像" placeholder |
| `LegacyPages.AdminScreen.BeginUpload` | static/js/main.js:269-297 | without a candidate, an error and no request; with one, loading on and one upload sent; nothing is disabled |
| `LegacyPages.AdminScreen.FinishUpload` | static/js/main.js:299-325 | loading off on every path; success clears the form and reloads the list; failure keeps the candidate |
| `LegacyPages.AdminScreen.DoubleUploadClick` | static/js/main.js:269-276 | two clicks before a reply send the same upload twice |
| `Agreement.CardUrlIsStoredFile` | static/js/admin.js:44-45 | for a dotted name, the card's URL is the uploads path plus the service's stored name, and it is the URL a search reports |
| `Agreement.StoredNameUsesUrlExtension` | app.py:93 | the service's stored name uses the same extension the page derives |
| `Agreement.CatalogueUrlsAgree` | static/js/main.js:367-368 | every row a valid catalogue holds has its card URL equal to its stored file |
| `Agreement.ErrorShownVerbatim` | static/js/index.js:81 | a JSON error with a failing status and text reaches search and upload as a failure with exactly that text |
| `Agreement.ValidationErrorShownVerbatim` | app.py:153-162 | each validation refusal shows the service's own message on the page |
| `Agreement.NoResultIsNoMatch` | app.py:185-190 | the empty-catalogue answer reads as "no match", not as a failure |
| `Agreement.MatchIsFound` | app.py:213-221 | a match answer reads as found, with the score, the stored file's URL and the row's public fields |
| `Agreement.ForbiddenReadsAsException` | app.py:255-258 | a refused admin call reaches upload and list as the parse error, and delete as the crash alert |
| `Agreement.UploadReplyRead` | app.py:123-132 | the successful upload answer reads as success |
| `Agreement.DeleteRepliesRead` | app.py:270-290 | the delete answers read as deleted, as "刪除失敗: 找不到圖像", and as the commit error or "未知錯誤" |
| `Scenarios.SearchFindsWallet` | static/js/index.js:97-113 | a 0.91 match shows 91%, the high tier in green, and the match's name, description and image |
| `Scenarios.SearchFindsNothing` | static/js/index.js:83-87 | `data: null` shows the no-match message and keeps the candidate and preview |
| `Scenarios.UploadClearsAndReloads` | static/js/admin.js:154-163 | a successful upload clears the form, restores the button and asks for the list again |
| `Scenarios.RefusedDeleteKeepsCard` | static/js/admin.js:184-186 | a refused delete of entry 7 alerts the prefixed text and keeps entry 7's card |
| `Scenarios.StaleReplyShown` | static/js/index.js:58-64 | a reply arriving after another file was picked is displayed next to the new preview |
| `Scenarios.SearchTwiceBeforeReply` | static/js/index.js:58-64 | two clicks before a reply send two searches |
| `Scenarios.DeleteDuringUpload` | static/js/admin.js:171-183 | a delete completes while an upload is outstanding, leaving the busy button and the candidate alone |

## Left out

- Feature extraction (`extract_features`, `load_model`, `get_device`) and the cosine computation are library numerics. The cosine is a parameter, and extraction enters as an `Extracted(vector)` or `ExtractionFailed(reason)` input.
- Real numbers stand in for floating point. NaN scores, `round(similarity, 4)`, `toFixed(2)` and `toLocaleString` formatting are not modelled: the score text holds the unrounded percentage, and a date is kept as the server's text. The page picks the tier from the score the service rounded to four places, while the model passes the raw score: next to the 0.85 and 0.6 thresholds the two can differ (a raw 0.85004 reaches the page as 0.85 and reads "(可能是這個)", where the model shows the high tier).
- `Text.Lower`: lower-cases ASCII letters only; both `str.lower` and `toLowerCase` also fold other scripts.
- `secure_filename`, `uuid.uuid4()` and `datetime.utcnow()` are inputs to `Upload`: the sanitised name, the uuid and the timestamp.
- SQLAlchemy sessions, rollback and id assignment are reduced to a row sequence with a next-id counter. SQLite's reuse of deleted top ids is not modelled. Only `db.commit()` failures are inputs.
- `file.save`, `os.path.exists` and `os.remove` are a set of names on disk. Whether removal fails on delete is an input. The temporary file of a search is not modelled, since it is always removed.
- The `list_images` route and its `created_at` ordering are not modelled. The pages take the entries in whatever order the reply has.
- The `index` and `admin` page routes, `send_from_directory`, the 16 MB upload limit and Flask's routing are not modelled.
- Exceptions the route handlers catch broadly (a failing disk, a broken session) are not modelled as inputs, except those named above.
- Which reply answers which request: the pages have no correlation, so a `Finish…` method takes any reply. The model does not track which response belongs to which request.
- The initial visibility of the page sections (only the upload area shown at load) comes from the pages' HTML and CSS, which are not part of this model; the constructors take it as given.
- The DOM is reduced to fields; drag-over styling, `scrollIntoView`, the timers that hide messages and the HTML of cards are not modelled. `previewImage`'s asynchronous `FileReader` is a `preview` field set at once.
- `LegacyPages.AdminScreen.FinishList`: the text of the `TypeError` thrown by `data.data.length` depends on the script engine, so it is a parameter.
