/**
 * Decisions both pages make, and their older copy too: whether a proposed
 * file is an image, how a reply is read (the outcome ladders), the
 * similarity tiers, and what a catalogue card shows.
 */
module Client {
  import opened Wrappers
  import opened Text
  import opened Protocol

  const NOT_AN_IMAGE := "請選擇圖像檔案"
  const NO_CANDIDATE := "請先選擇圖像"
  const SEARCH_FAILED := "搜尋失敗"
  const NO_MATCH := "資料庫中沒有找到相似的圖像"
  const NO_DESCRIPTION := "無描述"
  const UPLOAD_FAILED := "上傳失敗"
  const UPLOAD_OK := "圖像上傳成功！"
  const BUSY_LABEL := "上傳中..."
  const LIST_FAILED := "載入圖像列表失敗"
  const DELETE_OK := "刪除成功"
  const DELETE_REFUSED := "刪除失敗: "
  const UNKNOWN_ERROR := "未知錯誤"
  const DELETE_CRASHED := "刪除時發生錯誤"
  const UPLOADS_PATH := "/static/uploads/"

  /** `file.type.startsWith("image/")`. */
  predicate IsImage(f: File) {
    StartsWith(f.mediaType, "image/")
  }

  /** The test is a case-sensitive prefix test: no `image/` subtype is refused, nothing else passes. */
  lemma ImageTypesRecognised()
    ensures IsImage(File("a.png", "image/png")) && IsImage(File("a.heic", "image/heic"))
    ensures !IsImage(File("a.pdf", "application/pdf")) && !IsImage(File("a.png", "Image/png"))
    ensures !IsImage(File("a", "image")) && !IsImage(File("a", "text/image/png"))
  {
    assert "application/pdf"[..6][0] == 'a';
    assert "Image/png"[..6][0] == 'I';
  }

  // ------------------------------------------------------------ outcome ladders

  /**
   * The first two rungs every submission shares: an exception keeps its own
   * message; a non-2xx status gives `data.error`; a 2xx status without
   * `success` gives `data.message`; either falls back to `fallback`.
   * `None` means the request succeeded.
   */
  function RequestFailure<D>(r: Reply<D>, fallback: string): (m: Option<string>)
    ensures m.None? <==> r.Received? && r.ok && r.body.success
    ensures r.Thrown? ==> m == Some(r.message)
    ensures r.Received? && !r.ok ==> m == Some(Or(r.body.error, fallback))
    ensures r.Received? && r.ok && !r.body.success ==> m == Some(Or(r.body.message, fallback))
  {
    match r
    case Thrown(message) => Some(message)
    case Received(ok, body) =>
      if !ok then Some(Or(body.error, fallback))
      else if !body.success then Some(Or(body.message, fallback))
      else None
  }

  /** A status error never reads `message`, and an unsuccessful 2xx body never reads `error`. */
  lemma RequestFailureReadsOneField<D>(b: Body<D>, fallback: string, text: Option<string>)
    ensures RequestFailure(Received(false, b), fallback) == RequestFailure(Received(false, b.(message := text)), fallback)
    ensures !b.success ==>
      RequestFailure(Received(true, b), fallback) == RequestFailure(Received(true, b.(error := text)), fallback)
  {
  }

  datatype SearchOutcome = SearchFailed(message: string) | NoMatch | Found(result: SearchData)

  /** The search ladder: failure, then a missing `data` or `data.image` as "no match", then the result. */
  function ClassifySearch(r: Reply<SearchData>): (o: SearchOutcome)
    ensures o.SearchFailed? <==> RequestFailure(r, SEARCH_FAILED).Some?
    ensures o.SearchFailed? ==> Some(o.message) == RequestFailure(r, SEARCH_FAILED)
    ensures o.NoMatch? <==>
      RequestFailure(r, SEARCH_FAILED).None? && (r.body.data.None? || r.body.data.value.image.None?)
    ensures o.Found? ==> r.Received? && r.body.data == Some(o.result) && o.result.image.Some?
  {
    match RequestFailure(r, SEARCH_FAILED)
    case Some(message) => SearchFailed(message)
    case None =>
      if r.body.data.None? || r.body.data.value.image.None? then NoMatch
      else Found(r.body.data.value)
  }

  /** An ok reply is shown only when it carries both `data` and `data.image`. */
  lemma SearchFoundExactly(r: Reply<SearchData>)
    ensures ClassifySearch(r).Found? <==>
      r.Received? && r.ok && r.body.success && r.body.data.Some? && r.body.data.value.image.Some?
  {
  }

  datatype UploadOutcome = UploadFailed(message: string) | Uploaded

  /** The upload ladder: the shared rungs with the upload fallback. */
  function ClassifyUpload(r: Reply<ImageRecord>): (o: UploadOutcome)
    ensures o.Uploaded? <==> r.Received? && r.ok && r.body.success
    ensures o.UploadFailed? ==> Some(o.message) == RequestFailure(r, UPLOAD_FAILED)
  {
    match RequestFailure(r, UPLOAD_FAILED)
    case Some(message) => UploadFailed(message)
    case None => Uploaded
  }

  datatype ListOutcome = ListFailed(message: string) | ListMissing | Listed(entries: seq<ImageRecord>)

  /**
   * How `loadImagesList` reads its reply: a non-2xx status or no `success`
   * throws `LIST_FAILED`; a body with no `data` array fails later, in
   * `data.data.length`; otherwise the entries in server order.
   */
  function ClassifyList(r: Reply<seq<ImageRecord>>): (o: ListOutcome)
    ensures r.Thrown? ==> o == ListFailed(r.message)
    ensures r.Received? && (!r.ok || !r.body.success) ==> o == ListFailed(LIST_FAILED)
    ensures o.Listed? <==> r.Received? && r.ok && r.body.success && r.body.data.Some?
    ensures o.Listed? ==> r.body.data == Some(o.entries)
    ensures o == ListMissing <==> r.Received? && r.ok && r.body.success && r.body.data.None?
  {
    match r
    case Thrown(message) => ListFailed(message)
    case Received(ok, body) =>
      if !ok || !body.success then ListFailed(LIST_FAILED)
      else if body.data.None? then ListMissing
      else Listed(body.data.value)
  }

  datatype DeleteOutcome = Deleted | DeleteRefused(alertText: string) | DeleteCrashed

  /** How `deleteImage` reads its reply: only `data.success` decides; `response.ok` is never consulted. */
  function ClassifyDelete(r: Reply<()>): (o: DeleteOutcome)
    ensures o.Deleted? <==> r.Received? && r.body.success
    ensures o.DeleteCrashed? <==> r.Thrown?
    ensures o.DeleteRefused? ==> o.alertText == DELETE_REFUSED + Or(r.body.error, UNKNOWN_ERROR)
  {
    match r
    case Thrown(_) => DeleteCrashed
    case Received(_, body) =>
      if body.success then Deleted else DeleteRefused(DELETE_REFUSED + Or(body.error, UNKNOWN_ERROR))
  }

  /** The HTTP status has no say in how a delete reply is read. */
  lemma DeleteIgnoresStatus(b: Body<()>)
    ensures ClassifyDelete(Received(true, b)) == ClassifyDelete(Received(false, b))
  {
  }

  // ------------------------------------------------------------ similarity tiers

  datatype Tier = High | Possible | Low

  /** The tier ladder of `displaySearchResult`: `> 0.85`, else `> 0.6`, else low. */
  function TierOf(score: real): (t: Tier)
    ensures t == High <==> score > 0.85
    ensures t == Possible <==> 0.6 < score <= 0.85
    ensures t == Low <==> score <= 0.6
  {
    if score > 0.85 then High else if score > 0.6 then Possible else Low
  }

  function TierLabel(t: Tier): string {
    match t
    case High => " (高度符合！)"
    case Possible => " (可能是這個)"
    case Low => " (相似度低)"
  }

  function TierColor(t: Tier): string {
    match t
    case High => "#28a745"
    case Possible => "#ffc107"
    case Low => "#dc3545"
  }

  function Rank(t: Tier): nat {
    match t
    case Low => 0
    case Possible => 1
    case High => 2
  }

  /** What the newer search page shows for a score, by interval: the label after the percentage and its colour. */
  lemma TierPresentation(score: real)
    ensures score > 0.85 ==> TierLabel(TierOf(score)) == " (高度符合！)" && TierColor(TierOf(score)) == "#28a745"
    ensures 0.6 < score <= 0.85 ==> TierLabel(TierOf(score)) == " (可能是這個)" && TierColor(TierOf(score)) == "#ffc107"
    ensures score <= 0.6 ==> TierLabel(TierOf(score)) == " (相似度低)" && TierColor(TierOf(score)) == "#dc3545"
  {
  }

  /** A higher score never lands in a lower tier. */
  lemma TierMonotone(a: real, b: real)
    requires a <= b
    ensures Rank(TierOf(a)) <= Rank(TierOf(b))
  {
  }

  /** Each boundary belongs to the tier below it. */
  lemma TierBoundaries()
    ensures TierOf(0.86) == High && TierOf(0.85) == Possible
    ensures TierOf(0.61) == Possible && TierOf(0.6) == Low && TierOf(0.59) == Low
  {
  }

  // ------------------------------------------------------------------- cards

  /** `info || "無描述"`. */
  function Description(info: Option<string>): (d: string)
    ensures d != ""
    ensures Truthy(info) ==> d == info.value
    ensures !Truthy(info) ==> d == NO_DESCRIPTION
  {
    Or(info, NO_DESCRIPTION)
  }

  /** The extension the page puts in a stored file's URL: the lower-cased last `.`-segment. */
  function UrlExtension(filename: string): (ext: string)
    ensures '.' !in ext
    ensures |ext| <= |filename|
    ensures ext == Lower(filename[|filename| - |ext|..])
    ensures |ext| < |filename| ==> filename[|filename| - |ext| - 1] == '.'
  {
    LastPartIsTail(filename, '.');
    var tail := LastPart(filename, '.');
    assert forall i :: 0 <= i < |tail| ==> Lower(tail)[i] != '.';
    Lower(tail)
  }

  /** `/static/uploads/<uuid>.<ext>`, the URL of an entry's stored file. */
  function AssetUrl(image: ImageRecord): (url: string)
    ensures |url| == |UPLOADS_PATH| + |image.uuid| + 1 + |UrlExtension(image.filename)|
    ensures url[..|UPLOADS_PATH| + |image.uuid|] == UPLOADS_PATH + image.uuid
    ensures url[|UPLOADS_PATH| + |image.uuid|] == '.'
    ensures url[|UPLOADS_PATH| + |image.uuid| + 1..] == UrlExtension(image.filename)
  {
    UPLOADS_PATH + (image.uuid + "." + UrlExtension(image.filename))
  }

  /** What one catalogue card shows; `deleteId` is the id its delete button passes, if it has one. */
  datatype Card = Card(imageUrl: string, filename: string, info: string, date: Option<string>, deleteId: Option<int>)

  /** `createImageCard`; only the newer page adds a delete button. */
  function CardFor(image: ImageRecord, deletable: bool): (c: Card)
    ensures c.imageUrl == AssetUrl(image) && c.filename == image.filename
    ensures c.info == Description(image.info) && c.date == image.createdAt
    ensures c.deleteId == (if deletable then Some(image.id) else None)
  {
    Card(AssetUrl(image), image.filename, Description(image.info), image.createdAt, if deletable then Some(image.id) else None)
  }

  /** What the catalogue grid holds: cards, or a single message in their place. */
  datatype GridItem = CardItem(card: Card) | EmptyMessage(text: string) | ErrorMessage(text: string)

  /** One card per entry, in server order. */
  function CardsOf(entries: seq<ImageRecord>, deletable: bool): (g: seq<GridItem>)
    ensures |g| == |entries|
    ensures forall i :: 0 <= i < |entries| ==> g[i] == CardItem(CardFor(entries[i], deletable))
  {
    seq(|entries|, i requires 0 <= i < |entries| => CardItem(CardFor(entries[i], deletable)))
  }
}
