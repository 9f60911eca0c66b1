/**
 * The Flask service's decision logic: the extension whitelist, the client
 * address and the local-only gate of the admin routes, the checks every
 * upload and search passes through, the stored-file name, and the upload,
 * search and delete routes over a catalogue held in memory.
 */
module Server {
  import opened Wrappers
  import opened Text
  import opened Protocol
  import opened Similarity

  const ALLOWED_EXTENSIONS: set<string> := {"png", "jpg", "jpeg", "gif", "bmp", "webp"}
  const ADMIN_ALLOWED_IP := "127.0.0.1"
  /** Where stored files are served from. */
  const UPLOADS_URL := "/static/uploads/"

  const NO_FILE_PART := "沒有上傳檔案"
  const NO_FILE_NAME := "未選擇檔案"
  const BAD_FORMAT := "不支援的檔案格式"
  const UPLOADED := "圖像上傳成功"
  const EXTRACTION_FAILED := "特徵提取失敗: "
  const STORE_FAILED := "資料庫儲存失敗: "
  const UPLOAD_CRASHED := "上傳失敗: "
  const EMPTY_CATALOGUE := "資料庫中沒有圖像"
  const NO_BEST_MATCH := "未找到相似圖像"
  const SEARCH_DONE := "搜尋完成"
  const SEARCH_CRASHED := "搜尋失敗: "
  const NOT_FOUND := "找不到圖像"
  const DELETED := "刪除成功"
  /** Python's text for an `IndexError` raised by indexing a list. */
  const INDEX_ERROR := "list index out of range"

  // ---------------------------------------------------------------- file names

  /** `e` is a dot-free tail of `filename` that follows a dot. */
  predicate HasExtension(filename: string, e: string) {
    '.' !in e && |e| < |filename| && filename[|filename| - |e| - 1..] == ['.'] + e
  }

  /** `filename.rsplit('.', 1)[1]`; `None` where Python raises `IndexError`. */
  function ExtensionOf(filename: string): (ext: Option<string>)
    ensures ext.Some? <==> '.' in filename
    ensures ext.Some? ==> HasExtension(filename, ext.value)
  {
    var parts := RSplitOnce(filename, '.');
    if |parts| < 2 then None else Some(parts[1])
  }

  /** A name has at most one extension: the text after its last dot. */
  lemma ExtensionUnique(filename: string, e: string)
    requires HasExtension(filename, e)
    ensures ExtensionOf(filename) == Some(e)
  {
    var n := |filename|;
    var dot := n - |e| - 1;
    assert filename[dot] == '.';
    assert filename[dot + 1..] == e;
  }

  /** `allowed_file`: there is a dot, and the lower-cased text after the last one is whitelisted. */
  function AllowedFile(filename: string): (ok: bool)
    ensures ok ==> '.' in filename
    ensures ok <==> exists e :: HasExtension(filename, e) && Lower(e) in ALLOWED_EXTENSIONS
  {
    var ext := ExtensionOf(filename);
    if ext.Some? then
      var ok := Lower(ext.value) in ALLOWED_EXTENSIONS;
      assert forall e :: HasExtension(filename, e) ==> e == ext.value by {
        forall e | HasExtension(filename, e) ensures e == ext.value {
          ExtensionUnique(filename, e);
        }
      }
      ok
    else
      assert forall e :: HasExtension(filename, e) ==> filename[|filename| - |e| - 1] == '.';
      false
  }

  /** Case does not matter. */
  lemma UpperCaseExtensionAllowed()
    ensures AllowedFile("photo.JPG")
  {
    assert HasExtension("photo.JPG", "JPG");
    assert Lower("JPG") == "jpg";
  }

  /** Only the text after the last dot is looked at. */
  lemma InnerExtensionIgnored()
    ensures !AllowedFile("image.png.exe")
  {
    ExtensionUnique("image.png.exe", "exe");
  }

  /**
   * The name the service stores an upload under, serves it under and deletes
   * it by: `<uuid>.<lower-cased text after the last dot>`; `None` where
   * Python raises `IndexError`.
   */
  function StoredName(fileUuid: string, filename: string): (name: Option<string>)
    ensures name.Some? <==> '.' in filename
    ensures name.Some? ==> exists e :: HasExtension(filename, e) && name.value == fileUuid + "." + Lower(e)
  {
    match ExtensionOf(filename)
    case None => None
    case Some(e) => Some(fileUuid + "." + Lower(e))
  }

  // --------------------------------------------------------- client address

  /** The request headers `get_client_ip` consults, and the peer address. */
  datatype RequestInfo = RequestInfo(forwardedFor: Option<string>, realIp: Option<string>, remoteAddr: Option<string>)

  /**
   * `get_client_ip`: a non-empty `X-Forwarded-For` gives its first
   * comma-separated entry with surrounding whitespace stripped; otherwise a
   * non-empty `X-Real-IP` verbatim; otherwise the peer address.
   */
  function ClientIp(req: RequestInfo): (ip: Option<string>)
    ensures Truthy(req.forwardedFor) ==>
      ip.Some? && ',' !in ip.value && (ip.value != "" ==> !IsSpace(ip.value[0]) && !IsSpace(ip.value[|ip.value| - 1]))
    ensures !Truthy(req.forwardedFor) && Truthy(req.realIp) ==> ip == req.realIp
    ensures !Truthy(req.forwardedFor) && !Truthy(req.realIp) ==> ip == req.remoteAddr
  {
    if Truthy(req.forwardedFor) then Some(Strip(FirstPart(req.forwardedFor.value, ',')))
    else if Truthy(req.realIp) then req.realIp
    else req.remoteAddr
  }

  /**
   * Of a proxy chain, only the first entry counts, whatever whitespace pads
   * it; `X-Real-IP` and the peer are then ignored. Every header falls in this
   * shape: its first entry is `pad1 + hop + pad2`, and `tail` is either empty
   * or starts with the first comma.
   */
  lemma {:induction false} FirstForwardedEntryWins(pad1: string, hop: string, pad2: string, tail: string,
                                                  realIp: Option<string>, remoteAddr: Option<string>)
    requires pad1 + hop + pad2 + tail != ""
    requires forall k :: 0 <= k < |pad1| ==> IsSpace(pad1[k])
    requires forall k :: 0 <= k < |pad2| ==> IsSpace(pad2[k])
    requires ',' !in hop && (hop != "" ==> !IsSpace(hop[0]) && !IsSpace(hop[|hop| - 1]))
    requires tail == "" || tail[0] == ','
    ensures ClientIp(RequestInfo(Some(pad1 + hop + pad2 + tail), realIp, remoteAddr)) == Some(hop)
  {
    var entry := pad1 + hop + pad2;
    assert ',' !in entry by {
      assert forall k :: 0 <= k < |pad1| ==> pad1[k] != ',';
      assert forall k :: 0 <= k < |pad2| ==> pad2[k] != ',';
    }
    if tail == "" {
      assert entry + tail == entry;
    } else {
      assert entry + tail == entry + [','] + tail[1..];
      FirstPartOfPrefix(entry, ',', tail[1..]);
    }
    StripPadded(pad1, hop, pad2);
  }

  /** `admin_only`: the request goes through exactly when the client address is 127.0.0.1. */
  predicate AdminGate(req: RequestInfo): (ok: bool)
    ensures Truthy(req.forwardedFor) ==>
      (ok <==> Strip(FirstPart(req.forwardedFor.value, ',')) == ADMIN_ALLOWED_IP)
    ensures !Truthy(req.forwardedFor) && Truthy(req.realIp) ==> (ok <==> req.realIp.value == ADMIN_ALLOWED_IP)
    ensures !Truthy(req.forwardedFor) && !Truthy(req.realIp) ==> (ok <==> req.remoteAddr == Some(ADMIN_ALLOWED_IP))
  {
    ClientIp(req) == Some(ADMIN_ALLOWED_IP)
  }

  /** A direct local request passes; a direct request from elsewhere is refused. */
  lemma AdminGateDirect(remoteAddr: Option<string>)
    ensures AdminGate(RequestInfo(None, None, remoteAddr)) <==> remoteAddr == Some(ADMIN_ALLOWED_IP)
  {
  }

  /**
   * The gate trusts the client's own headers: any peer that sends
   * `X-Forwarded-For: 127.0.0.1, ...`, padded or not, passes it.
   */
  lemma ForwardedForPassesGate(pad1: string, pad2: string, rest: string, realIp: Option<string>, remoteAddr: Option<string>)
    requires forall k :: 0 <= k < |pad1| ==> IsSpace(pad1[k])
    requires forall k :: 0 <= k < |pad2| ==> IsSpace(pad2[k])
    ensures AdminGate(RequestInfo(Some(pad1 + ADMIN_ALLOWED_IP + pad2 + "," + rest), realIp, remoteAddr))
  {
    assert pad1 + ADMIN_ALLOWED_IP + pad2 + "," + rest == pad1 + ADMIN_ALLOWED_IP + pad2 + ("," + rest);
    FirstForwardedEntryWins(pad1, ADMIN_ALLOWED_IP, pad2, "," + rest, realIp, remoteAddr);
  }

  /** A single `X-Forwarded-For` entry other than 127.0.0.1 is refused, whatever the peer is. */
  lemma ForeignForwardedForRefused(hop: string, realIp: Option<string>, remoteAddr: Option<string>)
    requires hop != "" && ',' !in hop && !IsSpace(hop[0]) && !IsSpace(hop[|hop| - 1])
    requires hop != ADMIN_ALLOWED_IP
    ensures !AdminGate(RequestInfo(Some(hop), realIp, remoteAddr))
  {
    assert "" + hop + "" + "" == hop;
    FirstForwardedEntryWins("", hop, "", "", realIp, remoteAddr);
  }

  // -------------------------------------------------------------- validation

  /** The multipart `file` part of a request, by its file name. */
  datatype FilePart = FilePart(filename: string)

  datatype ApiError = ApiError(status: int, message: string)

  /**
   * The checks upload and search make before touching anything, in order:
   * a `file` part, a non-empty name, a whitelisted extension.
   */
  function ValidateFile(part: Option<FilePart>): (err: Option<ApiError>)
    ensures err.None? <==> part.Some? && part.value.filename != "" && AllowedFile(part.value.filename)
    ensures err.Some? ==> err.value.status == 400
    ensures part.None? ==> err == Some(ApiError(400, NO_FILE_PART))
    ensures part.Some? && part.value.filename == "" ==> err == Some(ApiError(400, NO_FILE_NAME))
    ensures part.Some? && part.value.filename != "" && !AllowedFile(part.value.filename) ==>
      err == Some(ApiError(400, BAD_FORMAT))
  {
    if part.None? then Some(ApiError(400, NO_FILE_PART))
    else if part.value.filename == "" then Some(ApiError(400, NO_FILE_NAME))
    else if !AllowedFile(part.value.filename) then Some(ApiError(400, BAD_FORMAT))
    else None
  }

  /**
   * A search file that passes the checks has an extension, so its temporary
   * name `temp_<uuid>.<ext>` can be formed.
   */
  lemma ValidatedFileHasTempName(part: Option<FilePart>, fileUuid: string)
    requires ValidateFile(part).None?
    ensures StoredName("temp_" + fileUuid, part.value.filename).Some?
  {
  }

  /** `jsonify({'error': ...}), status`. */
  function ErrorReply<D>(e: ApiError): (r: ServerReply<D>)
    ensures r.Json? && r.status == e.status
    ensures !r.body.success && r.body.error == Some(e.message) && r.body.message.None? && r.body.data.None?
  {
    Json(e.status, ErrorBody(e.message))
  }

  /** The 200 answer of a search that has nothing to show. */
  function NoResultReply(message: string): (r: ServerReply<SearchData>)
    ensures r.Json? && IsOk(r.status)
    ensures r.body.success && r.body.message == Some(message) && r.body.error.None? && r.body.data.None?
  {
    Json(200, Body(true, Some(message), None, None))
  }

  // --------------------------------------------------------------- catalogue

  /** One database row. */
  datatype Row = Row(id: int, uuid: string, filename: string, info: Option<string>, createdAt: Option<string>, vector: Vector)

  /** `Image.to_dict()`. */
  function ToDict(r: Row): ImageRecord {
    ImageRecord(r.id, r.uuid, r.filename, r.info, r.createdAt)
  }

  /** The 200 answer of a search that found `row` with score `score`. */
  function MatchReply(row: Row, score: real): (r: ServerReply<SearchData>)
    requires '.' in row.filename
    ensures r.Json? && IsOk(r.status) && r.body.success && r.body.error.None?
    ensures r.body.message == Some(SEARCH_DONE)
    ensures r.body.data.Some? && r.body.data.value.similarity == score
    ensures r.body.data.value.image == Some(ToDict(row))
    ensures exists e ::
      (HasExtension(row.filename, e) && r.body.data.value.imageUrl == UPLOADS_URL + (row.uuid + "." + Lower(e)))
  {
    var url := UPLOADS_URL + StoredName(row.uuid, row.filename).value;
    Json(200, Body(true, Some(SEARCH_DONE), None, Some(SearchData(score, url, Some(ToDict(row))))))
  }

  /** `query(Image).filter(Image.id == id).first()`: the first row with that id. */
  function FindRow(rows: seq<Row>, id: int): (k: Option<nat>)
    ensures k.None? <==> forall j :: 0 <= j < |rows| ==> rows[j].id != id
    ensures k.Some? ==> k.value < |rows| && rows[k.value].id == id
    ensures k.Some? ==> forall j :: 0 <= j < k.value ==> rows[j].id != id
  {
    if |rows| == 0 then None
    else if rows[0].id == id then Some(0)
    else
      match FindRow(rows[1..], id)
      case None => None
      case Some(k) => Some(k + 1)
  }

  /** The `(id, vector)` pairs the search hands to the engine. */
  function Candidates(rows: seq<Row>): (c: seq<(int, Vector)>)
    ensures |c| == |rows|
    ensures forall j :: 0 <= j < |rows| ==> c[j] == (rows[j].id, rows[j].vector)
  {
    seq(|rows|, j requires 0 <= j < |rows| => (rows[j].id, rows[j].vector))
  }

  /** The loop of the search route that gathers each row's `(id, vector)` pair, in table order. */
  method CollectCandidates(rows: seq<Row>) returns (c: seq<(int, Vector)>)
    ensures c == Candidates(rows)
  {
    c := [];
    for i := 0 to |rows|
      invariant c == Candidates(rows[..i])
    {
      c := c + [(rows[i].id, rows[i].vector)];
    }
    assert rows[..|rows|] == rows;
  }

  /** Ids are unique and below `nextId`, and every stored name has a dot (no upload without one succeeds). */
  ghost predicate RowsValid(rows: seq<Row>, nextId: int) {
    && (forall i, j :: 0 <= i < j < |rows| ==> rows[i].id != rows[j].id)
    && (forall i :: 0 <= i < |rows| ==> rows[i].id < nextId)
    && (forall i :: 0 <= i < |rows| ==> '.' in rows[i].filename)
  }

  /** In a valid table, looking up a row's id finds that row. */
  lemma FindRowOfValid(rows: seq<Row>, nextId: int, k: nat)
    requires RowsValid(rows, nextId) && k < |rows|
    ensures FindRow(rows, rows[k].id) == Some(k)
  {
  }

  /** Appending a row with the next id and a dotted name keeps the table valid. */
  lemma AppendKeepsValid(rows: seq<Row>, nextId: int, row: Row)
    requires RowsValid(rows, nextId) && row.id == nextId && '.' in row.filename
    ensures RowsValid(rows + [row], nextId + 1)
  {
  }

  /** Removing a row keeps the table valid. */
  lemma RemoveKeepsValid(rows: seq<Row>, nextId: int, k: nat)
    requires RowsValid(rows, nextId) && k < |rows|
    ensures RowsValid(rows[..k] + rows[k + 1..], nextId)
  {
    var r := rows[..k] + rows[k + 1..];
    assert forall i :: 0 <= i < |r| ==> r[i] == rows[if i < k then i else i + 1];
  }

  /** What feature extraction of an uploaded file gave. */
  datatype Extraction = Extracted(vector: Vector) | ExtractionFailed(reason: string)

  /** What `db.commit()` did. */
  datatype Commit = Committed | CommitFailed(reason: string)

  /** The service's state: the image table and the names in the upload folder. */
  class Catalogue {
    var rows: seq<Row>
    var disk: set<string>
    /** The id the database assigns to the next row. */
    var nextId: int

    ghost predicate Valid()
      reads this
    {
      RowsValid(rows, nextId)
    }

    constructor ()
      ensures Valid() && rows == [] && disk == {} && nextId == 1
    {
      rows, disk, nextId := [], {}, 1;
    }

    /** `db.add` and a successful `db.commit()`: a row with the next id joins the table. */
    method AddRow(row: Row)
      requires Valid() && row.id == nextId && '.' in row.filename
      modifies this`rows, this`nextId
      ensures Valid() && rows == old(rows) + [row] && nextId == old(nextId) + 1
    {
      AppendKeepsValid(rows, nextId, row);
      rows := rows + [row];
      nextId := nextId + 1;
    }

    /** `db.delete` and a successful `db.commit()`: row `k` leaves the table. */
    method DropRow(k: nat)
      requires Valid() && k < |rows|
      modifies this`rows
      ensures Valid() && rows == old(rows)[..k] + old(rows)[k + 1..]
    {
      RemoveKeepsValid(rows, nextId, k);
      rows := rows[..k] + rows[k + 1..];
    }

    /**
     * `POST /api/upload` once the file has a stored name: the file is saved,
     * removed again when extraction or the database fails, and kept with a
     * new row otherwise.
     */
    method Store(name: string, fileUuid: string, sanitized: string, description: string, now: string,
                 features: Extraction, commit: Commit)
      returns (reply: ServerReply<ImageRecord>)
      requires Valid() && '.' in sanitized
      modifies this
      ensures Valid()
      ensures match features
        case ExtractionFailed(reason) =>
          reply == ErrorReply(ApiError(500, EXTRACTION_FAILED + reason)) &&
          disk == old(disk) - {name} && rows == old(rows) && nextId == old(nextId)
        case Extracted(vector) =>
          match commit
          case CommitFailed(reason) =>
            reply == ErrorReply(ApiError(500, STORE_FAILED + reason)) &&
            disk == old(disk) - {name} && rows == old(rows) && nextId == old(nextId)
          case Committed =>
            var record := ImageRecord(old(nextId), fileUuid, sanitized, Some(description), None);
            reply == Json(200, Body(true, Some(UPLOADED), None, Some(record))) &&
            disk == old(disk) + {name} && nextId == old(nextId) + 1 &&
            rows == old(rows) + [Row(old(nextId), fileUuid, sanitized, Some(description), Some(now), vector)]
    {
      disk := disk + {name};
      match features {
        case ExtractionFailed(reason) =>
          disk := disk - {name};
          return ErrorReply(ApiError(500, EXTRACTION_FAILED + reason));
        case Extracted(vector) =>
          match commit {
            case CommitFailed(reason) =>
              disk := disk - {name};
              return ErrorReply(ApiError(500, STORE_FAILED + reason));
            case Committed =>
              var id := nextId;
              AddRow(Row(id, fileUuid, sanitized, Some(description), Some(now), vector));
              var record := ImageRecord(id, fileUuid, sanitized, Some(description), None);
              return Json(200, Body(true, Some(UPLOADED), None, Some(record)));
          }
      }
    }

    /**
     * `POST /api/upload`: the gate and the checks first, with nothing saved
     * on refusal, and a name without a dot after sanitising failing as
     * Python's `IndexError`; then `Store`. A missing `info` is stored as
     * the empty text.
     */
    method Upload(req: RequestInfo, part: Option<FilePart>, info: Option<string>, fileUuid: string,
                  sanitized: string, now: string, features: Extraction, commit: Commit)
      returns (reply: ServerReply<ImageRecord>)
      requires Valid()
      modifies this
      ensures Valid()
      ensures !AdminGate(req) ==> reply == ForbiddenPage && unchanged(this)
      ensures AdminGate(req) && ValidateFile(part).Some? ==>
        reply == ErrorReply(ValidateFile(part).value) && unchanged(this)
      ensures AdminGate(req) && ValidateFile(part).None? && '.' !in sanitized ==>
        reply == ErrorReply(ApiError(500, UPLOAD_CRASHED + INDEX_ERROR)) && unchanged(this)
      ensures AdminGate(req) && ValidateFile(part).None? && '.' in sanitized ==>
        var name := StoredName(fileUuid, sanitized).value;
        match features
        case ExtractionFailed(reason) =>
          reply == ErrorReply(ApiError(500, EXTRACTION_FAILED + reason)) &&
          disk == old(disk) - {name} && rows == old(rows) && nextId == old(nextId)
        case Extracted(vector) =>
          match commit
          case CommitFailed(reason) =>
            reply == ErrorReply(ApiError(500, STORE_FAILED + reason)) &&
            disk == old(disk) - {name} && rows == old(rows) && nextId == old(nextId)
          case Committed =>
            var record := ImageRecord(old(nextId), fileUuid, sanitized, Some(info.GetOr("")), None);
            reply == Json(200, Body(true, Some(UPLOADED), None, Some(record))) &&
            disk == old(disk) + {name} && nextId == old(nextId) + 1 &&
            rows == old(rows) + [Row(old(nextId), fileUuid, sanitized, Some(info.GetOr("")), Some(now), vector)]
    {
      if !AdminGate(req) {
        return ForbiddenPage;
      }
      var err := ValidateFile(part);
      if err.Some? {
        return ErrorReply(err.value);
      }
      var description := info.GetOr("");
      var stored := StoredName(fileUuid, sanitized);
      if stored.None? {
        return ErrorReply(ApiError(500, UPLOAD_CRASHED + INDEX_ERROR));
      }
      reply := Store(stored.value, fileUuid, sanitized, description, now, features, commit);
    }

    /**
     * `POST /api/search`: the same checks, then the best match by clamped
     * cosine score; an empty catalogue answers 200 with `data: null`.
     */
    method Search(part: Option<FilePart>, features: Extraction, cosine: (Vector, Vector) -> real)
      returns (reply: ServerReply<SearchData>)
      requires Valid()
      ensures ValidateFile(part).Some? ==> reply == ErrorReply(ValidateFile(part).value)
      ensures ValidateFile(part).None? && features.ExtractionFailed? ==>
        reply == ErrorReply(ApiError(500, EXTRACTION_FAILED + features.reason))
      ensures ValidateFile(part).None? && features.Extracted? && rows == [] ==>
        reply == NoResultReply(EMPTY_CATALOGUE)
      ensures ValidateFile(part).None? && features.Extracted? && rows != [] ==>
        exists k :: IsFirstMax(Scores(features.vector, Candidates(rows), cosine), k) &&
          reply == MatchReply(rows[k], Scores(features.vector, Candidates(rows), cosine)[k])
      ensures reply != NoResultReply(NO_BEST_MATCH)
    {
      var err := ValidateFile(part);
      if err.Some? {
        return ErrorReply(err.value);
      }
      if features.ExtractionFailed? {
        return ErrorReply(ApiError(500, EXTRACTION_FAILED + features.reason));
      }
      var query := features.vector;
      var allImages := rows;
      if |allImages| == 0 {
        return NoResultReply(EMPTY_CATALOGUE);
      }
      var databaseVectors := CollectCandidates(allImages);
      var bestMatchId, similarityScore := FindMostSimilar(query, databaseVectors, cosine);
      if bestMatchId.None? {
        return NoResultReply(NO_BEST_MATCH);
      }
      ghost var k :| IsFirstMax(Scores(query, databaseVectors, cosine), k) &&
        bestMatchId == Some(databaseVectors[k].0) && similarityScore == Scores(query, databaseVectors, cosine)[k];
      FindRowOfValid(allImages, nextId, k);
      var found := FindRow(allImages, bestMatchId.value);
      if found.None? {
        return ErrorReply(ApiError(500, SEARCH_CRASHED + "'NoneType' object has no attribute 'to_dict'"));
      }
      var bestMatch := allImages[found.value];
      var stored := StoredName(bestMatch.uuid, bestMatch.filename);
      if stored.None? {
        return ErrorReply(ApiError(500, SEARCH_CRASHED + INDEX_ERROR));
      }
      reply := MatchReply(bestMatch, similarityScore);
    }

    /**
     * `DELETE /api/images/<id>`: an unknown id is a 404 that touches nothing;
     * otherwise the stored file is removed when possible (a failure to
     * remove it is ignored) and the row is deleted once the commit succeeds.
     */
    method Delete(req: RequestInfo, id: int, removeFails: bool, commit: Commit) returns (reply: ServerReply<()>)
      requires Valid()
      modifies this
      ensures Valid()
      ensures !AdminGate(req) ==> reply == ForbiddenPage && unchanged(this)
      ensures AdminGate(req) && FindRow(old(rows), id).None? ==>
        reply == ErrorReply(ApiError(404, NOT_FOUND)) && unchanged(this)
      ensures AdminGate(req) && FindRow(old(rows), id).Some? ==>
        var k := FindRow(old(rows), id).value;
        var row := old(rows)[k];
        '.' in row.filename &&
        disk == (if removeFails then old(disk) else old(disk) - {StoredName(row.uuid, row.filename).value}) &&
        nextId == old(nextId) &&
        match commit
        case Committed =>
          rows == old(rows)[..k] + old(rows)[k + 1..] && reply == Json(200, Body(true, Some(DELETED), None, None))
        case CommitFailed(reason) =>
          rows == old(rows) && reply == ErrorReply(ApiError(500, reason))
    {
      if !AdminGate(req) {
        return ForbiddenPage;
      }
      var found := FindRow(rows, id);
      if found.None? {
        return ErrorReply(ApiError(404, NOT_FOUND));
      }
      var k := found.value;
      var image := rows[k];
      var stored := StoredName(image.uuid, image.filename);
      if stored.Some? && !removeFails {
        disk := disk - {stored.value};
      }
      match commit {
        case CommitFailed(reason) =>
          return ErrorReply(ApiError(500, reason));
        case Committed =>
          DropRow(k);
          return Json(200, Body(true, Some(DELETED), None, None));
      }
    }
  }
}
