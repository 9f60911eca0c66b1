/**
 * The values that cross the wire between the two pages and the Flask
 * service: the browser's file handle, catalogue records, the JSON bodies the
 * service answers with, and what the page's `fetch` sees of them.
 */
module Protocol {
  import opened Wrappers

  /** A browser `File`: its name and its declared media type. */
  datatype File = File(name: string, mediaType: string)

  /** One catalogue entry as `Image.to_dict()` serialises it. */
  datatype ImageRecord = ImageRecord(
    id: int,
    uuid: string,
    filename: string,
    info: Option<string>,
    createdAt: Option<string>)

  /** The `data` object of a successful search. */
  datatype SearchData = SearchData(similarity: real, imageUrl: string, image: Option<ImageRecord>)

  /**
   * A JSON body with the fields the pages read. An absent `success` reads as
   * false; an absent or null `message`, `error` or `data` is `None`.
   */
  datatype Body<D> = Body(success: bool, message: Option<string>, error: Option<string>, data: Option<D>)

  /** What a route hands to Flask: a JSON body with a status, or the HTML 403 page of `abort(403)`. */
  datatype ServerReply<D> = Json(status: int, body: Body<D>) | ForbiddenPage

  /**
   * What the page's `fetch` + `response.json()` yields: either an exception
   * (no connection, or a body that is not JSON), or `response.ok` with the
   * parsed body.
   */
  datatype Reply<D> = Thrown(message: string) | Received(ok: bool, body: Body<D>)

  /** The requests a page issues. */
  datatype Request =
    | SearchRequest(file: File)
    | UploadRequest(file: File, info: string)
    | ListRequest
    | DeleteRequest(id: int)

  /** A JSON body carrying only `error`, as every failing route writes it. */
  function ErrorBody<D>(message: string): Body<D> {
    Body(false, None, Some(message), None)
  }

  /** `response.ok`: a 2xx status. */
  predicate IsOk(status: int) {
    200 <= status < 300
  }

  /**
   * The model's assumption about the browser between the two sides (it is
   * not code of the system): a JSON body is always parsed, whatever the
   * status, and `response.ok` is the 2xx test; the HTML 403 page is the only
   * reply that makes `response.json()` throw, with the engine's parse-error
   * text, which the model takes as a parameter.
   */
  function Deliver<D>(r: ServerReply<D>, parseError: string): (reply: Reply<D>)
    ensures reply.Received? <==> r.Json?
    ensures reply.Received? ==> reply.body == r.body && (reply.ok <==> 200 <= r.status < 300)
    ensures reply.Thrown? ==> reply.message == parseError
  {
    match r
    case Json(status, body) => Received(IsOk(status), body)
    case ForbiddenPage => Thrown(parseError)
  }

  /** JavaScript truthiness of an optional string: present and non-empty. */
  predicate Truthy(s: Option<string>) {
    s.Some? && s.value != ""
  }

  /** JavaScript `s || fallback` on an optional string. */
  function Or(s: Option<string>, fallback: string): (r: string)
    ensures Truthy(s) ==> r == s.value
    ensures !Truthy(s) ==> r == fallback
    ensures r != "" <==> Truthy(s) || fallback != ""
  {
    if Truthy(s) then s.value else fallback
  }
}
