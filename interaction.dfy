/** What reaches the store forms from outside: input events, the outcome of
    each request, the geolocation result, and what the forms send or show. */
module Interaction {
  import opened Options
  import opened Objects
  import opened Coords
  import opened FormPayload

  /** The `e.target` of a change event: the input's `name`, whether its
      `type` is "file", its `value`, and `files[0]` when a file was picked. */
  datatype ChangeEvent = ChangeEvent(name: string, isFile: bool, value: string, firstFile: Option<nat>)

  datatype Verb = GET | POST | PUT

  /** The store collection, or one store by its identifier. */
  datatype Endpoint = StoreList | StoreDetail(id: string)

  /** A request the form sends; `body` is the multipart body, if any. */
  datatype Request = Request(verb: Verb, endpoint: Endpoint, body: seq<Field>)

  /** How the GET of an existing store ends: its record (`data.data`), or a
      failure of any kind (a non-ok status, an unreadable body). */
  datatype FetchOutcome = Fetched(record: Obj) | FetchFailed

  /** How a create or update request ends: accepted; rejected with a non-ok
      status and the `message` of its body, if it has one; or an exception
      (the network, or a body that is not JSON) with its message. */
  datatype Response = Accepted | Rejected(message: Option<string>) | Thrown(error: string)

  /** What `navigator.geolocation` gives: a fix, an error, or no API at all. */
  datatype GeoResult = Fix(position: LatLng) | GeoError | Unsupported

  datatype NoticeKind = Success | Failure

  /** A message shown to the user: the edit form's modal, the create form's alert. */
  datatype Notice = Notice(kind: NoticeKind, message: string)

  const StoresRoute := "/stores"
  const NoFixMessage := "Tidak dapat mendapatkan lokasi. Pastikan GPS aktif."
  const NoGeolocationMessage := "Browser Anda tidak mendukung geolokasi"

  /** The text of the caught error: `errorData.message || fallback` for a
      rejection, the exception's own message otherwise. */
  function FailureText(r: Response, fallback: string): (t: string)
    requires !r.Accepted?
    ensures r.Rejected? && r.message.Some? && r.message.value != "" ==> t == r.message.value
    ensures r.Rejected? && (r.message.None? || r.message.value == "") ==> t == fallback
    ensures r.Thrown? ==> t == r.error
  {
    match r
    case Rejected(m) => if m.Some? && m.value != "" then m.value else fallback
    case Thrown(e) => e
  }

  /** The failure notice both forms show: `Error: ${error.message}`. */
  function FailureNotice(r: Response, fallback: string): Notice
    requires !r.Accepted?
  {
    Notice(Failure, "Error: " + FailureText(r, fallback))
  }
}
