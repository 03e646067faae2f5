/** What the provider clients of `src/git_api/` exchange with a hosting
    service: a GET request (endpoint, optional query pairs, optional header
    pairs), and either a failure to send it or a response (header map and a
    JSON body). The service itself is an oracle `fetch: Request -> Fetched`.

    Header names in a response are kept in lower case, as the HTTP client's
    header map compares them. */
module GitApi {
  import opened Common

  type Pair = (string, string)

  datatype Request = Request(endpoint: string, params: Option<seq<Pair>>, headers: Option<seq<Pair>>)

  /** A JSON document, with the structure the decoders look at. */
  datatype Json = JString(s: string) | JArray(items: seq<Json>) | JObject(fields: map<string, Json>) | JOther

  /** A received response: headers and body (`None` when the body is not
      JSON at all). */
  datatype Response = Response(headers: map<string, string>, body: Option<Json>)

  datatype Fetched = SendError | Received(response: Response)

  /** The view of a repository that the workflows use (the `Repo` trait's
      three accessors). */
  datatype Repo = Repo(sshUrl: string, httpUrl: string, fullPath: string)

  /** The `page-size` the clients request. */
  const PerPage: string := "100"

  /** A byte the HTTP library accepts in a header value: anything but a
      control character other than tab, or DEL. */
  predicate HeaderValueChar(c: char) {
    (c >= ' ' && c != '\U{007F}') || c == '\t'
  }

  predicate HeaderValueOk(v: string) {
    forall i :: 0 <= i < |v| ==> HeaderValueChar(v[i])
  }

  /** What `HeaderValue::to_str` accepts: visible ASCII and tab. */
  predicate VisibleAscii(v: string) {
    forall i :: 0 <= i < |v| ==> (' ' <= v[i] <= '~') || v[i] == '\t'
  }

  predicate HeadersOk(headers: Option<seq<Pair>>) {
    headers.Some? ==> forall k :: 0 <= k < |headers.value| ==> HeaderValueOk(headers.value[k].1)
  }

  /** `call_api`: a header value the HTTP library refuses panics before
      anything is sent; a request that cannot be sent ends the process;
      otherwise the response. (The header names used are fixed, valid
      tokens.) */
  function CallApi(fetch: Request -> Fetched, req: Request): (r: Run<Response>)
    ensures r == Panic <==> !HeadersOk(req.headers)
    ensures r == Exit <==> HeadersOk(req.headers) && fetch(req).SendError?
    ensures r.Ok? ==> fetch(req) == Received(r.value)
  {
    if !HeadersOk(req.headers) then Panic
    else match fetch(req)
      case SendError => Exit
      case Received(resp) => Ok(resp)
  }

  /** The string field `key` of a JSON object. */
  function StringField(fields: map<string, Json>, key: string): Option<string> {
    if key in fields && fields[key].JString? then Some(fields[key].s) else None
  }

  /** Decoding a JSON array with a decoder for its elements: every element
      must decode, or the whole array fails. */
  function DecodeAll(items: seq<Json>, decode: Json -> Option<Repo>): (r: Option<seq<Repo>>)
    ensures r.Some? <==> forall k :: 0 <= k < |items| ==> decode(items[k]).Some?
    ensures r.Some? ==> |r.value| == |items|
    ensures r.Some? ==> forall k :: 0 <= k < |items| ==> r.value[k] == decode(items[k]).value
  {
    if items == [] then Some([])
    else match decode(items[0])
      case None => None
      case Some(x) =>
        match DecodeAll(items[1..], decode)
        case None => None
        case Some(rest) => Some([x] + rest)
  }
}
