/**
 * The mobile client's HTTP wrapper: header construction, request building
 * for the four verbs, and the classification of responses into data or a
 * thrown error.
 */
module ApiClient {
  import opened Wrappers
  import opened Text
  import opened Http

  const ApiUrl := "https://informate-production.up.railway.app/api"
  const BearerPrefix := "Bearer "
  const JsonType := "application/json"
  const RequestFailed := "Request failed"
  const InvalidFormat := "Invalid response format"

  datatype Header = Header(name: string, value: string)

  /** One entry of a multipart body: a text field, or a file given by its URI, name and type. */
  datatype Part =
    | Field(name: string, value: string)
    | FilePart(name: string, uri: string, fileName: string, mimeType: string)

  /**
   * What a caller hands to `post` or `put`: a `FormData`, or any other value,
   * which is sent as its `JSON.stringify` text (the serialisation itself is not modelled).
   */
  datatype Data = FormData(parts: seq<Part>) | JsonObject(fields: seq<(string, string)>)

  /** The body that goes on the wire. */
  datatype Body = Multipart(parts: seq<Part>) | Stringified(fields: seq<(string, string)>)

  datatype FetchRequest = FetchRequest(verb: Method, url: string, headers: seq<Header>, body: Option<Body>)

  /** The value of the first header with that name. */
  function HeaderValue(hs: seq<Header>, name: string): (r: Option<string>)
    ensures r.Some? <==> exists i :: 0 <= i < |hs| && hs[i].name == name
    ensures r.Some? ==> exists i :: 0 <= i < |hs| && hs[i] == Header(name, r.value)
  {
    if hs == [] then None
    else if hs[0].name == name then Some(hs[0].value)
    else
      var r := HeaderValue(hs[1..], name);
      if r.Some? then
        var i :| 0 <= i < |hs[1..]| && hs[1..][i] == Header(name, r.value);
        assert hs[i + 1] == Header(name, r.value);
        r
      else
        assert forall i :: 1 <= i < |hs| ==> hs[i] == hs[1..][i - 1];
        r
  }

  /** `getHeaders(isFormData)`, given what storage holds under `userToken`. */
  function Headers(token: Option<string>, isFormData: bool): seq<Header> {
    [Header("Accept", JsonType), Header("ngrok-skip-browser-warning", "true")]
    + (if Truthy(token) then [Header("Authorization", BearerPrefix + token.value)] else [])
    + (if !isFormData then [Header("Content-Type", JsonType)] else [])
  }

  /** The header set the client always sends, with authorization and content type exactly as stated. */
  lemma HeadersExact(token: Option<string>, isFormData: bool)
    ensures var hs := Headers(token, isFormData);
            && HeaderValue(hs, "Accept") == Some(JsonType)
            && HeaderValue(hs, "ngrok-skip-browser-warning") == Some("true")
            && (HeaderValue(hs, "Authorization").Some? <==> Truthy(token))
            && (Truthy(token) ==> HeaderValue(hs, "Authorization") == Some(BearerPrefix + token.value))
            && (HeaderValue(hs, "Content-Type").Some? <==> !isFormData)
            && (!isFormData ==> HeaderValue(hs, "Content-Type") == Some(JsonType))
  {
    var hs := Headers(token, isFormData);
    assert hs[0].name == "Accept" && hs[1].name == "ngrok-skip-browser-warning";
    if Truthy(token) {
      assert hs[2] == Header("Authorization", BearerPrefix + token.value);
      assert HeaderValue(hs, "Authorization") == HeaderValue(hs[2..], "Authorization");
      if !isFormData {
        assert hs[3] == Header("Content-Type", JsonType);
        assert HeaderValue(hs, "Content-Type") == HeaderValue(hs[3..], "Content-Type");
      }
    } else if !isFormData {
      assert hs[2] == Header("Content-Type", JsonType);
      assert HeaderValue(hs, "Content-Type") == HeaderValue(hs[2..], "Content-Type");
    }
  }

  predicate IsFormData(d: Data) {
    d.FormData?
  }

  /** `isFormData ? data : JSON.stringify(data)`. */
  function Encode(d: Data): (b: Body)
    ensures IsFormData(d) <==> b.Multipart?
    ensures b.Multipart? ==> b.parts == d.parts
    ensures b.Stringified? ==> b.fields == d.fields
  {
    match d
    case FormData(parts) => Multipart(parts)
    case JsonObject(fields) => Stringified(fields)
  }

  /** `api.get(url)`. */
  function Get(url: string, token: Option<string>): FetchRequest {
    FetchRequest(GET, ApiUrl + url, Headers(token, false), None)
  }

  /** `api.post(url, data)`. */
  function Post(url: string, d: Data, token: Option<string>): FetchRequest {
    FetchRequest(POST, ApiUrl + url, Headers(token, IsFormData(d)), Some(Encode(d)))
  }

  /** `api.put(url, data)`. */
  function Put(url: string, d: Data, token: Option<string>): FetchRequest {
    FetchRequest(PUT, ApiUrl + url, Headers(token, IsFormData(d)), Some(Encode(d)))
  }

  /** `api.delete(url)`. */
  function Delete(url: string, token: Option<string>): FetchRequest {
    FetchRequest(DELETE, ApiUrl + url, Headers(token, false), None)
  }

  /**
   * Every builder targets `API_URL + url`; a form travels unchanged and
   * without a JSON content type, anything else as JSON; reads and deletes carry no body.
   */
  lemma BuildersAgree(url: string, d: Data, token: Option<string>)
    ensures Get(url, token).url == ApiUrl + url && Get(url, token).body.None?
    ensures Delete(url, token).url == ApiUrl + url && Delete(url, token).body.None?
    ensures Post(url, d, token).url == ApiUrl + url && Put(url, d, token).url == ApiUrl + url
    ensures d.FormData? ==> Post(url, d, token).body == Some(Multipart(d.parts))
                            && HeaderValue(Post(url, d, token).headers, "Content-Type").None?
    ensures d.JsonObject? ==> Put(url, d, token).body == Some(Stringified(d.fields))
                              && HeaderValue(Put(url, d, token).headers, "Content-Type") == Some(JsonType)
    ensures HeaderValue(Get(url, token).headers, "Content-Type") == Some(JsonType)
    ensures Post(url, d, token).headers == Put(url, d, token).headers
  {
    HeadersExact(token, false);
    HeadersExact(token, IsFormData(d));
  }

  // ---------------------------------------------------------------------------
  // handleResponse

  /** The parsed JSON body; only its `message` field is read here. */
  datatype Doc = Doc(message: Option<string>, text: string)

  datatype FetchResponse = FetchResponse(status: int, contentType: Option<string>, data: Doc)

  /** What `handleResponse` resolves to or throws. */
  datatype Outcome =
    | Resolved(data: Doc)
    | HttpError(status: int, data: Doc, message: string)
    | FormatError(message: string)

  /** `response.ok`: a status in 200..299. */
  predicate Ok(status: int) {
    200 <= status <= 299
  }

  /** `contentType && contentType.includes("application/json")`. */
  predicate IsJson(contentType: Option<string>) {
    Truthy(contentType) && Contains(contentType.value, JsonType)
  }

  function HandleResponse(r: FetchResponse): (o: Outcome)
    ensures o.FormatError? <==> !IsJson(r.contentType)
    ensures o.FormatError? ==> o.message == InvalidFormat
    ensures o.Resolved? <==> IsJson(r.contentType) && Ok(r.status)
    ensures o.Resolved? ==> o.data == r.data
    ensures o.HttpError? ==> o.status == r.status && o.data == r.data
    ensures o.HttpError? ==> (Truthy(r.data.message) ==> o.message == r.data.message.value)
                             && (!Truthy(r.data.message) ==> o.message == RequestFailed)
  {
    if IsJson(r.contentType) then
      if !Ok(r.status) then
        HttpError(r.status, r.data, if Truthy(r.data.message) then r.data.message.value else RequestFailed)
      else Resolved(r.data)
    else FormatError(InvalidFormat)
  }

  /** A non-JSON answer is a format error whatever its status, even a 200. */
  lemma NonJsonIgnoresStatus(r: FetchResponse, status: int)
    requires !IsJson(r.contentType)
    ensures HandleResponse(r) == HandleResponse(r.(status := status)) == FormatError(InvalidFormat)
  {
  }

  /**
   * Any content type that starts with `application/json`, whatever parameters
   * follow (a charset, say), counts as JSON.
   */
  lemma CharsetStillJson(r: FetchResponse)
    requires r.contentType.Some? && JsonType <= r.contentType.value
    ensures IsJson(r.contentType)
  {
    var c := r.contentType.value;
    assert c[..|JsonType|] == JsonType;
    assert OccursAt(c, JsonType, 0);
  }
}
