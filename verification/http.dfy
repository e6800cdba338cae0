/** The HTTP boundary of the adapter. Dispatch (`_post`, `_get`, `_delete`)
    and the framework's response decoder (`_handle_response`) are not part of
    this model; they appear as function-valued parameters (`Transport`,
    `Decoder`). Dispatch may itself raise (a timeout, a refused connection),
    and the adapter lets that error through unchanged. The only property
    assumed of the decoder is the one the adapter relies on: it fails for a
    status outside 2xx. */
module Http {
  import opened Wrappers
  import opened Json
  import PercentEncoding

  /** The fixed API host every request is addressed to. */
  const BaseUrl: string := "https://api.linkedin.com"

  /** The collection path under which posts are created, updated and deleted. */
  const PostsPath: string := "/rest/posts"

  type HeaderMap = map<string, string>

  /** Everything an operation can raise. */
  datatype Error =
    | IntegrationNotFound                 // no integration attached (ValueError)
    | MissingAccessToken                  // credentials carry neither `headers` nor `access_token` (KeyError)
    | MissingPostId                       // create response lacks a non-empty `x-restli-id` (ValueError)
    | HttpStatus(status: int, body: string) // the decoder's error for a failed request
    | DispatchFailed(detail: string)        // the HTTP client raised before any response

  datatype Method = GET | POST | DELETE

  /** An outbound request. The adapter always passes empty query parameters. */
  datatype Request = Request(
    verb: Method,
    url: string,
    headers: HeaderMap,
    body: Option<Json>,
    params: map<string, string>)

  /** An inbound response. Header names are keyed in lower case, standing for
      the case-insensitive lookup of the HTTP client's header mapping. */
  datatype Response = Response(status: int, headers: HeaderMap, body: string)

  type Transport = Request -> Result<Response, Error>
  type Decoder = Response -> Result<Json, Error>

  predicate IsSuccess(status: int) {
    200 <= status < 300
  }

  /** The decoder's promise: any status outside 2xx is raised as an error. */
  ghost predicate RejectsNonSuccess(decode: Decoder) {
    forall r: Response :: !IsSuccess(r.status) ==> decode(r).Failure?
  }

  /** The status code update and delete treat as success without decoding. */
  const NoContent: int := 204

  /** The URL addressing one post: the URN is escaped with `quote(urn, safe='')`
      and appended to the posts collection path. */
  function PostUrl(urn: string): (url: string)
    ensures |url| >= |BaseUrl + PostsPath + "/"| + |urn|
    ensures url[..|BaseUrl + PostsPath + "/"|] == BaseUrl + PostsPath + "/"
    ensures forall i :: |BaseUrl + PostsPath + "/"| <= i < |url| ==> PercentEncoding.IsEscapedChar(url[i])
  {
    BaseUrl + PostsPath + "/" + PercentEncoding.Quote(urn)
  }

  /** Reference inverse of `PostUrl`: strips the collection prefix and
      percent-decodes the rest. */
  function UrnOfPostUrl(url: string): Option<string> {
    var prefix := BaseUrl + PostsPath + "/";
    if |url| >= |prefix| && url[..|prefix|] == prefix then
      PercentEncoding.Unquote(url[|prefix|..])
    else None
  }

  /** The record returned for a 204: `{status: <verb>, post_urn: <urn>}`. */
  function StatusRecord(verb: string, urn: string): (j: Json)
    ensures j.JObject? && j.fields.Keys == {"status", "post_urn"}
    ensures j.fields["status"] == JString(verb) && j.fields["post_urn"] == JString(urn)
  {
    JObject(map["status" := JString(verb), "post_urn" := JString(urn)])
  }

  /** The 204 normalisation shared by delete and update: a No Content
      response becomes the status record without looking at the body; any
      other response is handed to the decoder. */
  function NoContentOr(resp: Response, decode: Decoder, verb: string, urn: string): (r: Result<Json, Error>)
    ensures resp.status == NoContent ==> r == Success(StatusRecord(verb, urn))
    ensures resp.status != NoContent ==> r == decode(resp)
  {
    if resp.status == NoContent then Success(StatusRecord(verb, urn)) else decode(resp)
  }

  /** The post URL determines the URN it was built from. */
  lemma UrnOfPostUrlRoundTrip(urn: string)
    ensures UrnOfPostUrl(PostUrl(urn)) == Some(urn)
  {
    var prefix := BaseUrl + PostsPath + "/";
    assert PostUrl(urn)[|prefix|..] == PercentEncoding.Quote(urn);
    PercentEncoding.UnquoteQuote(urn);
  }

  /** Distinct URNs address distinct posts. */
  lemma PostUrlInjective(urn1: string, urn2: string)
    requires PostUrl(urn1) == PostUrl(urn2)
    ensures urn1 == urn2
  {
    UrnOfPostUrlRoundTrip(urn1);
    UrnOfPostUrlRoundTrip(urn2);
  }

  /** The URN never leaks a path separator, query or fragment delimiter into
      the URL: everything after the collection prefix is unreserved or `%`. */
  lemma PostUrlSegmentIsOpaque(urn: string, i: int)
    requires |BaseUrl + PostsPath + "/"| <= i < |PostUrl(urn)|
    ensures PostUrl(urn)[i] !in {'/', '?', '#', ':'}
  {
  }

  /** Under a decoder that rejects non-2xx statuses, the 204 normalisation
      fails for every status outside 2xx, and succeeds with the fixed record
      on 204 whatever the body says. */
  lemma NoContentOrOutcome(resp: Response, decode: Decoder, verb: string, urn: string)
    requires RejectsNonSuccess(decode)
    ensures !IsSuccess(resp.status) ==> NoContentOr(resp, decode, verb, urn).Failure?
    ensures resp.status == NoContent ==>
      forall body: string :: NoContentOr(resp.(body := body), decode, verb, urn) == NoContentOr(resp, decode, verb, urn)
  {
  }
}
