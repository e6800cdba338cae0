/** `LinkedinApp.create_post`: the request body, the request, and the result
    read back from the `x-restli-id` response header. */
module CreatePost {
  import opened Wrappers
  import opened Json
  import opened Http
  import Headers

  /** The arguments of `create_post`. Only `distribution` is optional in the
      sense of `None`; the other defaults are filled in by the caller
      (`WithDefaults`). No argument is validated. */
  datatype CreatePostArgs = CreatePostArgs(
    commentary: string,
    author: string,
    visibility: string,
    distribution: Option<Json>,
    lifecycleState: string,
    isReshareDisabled: bool)

  /** The post as the remote API receives it, with the distribution resolved. */
  datatype PostRequest = PostRequest(
    author: string,
    commentary: string,
    visibility: string,
    distribution: Json,
    lifecycleState: string,
    isReshareDisabledByAuthor: bool)

  /** A call that supplies only the two required arguments. */
  function WithDefaults(commentary: string, author: string): (a: CreatePostArgs)
    ensures a.commentary == commentary && a.author == author
    ensures a.visibility == "PUBLIC" && a.lifecycleState == "PUBLISHED" && !a.isReshareDisabled
    ensures PostBody(a).fields["distribution"] == DefaultDistribution
  {
    CreatePostArgs(commentary, author, "PUBLIC", None, "PUBLISHED", false)
  }

  /** The distribution used when the caller supplies none. */
  const DefaultDistribution: Json :=
    JObject(map[
      "feedDistribution" := JString("MAIN_FEED"),
      "targetEntities" := JArray([]),
      "thirdPartyDistributionChannels" := JArray([])])

  /** The six keys of every create-post body. */
  const PostBodyKeys: set<string> :=
    {"author", "commentary", "visibility", "distribution", "lifecycleState", "isReshareDisabledByAuthor"}

  /** The request body: each argument under its wire name, unchanged, and
      the default distribution when none was supplied. */
  function PostBody(a: CreatePostArgs): (body: Json)
    ensures body.JObject? && body.fields.Keys == PostBodyKeys
    ensures body.fields["author"] == JString(a.author)
    ensures body.fields["commentary"] == JString(a.commentary)
    ensures body.fields["visibility"] == JString(a.visibility)
    ensures a.distribution.Some? ==> body.fields["distribution"] == a.distribution.value
    ensures a.distribution.None? ==> body.fields["distribution"] == DefaultDistribution
    ensures body.fields["lifecycleState"] == JString(a.lifecycleState)
    ensures body.fields["isReshareDisabledByAuthor"] == JBool(a.isReshareDisabled)
  {
    JObject(map[
      "author" := JString(a.author),
      "commentary" := JString(a.commentary),
      "visibility" := JString(a.visibility),
      "distribution" := a.distribution.GetOr(DefaultDistribution),
      "lifecycleState" := JString(a.lifecycleState),
      "isReshareDisabledByAuthor" := JBool(a.isReshareDisabled)])
  }

  /** Reference reading of a create-post body: exactly the six keys, with a
      string, JSON or boolean value as each field demands. */
  function ReadPostBody(body: Json): Option<PostRequest> {
    if !body.JObject? || body.fields.Keys != PostBodyKeys then None
    else
      var f := body.fields;
      if f["author"].JString? && f["commentary"].JString? && f["visibility"].JString?
         && f["lifecycleState"].JString? && f["isReshareDisabledByAuthor"].JBool? then
        Some(PostRequest(f["author"].s, f["commentary"].s, f["visibility"].s,
                         f["distribution"], f["lifecycleState"].s, f["isReshareDisabledByAuthor"].b))
      else None
  }

  /** The create request: POST to the posts collection with the resolved
      headers, the body and empty query parameters. */
  function CreateRequest(a: CreatePostArgs, headers: HeaderMap): (req: Request)
    ensures req.verb == POST && req.url == BaseUrl + PostsPath
    ensures req.headers == headers && req.params == map[]
    ensures req.body == Some(PostBody(a))
  {
    Request(POST, BaseUrl + PostsPath, headers, Some(PostBody(a)), map[])
  }

  /** The response header carrying the new post's URN (looked up by its
      lower-case name). */
  const RestliIdHeader: string := "x-restli-id"

  /** The fixed prefix of a post's public URL. */
  const FeedUpdatePrefix: string := "https://www.linkedin.com/feed/update/"

  /** The result of a create: the decoder runs first and its error wins; then
      a missing or empty `x-restli-id` is an error; otherwise the URN and the
      feed URL derived from it. */
  function PostResult(resp: Response, decode: Decoder): (r: Result<map<string, string>, Error>)
    ensures decode(resp).Failure? ==> r == Failure(decode(resp).error)
    ensures decode(resp).Success? ==>
      (r == Failure(MissingPostId) <==> RestliIdHeader !in resp.headers || resp.headers[RestliIdHeader] == "")
    ensures decode(resp).Success? && RestliIdHeader in resp.headers && resp.headers[RestliIdHeader] != "" ==>
      r == Success(map["post_urn" := resp.headers[RestliIdHeader],
                       "post_url" := FeedUpdatePrefix + resp.headers[RestliIdHeader]])
    ensures r.Success? ==>
      && decode(resp).Success?
      && r.value.Keys == {"post_urn", "post_url"}
      && RestliIdHeader in resp.headers
      && r.value["post_urn"] == resp.headers[RestliIdHeader] != ""
      && UrnOfFeedUrl(r.value["post_url"]) == Some(r.value["post_urn"])
  {
    match decode(resp)
    case Failure(e) => Failure(e)
    case Success(_) =>
      if RestliIdHeader !in resp.headers || resp.headers[RestliIdHeader] == "" then
        Failure(MissingPostId)
      else
        var id := resp.headers[RestliIdHeader];
        Success(map["post_urn" := id, "post_url" := FeedUpdatePrefix + id])
  }

  /** Reference reading of a feed URL: the URN after the fixed prefix. */
  function UrnOfFeedUrl(url: string): Option<string> {
    if |url| >= |FeedUpdatePrefix| && url[..|FeedUpdatePrefix|] == FeedUpdatePrefix then
      Some(url[|FeedUpdatePrefix|..])
    else None
  }

  /** `create_post`: resolve the headers (failing before anything is sent),
      send the create request (a dispatch error passes through), and read
      the result. */
  function Create(integration: Option<Headers.Credentials>, a: CreatePostArgs,
                  send: Transport, decode: Decoder): (r: Result<map<string, string>, Error>)
    ensures integration.None? ==> r == Failure(IntegrationNotFound)
    ensures Headers.GetHeaders(integration).Failure? ==> r == Failure(Headers.GetHeaders(integration).error)
    ensures Headers.GetHeaders(integration).Success? ==>
      var sent := send(CreateRequest(a, Headers.GetHeaders(integration).value));
      && (sent.Failure? ==> r == Failure(sent.error))
      && (sent.Success? ==> r == PostResult(sent.value, decode))
  {
    match Headers.GetHeaders(integration)
    case Failure(e) => Failure(e)
    case Success(headers) =>
      match send(CreateRequest(a, headers))
      case Failure(e) => Failure(e)
      case Success(resp) => PostResult(resp, decode)
  }

  // ---------------------------------------------------------------------
  // Properties
  // ---------------------------------------------------------------------

  /** The body carries every argument through unchanged, distribution
      resolved to the default when absent. */
  lemma PostBodyRoundTrip(a: CreatePostArgs)
    ensures ReadPostBody(PostBody(a)) ==
      Some(PostRequest(a.author, a.commentary, a.visibility,
                       a.distribution.GetOr(DefaultDistribution),
                       a.lifecycleState, a.isReshareDisabled))
  {
  }

  /** Conversely, every well-formed body is the body of the call that
      supplies its fields as arguments: `PostBody` misses no body. */
  lemma PostBodyComplete(body: Json, p: PostRequest)
    requires ReadPostBody(body) == Some(p)
    ensures PostBody(CreatePostArgs(p.commentary, p.author, p.visibility, Some(p.distribution),
                                    p.lifecycleState, p.isReshareDisabledByAuthor)) == body
  {
    var a := CreatePostArgs(p.commentary, p.author, p.visibility, Some(p.distribution),
                            p.lifecycleState, p.isReshareDisabledByAuthor);
    var mine := PostBody(a).fields;
    assert mine.Keys == body.fields.Keys;
    forall k | k in mine
      ensures mine[k] == body.fields[k]
    {
    }
  }

  /** Under a decoder that rejects non-2xx statuses, a create with a
      non-2xx response fails whatever headers the response carries. */
  lemma CreateFailsOnHttpError(integration: Option<Headers.Credentials>, a: CreatePostArgs,
                               send: Transport, decode: Decoder)
    requires RejectsNonSuccess(decode)
    requires Headers.GetHeaders(integration).Success?
    requires send(CreateRequest(a, Headers.GetHeaders(integration).value)).Success?
    requires !IsSuccess(send(CreateRequest(a, Headers.GetHeaders(integration).value)).value.status)
    ensures Create(integration, a, send, decode).Failure?
  {
  }

  /** The end-to-end example, request side: a call with only commentary and
      author sends the defaults. */
  lemma CreateExampleBody()
    ensures PostBody(WithDefaults("Hello #world", "urn:li:person:abc123")) == JObject(map[
      "author" := JString("urn:li:person:abc123"),
      "commentary" := JString("Hello #world"),
      "visibility" := JString("PUBLIC"),
      "distribution" := DefaultDistribution,
      "lifecycleState" := JString("PUBLISHED"),
      "isReshareDisabledByAuthor" := JBool(false)])
  {
  }

  /** The end-to-end example, response side: the URN in the `x-restli-id`
      header comes back with its feed URL. */
  lemma CreateExampleResult(resp: Response, decode: Decoder)
    requires resp.headers == map[RestliIdHeader := "urn:li:share:999"]
    requires decode(resp).Success?
    ensures PostResult(resp, decode) ==
      Success(map["post_urn" := "urn:li:share:999",
                  "post_url" := "https://www.linkedin.com/feed/update/urn:li:share:999"])
  {
    assert FeedUpdatePrefix + "urn:li:share:999" == "https://www.linkedin.com/feed/update/urn:li:share:999";
    assert resp.headers[RestliIdHeader] == "urn:li:share:999";
  }
}
