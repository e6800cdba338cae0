# LinkedIn posts adapter — Dafny model

This project models the request-construction and response-normalisation
layer of `LinkedinApp`, the adapter that exposes LinkedIn's Posts API as
tools. It covers four things:

- header resolution from the integration's credentials (`_get_headers`);
- the body and result of `create_post`;
- the "only supplied fields appear" patch document of `update_post`;
- the 204 normalisation of `update_post` and `delete_post`.

It also models the URL-path escaping of post URNs (`quote(urn, safe='')`).

Modules, one per concern:

| file | module | models |
|---|---|---|
| `wrappers.dfy` | `Wrappers` | `Option` (Python's `None`) and `Result` (return or raise) |
| `json.dfy` | `Json` | JSON values of request and response bodies |
| `percent_encoding.dfy` | `PercentEncoding` | `quote(s, safe='')`: UTF-8, then percent-encoding of every byte outside the RFC 3986 section 2.3 unreserved set; a strict reference decoder as its partner |
| `http.dfy` | `Http` | errors, requests, responses, the post URL, and the shared 204 rule |
| `headers.dfy` | `Headers` | `_get_headers` |
| `create_post.dfy` | `CreatePost` | `create_post` |
| `update_post.dfy` | `UpdatePost` | `update_post` |
| `delete_post.dfy` | `DeletePost` | `delete_post` |

HTTP dispatch (`_post`, `_delete`) and the framework's response decoder
(`_handle_response`) come from a framework outside this model. They appear
as function-valued parameters. `send: Request -> Result<Response, Error>`
stands for dispatch; its `Failure` is an exception the HTTP client raises
before any response exists (a timeout, a refused connection,
`Http.DispatchFailed`), and every operation returns it unchanged.
`decode: Response -> Result<Json, Error>` stands for the decoder.
The only thing assumed about the decoder is `Http.RejectsNonSuccess`: it
fails for every status outside 2xx. That assumption appears as a `requires`
only on the lemmas that need it. The framework attaches the resolved headers
to every request. So each operation first calls `Headers.GetHeaders`, and a
failure there is returned before anything is sent.

The model follows the code where the code and its docstrings disagree:

- `create_post` returns the keys `post_urn` and `post_url` (app.py:97). The
  docstring at app.py:53 promises a single `post_id` key instead.
- The docstrings say a missing `post_urn`, `commentary` or `author` raises
  `ValueError` (app.py:56, 134, 180). The code never checks for this. An empty
  `post_urn` quotes to the empty string, so the request goes to the
  collection URL `/rest/posts/` (`DeletePost.EmptyUrnTargetsCollection`).
- `visibility` and `lifecycle_state` are sent as given. They are not checked
  against the documented enumerations.

## Model

| member | source | states |
|---|---|---|
| `Headers.GetHeaders` | src/universal_mcp_linkedin/app.py:14-25 | No integration gives `IntegrationNotFound`, and that is the only way to get it. Prebuilt `headers` in the credentials are returned unchanged, even when an access token is also present. Otherwise a missing `access_token` is an error exactly when it is absent. When the token is present, the result is exactly `BearerHeaders(token)`, the four default headers. |
| `Headers.BearerHeaders` | src/universal_mcp_linkedin/app.py:20-25 | Exactly four keys. `Authorization` is `Bearer ` followed by the whole token. `X-Restli-Protocol-Version` is `2.0.0`. `Content-Type` is `application/json`. `LinkedIn-Version` is `202507`. |
| `Headers.PrebuiltHeadersNotMerged` | src/universal_mcp_linkedin/app.py:18-19 | Prebuilt headers win over any access token, and no default header is merged in. An empty prebuilt map gives a request with no `Authorization` header. |
| `Headers.BearerHeadersInjective` | src/universal_mcp_linkedin/app.py:21 | Distinct tokens give distinct header sets, because the token is carried whole. |
| `CreatePost.WithDefaults` | src/universal_mcp_linkedin/app.py:27-34 | A call that supplies only `commentary` and `author` carries both unchanged, with visibility `PUBLIC`, lifecycle state `PUBLISHED`, resharing enabled, and the default distribution in its body. |
| `CreatePost.PostBody` | src/universal_mcp_linkedin/app.py:66-80 | The body has exactly the six keys. Each argument sits under its wire name unchanged and unvalidated. A missing distribution becomes `{feedDistribution: "MAIN_FEED", targetEntities: [], thirdPartyDistributionChannels: []}`. |
| `CreatePost.PostBodyRoundTrip` | src/universal_mcp_linkedin/app.py:73-80 | Reading the body back with the reference reader recovers every argument, with the distribution resolved. |
| `CreatePost.PostBodyComplete` | src/universal_mcp_linkedin/app.py:73-80 | Every body the reader accepts is the body of the call that supplies its fields. Builder and reader are inverse. |
| `CreatePost.CreateRequest` | src/universal_mcp_linkedin/app.py:82-89 | POST to `https://api.linkedin.com/rest/posts` with the resolved headers, exactly the post body of the arguments, and empty query parameters. |
| `CreatePost.PostResult` | src/universal_mcp_linkedin/app.py:91-97 | A decoder error is returned first. Next, an absent or empty `x-restli-id` gives `MissingPostId`, and only that case does. Otherwise, and exactly then, the result is `{post_urn: id, post_url: "https://www.linkedin.com/feed/update/" + id}` for the header value `id`, and `post_url` reads back to that URN through the feed-update prefix. |
| `CreatePost.Create` | src/universal_mcp_linkedin/app.py:82-97 | A header-resolution error is returned before anything is sent. A dispatch error is returned unchanged. Otherwise the result is the result read from the response to the create request. |
| `CreatePost.CreateFailsOnHttpError` | src/universal_mcp_linkedin/app.py:91 | If the decoder rejects non-2xx statuses, a create whose response is not 2xx fails. This holds whatever headers the response carries. |
| `CreatePost.CreateExampleBody` | src/universal_mcp_linkedin/app.py:27-80 | A call with only commentary and author sends `PUBLIC`, the default distribution, `PUBLISHED` and `false`. |
| `CreatePost.CreateExampleResult` | src/universal_mcp_linkedin/app.py:93-97 | The header `x-restli-id: urn:li:share:999` yields that URN and `https://www.linkedin.com/feed/update/urn:li:share:999`. |
| `UpdatePost.SetDocument` | src/universal_mcp_linkedin/app.py:193-203 | `$set` holds a string under `commentary`, `contentCallToActionLabel`, `contentLandingPage` or `lifecycleState` exactly when the matching argument was supplied. It holds no other key. |
| `UpdatePost.AdDocument` | src/universal_mcp_linkedin/app.py:205-210 | `adContext.$set` holds `dscName` or `dscStatus` exactly when supplied. It is empty exactly when neither ad field was supplied. |
| `UpdatePost.Patch` | src/universal_mcp_linkedin/app.py:193-211 | `$set` is always present, possibly empty. `adContext` is present exactly when an ad field was supplied. It is a sibling of `$set`, not nested inside it, and it holds only its own `$set`. |
| `UpdatePost.UpdateBody` | src/universal_mcp_linkedin/app.py:213 | The body is the patch wrapped under the single key `patch`. |
| `UpdatePost.UpdateBodyRoundTrip` | src/universal_mcp_linkedin/app.py:192-213 | The reference reader recovers all six optional arguments from the body. Nothing supplied is lost, and nothing unsupplied appears. |
| `UpdatePost.UpdateBodyComplete` | src/universal_mcp_linkedin/app.py:192-213 | Every body the reader accepts is exactly the body built from what it reads. Builder and reader are inverse. |
| `UpdatePost.OnlyCommentaryBody` | src/universal_mcp_linkedin/app.py:196-213 | With only `commentary` supplied, the body is exactly `{"patch": {"$set": {"commentary": v}}}`, with no `adContext`. |
| `UpdatePost.OnlyAdStatusBody` | src/universal_mcp_linkedin/app.py:205-213 | With only `ad_context_status` supplied, the body is exactly `{"patch": {"$set": {}, "adContext": {"$set": {"dscStatus": v}}}}`. |
| `UpdatePost.UpdateRequest` | src/universal_mcp_linkedin/app.py:189-219 | A POST with a body to exactly the post URL of the URN (which decodes back to the URN), with the resolved headers and empty query parameters. |
| `UpdatePost.UpdateRequestCarriesArgs` | src/universal_mcp_linkedin/app.py:213-219 | The body of the update request reads back to exactly the arguments supplied. |
| `UpdatePost.Update` | src/universal_mcp_linkedin/app.py:215-224 | A header error is returned before anything is sent. A dispatch error is returned unchanged. A 204 response gives `{status: "updated", post_urn: urn}`. Any other status gives the decoder's result. |
| `UpdatePost.UpdateOutcome` | src/universal_mcp_linkedin/app.py:221-224 | If the decoder rejects non-2xx statuses, an update whose response is not 2xx fails. |
| `DeletePost.DeleteRequest` | src/universal_mcp_linkedin/app.py:141-147 | A DELETE with no body and empty query parameters to exactly the post URL of the URN, which decodes back to the URN. |
| `DeletePost.Delete` | src/universal_mcp_linkedin/app.py:141-152 | A header error is returned before anything is sent. A dispatch error is returned unchanged. A 204 response gives `{status: "deleted", post_urn: urn}`. Any other status gives the decoder's result. |
| `DeletePost.DeleteOutcome` | src/universal_mcp_linkedin/app.py:149-152 | If the decoder rejects non-2xx statuses, a delete whose response is not 2xx fails. |
| `DeletePost.QuoteLinkedinUrn` | src/universal_mcp_linkedin/app.py:141 | For `urn:li:<kind>:<id>` with unreserved kind and id, each of the three colons becomes `%3A` and nothing else changes. |
| `DeletePost.DeleteUrlExample` | src/universal_mcp_linkedin/app.py:141 | The delete request for `urn:li:share:999` is addressed to `https://api.linkedin.com/rest/posts/urn%3Ali%3Ashare%3A999`. |
| `DeletePost.EmptyUrnTargetsCollection` | src/universal_mcp_linkedin/app.py:141 | An empty URN is not rejected. The request addresses `https://api.linkedin.com/rest/posts/`. |
| `Http.PostUrl` | src/universal_mcp_linkedin/app.py:189 | The post URL is the collection prefix followed only by unreserved characters and `%`, and it is at least as long as prefix plus URN. |
| `Http.UrnOfPostUrlRoundTrip` | src/universal_mcp_linkedin/app.py:141 | Stripping the prefix and percent-decoding the post URL gives back the URN. |
| `Http.PostUrlInjective` | src/universal_mcp_linkedin/app.py:189 | Distinct URNs address distinct posts. |
| `Http.PostUrlSegmentIsOpaque` | src/universal_mcp_linkedin/app.py:141 | No `/`, `?`, `#` or `:` of the URN survives into the path segment. |
| `Http.StatusRecord` | src/universal_mcp_linkedin/app.py:149-150 | The success record has exactly the keys `status` and `post_urn`, holding the verb and the caller's URN. |
| `Http.NoContentOr` | src/universal_mcp_linkedin/app.py:149-152 | Status 204 gives the status record without consulting the decoder. Any other status gives exactly the decoder's result. |
| `Http.NoContentOrOutcome` | src/universal_mcp_linkedin/app.py:221-224 | If the decoder rejects non-2xx statuses, every status outside 2xx fails. A 204 result does not depend on the response body. |
| `PercentEncoding.Quote` | src/universal_mcp_linkedin/app.py:141 | The output contains only unreserved characters and `%`, and it is never shorter than the input. |
| `PercentEncoding.UnquoteQuote` | src/universal_mcp_linkedin/app.py:189 | Strict percent-decoding followed by strict UTF-8 decoding undoes `quote` for every string. |
| `PercentEncoding.QuoteInjective` | src/universal_mcp_linkedin/app.py:141 | Distinct strings quote to distinct segments. |
| `PercentEncoding.QuoteUnreservedIdentity` | src/universal_mcp_linkedin/app.py:141 | A string made only of unreserved characters is left unchanged. |
| `PercentEncoding.QuoteAppend` | src/universal_mcp_linkedin/app.py:189 | Quoting works character by character: the quote of a concatenation is the concatenation of the quotes. |
| `PercentEncoding.QuoteReservedAscii` | src/universal_mcp_linkedin/app.py:141 | A reserved ASCII character becomes `%` followed by its two upper-case hex digits. |

## Left out

- `get_your_info` (app.py:99-121): it returns the decoder's result for a GET of `/v2/userinfo` unchanged, so there is nothing to state beyond that.
- `list_tools` (app.py:226-230) and `server.py`: tool registration and server wiring for the hosting framework; neither has any logic.
- HTTP dispatch and the internals of `_handle_response`: they do network I/O in a framework outside this model. They are parameters here, and the decoder is constrained only by `Http.RejectsNonSuccess`.
- `integration.get_credentials()`: an external collaborator. Its result for the current call is an input value (`Headers.Credentials`). Credentials are read once per call and never cached.
- Dynamic typing: every argument is modelled with the type its annotation gives (strings, a boolean, a JSON distribution). A non-string token formatted by the f-string at app.py:21 is not modelled.
- Response header lookup: the HTTP client's header mapping is case-insensitive. Response headers are modelled as a map keyed by lower-case names.
- JSON key order: objects are maps, so the insertion order of the source's dicts is not represented.
- `PercentEncoding.Quote`: strings containing lone surrogates are not modelled. Python's `quote` raises on them, and Dafny's `char` cannot hold them.
- The constructor's `base_url` assignment (app.py:12) is the constant `Http.BaseUrl`.
