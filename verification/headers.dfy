/** Header resolution (`LinkedinApp._get_headers`): the credentials of the
    attached integration either carry a prebuilt header mapping, used
    verbatim, or an access token, from which four fixed headers are built. */
module Headers {
  import opened Wrappers
  import opened Http

  /** What the integration's `get_credentials()` returns at the time of the
      call. The source probes a mapping for the keys `headers` and
      `access_token`; either, both or neither may be present. */
  datatype Credentials = Credentials(headers: Option<HeaderMap>, accessToken: Option<string>)

  const AuthorizationName: string := "Authorization"
  const ProtocolVersionName: string := "X-Restli-Protocol-Version"
  const ContentTypeName: string := "Content-Type"
  const ApiVersionName: string := "LinkedIn-Version"

  const ProtocolVersion: string := "2.0.0"
  const ContentType: string := "application/json"
  const ApiVersion: string := "202507"

  const BearerPrefix: string := "Bearer "

  /** The four header names synthesised from an access token. */
  const DefaultHeaderNames: set<string> :=
    {AuthorizationName, ProtocolVersionName, ContentTypeName, ApiVersionName}

  /** The headers built from an access token. */
  function BearerHeaders(token: string): (h: HeaderMap)
    ensures h.Keys == DefaultHeaderNames
    ensures |h| == 4
    ensures BearerToken(h[AuthorizationName]) == Some(token)
    ensures h[ProtocolVersionName] == ProtocolVersion
    ensures h[ContentTypeName] == ContentType
    ensures h[ApiVersionName] == ApiVersion
  {
    map[AuthorizationName := BearerPrefix + token,
        ProtocolVersionName := ProtocolVersion,
        ContentTypeName := ContentType,
        ApiVersionName := ApiVersion]
  }

  /** `_get_headers`: no integration is a configuration error raised before
      any credentials are read; prebuilt headers take full precedence and
      are returned as they are; otherwise the access token is required. */
  function GetHeaders(integration: Option<Credentials>): (r: Result<HeaderMap, Error>)
    ensures integration.None? <==> r == Failure(IntegrationNotFound)
    ensures integration.Some? && integration.value.headers.Some? ==>
      r == Success(integration.value.headers.value)
    ensures integration.Some? && integration.value.headers.None? ==>
      (r == Failure(MissingAccessToken) <==> integration.value.accessToken.None?)
    ensures integration.Some? && integration.value.headers.None? && integration.value.accessToken.Some? ==>
      r == Success(BearerHeaders(integration.value.accessToken.value))
  {
    match integration
    case None => Failure(IntegrationNotFound)
    case Some(creds) =>
      if creds.headers.Some? then Success(creds.headers.value)
      else if creds.accessToken.Some? then Success(BearerHeaders(creds.accessToken.value))
      else Failure(MissingAccessToken)
  }

  /** Reference reading of an `Authorization` value: the token after the
      `Bearer ` scheme, if the value has that form. */
  function BearerToken(auth: string): Option<string> {
    if |auth| >= |BearerPrefix| && auth[..|BearerPrefix|] == BearerPrefix then
      Some(auth[|BearerPrefix|..])
    else None
  }

  /** Prebuilt headers are never merged with the defaults: whatever the token,
      the result has exactly the prebuilt keys, so an empty prebuilt mapping
      yields a request with no `Authorization` header at all. */
  lemma PrebuiltHeadersNotMerged(prebuilt: HeaderMap, token: Option<string>)
    ensures GetHeaders(Some(Credentials(Some(prebuilt), token))) == Success(prebuilt)
    ensures prebuilt == map[] ==>
      AuthorizationName !in GetHeaders(Some(Credentials(Some(prebuilt), token))).value
  {
  }

  /** Distinct tokens give distinct header sets: the token is carried whole. */
  lemma BearerHeadersInjective(t1: string, t2: string)
    requires BearerHeaders(t1) == BearerHeaders(t2)
    ensures t1 == t2
  {
  }
}
