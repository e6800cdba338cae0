/** `LinkedinApp.update_post`: the partial-update document, in which only
    the supplied fields appear, and the 204 normalisation of the response. */
module UpdatePost {
  import opened Wrappers
  import opened Json
  import opened Http
  import Headers

  /** The optional arguments of `update_post`; `None` is "not supplied",
      and any string, the empty one included, is "supplied". */
  datatype UpdateArgs = UpdateArgs(
    commentary: Option<string>,
    contentCallToActionLabel: Option<string>,
    contentLandingPage: Option<string>,
    lifecycleState: Option<string>,
    adContextName: Option<string>,
    adContextStatus: Option<string>)

  /** Wire names under `$set`. */
  const CommentaryKey: string := "commentary"
  const CallToActionKey: string := "contentCallToActionLabel"
  const LandingPageKey: string := "contentLandingPage"
  const LifecycleKey: string := "lifecycleState"

  /** Wire names under `adContext.$set`. */
  const DscNameKey: string := "dscName"
  const DscStatusKey: string := "dscStatus"

  const SetKey: string := "$set"
  const AdContextKey: string := "adContext"
  const PatchKey: string := "patch"

  const SetKeys: set<string> := {CommentaryKey, CallToActionKey, LandingPageKey, LifecycleKey}
  const AdKeys: set<string> := {DscNameKey, DscStatusKey}

  /** Inserts `key` only when a value was supplied. */
  function Put(fields: map<string, Json>, key: string, v: Option<string>): map<string, Json> {
    match v
    case None => fields
    case Some(s) => fields[key := JString(s)]
  }

  /** The value under `key`, if it is present and a string. */
  function Field(fields: map<string, Json>, key: string): Option<string> {
    if key in fields && fields[key].JString? then Some(fields[key].s) else None
  }

  /** Whether the sponsored-content sub-document is emitted. */
  predicate HasAdContext(a: UpdateArgs) {
    a.adContextName.Some? || a.adContextStatus.Some?
  }

  /** The primary `$set` document: a key for exactly each supplied field. */
  function SetDocument(a: UpdateArgs): (s: map<string, Json>)
    ensures s.Keys <= SetKeys && AllStrings(s)
    ensures Field(s, CommentaryKey) == a.commentary
    ensures Field(s, CallToActionKey) == a.contentCallToActionLabel
    ensures Field(s, LandingPageKey) == a.contentLandingPage
    ensures Field(s, LifecycleKey) == a.lifecycleState
  {
    var s := Put(map[], CommentaryKey, a.commentary);
    var s := Put(s, CallToActionKey, a.contentCallToActionLabel);
    var s := Put(s, LandingPageKey, a.contentLandingPage);
    Put(s, LifecycleKey, a.lifecycleState)
  }

  /** The `adContext.$set` document: a key for exactly each supplied ad field. */
  function AdDocument(a: UpdateArgs): (s: map<string, Json>)
    ensures s.Keys <= AdKeys && AllStrings(s)
    ensures Field(s, DscNameKey) == a.adContextName
    ensures Field(s, DscStatusKey) == a.adContextStatus
    ensures s == map[] <==> !HasAdContext(a)
  {
    var s := Put(map[], DscNameKey, a.adContextName);
    Put(s, DscStatusKey, a.adContextStatus)
  }

  /** The patch: `$set` always present, possibly empty; `adContext` beside it,
      not inside it, exactly when an ad field was supplied. */
  function Patch(a: UpdateArgs): (p: map<string, Json>)
    ensures p.Keys == if HasAdContext(a) then {SetKey, AdContextKey} else {SetKey}
    ensures p[SetKey] == JObject(SetDocument(a))
    ensures AdContextKey in p ==> p[AdContextKey] == JObject(map[SetKey := JObject(AdDocument(a))])
  {
    var p := map[SetKey := JObject(SetDocument(a))];
    if HasAdContext(a) then p[AdContextKey := JObject(map[SetKey := JObject(AdDocument(a))])] else p
  }

  /** The request body: the patch wrapped under `patch`. */
  function UpdateBody(a: UpdateArgs): (body: Json)
    ensures body.JObject? && body.fields.Keys == {PatchKey}
    ensures body.fields[PatchKey] == JObject(Patch(a))
  {
    JObject(map[PatchKey := JObject(Patch(a))])
  }

  /** Reference reading of an update body: the arguments it encodes, or
      `None` when it is not the shape `UpdateBody` produces (a key outside
      the known wire names, a non-string value, an empty `adContext.$set`). */
  function ReadUpdateBody(body: Json): Option<UpdateArgs> {
    if !body.JObject? || body.fields.Keys != {PatchKey} || !body.fields[PatchKey].JObject? then None
    else
      var p := body.fields[PatchKey].fields;
      if SetKey !in p || !(p.Keys <= {SetKey, AdContextKey}) || !p[SetKey].JObject? then None
      else
        var s := p[SetKey].fields;
        if !(s.Keys <= SetKeys) || !AllStrings(s) then None
        else
          var base := UpdateArgs(Field(s, CommentaryKey), Field(s, CallToActionKey),
                                 Field(s, LandingPageKey), Field(s, LifecycleKey), None, None);
          if AdContextKey !in p then Some(base)
          else
            var ad := p[AdContextKey];
            if !ad.JObject? || ad.fields.Keys != {SetKey} || !ad.fields[SetKey].JObject? then None
            else
              var d := ad.fields[SetKey].fields;
              if !(d.Keys <= AdKeys) || !AllStrings(d) || d == map[] then None
              else Some(base.(adContextName := Field(d, DscNameKey), adContextStatus := Field(d, DscStatusKey)))
  }

  /** The update request: POST (not PATCH) to the post's own URL. */
  function UpdateRequest(urn: string, a: UpdateArgs, headers: HeaderMap): (req: Request)
    ensures req.verb == POST && req.url == PostUrl(urn) && UrnOfPostUrl(req.url) == Some(urn)
    ensures req.headers == headers && req.params == map[] && req.body.Some?
  {
    UrnOfPostUrlRoundTrip(urn);
    Request(POST, PostUrl(urn), headers, Some(UpdateBody(a)), map[])
  }

  /** `update_post`: resolve the headers (failing before anything is sent),
      send the patch, and normalise 204 to `{status: "updated", post_urn}`. */
  function Update(integration: Option<Headers.Credentials>, urn: string, a: UpdateArgs,
                  send: Transport, decode: Decoder): (r: Result<Json, Error>)
    ensures Headers.GetHeaders(integration).Failure? ==> r == Failure(Headers.GetHeaders(integration).error)
    ensures Headers.GetHeaders(integration).Success? ==>
      var sent := send(UpdateRequest(urn, a, Headers.GetHeaders(integration).value));
      && (sent.Failure? ==> r == Failure(sent.error))
      && (sent.Success? && sent.value.status == NoContent ==> r == Success(StatusRecord("updated", urn)))
      && (sent.Success? && sent.value.status != NoContent ==> r == decode(sent.value))
  {
    match Headers.GetHeaders(integration)
    case Failure(e) => Failure(e)
    case Success(headers) =>
      match send(UpdateRequest(urn, a, headers))
      case Failure(e) => Failure(e)
      case Success(resp) => NoContentOr(resp, decode, "updated", urn)
  }

  // ---------------------------------------------------------------------
  // Properties
  // ---------------------------------------------------------------------

  lemma SetDocumentRead(a: UpdateArgs)
    ensures var s := SetDocument(a);
      s.Keys <= SetKeys && AllStrings(s)
      && UpdateArgs(Field(s, CommentaryKey), Field(s, CallToActionKey), Field(s, LandingPageKey),
                    Field(s, LifecycleKey), None, None)
         == a.(adContextName := None, adContextStatus := None)
  {
  }

  /** Reading an update body recovers every argument: nothing supplied is
      lost, nothing unsupplied appears. */
  lemma UpdateBodyRoundTrip(a: UpdateArgs)
    ensures ReadUpdateBody(UpdateBody(a)) == Some(a)
  {
    SetDocumentRead(a);
  }

  /** The update request carries every argument: its body reads back to them. */
  lemma UpdateRequestCarriesArgs(urn: string, a: UpdateArgs, headers: HeaderMap)
    ensures ReadUpdateBody(UpdateRequest(urn, a, headers).body.value) == Some(a)
  {
    UpdateBodyRoundTrip(a);
  }

  /** Two maps whose keys lie in `keys`, hold only strings, and agree on
      `Field` for every key in `keys` are equal. */
  lemma FieldsDetermineMap(m1: map<string, Json>, m2: map<string, Json>, keys: set<string>)
    requires m1.Keys <= keys && m2.Keys <= keys
    requires AllStrings(m1) && AllStrings(m2)
    requires forall k :: k in keys ==> Field(m1, k) == Field(m2, k)
    ensures m1 == m2
  {
    forall k | k in m1
      ensures k in m2 && m1[k] == m2[k]
    {
      assert Field(m1, k) == Field(m2, k);
    }
    forall k | k in m2
      ensures k in m1
    {
      assert Field(m1, k) == Field(m2, k);
    }
  }

  /** Conversely, every body the reader accepts is exactly the body built
      from the arguments it reads: the builder and the reader are inverse. */
  lemma UpdateBodyComplete(body: Json, a: UpdateArgs)
    requires ReadUpdateBody(body) == Some(a)
    ensures UpdateBody(a) == body
  {
    var p := body.fields[PatchKey].fields;
    var s := p[SetKey].fields;
    FieldsDetermineMap(SetDocument(a), s, SetKeys);
    if AdContextKey in p {
      var d := p[AdContextKey].fields[SetKey].fields;
      FieldsDetermineMap(AdDocument(a), d, AdKeys);
      assert p[AdContextKey] == JObject(map[SetKey := JObject(d)]);
      assert Patch(a) == p;
    } else {
      assert !HasAdContext(a);
      assert Patch(a) == p;
    }
  }

  /** With only `commentary` supplied the body is exactly
      `{"patch": {"$set": {"commentary": v}}}`. */
  lemma OnlyCommentaryBody(v: string)
    ensures UpdateBody(UpdateArgs(Some(v), None, None, None, None, None)) ==
      JObject(map[PatchKey := JObject(map[SetKey := JObject(map[CommentaryKey := JString(v)])])])
  {
  }

  /** With only `ad_context_status` supplied the body is exactly
      `{"patch": {"$set": {}, "adContext": {"$set": {"dscStatus": v}}}}`. */
  lemma OnlyAdStatusBody(v: string)
    ensures UpdateBody(UpdateArgs(None, None, None, None, None, Some(v))) ==
      JObject(map[PatchKey := JObject(map[
        SetKey := JObject(map[]),
        AdContextKey := JObject(map[SetKey := JObject(map[DscStatusKey := JString(v)])])])])
  {
  }

  /** Under a decoder that rejects non-2xx statuses, an update whose response
      is not 2xx fails. */
  lemma UpdateOutcome(integration: Option<Headers.Credentials>, urn: string, a: UpdateArgs,
                      send: Transport, decode: Decoder)
    requires RejectsNonSuccess(decode)
    requires Headers.GetHeaders(integration).Success?
    ensures var sent := send(UpdateRequest(urn, a, Headers.GetHeaders(integration).value));
      sent.Success? && !IsSuccess(sent.value.status) ==> Update(integration, urn, a, send, decode).Failure?
  {
  }
}
