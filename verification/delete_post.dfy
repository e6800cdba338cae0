/** `LinkedinApp.delete_post`: a DELETE of the post's own URL, with 204
    normalised to `{status: "deleted", post_urn}`. */
module DeletePost {
  import opened Wrappers
  import opened Json
  import opened Http
  import Headers
  import PercentEncoding

  /** The delete request: no body, empty query parameters. */
  function DeleteRequest(urn: string, headers: HeaderMap): (req: Request)
    ensures req.verb == DELETE && req.url == PostUrl(urn) && UrnOfPostUrl(req.url) == Some(urn)
    ensures req.headers == headers && req.body.None? && req.params == map[]
  {
    UrnOfPostUrlRoundTrip(urn);
    Request(DELETE, PostUrl(urn), headers, None, map[])
  }

  /** `delete_post`: resolve the headers (failing before anything is sent),
      send the delete, and normalise 204 to `{status: "deleted", post_urn}`. */
  function Delete(integration: Option<Headers.Credentials>, urn: string,
                  send: Transport, decode: Decoder): (r: Result<Json, Error>)
    ensures Headers.GetHeaders(integration).Failure? ==> r == Failure(Headers.GetHeaders(integration).error)
    ensures Headers.GetHeaders(integration).Success? ==>
      var sent := send(DeleteRequest(urn, Headers.GetHeaders(integration).value));
      && (sent.Failure? ==> r == Failure(sent.error))
      && (sent.Success? && sent.value.status == NoContent ==> r == Success(StatusRecord("deleted", urn)))
      && (sent.Success? && sent.value.status != NoContent ==> r == decode(sent.value))
  {
    match Headers.GetHeaders(integration)
    case Failure(e) => Failure(e)
    case Success(headers) =>
      match send(DeleteRequest(urn, headers))
      case Failure(e) => Failure(e)
      case Success(resp) => NoContentOr(resp, decode, "deleted", urn)
  }

  /** Under a decoder that rejects non-2xx statuses, a delete whose response
      is not 2xx fails. */
  lemma DeleteOutcome(integration: Option<Headers.Credentials>, urn: string,
                      send: Transport, decode: Decoder)
    requires RejectsNonSuccess(decode)
    requires Headers.GetHeaders(integration).Success?
    ensures var sent := send(DeleteRequest(urn, Headers.GetHeaders(integration).value));
      sent.Success? && !IsSuccess(sent.value.status) ==> Delete(integration, urn, send, decode).Failure?
  {
  }

  /** The quote of one `:`. */
  lemma QuoteColon()
    ensures PercentEncoding.Quote(":") == "%3A"
  {
    PercentEncoding.QuoteReservedAscii(':');
  }

  /** Appending `":" + word` to a quoted prefix, for a word of unreserved
      characters, appends `"%3A" + word`. */
  lemma QuoteColonWord(prefix: string, word: string)
    requires forall i :: 0 <= i < |word| ==> PercentEncoding.IsUnreserved(word[i])
    ensures PercentEncoding.Quote(prefix + ":" + word) == PercentEncoding.Quote(prefix) + "%3A" + word
  {
    QuoteColon();
    PercentEncoding.QuoteUnreservedIdentity(word);
    PercentEncoding.QuoteAppend(prefix, ":");
    PercentEncoding.QuoteAppend(prefix + ":", word);
  }

  lemma QuoteUrnLi()
    ensures PercentEncoding.Quote("urn:li") == "urn%3Ali"
  {
    PercentEncoding.QuoteUnreservedIdentity("urn");
    QuoteColonWord("urn", "li");
    assert "urn" + ":" + "li" == "urn:li";
  }

  lemma QuoteUrnLiKind(kind: string)
    requires forall i :: 0 <= i < |kind| ==> PercentEncoding.IsUnreserved(kind[i])
    ensures PercentEncoding.Quote("urn:li:" + kind) == "urn%3Ali%3A" + kind
  {
    QuoteUrnLi();
    QuoteColonWord("urn:li", kind);
    assert "urn:li" + ":" + kind == "urn:li:" + kind;
  }

  /** A LinkedIn URN `urn:li:<kind>:<id>` with unreserved kind and id has
      each of its three colons escaped and nothing else changed. */
  lemma QuoteLinkedinUrn(kind: string, id: string)
    requires forall i :: 0 <= i < |kind| ==> PercentEncoding.IsUnreserved(kind[i])
    requires forall i :: 0 <= i < |id| ==> PercentEncoding.IsUnreserved(id[i])
    ensures PercentEncoding.Quote("urn:li:" + kind + ":" + id) == "urn%3Ali%3A" + kind + "%3A" + id
  {
    QuoteUrnLiKind(kind);
    QuoteColonWord("urn:li:" + kind, id);
  }

  /** The delete example: `urn:li:share:999` is sent to
      `.../rest/posts/urn%3Ali%3Ashare%3A999`. */
  lemma DeleteUrlExample(headers: HeaderMap)
    ensures DeleteRequest("urn:li:share:999", headers).url == BaseUrl + PostsPath + "/" + "urn%3Ali%3Ashare%3A999"
  {
    assert PercentEncoding.Quote("urn:li:share:999") == "urn%3Ali%3Ashare%3A999" by {
      QuoteLinkedinUrn("share", "999");
      assert "urn:li:" + "share" + ":" + "999" == "urn:li:share:999";
      assert "urn%3Ali%3A" + "share" + "%3A" + "999" == "urn%3Ali%3Ashare%3A999";
    }
  }

  /** The code does not reject an empty URN: the request then addresses the
      posts collection itself, with a trailing slash. */
  lemma EmptyUrnTargetsCollection(headers: HeaderMap)
    ensures DeleteRequest("", headers).url == BaseUrl + PostsPath + "/"
  {
  }
}
