/**
 * The streaming reverse proxy (`proxy-2`): the inbound request is transposed into a request
 * for the back-end, and the back-end's response into the response for the client. Bodies
 * are relayed chunk by chunk; framing headers (section 3.3 of RFC 7230) are dropped and
 * regenerated by the outbound layer.
 */
module StreamingProxy {
  import opened ByteStrings
  import opened Results
  import opened HttpHeaders
  import opened Decimal
  import opened ProxyMessages

  /** Header names the forwarded request never carries. */
  const REQUEST_DROPPED: set<Bytes> := {CONTENT_TYPE, CONTENT_LENGTH, TRANSFER_ENCODING}

  /** Header names the returned response never carries. */
  const RESPONSE_DROPPED: set<Bytes> := {DATE, SERVER, CONTENT_TYPE, CONTENT_LENGTH, TRANSFER_ENCODING}

  /**
   * `get_content_length`: the first `content-length` value as an integer, -1 when the
   * header is absent or empty, and `ValueError` when it is not an integer.
   */
  function GetContentLength(hs: seq<Header>): (r: Result<int, ProxyError>)
    ensures GetFirst(hs, CONTENT_LENGTH) == None ==> r == Ok(-1)
    ensures GetFirst(hs, CONTENT_LENGTH) == Some([]) ==> r == Ok(-1)
    ensures forall v :: GetFirst(hs, CONTENT_LENGTH) == Some(v) && v != [] ==>
              (r.Ok? <==> IsIntText(v)) && (r.Ok? ==> ParseInt(v) == Some(r.value))
  {
    match GetFirst(hs, CONTENT_LENGTH)
    case None => Ok(-1)
    case Some(v) =>
      if v == [] then Ok(-1)
      else match ParseInt(v)
        case Some(n) => Ok(n)
        case None => Err(ValueError(v))
  }

  /** A declared length, under any capitalisation of the header name, is read back exactly. */
  lemma DeclaredLength(name: Bytes, n: nat, rest: seq<Header>)
    requires Lower(name) == CONTENT_LENGTH
    ensures GetContentLength([(name, ShowNat(n))] + rest) == Ok(n)
  {
    var hs := [(name, ShowNat(n))] + rest;
    assert NameIs(hs[0], CONTENT_LENGTH);
    assert GetFirst(hs, CONTENT_LENGTH) == Some(ShowNat(n));
    ParseShowNat(n);
  }

  /** `_get_proxied_request`. */
  function ProxiedRequest(request: Inbound): (r: Result<Outbound, ProxyError>)
    ensures r.Err? <==> GetContentLength(request.headers).Err?
    ensures r.Ok? ==> r.value.verb == request.verb && r.value.url == request.url
    ensures r.Ok? ==> r.value.headers == WithoutNames(request.headers, REQUEST_DROPPED)
    ensures r.Ok? ==> (r.value.content.Some? <==> GetFirst(request.headers, CONTENT_TYPE).Some?)
    ensures r.Ok? && r.value.content.Some? ==>
              var ct := GetFirst(request.headers, CONTENT_TYPE).value;
              r.value.content.value == Content(if ct == [] then OCTET_STREAM else ct, request.body,
                                               GetContentLength(request.headers).value)
  {
    var contentLength :- GetContentLength(request.headers);
    var contentType := GetFirst(request.headers, CONTENT_TYPE);
    var content :=
      if contentType.None? then None
      else Some(Content(if contentType.value == [] then OCTET_STREAM else contentType.value,
                        Relay(request.body), contentLength));
    var headers := WithoutNames(request.headers, REQUEST_DROPPED);
    Ok(Outbound(request.verb, request.url, headers, content))
  }

  /** `_get_proxied_response`. */
  function ProxiedResponse(response: BackendResponse): (r: Result<Response, ProxyError>)
    ensures r.Err? <==> GetContentLength(response.headers).Err?
    ensures r.Ok? ==> r.value.status == response.status
    ensures r.Ok? ==> r.value.headers == WithoutNames(response.headers, RESPONSE_DROPPED)
    ensures r.Ok? ==> (r.value.content.Some? <==> GetFirst(response.headers, CONTENT_TYPE) !in {None, Some([])})
    ensures r.Ok? && r.value.content.Some? ==>
              r.value.content.value == Content(GetFirst(response.headers, CONTENT_TYPE).value, response.body,
                                               GetContentLength(response.headers).value)
  {
    var contentType := GetFirst(response.headers, CONTENT_TYPE);
    var headers := WithoutNames(response.headers, RESPONSE_DROPPED);
    var contentLength :- GetContentLength(response.headers);
    var content :=
      if contentType.Some? && contentType.value != [] then
        Some(Content(contentType.value, Relay(response.body), contentLength))
      else None;
    Ok(Response(response.status, headers, content))
  }

  /** `proxy_all`: transpose the request, send it through `send`, transpose the response. */
  function ProxyAll(request: Inbound, send: Outbound -> BackendResponse): (r: Result<Response, ProxyError>)
    requires request.verb in ROUTE_METHODS
    ensures r.Ok? ==> ProxiedRequest(request).Ok?
    ensures r.Ok? ==> r == ProxiedResponse(send(ProxiedRequest(request).value))
    ensures ProxiedRequest(request).Err? ==> r.Err?
    ensures ProxiedRequest(request).Err? ==> r == Err(ProxiedRequest(request).error)
    ensures ProxiedRequest(request).Ok? ==> r == ProxiedResponse(send(ProxiedRequest(request).value))
  {
    var outbound :- ProxiedRequest(request);
    ProxiedResponse(send(outbound))
  }

  /**
   * The forwarded request carries no framing header and no content type of its own, and every
   * other header is found with the same first value as in the inbound request.
   */
  lemma ForwardedHeaders(request: Inbound, name: Bytes)
    requires ProxiedRequest(request).Ok?
    ensures Lower(name) in REQUEST_DROPPED ==> GetFirst(ProxiedRequest(request).value.headers, name) == None
    ensures Lower(name) !in REQUEST_DROPPED ==>
              GetFirst(ProxiedRequest(request).value.headers, name) == GetFirst(request.headers, name)
  {
    GetFirstWithoutNames(request.headers, REQUEST_DROPPED, name);
  }

  /** Date, Server and the framing headers never reach the client; the rest keep their first values. */
  lemma ReturnedHeaders(response: BackendResponse, name: Bytes)
    requires ProxiedResponse(response).Ok?
    ensures Lower(name) in RESPONSE_DROPPED ==> GetFirst(ProxiedResponse(response).value.headers, name) == None
    ensures Lower(name) !in RESPONSE_DROPPED ==>
              GetFirst(ProxiedResponse(response).value.headers, name) == GetFirst(response.headers, name)
  {
    GetFirstWithoutNames(response.headers, RESPONSE_DROPPED, name);
  }

  /** Whatever the back-end sends, the client receives the same bytes in the same chunks. */
  lemma BodiesRelayedUnchanged(request: Inbound, response: BackendResponse)
    ensures ProxiedRequest(request).Ok? && ProxiedRequest(request).value.content.Some? ==>
              Concat(ProxiedRequest(request).value.content.value.chunks) == Concat(request.body)
    ensures ProxiedResponse(response).Ok? && ProxiedResponse(response).value.content.Some? ==>
              Concat(ProxiedResponse(response).value.content.value.chunks) == Concat(response.body)
  {
  }

  /** The capitalised names browsers send are the names the proxy looks for. */
  lemma CapitalisedNames()
    ensures Lower(Ascii("Content-Type")) == CONTENT_TYPE
    ensures Lower(Ascii("Content-Length")) == CONTENT_LENGTH
    ensures CONTENT_TYPE != CONTENT_LENGTH
  {
  }

  /** The headers of a request that declares its type first and its length second. */
  lemma DeclaredHeaders(ct: Bytes, n: nat, rest: seq<Header>)
    ensures var hs := [(Ascii("Content-Type"), ct), (Ascii("Content-Length"), ShowNat(n))] + rest;
      GetFirst(hs, CONTENT_TYPE) == Some(ct) && GetContentLength(hs) == Ok(n)
      && WithoutNames(hs, REQUEST_DROPPED) == WithoutNames(rest, REQUEST_DROPPED)
  {
    var first: Header := (Ascii("Content-Type"), ct);
    var second: Header := (Ascii("Content-Length"), ShowNat(n));
    var tail := [second] + rest;
    var hs := [first] + tail;
    assert hs == [first, second] + rest;
    CapitalisedNames();
    assert hs[1..] == tail && tail[1..] == rest;
    assert NameIs(first, CONTENT_TYPE) && !NameIs(first, CONTENT_LENGTH);
    assert GetFirst(hs, CONTENT_LENGTH) == GetFirst(tail, CONTENT_LENGTH);
    DeclaredLength(Ascii("Content-Length"), n, rest);
    assert Lower(first.0) in REQUEST_DROPPED && Lower(second.0) in REQUEST_DROPPED;
  }

  /** A request declaring `Content-Type` and a decimal `Content-Length` is forwarded with that length. */
  lemma ForwardedLength(verb: string, url: Bytes, ct: Bytes, n: nat, rest: seq<Header>, body: seq<Bytes>)
    requires ct != []
    ensures var request := Inbound(verb, url, [(Ascii("Content-Type"), ct), (Ascii("Content-Length"), ShowNat(n))] + rest, body);
      ProxiedRequest(request) == Ok(Outbound(verb, url, WithoutNames(rest, REQUEST_DROPPED), Some(Content(ct, body, n))))
  {
    DeclaredHeaders(ct, n, rest);
  }
}
