/**
 * The first reverse proxy (`proxy`): the request body is re-framed with chunked transfer
 * coding (section 4.1 of RFC 7230) while a counter records how many bytes were relayed, and
 * the response is returned with chunked framing too. Its response headers are built from
 * the inbound REQUEST's headers, which this model keeps.
 */
module ChunkedProxy {
  import opened ByteStrings
  import opened Results
  import opened HttpHeaders
  import opened Decimal
  import opened ProxyMessages

  const TE_CHUNKED: Header := (TRANSFER_ENCODING, Ascii("chunked"))

  /** Header names dropped from the response list. */
  const RESPONSE_DROPPED: set<Bytes> := {DATE, SERVER, CONTENT_LENGTH}

  /**
   * `gen`: yields each inbound chunk and adds its length to the enclosing `length` counter.
   * The outputs are the chunks yielded and the counter once the stream is exhausted.
   */
  method Gen(stream: seq<Bytes>) returns (yielded: seq<Bytes>, length: nat)
    ensures yielded == stream
    ensures length == TotalLength(stream)
    ensures length == |Concat(yielded)|
  {
    yielded, length := [], 0;
    for i := 0 to |stream|
      invariant yielded == stream[..i]
      invariant length == TotalLength(stream[..i])
    {
      yielded := yielded + [stream[i]];
      TotalLengthStep(stream, i);
      length := length + |stream[i]|;
    }
    assert stream[..|stream|] == stream;
    ConcatLength(stream);
  }

  /** `int(request.headers.get_first(b"Content-Length") or 0)`: absent and empty both read as 0. */
  function SourceContentLength(hs: seq<Header>): (r: Result<int, ProxyError>)
    ensures GetFirst(hs, CONTENT_LENGTH) in {None, Some([])} ==> r == Ok(0)
    ensures forall v :: GetFirst(hs, CONTENT_LENGTH) == Some(v) && v != [] ==>
              (r.Ok? <==> IsIntText(v)) && (r.Ok? ==> ParseInt(v) == Some(r.value))
  {
    match GetFirst(hs, CONTENT_LENGTH)
    case None => Ok(0)
    case Some(v) =>
      if v == [] then Ok(0)
      else match ParseInt(v)
        case Some(n) => Ok(n)
        case None => Err(ValueError(v))
  }

  /** The forwarded request's headers: every `content-length` dropped, then chunked framing appended. */
  function ForwardedHeaders(hs: seq<Header>): (r: seq<Header>)
    ensures |r| >= 1 && r[|r| - 1] == TE_CHUNKED
    ensures r[..|r| - 1] == WithoutNames(hs, {CONTENT_LENGTH})
  {
    WithoutNames(hs, {CONTENT_LENGTH}) + [TE_CHUNKED]
  }

  /** The request sent to the back-end: always with a streamed body and no declared length. */
  function ForwardedRequest(request: Inbound): (r: Outbound)
    ensures r.verb == request.verb && r.url == request.url
    ensures r.content.Some? && r.content.value.chunks == request.body && r.content.value.length == -1
    ensures r.headers == ForwardedHeaders(request.headers)
    ensures GetFirst(request.headers, CONTENT_TYPE) in {None, Some([])} ==> r.content.value.contentType == OCTET_STREAM
    ensures GetFirst(request.headers, CONTENT_TYPE).Some? && GetFirst(request.headers, CONTENT_TYPE).value != [] ==>
              r.content.value.contentType == GetFirst(request.headers, CONTENT_TYPE).value
  {
    var ct := GetFirst(request.headers, CONTENT_TYPE);
    Outbound(request.verb, request.url, ForwardedHeaders(request.headers),
             Some(Content(if ct.Some? && ct.value != [] then ct.value else OCTET_STREAM, request.body, -1)))
  }

  /** `response_content_reader`: every back-end chunk in order, then one empty chunk. */
  function ResponseContentReader(chunks: seq<Bytes>): (r: seq<Bytes>)
    ensures |r| == |chunks| + 1 && r[..|chunks|] == chunks && r[|chunks|] == []
    ensures Concat(r) == Concat(chunks)
  {
    var r := Relay(chunks) + [[]];
    assert r[..|r| - 1] == chunks;
    r
  }

  /** The response headers: the REQUEST's headers minus Date, Server and Content-Length, then chunked framing. */
  function ResponseHeaders(requestHeaders: seq<Header>): (r: seq<Header>)
    ensures |r| >= 1 && r[|r| - 1] == TE_CHUNKED
    ensures r[..|r| - 1] == WithoutNames(requestHeaders, RESPONSE_DROPPED)
  {
    WithoutNames(requestHeaders, RESPONSE_DROPPED) + [TE_CHUNKED]
  }

  /** What `proxy_all` returns, and the counter `gen` leaves behind. */
  datatype Exchange = Exchange(response: Response, proxiedLength: nat)

  /** `proxy_all` up to its first `return`; `send` stands for the HTTP client. */
  method ProxyAll(request: Inbound, send: Outbound -> BackendResponse) returns (r: Result<Exchange, ProxyError>)
    requires request.verb in ROUTE_METHODS
    ensures r.Err? <==> SourceContentLength(request.headers).Err?
    ensures r.Ok? ==>
              var backend := send(ForwardedRequest(request));
              var ct := GetFirst(backend.headers, CONTENT_TYPE);
              r.value.response == Response(backend.status, ResponseHeaders(request.headers),
                Some(Content(if ct.Some? && ct.value != [] then ct.value else OCTET_STREAM,
                             ResponseContentReader(backend.body), -1)))
    ensures r.Ok? ==> r.value.proxiedLength == TotalLength(request.body)
  {
    var sourceLength := SourceContentLength(request.headers);
    if sourceLength.Err? {
      return Err(sourceLength.error);
    }
    var requestType := GetFirst(request.headers, CONTENT_TYPE);
    var yielded, length := Gen(request.body);
    var content := Content(if requestType.Some? && requestType.value != [] then requestType.value else OCTET_STREAM, yielded, -1);
    var proxied := Outbound(request.verb, request.url, ForwardedHeaders(request.headers), Some(content));
    var backend := send(proxied);
    var responseType := GetFirst(backend.headers, CONTENT_TYPE);
    var headers := ResponseHeaders(request.headers);
    var response := Response(backend.status, headers,
      Some(Content(if responseType.Some? && responseType.value != [] then responseType.value else OCTET_STREAM,
                   ResponseContentReader(backend.body), -1)));
    return Ok(Exchange(response, length));
  }

  /**
   * The forwarded request is framed one way only: no `Content-Length` survives, and when the
   * client sent no `Transfer-Encoding` the first one found is the appended `chunked`.
   */
  lemma ForwardedFraming(request: Inbound)
    ensures GetFirst(ForwardedRequest(request).headers, CONTENT_LENGTH) == None
    ensures GetFirst(request.headers, TRANSFER_ENCODING) == None ==>
              GetFirst(ForwardedRequest(request).headers, TRANSFER_ENCODING) == Some(Ascii("chunked"))
  {
    var kept := WithoutNames(request.headers, {CONTENT_LENGTH});
    assert Lower(CONTENT_LENGTH) == CONTENT_LENGTH && Lower(TRANSFER_ENCODING) == TRANSFER_ENCODING;
    GetFirstWithoutNames(request.headers, {CONTENT_LENGTH}, CONTENT_LENGTH);
    GetFirstWithoutNames(request.headers, {CONTENT_LENGTH}, TRANSFER_ENCODING);
    GetFirstAppend(kept, TE_CHUNKED, CONTENT_LENGTH);
    GetFirstAppend(kept, TE_CHUNKED, TRANSFER_ENCODING);
  }

  /** Looking a name up after appending one header. */
  lemma {:induction false} GetFirstAppend(hs: seq<Header>, h: Header, name: Bytes)
    ensures GetFirst(hs, name).Some? ==> GetFirst(hs + [h], name) == GetFirst(hs, name)
    ensures GetFirst(hs, name).None? && NameIs(h, name) ==> GetFirst(hs + [h], name) == Some(h.1)
    ensures GetFirst(hs, name).None? && !NameIs(h, name) ==> GetFirst(hs + [h], name) == None
  {
    if hs != [] {
      assert (hs + [h])[1..] == hs[1..] + [h];
      GetFirstAppend(hs[1..], h, name);
    }
  }

  /** Date never reaches the client, and the response is framed as chunked unless the request said otherwise. */
  lemma ResponseFraming(request: Inbound)
    ensures GetFirst(ResponseHeaders(request.headers), DATE) == None
    ensures GetFirst(request.headers, TRANSFER_ENCODING) == None ==>
              GetFirst(ResponseHeaders(request.headers), TRANSFER_ENCODING) == Some(Ascii("chunked"))
  {
    var kept := WithoutNames(request.headers, RESPONSE_DROPPED);
    assert Lower(DATE) == DATE && Lower(TRANSFER_ENCODING) == TRANSFER_ENCODING;
    GetFirstWithoutNames(request.headers, RESPONSE_DROPPED, DATE);
    GetFirstWithoutNames(request.headers, RESPONSE_DROPPED, TRANSFER_ENCODING);
    GetFirstAppend(kept, TE_CHUNKED, DATE);
    GetFirstAppend(kept, TE_CHUNKED, TRANSFER_ENCODING);
  }
}
