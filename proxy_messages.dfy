/** The BlackSheep messages a reverse proxy handles, and the body relay both proxies use. */
module ProxyMessages {
  import opened ByteStrings
  import opened Results
  import opened HttpHeaders

  /** A request as it arrives from the client; `body` is what `request.stream()` yields. */
  datatype Inbound = Inbound(verb: string, url: Bytes, headers: seq<Header>, body: seq<Bytes>)

  /** A `StreamedContent`: content type, the chunks its generator yields, declared length (-1: unknown). */
  datatype Content = Content(contentType: Bytes, chunks: seq<Bytes>, length: int)

  /** The request sent to the back-end. */
  datatype Outbound = Outbound(verb: string, url: Bytes, headers: seq<Header>, content: Option<Content>)

  /** The back-end's response; `body` is what `response.stream()` yields. */
  datatype BackendResponse = BackendResponse(status: int, headers: seq<Header>, body: seq<Bytes>)

  /** The response returned to the client. */
  datatype Response = Response(status: int, headers: seq<Header>, content: Option<Content>)

  /** `int()` rejected a `Content-Length` value. */
  datatype ProxyError = ValueError(text: Bytes)

  /** The methods both proxies' catch-all route is registered for. */
  const ROUTE_METHODS: seq<string> := ["HEAD", "OPTIONS", "GET", "PATCH", "POST", "PUT", "DELETE"]

  const CONTENT_TYPE: Bytes := Ascii("content-type")
  const CONTENT_LENGTH: Bytes := Ascii("content-length")
  const TRANSFER_ENCODING: Bytes := Ascii("transfer-encoding")
  const DATE: Bytes := Ascii("date")
  const SERVER: Bytes := Ascii("server")
  const OCTET_STREAM: Bytes := Ascii("application/octet-stream")

  /** The body relay: `async for chunk in stream: yield chunk`. */
  function Relay(chunks: seq<Bytes>): (r: seq<Bytes>)
    ensures r == chunks
    ensures Concat(r) == Concat(chunks)
  {
    if chunks == [] then [] else [chunks[0]] + Relay(chunks[1..])
  }
}
