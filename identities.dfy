/**
 * guardpost's `Identity` (and its `User` subclass) as the examples use it, and the parts of
 * a BlackSheep `Request` that authentication handlers and token stores read or assign.
 */
module Identities {
  import opened Json
  import opened Results
  import opened HttpHeaders

  /** Claims, authentication mode, and the `access_token` / `refresh_token` attributes. */
  datatype Identity = Identity(claims: map<string, Json>, authMode: Option<string>, accessToken: Json, refreshToken: Json)

  /** `Identity(claims)` / `User(claims)`: no authentication mode, no tokens. */
  function Unauthenticated(claims: map<string, Json>): (id: Identity)
    ensures !IsAuthenticated(id) && id.claims == claims
  {
    Identity(claims, None, JNull, JNull)
  }

  /** `identity.is_authenticated()`: the authentication mode is a non-empty string. */
  predicate IsAuthenticated(id: Identity)
  {
    id.authMode.Some? && id.authMode.value != ""
  }

  /** The request state the handlers touch: headers, cookies, scheme, and the assigned identity. */
  class HttpRequest {
    const headers: seq<Header>
    const cookies: map<string, string>
    const scheme: string
    var identity: Option<Identity>

    constructor (headers: seq<Header>, cookies: map<string, string>, scheme: string, identity: Option<Identity>)
      ensures this.headers == headers && this.cookies == cookies && this.scheme == scheme
      ensures this.identity == identity
    {
      this.headers := headers;
      this.cookies := cookies;
      this.scheme := scheme;
      this.identity := identity;
    }
  }
}
