/**
 * `JWTBearerAuthentication` of the JWT validation example: the bearer header checks and the
 * identity every path assigns to the request.
 */
module JwtBearer {
  import opened ByteStrings
  import opened Results
  import opened Json
  import opened HttpHeaders
  import opened Identities
  import Jwks
  import opened Jwts
  import Utf8

  datatype BearerError =
    | UnicodeDecodeError
    | TypeError(message: string)
    | Raised(error: JwtError)

  const AUTHORIZATION: Bytes := Ascii("Authorization")
  const BEARER_PREFIX: Bytes := Ascii("Bearer ")
  const JWT_BEARER := "JWT Bearer"
  const NOT_AWAITABLE := "object dict can't be used in 'await' expression"

  /**
   * The header checks: the first `Authorization` header (whatever name was configured) must be
   * present, non-empty and start with `Bearer `; the bytes after the first 7 are the token.
   */
  function BearerBytes(headers: seq<Header>): (r: Option<Bytes>)
    ensures r.Some? <==> GetFirst(headers, AUTHORIZATION).Some? && StartsWith(GetFirst(headers, AUTHORIZATION).value, BEARER_PREFIX)
    ensures r.Some? ==> BEARER_PREFIX + r.value == GetFirst(headers, AUTHORIZATION).value
  {
    match GetFirst(headers, AUTHORIZATION)
    case None => None
    case Some(value) =>
      if value == [] || !StartsWith(value, BEARER_PREFIX) then None
      else
        assert value == value[..7] + value[7..];
        Some(value[7..])
  }

  /** Failures the handler absorbs: the validator's own refusal and the JWT library's. */
  predicate Absorbed(e: JwtError)
  {
    e.InvalidAuthorizationToken? || e.InvalidToken?
  }

  /**
   * The result of `await self._validator.validate_jwt(token)` as written: the validator is
   * synchronous, so a payload it returns is awaited and raises `TypeError`, which is not caught.
   */
  function SettleAsWritten(validation: Result<map<string, Json>, JwtError>): (r: Result<Option<Identity>, BearerError>)
    ensures validation.Ok? ==> r == Err(TypeError(NOT_AWAITABLE))
    ensures validation.Err? ==> (r == Ok(None) <==> Absorbed(validation.error))
    ensures validation.Err? && !Absorbed(validation.error) ==> r == Err(Raised(validation.error))
  {
    match validation
    case Ok(_) => Err(TypeError(NOT_AWAITABLE))
    case Err(e) => if Absorbed(e) then Ok(None) else Err(Raised(e))
  }

  /** The intended result: a payload authenticates the request as `User(payload, "JWT Bearer")`. */
  function Settle(validation: Result<map<string, Json>, JwtError>): (r: Result<Option<Identity>, BearerError>)
    ensures validation.Ok? ==> r.Ok? && r.value.Some? && IsAuthenticated(r.value.value)
                               && r.value.value.claims == validation.value
    ensures validation.Err? ==> (r == Ok(None) <==> Absorbed(validation.error))
    ensures validation.Err? && !Absorbed(validation.error) ==> r == Err(Raised(validation.error))
  {
    match validation
    case Ok(payload) => Ok(Some(Identity(payload, Some(JWT_BEARER), JNull, JNull)))
    case Err(e) => if Absorbed(e) then Ok(None) else Err(Raised(e))
  }

  /** As written no token is ever accepted: a valid one fails where it should authenticate. */
  lemma ValidTokenNeverAuthenticates(payload: map<string, Json>)
    ensures SettleAsWritten(Ok(payload)).Err?
    ensures Settle(Ok(payload)) == Ok(Some(Identity(payload, Some(JWT_BEARER), JNull, JNull)))
  {
  }

  /** The two agree on every failed validation. */
  lemma SettleAgreesOnFailures(e: JwtError)
    ensures SettleAsWritten(Err(e)) == Settle(Err(e))
  {
  }

  /** The identity a settled outcome leaves on the request: the anonymous `User({})` unless authenticated. */
  function AssignedIdentity(r: Result<Option<Identity>, BearerError>, previous: Option<Identity>): Option<Identity>
  {
    match r
    case Ok(None) => Some(Unauthenticated(map[]))
    case Ok(Some(id)) => Some(id)
    case Err(_) => previous
  }

  class JwtBearerAuthentication {
    /** Stored, never read: the header looked up is always `Authorization`. */
    const headerName: string
    const validator: JwtValidator

    /** The validator gets the issuers and audiences and the default algorithms. */
    constructor (authority: string, validIssuers: seq<string>, validAudiences: seq<string>, headerName: string)
      ensures this.headerName == headerName && fresh(validator)
      ensures validator.authority == authority && validator.validIssuers == validIssuers
      ensures validator.validAudiences == validAudiences && validator.algorithms == DEFAULT_ALGORITHMS
      ensures validator.cachedJwks.None?
    {
      this.headerName := headerName;
      validator := new JwtValidator(authority, validIssuers, validAudiences, DEFAULT_ALGORITHMS);
    }

    /** What the validator makes of a token, given the memo it starts from. */
    function TokenValidation(token: string, header: HeaderReader, fetch: Jwks.Fetch, pem: Jwks.PemEncoder,
                             decode: JwtDecoder, cached: Option<Json>): Result<map<string, Json>, JwtError>
      reads validator
    {
      ValidationOf(token, header, JwksOf(cached, validator.authority, fetch), pem, decode,
                   validator.validIssuers, validator.validAudiences, validator.algorithms)
    }

    /** `authenticate` as written. */
    method AuthenticateAsWritten(request: HttpRequest, header: HeaderReader, fetch: Jwks.Fetch, pem: Jwks.PemEncoder, decode: JwtDecoder)
      returns (r: Result<Option<Identity>, BearerError>)
      modifies request, validator
      ensures BearerBytes(request.headers).None? ==> r == Ok(None) && validator.cachedJwks == old(validator.cachedJwks)
      ensures BearerBytes(request.headers).Some? && Utf8.Decode(BearerBytes(request.headers).value).None?
              ==> r == Err(UnicodeDecodeError) && validator.cachedJwks == old(validator.cachedJwks)
      ensures BearerBytes(request.headers).Some? && Utf8.Decode(BearerBytes(request.headers).value).Some?
              ==> var token := Utf8.Decode(BearerBytes(request.headers).value).value;
                  validator.cachedJwks == if GetKid(token, header).Err? then old(validator.cachedJwks)
                                          else CacheAfter(old(validator.cachedJwks), validator.authority, fetch)
      ensures BearerBytes(request.headers).Some? && Utf8.Decode(BearerBytes(request.headers).value).Some?
              ==> r == SettleAsWritten(TokenValidation(Utf8.Decode(BearerBytes(request.headers).value).value, header, fetch, pem, decode,
                                                 old(validator.cachedJwks)))
      ensures request.identity == AssignedIdentity(r, old(request.identity))
    {
      var value := BearerBytes(request.headers);
      if value.None? {
        request.identity := Some(Unauthenticated(map[]));
        return Ok(None);
      }
      var token := Utf8.Decode(value.value);
      if token.None? {
        return Err(UnicodeDecodeError);
      }
      var validation := validator.ValidateJwt(token.value, header, fetch, pem, decode);
      r := SettleAsWritten(validation);
      request.identity := AssignedIdentity(r, request.identity);
    }

    /** `authenticate` with the validator's result used directly instead of awaited. */
    method Authenticate(request: HttpRequest, header: HeaderReader, fetch: Jwks.Fetch, pem: Jwks.PemEncoder, decode: JwtDecoder)
      returns (r: Result<Option<Identity>, BearerError>)
      modifies request, validator
      ensures BearerBytes(request.headers).None? ==> r == Ok(None) && validator.cachedJwks == old(validator.cachedJwks)
      ensures BearerBytes(request.headers).Some? && Utf8.Decode(BearerBytes(request.headers).value).None?
              ==> r == Err(UnicodeDecodeError) && validator.cachedJwks == old(validator.cachedJwks)
      ensures BearerBytes(request.headers).Some? && Utf8.Decode(BearerBytes(request.headers).value).Some?
              ==> var token := Utf8.Decode(BearerBytes(request.headers).value).value;
                  validator.cachedJwks == if GetKid(token, header).Err? then old(validator.cachedJwks)
                                          else CacheAfter(old(validator.cachedJwks), validator.authority, fetch)
      ensures BearerBytes(request.headers).Some? && Utf8.Decode(BearerBytes(request.headers).value).Some?
              ==> r == Settle(TokenValidation(Utf8.Decode(BearerBytes(request.headers).value).value, header, fetch, pem, decode,
                                                 old(validator.cachedJwks)))
      ensures request.identity == AssignedIdentity(r, old(request.identity))
    {
      var value := BearerBytes(request.headers);
      if value.None? {
        request.identity := Some(Unauthenticated(map[]));
        return Ok(None);
      }
      var token := Utf8.Decode(value.value);
      if token.None? {
        return Err(UnicodeDecodeError);
      }
      var validation := validator.ValidateJwt(token.value, header, fetch, pem, decode);
      r := Settle(validation);
      request.identity := AssignedIdentity(r, request.identity);
    }
  }
}
