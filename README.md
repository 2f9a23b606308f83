# BlackSheep examples: a verified model of their core logic

This project models the logic that the BlackSheep example applications implement themselves, as opposed to delegating it to the framework. The modelled pieces are:

- **Reverse proxies.**
  - `proxy-2` transposes requests and responses. It filters headers case-insensitively and relays body chunks unchanged.
  - `proxy` re-frames bodies with chunked transfer coding while counting the relayed bytes.
- **Bounded body reader** of `max-body-size`, and the upload handler around it.
- **OAuth2 password provider.**
  - Bearer header extraction and authentication.
  - The issued token pair, login, refresh-token rotation and revocation over the user and token tables.
  - The credential and refresh-token extractors and the revoke handler.
- **JWT validation example.**
  - The key id from the JOSE header and the JWK search in the key set.
  - RSA members read as base64url big-endian integers, and OpenID Connect discovery.
  - The issuer loop and the bearer handler.
- **Dependency-injector connectors**: the name-keyed one and the snake_case-keyed one.
- **Small in-memory state machines.**
  - The ToDo store and the mocked repository.
  - The websocket chat's connection manager.
  - The long-polling message manager.
  - The two OpenID Connect token stores: the Redis one and the test one.

Each core file maps to one Dafny module, following the file's own form. Value-level logic (header filters, payload parsing, extractors, key decoding) is written as functions. State the source updates in place becomes a `class` with `modifies` clauses. Examples are the user and token tables, the DI container, the ToDo dictionaries, the chat's connection list and outbox, the long-polling queues, Redis and the token stores. Loops in the source become `while`/`for` loops with invariants (`Gen`, `ReadStream`, `SelectJwk`, `TryIssuers`, `Broadcast`, `PutAll`, the revocation loops).

Small shared modules model the Python behaviour the core relies on:
- `ByteStrings`: bytes and ASCII lower-casing.
- `Utf8`: strict UTF-8.
- `Hex`: `bytes.hex` and `bytes.fromhex`.
- `Base64`: the non-strict `a2b_base64` after url-safe translation.
- `BigEndian`: `int.from_bytes(…, "big")`.
- `Decimal`: `int()` on ASCII digits.
- `Uuids`: `UUID(text)`, `.hex` and `str()`.
- `Texts`: `split`, `rstrip` and ASCII `lower`.
- `HttpHeaders`: `get_first` and the filtering comprehension.
- `PyDicts`: insertion-ordered dicts.
- `PyLists`: `list.remove` over lists without repeats.
- `Json`, `Identities` and `Results`.

Oracles are parameters or constants of the classes that use them:
- JWT encode and decode, and `get_unverified_header`;
- PBKDF2;
- `uuid4` and the clock;
- JSON `dumps`/`loads`, the HTTP client's `send` and `urlopen`;
- the RSA PEM encoder.

## Model

| member | source | states |
|---|---|---|
| StreamingProxy.GetContentLength | proxy-2/blacksheep_proxy/server.py:27-29 | -1 when the first content-length header is absent or empty, its integer value when decimal, `ValueError` otherwise |
| StreamingProxy.DeclaredLength | proxy-2/blacksheep_proxy/server.py:27-29 | a decimal length under any capitalisation of the name is read back exactly |
| StreamingProxy.ProxiedRequest | proxy-2/blacksheep_proxy/server.py:32-71 | same verb and URL; headers are the inbound ones in order minus content-type, content-length and transfer-encoding; a body iff a Content-Type header exists, carrying that type, the inbound chunks and the declared length or -1 |
| StreamingProxy.ProxiedResponse | proxy-2/blacksheep_proxy/server.py:74-116 | status copied; headers minus date, server and the framing names; a body iff the Content-Type is present and non-empty, with the back-end's chunks and declared length |
| StreamingProxy.ProxyAll | proxy-2/blacksheep_proxy/server.py:119-123 | a request that cannot be transposed gives exactly that error; otherwise the response is exactly the transposition of what `send` returns for the transposed request; only the seven route methods reach it |
| StreamingProxy.ForwardedHeaders | proxy-2/blacksheep_proxy/server.py:55-64 | a dropped name is never found in the forwarded request; any other name has the same first value as inbound |
| StreamingProxy.ReturnedHeaders | proxy-2/blacksheep_proxy/server.py:87-98 | Date, Server and the framing names never reach the client; other names keep their first values |
| StreamingProxy.BodiesRelayedUnchanged | proxy-2/blacksheep_proxy/server.py:40-42 | both relays yield the source chunks unchanged and in order, so the concatenated bytes are equal |
| StreamingProxy.ForwardedLength | proxy-2/blacksheep_proxy/server.py:44-54 | a request declaring Content-Type and a decimal Content-Length is forwarded with that type and length |
| ProxyMessages.Relay | proxy-2/blacksheep_proxy/server.py:82-84 | the relay yields exactly its input chunks, so the bytes are unchanged |
| HttpHeaders.GetFirst | proxy-2/blacksheep_proxy/server.py:28 | `None` iff no header has the name, case-insensitively; otherwise the value of one that does |
| HttpHeaders.WithoutNames | proxy-2/blacksheep_proxy/server.py:55-64 | keeps exactly the headers whose lower-cased name is not listed |
| HttpHeaders.WithoutNamesAppend | proxy-2/blacksheep_proxy/server.py:87-98 | filtering distributes over concatenation, so survivors keep their relative order |
| HttpHeaders.GetFirstWithoutNames | proxy-2/blacksheep_proxy/server.py:87-98 | after filtering, a listed name is absent and any other name has its old first value |
| HttpHeaders.WithoutNamesIdempotent | proxy/blacksheep_proxy/server.py:46-50 | filtering twice equals filtering once |
| ChunkedProxy.Gen | proxy/blacksheep_proxy/server.py:33-38 | yields the inbound chunks in order; the counter ends equal to the total length of the yielded bytes |
| ChunkedProxy.SourceContentLength | proxy/blacksheep_proxy/server.py:40 | an absent or empty Content-Length reads as 0; a decimal one as its value |
| ChunkedProxy.ForwardedHeaders | proxy/blacksheep_proxy/server.py:46-51 | the inbound headers minus every content-length header, then exactly one `transfer-encoding: chunked` at the end |
| ChunkedProxy.ForwardedRequest | proxy/blacksheep_proxy/server.py:44-56 | verb and URL copied; the headers are exactly `ForwardedHeaders` of the inbound ones; a streamed body is always attached with no declared length; a non-empty inbound Content-Type is carried through, a missing or empty one becomes application/octet-stream |
| ChunkedProxy.ResponseContentReader | proxy/blacksheep_proxy/server.py:60-63 | every back-end chunk in order, then one empty chunk; the bytes are unchanged |
| ChunkedProxy.ResponseHeaders | proxy/blacksheep_proxy/server.py:66-71 | built from the REQUEST's headers minus date, server and content-length, then chunked framing appended |
| ChunkedProxy.ProxyAll | proxy/blacksheep_proxy/server.py:27-79 | the back-end status is returned; the response carries the request-derived headers and the back-end chunks plus an empty one; the counter equals the bytes relayed |
| ChunkedProxy.ForwardedFraming | proxy/blacksheep_proxy/server.py:46-51 | no Content-Length survives; without a client Transfer-Encoding the first one found is the appended `chunked` |
| ChunkedProxy.ResponseFraming | proxy/blacksheep_proxy/server.py:66-71 | Date never reaches the client; the response is chunked unless the request carried its own Transfer-Encoding |
| MaxBodySize.MaxBodyExceededError | max-body-size/main.py:24-27 | status 413 and the exceeded limit |
| MaxBodySize.ReadStream | max-body-size/main.py:30-41 | yields a prefix of the stream; fails iff the running total passes a limit above -1 (strict `>`), withholding the crossing chunk; the yielded total never exceeds the limit; with limit -1 or below everything is yielded |
| MaxBodySize.UploadName | max-body-size/main.py:66-70 | a missing or empty File-Name is a BadRequest; a present one is accepted exactly when it is valid UTF-8, as its decoded text, and is otherwise a UnicodeDecodeError |
| MaxBodySize.UploadFolder.constructor | max-body-size/main.py:60 | the `out` folder starts with the given files |
| MaxBodySize.UploadFolder.FileUploader | max-body-size/main.py:64-81 | no name: nothing is read or written; within the limit the file holds the whole body and the result is `{"status": "OK", "uploaded_file": name}`; over the limit the file is deleted and the 413 is raised again |
| UserStore.HashPw | oauth2-password-provider/src/user.py:13-19 | splitting on `$` gives exactly the salt's hex and the digest's hex |
| UserStore.CheckPw | oauth2-password-provider/src/user.py:22-34 | succeeds iff the hash splits into two parts and the first is hex; then true iff the digest part equals the hex of the candidate's digest |
| UserStore.CheckOwnPassword | oauth2-password-provider/src/user.py:13-34 | a password is always accepted against its own hash |
| UserStore.CheckHashed | oauth2-password-provider/src/user.py:22-34 | a candidate is accepted against a hash iff its digest under the same salt matches |
| UserStore.UserDal.constructor | oauth2-password-provider/src/db.py:27-28 | both tables start empty |
| UserStore.UserDal.Register | oauth2-password-provider/src/user.py:38-47 | the user replaces any entry under the username; the token table is unchanged; the result omits the password |
| UserStore.UserDal.GetAuthUserByUsername | oauth2-password-provider/src/user.py:49-52 | the user stored under the name, or None when absent |
| UserStore.UserDal.SaveRefreshToken | oauth2-password-provider/src/user.py:54-68 | inserts or replaces exactly the entry keyed by the jti, with the given user, session and expiry |
| UserStore.UserTableGet | oauth2-password-provider/src/user.py:88 | a UUID key never hits the str-keyed user table |
| UserStore.UserDal.GetUserByRefreshTokenAsWritten | oauth2-password-provider/src/user.py:70-92 | as written the lookup always returns None |
| UserStore.UserDal.GetUserByRefreshToken | oauth2-password-provider/src/user.py:78-92 | None for an unknown jti, an expired token, a mismatched user or session; otherwise the user whose id matches |
| UserStore.TokenMatches | oauth2-password-provider/src/user.py:78-86 | true exactly when the jti is stored, its expiry is not before now, and it belongs to the given user and session |
| UserStore.FirstWithId | oauth2-password-provider/src/user.py:88 | the intended user lookup: a found user has the id and is in the table; None only when no user has it |
| UserStore.RefreshLookupMissesRegisteredUser | oauth2-password-provider/src/user.py:88 | a registered user with a matching token is found by the intended lookup but not by the written one |
| UserStore.UserDal.RevokeRefreshTokenAsWritten | oauth2-password-provider/src/user.py:94-99 | deletes only the first token of the user, then fails with RuntimeError; no token of the user means no error |
| UserStore.UserDal.RevokeRefreshToken | oauth2-password-provider/src/user.py:94-99 | the token table becomes the table without any token of the user |
| UserStore.WithoutUserItems | oauth2-password-provider/src/user.py:97-99 | after revocation no token of the user remains and every other token is kept unchanged |
| UserStore.RevokeFirst | oauth2-password-provider/src/user.py:97-99 | the table the written loop leaves: only the user's first token removed |
| UserStore.WithoutUser | oauth2-password-provider/src/user.py:97-99 | the intended result: the table without any token of the user |
| UserStore.RevokeFirstKeepsSecondToken | oauth2-password-provider/src/user.py:97-99 | with two tokens of one user, the written loop keeps the second and the intended revocation removes it |
| UserStore.FirstTokenOf | oauth2-password-provider/src/user.py:97-98 | the first token, in insertion order, that belongs to the user |
| UserStore.UserDal.RemoveUsedRefreshToken | oauth2-password-provider/src/user.py:101-104 | deletes exactly the key; an absent key is a KeyError with the table unchanged |
| PasswordAuth.GetRequestToken | oauth2-password-provider/src/password_auth.py:177-189 | Some iff the first Authorization header is present and non-empty, starts with `Bearer `, and the bytes from index 7 decode as UTF-8; then that text |
| PasswordAuth.RequestTokenOfBearer | oauth2-password-provider/src/password_auth.py:177-189 | a `Bearer <token>` header gives the token back |
| PasswordAuth.BearerOutcome | oauth2-password-provider/src/password_auth.py:156-175 | an identity iff the token decodes, parses as a payload and has typ access; a payload that fails validation propagates; every other path is anonymous |
| PasswordAuth.BearerAuthentication.constructor | oauth2-password-provider/src/password_auth.py:153-154 | keeps the token serializer |
| PasswordAuth.BearerAuthentication.Authenticate | oauth2-password-provider/src/password_auth.py:156-175 | the request's identity is the authenticated one or an empty `Identity({})` on each returning path |
| PasswordAuth.ClaimsOf | oauth2-password-provider/src/password_auth.py:37-46 | the claims carry exactly the seven payload fields |
| PasswordAuth.ParsePayload | oauth2-password-provider/src/password_auth.py:37-46 | a parsed payload has version-4 ids and its typ read from the claims |
| PasswordAuth.ParseClaimsOf | oauth2-password-provider/src/password_auth.py:37-46 | the claims of a valid payload parse back into it |
| PasswordAuth.GetTokensPair | oauth2-password-provider/src/password_auth.py:258-282 | access and refresh share sub, jti, sid, iat and nbf; typ access/refresh; each exp is now plus its ttl in minutes; a sid is generated only when none is given |
| PasswordAuth.DefaultTtlsAreMinutes | oauth2-password-provider/src/password_auth.py:83-84 | with the default ttls the access token lives 60 hours and the refresh token 1800 days |
| PasswordAuth.MakeIdentity | oauth2-password-provider/src/password_auth.py:250-256 | the access claims and both tokens, with no authentication mode |
| PasswordAuth.CheckLogin | oauth2-password-provider/src/password_auth.py:232-238 | unknown user, wrong password and inactive user are refused with one message; a malformed stored hash raises |
| PasswordAuth.LoginWithRegisteredPassword | oauth2-password-provider/src/password_auth.py:232-238 | a registered user logs in with the registration password |
| PasswordAuth.AppAuthProvider.constructor | oauth2-password-provider/src/password_auth.py:221-229 | the provider keeps the store, the settings and its encoder and decoder |
| PasswordAuth.AppAuthProvider.Authenticate | oauth2-password-provider/src/password_auth.py:231-248 | a refused login stores nothing and returns its error; for an accepted one, a pair that fails validation is returned as the error, otherwise the call succeeds, stores exactly the new refresh token and returns the access identity |
| PasswordAuth.AppAuthProvider.Issue | oauth2-password-provider/src/password_auth.py:240-247 | a new pair in a new session; its refresh token stored under its jti; the identity of the access token returned |
| PasswordAuth.UuidOf | oauth2-password-provider/src/password_auth.py:316-318 | `UUID(c[key])`: KeyError when missing, TypeError for null, AttributeError for other non-text values, ValueError for malformed text, otherwise the parsed UUID |
| PasswordAuth.UsedRefresh | oauth2-password-provider/src/password_auth.py:312-318 | typ must be refresh; then sub, jti and sid are read as UUIDs in that order |
| PasswordAuth.UsedRefreshOfIssued | oauth2-password-provider/src/password_auth.py:312-318 | an issued refresh token passes with its own ids; an access token is refused by type |
| PasswordAuth.AppAuthProvider.RefreshToken | oauth2-password-provider/src/password_auth.py:304-336 | an undecodable or mistyped token changes nothing; an unmatched one revokes every token of its sub; a matched one with a valid new pair succeeds, stores the new refresh token in the same session and removes the used jti; a pair that fails validation changes nothing |
| PasswordAuth.AppAuthProvider.RefreshTokenAsWritten | oauth2-password-provider/src/password_auth.py:304-323 | over the store as written no refresh ever succeeds: a subject holding a token gets RuntimeError with only its first token deleted, otherwise "Invalid refresh token" |
| PasswordAuth.AppAuthProvider.Rotate | oauth2-password-provider/src/password_auth.py:326-336 | the new pair keeps the session; the table gains the new jti and loses the used one |
| PasswordAuth.AppAuthProvider.RevokeRefreshToken | oauth2-password-provider/src/password_auth.py:338-339 | malformed text is a ValueError; otherwise every token of that user id is revoked |
| PasswordAuth.AppAuthProvider.RevokeRefreshTokenAsWritten | oauth2-password-provider/src/password_auth.py:338-339 | over the store as written only the user's first token is deleted, and the call fails with RuntimeError exactly when the user held one |
| PasswordAuth.FormUserdata | oauth2-password-provider/src/password_auth.py:387-401 | an empty form is refused; the username is checked before the password; each must be text |
| PasswordAuth.JsonUserdata | oauth2-password-provider/src/password_auth.py:403-415 | a non-object body fails; a missing or non-text username is the username ValueError; with a text username, a missing or non-text password is the password ValueError; otherwise exactly the two texts |
| PasswordAuth.FetchCredentials | oauth2-password-provider/src/password_auth.py:373-385 | only a byte-equal form-urlencoded or JSON Content-Type is accepted; anything else is Unauthorized |
| PasswordAuth.JsonLoginAccepted | oauth2-password-provider/src/password_auth.py:373-415 | a JSON body with both fields yields exactly those credentials |
| PasswordAuth.FormRefreshdata | oauth2-password-provider/src/password_auth.py:452-462 | an empty form is refused; refresh_token must be text |
| PasswordAuth.JsonRefreshdata | oauth2-password-provider/src/password_auth.py:464-472 | a non-object body fails; refresh_token must be text |
| PasswordAuth.FetchRefreshToken | oauth2-password-provider/src/password_auth.py:438-450 | as for credentials, but an unsupported type is a ValueError |
| PasswordAuth.RevokeTarget | oauth2-password-provider/src/password_auth.py:479-483 | an unauthenticated request is refused; session_id must be text that reads as a UUID |
| PasswordAuth.RevokeRefusesIssuedIdentities | oauth2-password-provider/src/password_auth.py:479-481 | identities from this provider's own tokens never pass: bearer ones lack session_id, login ones are unauthenticated |
| PasswordAuth.OAuth2PasswordHandler.constructor | oauth2-password-provider/src/password_auth.py:343-350 | the handler keeps the settings and the provider |
| PasswordAuth.OAuth2PasswordHandler.RevokeHandler | oauth2-password-provider/src/password_auth.py:474-486 | refused requests change nothing; otherwise every token of that id is revoked |
| Jwts.InvalidAuthorization | jwt-validation/core/jwts.py:19-21 | the message is "Invalid authorization token: " followed by the details |
| Jwts.GetKid | jwt-validation/core/jwts.py:24-35 | an empty header gives "missing headers"; no kid gives "missing kid"; otherwise the header's kid |
| Jwts.FirstJwk | jwt-validation/core/jwts.py:63-66 | the first object in list order whose `kid` equals the one sought; "kid not recognized" iff none matches; over a list of objects it either finds a key or reports it unrecognised |
| Jwts.KeyIn | jwt-validation/core/jwts.py:60-66 | a key set without `keys` is an OAuthException; a list of keys is searched as by FirstJwk |
| Jwts.PresentKidFound | jwt-validation/core/jwts.py:63-65 | a list of key objects in which some key carries the kid yields a key with that kid from the list |
| Jwts.FirstMatchFound | jwt-validation/core/jwts.py:63-65 | the first key carrying the kid is the one returned |
| Jwts.SelectJwk | jwt-validation/core/jwts.py:57-66 | the loop returns exactly KeyIn of the key set and kid |
| Jwts.JwtValidator.constructor | jwt-validation/core/jwts.py:39-50 | the configuration is copied; nothing is cached yet |
| Jwts.JwksOf | jwt-validation/core/jwts.py:53-55 | the memo when present, otherwise a fresh read from the authority |
| Jwts.CacheAfter | jwt-validation/core/jwts.py:53-55 | a memo is kept; otherwise a successful read is remembered and a failed one is not |
| Jwts.JwtValidator.GetJwks | jwt-validation/core/jwts.py:53-55 | returns JwksOf the old memo and leaves CacheAfter of it |
| Jwts.JwkOf | jwt-validation/core/jwts.py:57-66 | a failed key-set read propagates; otherwise the key is searched in the set |
| Jwts.JwtValidator.GetJwk | jwt-validation/core/jwts.py:57-66 | returns JwkOf the key set the memo gives, and updates the memo as `get_jwks` does |
| Jwts.PublicKeyOf | jwt-validation/core/jwts.py:68-69 | the kid is read first and its error returned; then the key's error; the result is Ok iff the kid, the key and the PEM encoding all succeed, and then it is that PEM |
| Jwts.JwtValidator.GetPublicKey | jwt-validation/core/jwts.py:68-69 | returns PublicKeyOf the token and the memo's key set; a token without a kid leaves the memo untouched |
| Jwts.FirstIssuer | jwt-validation/core/jwts.py:79-95 | issuers tried in order; the first decode is returned; a wrong issuer moves on; any other failure is an InvalidToken with its reason; all wrong, or none, is "Invalid access token."; no other error is possible |
| Jwts.FirstDecodeReturned | jwt-validation/core/jwts.py:79-88 | when the issuers before `i` are wrong and issuer `i` decodes, its payload is the result |
| Jwts.OutcomeOf | jwt-validation/core/jwts.py:80-88 | each issuer's outcome is `jwt.decode` of the same token, key, algorithms and audiences with that issuer |
| Jwts.TryIssuers | jwt-validation/core/jwts.py:79-95 | the loop returns exactly FirstIssuer of the decode outcomes |
| Jwts.ValidationOf | jwt-validation/core/jwts.py:71-95 | a failure to find the public key is the result; once found, the issuer loop decides |
| Jwts.KnownKeyValidates | jwt-validation/core/jwts.py:57-95 | a token whose kid first names a key of the set, with a PEM-encodable key, validates to the payload of the first issuer that decodes it |
| Jwts.JwtValidator.ValidateJwt | jwt-validation/core/jwts.py:71-95 | returns ValidationOf the token and the memo's key set, updating the memo as `get_public_key` does |
| Jwks.EnsureBytes | jwt-validation/core/jwks.py:22-25 | text is UTF-8 encoded, bytes pass unchanged |
| Jwks.DecodeValue | jwt-validation/core/jwks.py:28-30 | `==` appended, base64url-decoded and read as a big-endian integer |
| Jwks.DecodeMember | jwt-validation/core/jwks.py:42 | a text member decodes exactly as `_decode_value` of that text; any other JSON value is a TypeError |
| Jwks.DecodeValueOfEncoded | jwt-validation/core/jwks.py:28-30 | the unpadded base64url form of a number's bytes decodes back to the number |
| Jwks.DecodeValueLeadingZero | jwt-validation/core/jwks.py:28-30 | leading zero bytes do not change the value |
| Jwks.DecodeAsciiText | jwt-validation/core/jwks.py:22-30 | ASCII text decodes exactly like its bytes |
| Jwks.EnsureJwkProperties | jwt-validation/core/jwks.py:33-36 | succeeds iff every name is present; otherwise the first missing name in argument order is reported |
| Jwks.RsaPemFromJwk | jwt-validation/core/jwks.py:39-48 | both `n` and `e` are required before either is decoded; then n and e go to the PEM encoder |
| Jwks.DiscoveryUrl | jwt-validation/core/jwks.py:59-60 | the URL ends with the well-known path, and what precedes it is the authority with every trailing slash removed and no other change |
| Jwks.DiscoveryUrlTrailingSlash | jwt-validation/core/jwks.py:59-60 | trailing slashes do not change the discovery URL, which ends in the well-known path |
| Jwks.ReadJsonData | jwt-validation/core/jwks.py:51-56 | a final status outside 2xx is the HTTPError `urlopen` raises; another status but 200 is a FailedRequestError; otherwise the JSON body |
| Jwks.ReadJwksFromAuthority | jwt-validation/core/jwks.py:63-69 | a failed discovery read propagates; a document without `jwks_uri` is a ValueError; a text `jwks_uri` gives exactly the key set read from that address; any other value makes `urlopen` raise AttributeError (`timeout`) |
| JwtBearer.BearerBytes | jwt-validation/app/auth/jwtbearer.py:37-51 | the first Authorization header (never the configured name) must be present, non-empty and start with `Bearer `; the token is the bytes after the first 7 |
| JwtBearer.SettleAsWritten | jwt-validation/app/auth/jwtbearer.py:53-65 | as written a returned payload is awaited and raises TypeError; absorbed failures give an anonymous result |
| JwtBearer.Settle | jwt-validation/app/auth/jwtbearer.py:53-65 | a payload authenticates as `User(payload, "JWT Bearer")`; InvalidAuthorizationToken and InvalidTokenError give an anonymous result; other errors propagate |
| JwtBearer.ValidTokenNeverAuthenticates | jwt-validation/app/auth/jwtbearer.py:54 | as written a valid token always fails where it should authenticate |
| JwtBearer.SettleAgreesOnFailures | jwt-validation/app/auth/jwtbearer.py:53-59 | the written and intended results agree on every failed validation |
| JwtBearer.JwtBearerAuthentication.constructor | jwt-validation/app/auth/jwtbearer.py:19-34 | the validator gets the issuers, the audiences and the default algorithms `["RS256"]` |
| JwtBearer.JwtBearerAuthentication.AuthenticateAsWritten | jwt-validation/app/auth/jwtbearer.py:36-65 | without a bearer header `User({})` and None; undecodable bytes raise; otherwise SettleAsWritten of the validator's exact outcome, and the identity that leaves on the request; the key-set memo is untouched unless a token with a kid reached `get_jwk`, and then it is `CacheAfter` |
| JwtBearer.JwtBearerAuthentication.Authenticate | jwt-validation/app/auth/jwtbearer.py:36-65 | without a bearer header `User({})` and None; undecodable bytes raise; otherwise Settle of the validator's exact outcome, so a validated token authenticates with its payload and absorbed failures give `User({})` and None; the key-set memo is as for AuthenticateAsWritten |
| DiConnector.Dependencies | dependency-injector/app/di.py:41-46 | exactly the parameters other than self and return whose type is registered, each bound to that type's provider |
| DiConnector.Connector.constructor | dependency-injector/app/di.py:17-18 | the connector wraps the given container |
| DiConnector.Connector.Register | dependency-injector/app/di.py:20-50 | ValueError without `__init__`; otherwise a factory under the type's name replaces any earlier one, other entries unchanged |
| DiConnector.Connector.Resolve | dependency-injector/app/di.py:52-59 | TypeError for an unregistered type; otherwise its provider |
| DiConnector.Connector.Contains | dependency-injector/app/di.py:61-63 | `hasattr` on the type's name: true exactly when the container has an entry under that name, which is exactly when `Resolve` succeeds |
| DiConnector.RegisterThenResolve | dependency-injector/app/di.py:49-63 | after registering, the type is contained and resolves to its factory |
| DiConnector.RegistrationOrderMatters | dependency-injector/app/di.py:41-46 | a dependency registered later is skipped silently; registered earlier it is bound |
| SnakeCaseConnector.ToSnakeCase | dependency-injector/docs/example2.py:92-102 | the empty name stays empty; otherwise the first character is lower-cased, and every later character lands shifted by the upper-case letters before it, lower-cased and preceded by `_` exactly when it is upper case; the length is the name's plus one per such letter |
| SnakeCaseConnector.ProviderName | dependency-injector/docs/example2.py:86-90 | the provider name has `_` immediately before each lower-cased upper-case letter after the first character, no upper-case letter, and without its underscores it is the lower-cased class name |
| SnakeCaseConnector.ToSnakeCaseAsWritten | dependency-injector/docs/example2.py:102 | as written the call raises NameError, since `re` is never imported |
| SnakeCaseConnector.SnakeCaseShape | dependency-injector/docs/example2.py:92-102 | length is input length plus the upper-case letters after index 0; no upper-case letter remains; without underscores in the input, erasing them gives the lower-cased input |
| SnakeCaseConnector.UnderscoredRestLength | dependency-injector/docs/example2.py:102 | one underscore is inserted per upper-case letter after index 0 |
| SnakeCaseConnector.UnderscoredRestErases | dependency-injector/docs/example2.py:102 | only underscores are inserted: removing them gives the input back |
| SnakeCaseConnector.UnderscoredPositions | dependency-injector/docs/example2.py:102 | each character after the first is shifted right by the upper-case letters before it, and an upper-case one is preceded by `_` |
| SnakeCaseConnector.LowerNameUnchanged | dependency-injector/docs/example2.py:102 | an all-lower-case input is returned unchanged |
| SnakeCaseConnector.ExampleNames | dependency-injector/docs/example2.py:20-22 | "SomeService" becomes "some_service" and "APIClient" becomes "a_p_i_client" |
| SnakeCaseConnector.AcronymNotDeclared | dependency-injector/docs/example2.py:20-22 | a name opening with two capitals gets `_` as second character, so a declared key like `api_client` never matches it |
| SnakeCaseConnector.SnakeCaseConnector.RegisterAsWritten | dependency-injector/docs/example2.py:41-71 | as written every type with `__init__` fails with NameError on `re`, and the container is unchanged |
| SnakeCaseConnector.SnakeCaseConnector.ResolveAsWritten | dependency-injector/docs/example2.py:73-80 | as written resolution always fails with NameError |
| SnakeCaseConnector.SnakeCaseConnector.constructor | dependency-injector/docs/example2.py:38-39 | wraps the container |
| SnakeCaseConnector.SnakeCaseConnector.Register | dependency-injector/docs/example2.py:41-71 | a factory under the snake_case name replaces any earlier one |
| SnakeCaseConnector.SnakeCaseConnector.Resolve | dependency-injector/docs/example2.py:73-80 | TypeError unless the snake_case name is registered; otherwise its provider |
| SnakeCaseConnector.SnakeCaseConnector.Contains | dependency-injector/docs/example2.py:82-84 | `hasattr` on the raw class name, not the snake_case name `register` uses |
| SnakeCaseConnector.RegisteredButNotContained | dependency-injector/docs/example2.py:82-84 | after registering SomeService, `__contains__` on its raw name is false |
| ToDoDomain.Stored | testing-api/app/routes/todos.py:45 | the item is stored under its id, replacing any earlier one; other ids unchanged; key order kept |
| ToDoDomain.Deleted | testing-api/app/routes/todos.py:51-54 | only that id is removed; a missing id changes nothing |
| ToDoRoutes.Initial | testing-api/app/routes/todos.py:10-26 | the store starts with ids 1, 2 and 3 in that order |
| ToDoRoutes.ToDoRoutes.constructor | testing-api/app/routes/todos.py:10-26 | the routes start on the three mocked items |
| ToDoRoutes.NewItem | testing-api/app/routes/todos.py:44 | the new item's id is the item count plus one, with the input's title and description |
| ToDoRoutes.ToDoRoutes.GetTodos | testing-api/app/routes/todos.py:29-31 | all stored items, in key insertion order |
| ToDoRoutes.ToDoRoutes.GetTodo | testing-api/app/routes/todos.py:34-39 | the stored item, or not-found when the id is absent |
| ToDoRoutes.ToDoRoutes.CreateTodo | testing-api/app/routes/todos.py:42-46 | id is the current count plus one; the item is stored under it, overwriting any existing item |
| ToDoRoutes.ToDoRoutes.DeleteTodo | testing-api/app/routes/todos.py:49-54 | removes only that id; a missing id is a no-op |
| ToDoRoutes.CreateThenGet | testing-api/tests/test_todos_api.py:18-48 | creating then fetching by the returned id gives the same title and description |
| ToDoRoutes.CreateKeepsDense | testing-api/app/routes/todos.py:42-46 | while no item has been deleted, the ids stay 1..n and a created item gets a new id |
| ToDoRoutes.DeleteFirstInitial | testing-api/app/routes/todos.py:51-54 | deleting item 1 from the initial store leaves ids 2 and 3 in order |
| ToDoRoutes.CreateAfterDeleteReplaces | testing-api/app/routes/todos.py:44-45 | after deleting item 1, a created item gets id 3 and overwrites item 3 |
| MockedRepository.MockedToDosRepository.constructor | testing-api/data/mocks.py:8-9 | a new repository is empty |
| MockedRepository.MockedToDosRepository.GetTodos | testing-api/data/mocks.py:11-12 | exactly the stored values, in insertion order |
| MockedRepository.MockedToDosRepository.StoreTodo | testing-api/data/mocks.py:14-15 | inserts or replaces the entry keyed by the item's id |
| MockedRepository.MockedToDosRepository.DeleteTodo | testing-api/data/mocks.py:17-21 | removes only the item's id; a missing id is a no-op |
| MockedRepository.StoreThenDelete | testing-api/data/mocks.py:14-21 | storing then deleting a new item leaves the repository exactly as it was, key order included |
| MockedRepository.DeleteMissing | testing-api/data/mocks.py:17-21 | deleting an absent id changes nothing |
| Chat.ConnectionManager.constructor | websocket-chat/app/connection.py:23-24 | no active connections, nothing sent |
| Chat.ConnectionManager.Broadcast | websocket-chat/app/connection.py:41-44 | one delivery per active connection, in list order |
| Chat.Deliveries | websocket-chat/app/connection.py:41-44 | one delivery per listed connection, in order, each carrying the message |
| Chat.ReachesExactlyListed | websocket-chat/app/connection.py:41-44 | a broadcast reaches exactly the listed connections |
| Chat.ConnectionManager.Greet | websocket-chat/app/connection.py:46-52 | the server's "{id} enters the chat" to everyone listed |
| Chat.ConnectionManager.Bye | websocket-chat/app/connection.py:54-60 | the server's "{id} disconnected" to everyone listed |
| Chat.ServerTextsDiffer | websocket-chat/app/connection.py:46-60 | a greeting and a farewell never carry the same text |
| Chat.ConnectionManager.Connect | websocket-chat/app/connection.py:26-31 | the greeting reaches only the connections already listed; the newcomer ends last |
| Chat.ConnectionManager.Disconnect | websocket-chat/app/connection.py:33-35 | the connection is unlisted before the farewell, so it does not receive it; an unlisted one is a ValueError |
| Chat.ConnectionManager.Manage | websocket-chat/app/connection.py:37-39 | the received message goes to every listed connection, the sender included |
| PyLists.RemoveFirstDistinct | websocket-chat/app/connection.py:34 | from a list without repeats, `list.remove` takes out exactly the removed element and keeps the list free of repeats |
| PyLists.RemoveFirst | long-polling/server.py:39-40 | `list.remove` of a present element: one shorter, nothing new, every other element kept |
| LongPolling.MessageManager.constructor | long-polling/server.py:17-20 | not closing, no queues, no tasks |
| LongPolling.MessageManager.Subscribe | long-polling/server.py:22-29 | when closing, empty text and nothing registered; otherwise one new queue and task, registered last |
| LongPolling.MessageManager.Finish | long-polling/server.py:31-44 | cancelled: no content; otherwise the first queued message; the queue and the task are unregistered on every path |
| LongPolling.RemoveRegistered | long-polling/server.py:39-40 | removing a subscriber restores the registry as if it had never been |
| LongPolling.MessageManager.AddMessage | long-polling/server.py:46-48 | the message is appended to every registered queue |
| LongPolling.MessageManager.PutEach | long-polling/server.py:47-53 | every registered queue gets the message at its end (through `PutAll`), and the registry is unchanged |
| LongPolling.PutAll | long-polling/server.py:47-48 | the `for queue in self._queues` loop (shared with lines 52-53), on the map of queue contents, yields exactly `PutInto` of the registered ids |
| LongPolling.PutInto | long-polling/server.py:47-48 | every listed queue gets the message at its end; the others are unchanged |
| LongPolling.MessageManager.CancelAllTasks | long-polling/server.py:50-53 | closing becomes true and "" is appended to every registered queue |
| LongPolling.MessageManager.TaskCount | long-polling/server.py:88-89 | the number of waiting tasks |
| LongPolling.NextMessageAnswers | long-polling/server.py:42-48 | a subscriber waiting on an empty queue is answered with the next published message |
| RedisTokens.TraceId | oidc/common/redis.py:33-38 | the cookie's value when present and non-empty, otherwise a fresh UUID's canonical text |
| RedisTokens.RedisTokensStore.constructor | oidc/common/redis.py:22-31 | the store keeps the client, the cookie name and the expiry it is given |
| RedisTokens.RedisTokensStore.StoreTokens | oidc/common/redis.py:61-85 | an http-only cookie on path "/" with the trace id, secure iff https; Redis holds both tokens under it with the store's expiry |
| RedisTokens.Restored | oidc/common/redis.py:87-114 | a missing or empty cookie, a missing or empty stored value, or a value that does not parse leaves the identity as it was; a parsed object sets both tokens from its members, on a new empty identity if there was none; any other parsed value is an AttributeError on that identity |
| RedisTokens.RedisTokensStore.RestoreTokens | oidc/common/redis.py:87-114 | the request's identity becomes the restored one; Redis is only read |
| RedisTokens.Unset | oidc/common/redis.py:116-123 | the key named by a present cookie is deleted, otherwise nothing |
| RedisTokens.RedisTokensStore.UnsetTokens | oidc/common/redis.py:116-123 | Redis loses exactly the key named by the cookie |
| RedisTokens.StoreThenRestore | oidc/common/redis.py:61-114 | storing then restoring with the cookie's trace id gives back the stored pair |
| RedisTokens.UnsetThenRestore | oidc/common/redis.py:87-123 | after sign-out, restoring leaves the identity as it was |
| RedisTokens.NoCookieNoEffect | oidc/common/redis.py:92-95 | without the cookie nothing is restored and nothing is deleted |
| TestTokensStore.TokensStore.constructor | oidc/scopes_aad.py:30-33 | both tokens start as None |
| TestTokensStore.TokensStore.StoreTokens | oidc/scopes_aad.py:35-48 | both fields are overwritten; request, response and expiry are ignored |
| TestTokensStore.TokensStore.UnsetTokens | oidc/scopes_aad.py:50-55 | both fields become None |
| TestTokensStore.TokensStore.RestoreTokens | oidc/scopes_aad.py:57-64 | a missing identity fails the assertion; otherwise the current pair is copied onto it |
| TestTokensStore.Restore | oidc/scopes_aad.py:63-64 | only the identity's tokens change; claims and mode are kept |
| Utf8.DecodeEncode | oauth2-password-provider/src/password_auth.py:185 | decoding the UTF-8 encoding of a text gives it back |
| Hex.FromHexToHex | oauth2-password-provider/src/user.py:18 | `bytes.fromhex(b.hex()) == b` |
| Uuids.ParseHexOf | oauth2-password-provider/src/password_auth.py:316-318 | `UUID(u.hex) == u` |
| Uuids.ParseCanonical | oidc/common/redis.py:38 | `UUID(str(u)) == u` for every well-formed UUID |
| Decimal.ParseShowNat | proxy-2/blacksheep_proxy/server.py:29 | `int(str(n)) == n` on ASCII bytes |
| Base64.DecodeEncodedWithPadding | jwt-validation/core/jwks.py:29 | the unpadded url-safe encoding with `==` appended decodes to the original bytes |
| BigEndian.FromToBytes | jwt-validation/core/jwks.py:30 | `int.from_bytes` of a number's shortest big-endian bytes is the number |
| Texts.SplitJoined | oauth2-password-provider/src/user.py:25 | two `$`-free parts joined by `$` split back into those parts |
| Texts.RStripAppend | jwt-validation/core/jwks.py:60 | `rstrip` is idempotent and ignores extra trailing characters |

## Left out

- Network and process I/O are parameters or left out:
  - the HTTP client's `send`, connection pools, `uvicorn.run` and `urlopen`;
  - the Redis client, modelled as a map whose entries record their expiry but never expire;
  - logging and `print`.
- File writes and unlinks in the upload handler are a map from file name to contents.
- Concurrency is not modelled: async generators, asyncio tasks, queue awaiting, SIGINT handling and websocket receive loops. `LongPolling.MessageManager.Subscribe` and `Finish` split `subscribe` at its `await`. Each task is identified with its queue's id.
- Foreign cryptography and encoding are oracles:
  - JWT encode/decode and `get_unverified_header`;
  - RSA PEM serialisation;
  - PBKDF2;
  - `uuid4`, `datetime.utcnow`, and JSON `dumps`/`loads`.
- The proxy's buffered branch after the first `return` (proxy/blacksheep_proxy/server.py:81-88) is unreachable and is not modelled. The same goes for framework behaviour the proxies delegate: connection reuse, cancellation, timeouts and framing-mismatch detection.
- Python reflection in the DI connectors (`get_type_hints`, `getattr`/`setattr`) is an explicit map of providers and a map of parameter hints. Calling a provider is not modelled: `Resolve` returns the provider.
- `SnakeCaseConnector.ToSnakeCase`: `str.lower()` is modelled on ASCII letters only, and the regular expression `(?<!^)(?=[A-Z])` is written out as a function.
- `PasswordAuth.ClaimsOf`: `payload.dict()` and the encoder's conversion of UUIDs and datetimes are represented by one claims map. Datetimes are integer timestamps, and pydantic's other datetime input forms are not accepted.
- `Uuids.Parse` drops hyphens wherever they stand, as `UUID()` does, then requires exactly 32 hex digits. The `urn:uuid:` and brace forms are not modelled. Neither is what `int(..., 16)` also tolerates in those 32 characters: a leading sign, underscores between digits and surrounding whitespace.
- `Hex.FromHex` does not skip whitespace as `bytes.fromhex` does.
- `Decimal.ParseInt` does not accept the underscores and surrounding whitespace that `int()` does.
- `PasswordAuth.BearerOutcome`: the `FailedTokenDecode` message detail and logging are not modelled; a failed decode is an anonymous result.
- `PasswordAuth.OAuth2PasswordHandler.RevokeHandler`: the revoke handler passes the session id where a user id is expected. The model keeps this as written.
- `PasswordAuth.AppAuthProvider.Authenticate`, `PasswordAuth.AppAuthProvider.RefreshToken`: the request handlers `token_handler` and `refresh_handler` only compose the extractors with these methods and wrap the result in JSON. They are not modelled as separate members.
- PasswordAuth.AppAuthProvider.RefreshToken: composes the corrected store lookups `UserStore.UserDal.GetUserByRefreshToken` and `UserStore.UserDal.RevokeRefreshToken`, not the defective ones under Findings. Over the store as written no refresh succeeds; `PasswordAuth.AppAuthProvider.RefreshTokenAsWritten` states what happens then.
- PasswordAuth.AppAuthProvider.RevokeRefreshToken: composes the corrected `UserStore.UserDal.RevokeRefreshToken`. As written it fails with RuntimeError whenever the user holds a token; `PasswordAuth.AppAuthProvider.RevokeRefreshTokenAsWritten` states that case.
- `Jwts.SelectJwk`: a `keys` member that is not a list is an error in the model.
- `Jwts.KeyIn`: every key set that is not a JSON object gives the OAuthException. In Python the `in` test on a number, a boolean or null raises TypeError. A list holding the string "keys", or a string containing it, passes that test and then fails on `.get` with AttributeError.
- `Jwks.ReadJwksFromAuthority`: a discovery document that is not a JSON object is treated like one without `jwks_uri`.
- `Chat.Connection`: `receive` (JSON parsing into `Message(**data)`) and the websocket accept are not modelled. `Manage` takes the received message as a parameter.
- `LongPolling.MessageManager.Finish` requires a non-empty queue when the task was not cancelled. It models a task that has completed, not one that is still waiting.
- The OpenTelemetry glue, the OIDC configuration scripts and HTML routes, the machine-to-machine clients, the static JavaScript and the Flask and Piccolo apps are not part of this model.

## Findings

| source | as written | input that shows it | evidently intended | confidence | as-written member | corrected member |
|---|---|---|---|---|---|---|
| oauth2-password-provider/src/user.py:88 | the user table, keyed by username, is looked up by the token's user UUID | a registered user holding a stored, unexpired refresh token with matching session | the user whose id is the token's user id is found | not executed | UserStore.UserDal.GetUserByRefreshTokenAsWritten | UserStore.UserDal.GetUserByRefreshToken |
| oauth2-password-provider/src/user.py:97-99 | entries are deleted from `TOKEN_DB` while iterating over its values, so the first deletion ends the loop with RuntimeError | two refresh tokens of the same user | every token of the user is removed, the others kept | not executed | UserStore.UserDal.RevokeRefreshTokenAsWritten | UserStore.UserDal.RevokeRefreshToken |
| jwt-validation/app/auth/jwtbearer.py:54 | the synchronous `validate_jwt` result is awaited, so a valid token raises TypeError | any token the validator accepts | the request is authenticated as `User(payload, "JWT Bearer")` | not executed | JwtBearer.SettleAsWritten | JwtBearer.Settle |
| dependency-injector/docs/example2.py:102 | `re.sub` is called but `re` is never imported | registering any type that has `__init__` | providers keyed by the snake_case name | not executed | SnakeCaseConnector.SnakeCaseConnector.RegisterAsWritten | SnakeCaseConnector.SnakeCaseConnector.Register |
