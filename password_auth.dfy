/**
 * The OAuth2 password and refresh-token flows of the password-provider example: bearer
 * token extraction and authentication, the issued token pair, the provider's login and
 * refresh bookkeeping over the user store, and the request handlers' credential extraction
 * and revocation.
 */
module PasswordAuth {
  import opened ByteStrings
  import opened Results
  import opened Json
  import opened HttpHeaders
  import opened Identities
  import opened Uuids
  import UserStore
  import PyDicts
  import Utf8

  type Claims = map<string, Json>

  /** `jwt.decode` with the configured secret and options; `Err` is `FailedTokenDecode`. */
  type Decoder = string -> Result<Claims, ()>

  /** `jwt.encode` with the configured secret, writing UUIDs as hex and times as timestamps. */
  type Encoder = Claims -> string

  /** The settings the flows read; secret, algorithm, issuer, audience and paths go to the oracles. */
  datatype Settings = Settings(accessTokenTtl: int, refreshTokenTtl: int, usernameField: string, passwordField: string)

  const DEFAULT_SETTINGS := Settings(60 * 60, 60 * 60 * 24 * 30, "username", "password")

  datatype AuthError =
    | Unauthorized(message: string)
    | ValidationError
    | ValueError(message: string)
    | KeyError(key: string)
    | AttributeError(name: string)
    | TypeError(message: string)
    | Store(error: UserStore.StoreError)

  const INVALID_CREDENTIALS := "User or password is invalid"
  const INVALID_REFRESH := "Invalid refresh token"
  const FAILED_DECODE_REFRESH := "Invalid refresh token: <class 'src.password_auth.FailedTokenDecode'>"
  const INVALID_REFRESH_TYPE := "Invalid type of refresh token"
  const BAD_UUID := "badly formed hexadecimal UUID string"
  const UUID_ARGUMENT_MISSING := "one of the hex, bytes, bytes_le, fields, or int arguments must be given"
  const UNSUPPORTED_CONTENT_TYPE := "Unsupported Content-Type. Supported: application/x-www-form-urlencoded, application/json"

  datatype TokenType = Access | Refresh

  /** `TokenPayload`: the three ids are version-4 UUIDs, times are timestamps in seconds. */
  datatype TokenPayload = TokenPayload(sub: Uuid, jti: Uuid, sid: Uuid, iat: int, nbf: int, exp: int, typ: TokenType)

  predicate ValidPayload(p: TokenPayload)
  {
    IsVersion4(p.sub) && IsVersion4(p.jti) && IsVersion4(p.sid)
  }

  function TypeName(t: TokenType): string
  {
    match t
    case Access => "access"
    case Refresh => "refresh"
  }

  /** The claims of a payload as they travel in a token. */
  function ClaimsOf(p: TokenPayload): (c: Claims)
    ensures c.Keys == {"sub", "jti", "sid", "iat", "nbf", "exp", "typ"}
  {
    map["sub" := JString(HexOf(p.sub)), "jti" := JString(HexOf(p.jti)), "sid" := JString(HexOf(p.sid)),
        "iat" := JNumber(p.iat), "nbf" := JNumber(p.nbf), "exp" := JNumber(p.exp),
        "typ" := JString(TypeName(p.typ))]
  }

  /** A version-4 UUID in text form under the key, as the payload model validates it. */
  function UuidField(c: Claims, key: string): (r: Option<Uuid>)
    ensures r.Some? ==> key in c && c[key].JString? && Parse(c[key].s) == Some(r.value) && IsVersion4(r.value)
  {
    if key in c && c[key].JString? then
      match Parse(c[key].s)
      case Some(u) => if IsVersion4(u) then Some(u) else None
      case None => None
    else None
  }

  function TimeField(c: Claims, key: string): (r: Option<int>)
    ensures r.Some? <==> key in c && c[key].JNumber?
  {
    if key in c && c[key].JNumber? then Some(c[key].n) else None
  }

  function TypeField(c: Claims): (r: Option<TokenType>)
    ensures r.Some? <==> "typ" in c && c["typ"] in {JString("access"), JString("refresh")}
    ensures r.Some? ==> c["typ"] == JString(TypeName(r.value))
  {
    if "typ" in c && c["typ"] == JString("access") then Some(Access)
    else if "typ" in c && c["typ"] == JString("refresh") then Some(Refresh)
    else None
  }

  /** `TokenPayload.parse_obj(c)`; `None` is the `ValidationError`. Extra claims are ignored. */
  function ParsePayload(c: Claims): (r: Option<TokenPayload>)
    ensures r.Some? ==> ValidPayload(r.value) && "typ" in c && c["typ"] == JString(TypeName(r.value.typ))
  {
    match (UuidField(c, "sub"), UuidField(c, "jti"), UuidField(c, "sid"))
    case (Some(sub), Some(jti), Some(sid)) =>
      (match (TimeField(c, "iat"), TimeField(c, "nbf"), TimeField(c, "exp"), TypeField(c))
       case (Some(iat), Some(nbf), Some(exp), Some(typ)) => Some(TokenPayload(sub, jti, sid, iat, nbf, exp, typ))
       case _ => None)
    case _ => None
  }

  /** The claims of a valid payload parse back into that payload. */
  lemma ParseClaimsOf(p: TokenPayload)
    requires ValidPayload(p)
    ensures ParsePayload(ClaimsOf(p)) == Some(p)
  {
    var c := ClaimsOf(p);
    UuidFieldOfHex(c, "sub", p.sub);
    UuidFieldOfHex(c, "jti", p.jti);
    UuidFieldOfHex(c, "sid", p.sid);
    assert TimeField(c, "iat") == Some(p.iat) && TimeField(c, "nbf") == Some(p.nbf) && TimeField(c, "exp") == Some(p.exp);
    assert TypeField(c) == Some(p.typ) by {
      assert c["typ"] == JString(TypeName(p.typ));
    }
  }

  lemma UuidFieldOfHex(c: Claims, key: string, u: Uuid)
    requires key in c && c[key] == JString(HexOf(u)) && IsVersion4(u)
    ensures UuidField(c, key) == Some(u)
  {
    ParseHexOf(u);
  }

  /**
   * `_get_tokens_pair`: one access and one refresh payload sharing subject, token id, session
   * and issue time; each expires its ttl after `now`, the ttl counted in minutes. A session
   * id is generated only when none is given. Building the payloads validates the ids.
   */
  function GetTokensPair(sub: Uuid, sid: Option<Uuid>, freshSid: Uuid, freshJti: Uuid, now: int, settings: Settings)
    : (r: Result<(TokenPayload, TokenPayload), AuthError>)
    ensures var s := if sid.Some? then sid.value else freshSid;
      r.Ok? <==> IsVersion4(sub) && IsVersion4(s) && IsVersion4(freshJti)
    ensures r.Err? ==> r.error == ValidationError
    ensures r.Ok? ==> var (access, refresh) := r.value;
      access.typ == Access && refresh.typ == Refresh
      && access.sub == refresh.sub == sub
      && access.jti == refresh.jti == freshJti
      && access.sid == refresh.sid && (sid.Some? ==> access.sid == sid.value)
      && access.iat == access.nbf == refresh.iat == refresh.nbf == now
      && access.exp == now + settings.accessTokenTtl * 60
      && refresh.exp == now + settings.refreshTokenTtl * 60
      && ValidPayload(access) && ValidPayload(refresh)
  {
    var s := if sid.Some? then sid.value else freshSid;
    if !(IsVersion4(sub) && IsVersion4(s) && IsVersion4(freshJti)) then Err(ValidationError)
    else
      Ok((TokenPayload(sub, freshJti, s, now, now, now + settings.accessTokenTtl * 60, Access),
          TokenPayload(sub, freshJti, s, now, now, now + settings.refreshTokenTtl * 60, Refresh)))
  }

  /**
   * With the default settings the ttls, which read like seconds, are taken as minutes: the
   * access token lives 60 hours and the refresh token 1800 days.
   */
  lemma DefaultTtlsAreMinutes(sub: Uuid, sid: Option<Uuid>, freshSid: Uuid, freshJti: Uuid, now: int)
    requires GetTokensPair(sub, sid, freshSid, freshJti, now, DEFAULT_SETTINGS).Ok?
    ensures var (access, refresh) := GetTokensPair(sub, sid, freshSid, freshJti, now, DEFAULT_SETTINGS).value;
      access.exp - now == 60 * 60 * 60 && refresh.exp - now == 1800 * 24 * 60 * 60
  {
  }

  const AUTHORIZATION: Bytes := Ascii("Authorization")
  const BEARER_PREFIX: Bytes := Ascii("Bearer ")

  /**
   * `_get_request_token`: the first Authorization header must be present, non-empty and
   * start with `Bearer `; the rest, from byte 7, is decoded as UTF-8.
   */
  function GetRequestToken(headers: seq<Header>): (r: Option<string>)
    ensures r.Some? <==> GetFirst(headers, AUTHORIZATION).Some?
                         && StartsWith(GetFirst(headers, AUTHORIZATION).value, BEARER_PREFIX)
                         && Utf8.Decode(GetFirst(headers, AUTHORIZATION).value[7..]).Some?
    ensures r.Some? ==> r == Utf8.Decode(GetFirst(headers, AUTHORIZATION).value[7..])
  {
    match GetFirst(headers, AUTHORIZATION)
    case None => None
    case Some(value) =>
      if value == [] then None
      else if !StartsWith(value, BEARER_PREFIX) then None
      else Utf8.Decode(value[7..])
  }

  /** A bearer header built from a token gives the token back. */
  lemma RequestTokenOfBearer(token: string, rest: seq<Header>)
    ensures GetRequestToken([(AUTHORIZATION, BEARER_PREFIX + Utf8.Encode(token))] + rest) == Some(token)
  {
    var hs := [(AUTHORIZATION, BEARER_PREFIX + Utf8.Encode(token))] + rest;
    assert NameIs(hs[0], AUTHORIZATION);
    var v := BEARER_PREFIX + Utf8.Encode(token);
    assert v[..7] == BEARER_PREFIX && v[7..] == Utf8.Encode(token);
    Utf8.DecodeEncode(token);
  }

  /**
   * What `BearerAuthentication.authenticate` decides: `Ok(None)` leaves an anonymous identity,
   * `Ok(Some(id))` authenticates, `Err` is the payload `ValidationError`, which is not caught.
   */
  function BearerOutcome(headers: seq<Header>, decode: Decoder): (r: Result<Option<Identity>, AuthError>)
    ensures r.Ok? && r.value.Some? <==>
      var raw := GetRequestToken(headers);
      raw.Some? && raw.value != "" && decode(raw.value).Ok?
      && ParsePayload(decode(raw.value).value).Some?
      && ParsePayload(decode(raw.value).value).value.typ == Access
    ensures r.Err? <==>
      var raw := GetRequestToken(headers);
      raw.Some? && raw.value != "" && decode(raw.value).Ok? && ParsePayload(decode(raw.value).value).None?
    ensures r.Err? ==> r.error == ValidationError
    ensures r.Ok? && r.value.Some? ==>
      r.value.value == Identity(decode(GetRequestToken(headers).value).value, Some("Bearer"), JNull, JNull)
      && IsAuthenticated(r.value.value)
  {
    match GetRequestToken(headers)
    case None => Ok(None)
    case Some(raw) =>
      if raw == "" then Ok(None)
      else match decode(raw)
        case Err(_) => Ok(None)
        case Ok(token) =>
          match ParsePayload(token)
          case None => Err(ValidationError)
          case Some(_) =>
            if token["typ"] != JString("access") then Ok(None)
            else Ok(Some(Identity(token, Some("Bearer"), JNull, JNull)))
  }

  /** `BearerAuthentication`: authenticates requests with tokens from the given decoder. */
  class BearerAuthentication {
    const decode: Decoder

    constructor (decode: Decoder)
      ensures this.decode == decode
    {
      this.decode := decode;
    }

    /**
     * `authenticate`: every path that returns assigns the request's identity, an empty
     * unauthenticated one unless the token is a valid access token.
     */
    method Authenticate(request: HttpRequest) returns (r: Result<Option<Identity>, AuthError>)
      modifies request
      ensures r == BearerOutcome(request.headers, decode)
      ensures r.Ok? && r.value.None? ==> request.identity == Some(Unauthenticated(map[]))
      ensures r.Ok? && r.value.Some? ==> request.identity == r.value
      ensures r.Err? ==> request.identity == old(request.identity)
    {
      r := BearerOutcome(request.headers, decode);
      if r.Ok? {
        request.identity := if r.value.Some? then r.value else Some(Unauthenticated(map[]));
      }
    }
  }

  /** `_make_identity`: the access claims plus both encoded tokens; no authentication mode. */
  function MakeIdentity(access: TokenPayload, accessToken: string, refreshToken: string): (id: Identity)
    ensures !IsAuthenticated(id) && id.claims == ClaimsOf(access)
  {
    Identity(ClaimsOf(access), None, JString(accessToken), JString(refreshToken))
  }

  /**
   * The checks of `AppAuthProvider.authenticate`: an unknown user, a wrong password and an
   * inactive account are refused with one and the same message; a stored hash that is not in
   * the `salt$digest` form makes `checkpw` raise.
   */
  function CheckLogin(users: PyDicts.Dict<string, UserStore.User>, username: string, password: string,
                      pbkdf2: UserStore.Pbkdf2): (r: Result<UserStore.User, AuthError>)
    ensures r.Ok? <==> username in users.items
                       && UserStore.CheckPw(password, users.items[username].password, pbkdf2) == Ok(true)
                       && users.items[username].active
    ensures r.Ok? ==> r.value == users.items[username]
    ensures r.Err? ==> r.error == Unauthorized(INVALID_CREDENTIALS)
                       || (username in users.items
                           && UserStore.CheckPw(password, users.items[username].password, pbkdf2).Err?
                           && r.error == Store(UserStore.CheckPw(password, users.items[username].password, pbkdf2).error))
    ensures username !in users.items ==> r == Err(Unauthorized(INVALID_CREDENTIALS))
  {
    if username !in users.items then Err(Unauthorized(INVALID_CREDENTIALS))
    else
      var user := users.items[username];
      match UserStore.CheckPw(password, user.password, pbkdf2)
      case Err(e) => Err(Store(e))
      case Ok(matches) =>
        if !matches then Err(Unauthorized(INVALID_CREDENTIALS))
        else if !user.active then Err(Unauthorized(INVALID_CREDENTIALS))
        else Ok(user)
  }

  /** A registered, active user logs in with the password given at registration. */
  lemma LoginWithRegisteredPassword(users: PyDicts.Dict<string, UserStore.User>, username: string, password: string,
                                    salt: Bytes, id: Uuid, pbkdf2: UserStore.Pbkdf2)
    requires users.Valid()
    ensures var registered := users.Set(username, UserStore.User(id, username, UserStore.HashPw(password, salt, pbkdf2), true));
      CheckLogin(registered, username, password, pbkdf2) == Ok(registered.items[username])
  {
    UserStore.CheckOwnPassword(password, salt, pbkdf2);
  }

  /** `UUID(c[key])`: a missing key, a value that is not text, and malformed text all raise. */
  function UuidOf(c: Claims, key: string): (r: Result<Uuid, AuthError>)
    ensures r.Ok? <==> key in c && c[key].JString? && Parse(c[key].s).Some?
    ensures r.Ok? ==> Parse(c[key].s) == Some(r.value)
    ensures key !in c ==> r == Err(KeyError(key))
    ensures key in c && c[key].JNull? ==> r == Err(TypeError(UUID_ARGUMENT_MISSING))
    ensures key in c && !c[key].JNull? && !c[key].JString? ==> r == Err(AttributeError("replace"))
  {
    if key !in c then Err(KeyError(key))
    else if c[key].JNull? then Err(TypeError(UUID_ARGUMENT_MISSING))
    else if !c[key].JString? then Err(AttributeError("replace"))
    else match Parse(c[key].s)
      case None => Err(ValueError(BAD_UUID))
      case Some(u) => Ok(u)
  }

  /**
   * The checks `refresh_token` makes on a decoded token before any lookup: its `typ` must be
   * `refresh`, then `sub`, `jti` and `sid` are read as UUIDs, in that order.
   */
  function UsedRefresh(c: Claims): (r: Result<(Uuid, Uuid, Uuid), AuthError>)
    ensures "typ" !in c ==> r == Err(KeyError("typ"))
    ensures "typ" in c && c["typ"] != JString("refresh") ==> r == Err(Unauthorized(INVALID_REFRESH_TYPE))
    ensures r.Ok? <==> "typ" in c && c["typ"] == JString("refresh")
                       && UuidOf(c, "sub").Ok? && UuidOf(c, "jti").Ok? && UuidOf(c, "sid").Ok?
    ensures r.Ok? ==> r.value == (UuidOf(c, "sub").value, UuidOf(c, "jti").value, UuidOf(c, "sid").value)
  {
    if "typ" !in c then Err(KeyError("typ"))
    else if c["typ"] != JString("refresh") then Err(Unauthorized(INVALID_REFRESH_TYPE))
    else
      var sub :- UuidOf(c, "sub");
      var jti :- UuidOf(c, "jti");
      var sid :- UuidOf(c, "sid");
      Ok((sub, jti, sid))
  }

  /** An issued refresh token passes these checks with its own ids; an access token does not. */
  lemma UsedRefreshOfIssued(p: TokenPayload)
    requires ValidPayload(p)
    ensures p.typ == Refresh ==> UsedRefresh(ClaimsOf(p)) == Ok((p.sub, p.jti, p.sid))
    ensures p.typ == Access ==> UsedRefresh(ClaimsOf(p)) == Err(Unauthorized(INVALID_REFRESH_TYPE))
  {
    ParseHexOf(p.sub);
    ParseHexOf(p.jti);
    ParseHexOf(p.sid);
  }

  /** `AppAuthProvider`: issues, rotates and revokes tokens over the user store. */
  class AppAuthProvider {
    const storage: UserStore.UserDal
    const settings: Settings
    const encode: Encoder
    const decode: Decoder
    const pbkdf2: UserStore.Pbkdf2

    constructor (storage: UserStore.UserDal, settings: Settings, encode: Encoder, decode: Decoder, pbkdf2: UserStore.Pbkdf2)
      ensures this.storage == storage && this.settings == settings
      ensures this.encode == encode && this.decode == decode && this.pbkdf2 == pbkdf2
    {
      this.storage := storage;
      this.settings := settings;
      this.encode := encode;
      this.decode := decode;
      this.pbkdf2 := pbkdf2;
    }

    /**
     * `authenticate`: a refused login stores nothing; an accepted one stores the refresh
     * token of a new pair, in a new session, and returns the identity of the access token.
     */
    method Authenticate(username: string, password: string, freshSid: Uuid, freshJti: Uuid, now: int)
      returns (r: Result<Identity, AuthError>)
      requires storage.Valid()
      modifies storage
      ensures storage.Valid() && storage.users == old(storage.users)
      ensures r.Err? ==> storage.tokens == old(storage.tokens)
      ensures CheckLogin(old(storage.users), username, password, pbkdf2).Err? ==>
                r == Err(CheckLogin(old(storage.users), username, password, pbkdf2).error)
      ensures var user := CheckLogin(old(storage.users), username, password, pbkdf2);
        user.Ok? ==>
          var pair := GetTokensPair(user.value.id, None, freshSid, freshJti, now, settings);
          (pair.Err? ==> r == Err(pair.error))
          && (pair.Ok? ==>
                r.Ok?
                && r.value == MakeIdentity(pair.value.0, encode(ClaimsOf(pair.value.0)), encode(ClaimsOf(pair.value.1)))
                && storage.tokens == old(storage.tokens).Set(freshJti,
                     UserStore.Token(freshJti, user.value.id, freshSid, now + settings.refreshTokenTtl * 60)))
    {
      var login := CheckLogin(storage.users, username, password, pbkdf2);
      if login.Err? {
        return Err(login.error);
      }
      r := Issue(login.value.id, freshSid, freshJti, now);
    }

    /** The part of `authenticate` after the credentials check: a new pair, its refresh token stored. */
    method Issue(userId: Uuid, freshSid: Uuid, freshJti: Uuid, now: int) returns (r: Result<Identity, AuthError>)
      requires storage.Valid()
      modifies storage
      ensures storage.Valid() && storage.users == old(storage.users)
      ensures var pair := GetTokensPair(userId, None, freshSid, freshJti, now, settings);
        (pair.Err? ==> r == Err(pair.error) && storage.tokens == old(storage.tokens))
        && (pair.Ok? ==> (r.Ok?
          && r.value == MakeIdentity(pair.value.0, encode(ClaimsOf(pair.value.0)), encode(ClaimsOf(pair.value.1)))
          && storage.tokens == old(storage.tokens).Set(freshJti,
               UserStore.Token(freshJti, userId, freshSid, now + settings.refreshTokenTtl * 60))))
    {
      var pair := GetTokensPair(userId, None, freshSid, freshJti, now, settings);
      if pair.Err? {
        return Err(pair.error);
      }
      var access := pair.value.0;
      var refresh := pair.value.1;
      assert refresh.sub == userId && refresh.jti == freshJti && refresh.sid == freshSid;
      var accessToken := encode(ClaimsOf(access));
      var refreshToken := encode(ClaimsOf(refresh));
      var saved := storage.SaveRefreshToken(refresh.sub, refresh.jti, refresh.sid, refresh.exp);
      assert saved.Ok?;
      return Ok(MakeIdentity(access, accessToken, refreshToken));
    }

    /**
     * `revoke_refresh_token`: the text is read as a UUID and every refresh token whose user
     * id it is gets revoked.
     */
    method RevokeRefreshToken(userId: string) returns (r: Result<(), AuthError>)
      requires storage.Valid()
      modifies storage
      ensures storage.Valid() && storage.users == old(storage.users)
      ensures r.Err? <==> Parse(userId).None?
      ensures r.Err? ==> r.error == ValueError(BAD_UUID) && storage.tokens == old(storage.tokens)
      ensures r.Ok? ==> storage.tokens == UserStore.WithoutUser(old(storage.tokens), Parse(userId).value)
    {
      match Parse(userId)
      case None =>
        return Err(ValueError(BAD_UUID));
      case Some(u) =>
        storage.RevokeRefreshToken(u);
        return Ok(());
    }

    /**
     * `revoke_refresh_token` over the store as written: the text is read as a UUID, then the
     * deleting loop removes the user's first token and fails.
     */
    method RevokeRefreshTokenAsWritten(userId: string) returns (r: Result<(), AuthError>)
      requires storage.Valid()
      modifies storage
      ensures storage.Valid() && storage.users == old(storage.users)
      ensures Parse(userId).None? ==> r == Err(ValueError(BAD_UUID)) && storage.tokens == old(storage.tokens)
      ensures Parse(userId).Some? ==>
        storage.tokens == UserStore.RevokeFirst(old(storage.tokens), Parse(userId).value)
        && (r.Err? <==> UserStore.FirstTokenOf(old(storage.tokens).keys, old(storage.tokens).items, Parse(userId).value).Some?)
        && (r.Err? ==> r.error.Store? && r.error.error.RuntimeError?)
    {
      match Parse(userId)
      case None =>
        return Err(ValueError(BAD_UUID));
      case Some(u) =>
        var revoked := storage.RevokeRefreshTokenAsWritten(u);
        if revoked.Err? {
          return Err(Store(revoked.error));
        }
        return Ok(());
    }

    /**
     * `refresh_token` over the store as written: the lookup never finds the user, so no
     * refresh succeeds; a subject that still holds a token gets the loop's `RuntimeError`
     * instead of "Invalid refresh token", with only its first token deleted.
     */
    method RefreshTokenAsWritten(rawToken: string, now: int) returns (r: Result<Identity, AuthError>)
      requires storage.Valid()
      modifies storage
      ensures storage.Valid() && storage.users == old(storage.users)
      ensures r.Err?
      ensures decode(rawToken).Err? ==> r == Err(Unauthorized(FAILED_DECODE_REFRESH)) && storage.tokens == old(storage.tokens)
      ensures decode(rawToken).Ok? && UsedRefresh(decode(rawToken).value).Err? ==>
                r == Err(UsedRefresh(decode(rawToken).value).error) && storage.tokens == old(storage.tokens)
      ensures decode(rawToken).Ok? && UsedRefresh(decode(rawToken).value).Ok? ==>
        var sub := UsedRefresh(decode(rawToken).value).value.0;
        var first := UserStore.FirstTokenOf(old(storage.tokens).keys, old(storage.tokens).items, sub);
        storage.tokens == UserStore.RevokeFirst(old(storage.tokens), sub)
        && (first.Some? ==> r.error.Store? && r.error.error.RuntimeError?)
        && (first.None? ==> r == Err(Unauthorized(INVALID_REFRESH)))
    {
      var decoded := decode(rawToken);
      if decoded.Err? {
        return Err(Unauthorized(FAILED_DECODE_REFRESH));
      }
      var used := decoded.value;
      var ids :- UsedRefresh(used);
      var (sub, jti, sid) := ids;
      var user := storage.GetUserByRefreshTokenAsWritten(sub, jti, sid, now);
      assert user.None?;
      var revoked := RevokeRefreshTokenAsWritten(used["sub"].s);
      if revoked.Err? {
        return Err(revoked.error);
      }
      return Err(Unauthorized(INVALID_REFRESH));
    }

    /** The successful end of `refresh_token`: a new pair in the same session replaces the used token. */
    method Rotate(sub: Uuid, jti: Uuid, sid: Uuid, freshJti: Uuid, now: int) returns (r: Result<Identity, AuthError>)
      requires storage.Valid() && jti in storage.tokens.items
      modifies storage
      ensures storage.Valid() && storage.users == old(storage.users)
      ensures var pair := GetTokensPair(sub, Some(sid), sid, freshJti, now, settings);
        (pair.Err? ==> r == Err(pair.error) && storage.tokens == old(storage.tokens))
        && (pair.Ok? ==>
             r.Ok?
             && r.value == MakeIdentity(pair.value.0, encode(ClaimsOf(pair.value.0)), encode(ClaimsOf(pair.value.1)))
             && storage.tokens == old(storage.tokens)
                  .Set(freshJti, UserStore.Token(freshJti, sub, sid, now + settings.refreshTokenTtl * 60))
                  .Remove(jti))
    {
      var pair :- GetTokensPair(sub, Some(sid), sid, freshJti, now, settings);
      var (access, refresh) := pair;
      var accessToken := encode(ClaimsOf(access));
      var refreshToken := encode(ClaimsOf(refresh));
      ghost var stored := UserStore.Token(freshJti, sub, sid, now + settings.refreshTokenTtl * 60);
      assert UserStore.Token(refresh.jti, refresh.sub, refresh.sid, refresh.exp) == stored;
      var saved := storage.SaveRefreshToken(refresh.sub, refresh.jti, refresh.sid, refresh.exp);
      assert saved.Ok?;
      ghost var middle := storage.tokens;
      assert middle == old(storage.tokens).Set(freshJti, stored);
      var removed := storage.RemoveUsedRefreshToken(jti);
      assert removed.Ok? && storage.tokens == middle.Remove(jti);
      return Ok(MakeIdentity(access, accessToken, refreshToken));
    }

    /**
     * `refresh_token`: a used token that matches a stored one for a known user is rotated, the
     * new refresh token stored and the used one removed, keeping the session; one that does
     * not match revokes every refresh token of its subject.
     */
    method RefreshToken(rawToken: string, freshJti: Uuid, now: int) returns (r: Result<Identity, AuthError>)
      requires storage.Valid()
      modifies storage
      ensures storage.Valid() && storage.users == old(storage.users)
      ensures decode(rawToken).Err? ==> r == Err(Unauthorized(FAILED_DECODE_REFRESH)) && storage.tokens == old(storage.tokens)
      ensures decode(rawToken).Ok? && UsedRefresh(decode(rawToken).value).Err? ==>
                r == Err(UsedRefresh(decode(rawToken).value).error) && storage.tokens == old(storage.tokens)
      ensures decode(rawToken).Ok? && UsedRefresh(decode(rawToken).value).Ok? ==>
        var (sub, jti, sid) := UsedRefresh(decode(rawToken).value).value;
        (old(storage.GetUserByRefreshToken(sub, jti, sid, now)).None? ==>
           r == Err(Unauthorized(INVALID_REFRESH))
           && storage.tokens == UserStore.WithoutUser(old(storage.tokens), sub))
        && (old(storage.GetUserByRefreshToken(sub, jti, sid, now)).Some? ==>
             var pair := GetTokensPair(sub, Some(sid), sid, freshJti, now, settings);
             (pair.Err? ==> r == Err(pair.error) && storage.tokens == old(storage.tokens))
             && (pair.Ok? ==>
                   r.Ok?
                   && r.value == MakeIdentity(pair.value.0, encode(ClaimsOf(pair.value.0)), encode(ClaimsOf(pair.value.1)))
                   && storage.tokens == old(storage.tokens)
                        .Set(freshJti, UserStore.Token(freshJti, sub, sid, now + settings.refreshTokenTtl * 60))
                        .Remove(jti)))
    {
      var decoded := decode(rawToken);
      if decoded.Err? {
        return Err(Unauthorized(FAILED_DECODE_REFRESH));
      }
      var used := decoded.value;
      var ids :- UsedRefresh(used);
      var (sub, jti, sid) := ids;
      var user := storage.GetUserByRefreshToken(sub, jti, sid, now);
      if user.None? {
        var revoked := RevokeRefreshToken(used["sub"].s);
        assert revoked.Ok?;
        return Err(Unauthorized(INVALID_REFRESH));
      }
      r := Rotate(sub, jti, sid, freshJti, now);
    }
  }

  /** A parsed form field: text, or anything else (repeated fields, file parts). */
  datatype FormValue = FormText(text: string) | FormOther

  /** What the request offers the extractors: `await request.form()` and `await request.json()`. */
  datatype Body = Body(form: map<string, FormValue>, json: Json)

  /** `OAuth2PasswordAuthData` as the extractors return it: both fields set. */
  datatype Credentials = Credentials(username: string, password: string)

  const CONTENT_TYPE_NAME: Bytes := Ascii("Content-Type")
  const FORM_URLENCODED: Bytes := Ascii("application/x-www-form-urlencoded")
  const APPLICATION_JSON: Bytes := Ascii("application/json")
  const CANNOT_PARSE_FORM := "Cannot parse form data"
  const USERNAME_REQUIRED := "Username filed is required and must be a string"
  const PASSWORD_REQUIRED := "Password filed is required and must be a string"
  const FORM_REFRESH_REQUIRED := "Refresh token filed is required and must be a string"
  const JSON_REFRESH_REQUIRED := "Refresh token field is required and must be a string"
  const AUTHENTICATION_REQUIRED := "Authentication required"
  const SESSION_ID_REQUIRED := "Session ID filed is required and must be a string"

  predicate FormHasText(form: map<string, FormValue>, field: string)
  {
    field in form && form[field].FormText?
  }

  predicate JsonHasText(members: map<string, Json>, field: string)
  {
    field in members && members[field].JString?
  }

  /** `_form_userdata`: an empty form is refused, then the username is checked before the password. */
  function FormUserdata(form: map<string, FormValue>, settings: Settings): (r: Result<Credentials, AuthError>)
    ensures r.Ok? <==> form != map[] && FormHasText(form, settings.usernameField) && FormHasText(form, settings.passwordField)
    ensures r.Ok? ==> r.value == Credentials(form[settings.usernameField].text, form[settings.passwordField].text)
    ensures form == map[] ==> r == Err(ValueError(CANNOT_PARSE_FORM))
    ensures form != map[] && !FormHasText(form, settings.usernameField) ==> r == Err(ValueError(USERNAME_REQUIRED))
    ensures form != map[] && FormHasText(form, settings.usernameField) && !FormHasText(form, settings.passwordField)
            ==> r == Err(ValueError(PASSWORD_REQUIRED))
  {
    if form == map[] then Err(ValueError(CANNOT_PARSE_FORM))
    else if !FormHasText(form, settings.usernameField) then Err(ValueError(USERNAME_REQUIRED))
    else if !FormHasText(form, settings.passwordField) then Err(ValueError(PASSWORD_REQUIRED))
    else Ok(Credentials(form[settings.usernameField].text, form[settings.passwordField].text))
  }

  /** `_json_userdata`: the body must be an object (`.get` fails otherwise), username checked first. */
  function JsonUserdata(data: Json, settings: Settings): (r: Result<Credentials, AuthError>)
    ensures r.Ok? <==> data.JObject? && JsonHasText(data.members, settings.usernameField)
                       && JsonHasText(data.members, settings.passwordField)
    ensures r.Ok? ==> r.value == Credentials(data.members[settings.usernameField].s, data.members[settings.passwordField].s)
    ensures !data.JObject? ==> r == Err(AttributeError("get"))
    ensures data.JObject? && !JsonHasText(data.members, settings.usernameField) ==> r == Err(ValueError(USERNAME_REQUIRED))
    ensures data.JObject? && JsonHasText(data.members, settings.usernameField) && !JsonHasText(data.members, settings.passwordField)
            ==> r == Err(ValueError(PASSWORD_REQUIRED))
  {
    if !data.JObject? then Err(AttributeError("get"))
    else if !JsonHasText(data.members, settings.usernameField) then Err(ValueError(USERNAME_REQUIRED))
    else if !JsonHasText(data.members, settings.passwordField) then Err(ValueError(PASSWORD_REQUIRED))
    else Ok(Credentials(data.members[settings.usernameField].s, data.members[settings.passwordField].s))
  }

  /**
   * `_fetch_credentials`: the first Content-Type must be byte-equal to one of the two
   * supported types (so a `charset` parameter is refused); anything else is `Unauthorized`.
   */
  function FetchCredentials(headers: seq<Header>, body: Body, settings: Settings): (r: Result<Credentials, AuthError>)
    ensures GetFirst(headers, CONTENT_TYPE_NAME) == Some(FORM_URLENCODED) ==> r == FormUserdata(body.form, settings)
    ensures GetFirst(headers, CONTENT_TYPE_NAME) == Some(APPLICATION_JSON) ==> r == JsonUserdata(body.json, settings)
    ensures GetFirst(headers, CONTENT_TYPE_NAME) !in {Some(FORM_URLENCODED), Some(APPLICATION_JSON)}
            ==> r == Err(Unauthorized(UNSUPPORTED_CONTENT_TYPE))
  {
    var contentType := GetFirst(headers, CONTENT_TYPE_NAME);
    if contentType == Some(FORM_URLENCODED) then FormUserdata(body.form, settings)
    else if contentType == Some(APPLICATION_JSON) then JsonUserdata(body.json, settings)
    else Err(Unauthorized(UNSUPPORTED_CONTENT_TYPE))
  }

  /** `_form_refreshdata`. */
  function FormRefreshdata(form: map<string, FormValue>): (r: Result<string, AuthError>)
    ensures r.Ok? <==> form != map[] && FormHasText(form, "refresh_token")
    ensures r.Ok? ==> r.value == form["refresh_token"].text
    ensures form == map[] ==> r == Err(ValueError(CANNOT_PARSE_FORM))
    ensures form != map[] && !FormHasText(form, "refresh_token") ==> r == Err(ValueError(FORM_REFRESH_REQUIRED))
  {
    if form == map[] then Err(ValueError(CANNOT_PARSE_FORM))
    else if !FormHasText(form, "refresh_token") then Err(ValueError(FORM_REFRESH_REQUIRED))
    else Ok(form["refresh_token"].text)
  }

  /** `_json_refreshdata`. */
  function JsonRefreshdata(data: Json): (r: Result<string, AuthError>)
    ensures r.Ok? <==> data.JObject? && JsonHasText(data.members, "refresh_token")
    ensures r.Ok? ==> r.value == data.members["refresh_token"].s
    ensures !data.JObject? ==> r == Err(AttributeError("get"))
    ensures data.JObject? && !JsonHasText(data.members, "refresh_token") ==> r == Err(ValueError(JSON_REFRESH_REQUIRED))
  {
    if !data.JObject? then Err(AttributeError("get"))
    else if !JsonHasText(data.members, "refresh_token") then Err(ValueError(JSON_REFRESH_REQUIRED))
    else Ok(data.members["refresh_token"].s)
  }

  /** `_fetch_refresh_token`: as for credentials, but an unsupported type is a `ValueError`. */
  function FetchRefreshToken(headers: seq<Header>, body: Body): (r: Result<string, AuthError>)
    ensures GetFirst(headers, CONTENT_TYPE_NAME) == Some(FORM_URLENCODED) ==> r == FormRefreshdata(body.form)
    ensures GetFirst(headers, CONTENT_TYPE_NAME) == Some(APPLICATION_JSON) ==> r == JsonRefreshdata(body.json)
    ensures GetFirst(headers, CONTENT_TYPE_NAME) !in {Some(FORM_URLENCODED), Some(APPLICATION_JSON)}
            ==> r == Err(ValueError(UNSUPPORTED_CONTENT_TYPE))
  {
    var contentType := GetFirst(headers, CONTENT_TYPE_NAME);
    if contentType == Some(FORM_URLENCODED) then FormRefreshdata(body.form)
    else if contentType == Some(APPLICATION_JSON) then JsonRefreshdata(body.json)
    else Err(ValueError(UNSUPPORTED_CONTENT_TYPE))
  }

  /** A JSON login body with both fields yields exactly those credentials. */
  lemma JsonLoginAccepted(rest: seq<Header>, form: map<string, FormValue>, username: string, password: string)
    ensures var body := Body(form, JObject(map["username" := JString(username), "password" := JString(password)]));
      FetchCredentials([(CONTENT_TYPE_NAME, APPLICATION_JSON)] + rest, body, DEFAULT_SETTINGS) == Ok(Credentials(username, password))
  {
    var hs := [(CONTENT_TYPE_NAME, APPLICATION_JSON)] + rest;
    assert NameIs(hs[0], CONTENT_TYPE_NAME);
    assert GetFirst(hs, CONTENT_TYPE_NAME) == Some(APPLICATION_JSON);
    assert APPLICATION_JSON != FORM_URLENCODED by { assert |APPLICATION_JSON| != |FORM_URLENCODED|; }
  }

  /**
   * The checks of `revoke_handler` before the store is touched: an authenticated identity with
   * a text `session_id` claim that reads as a UUID. That UUID is then revoked as a user id.
   */
  function RevokeTarget(identity: Option<Identity>): (r: Result<Uuid, AuthError>)
    ensures identity.None? || !IsAuthenticated(identity.value) ==> r == Err(Unauthorized(AUTHENTICATION_REQUIRED))
    ensures r.Ok? <==> identity.Some? && IsAuthenticated(identity.value) && UuidOfSession(identity.value.claims).Some?
    ensures r.Ok? ==> r.value == UuidOfSession(identity.value.claims).value
  {
    if identity.None? || !IsAuthenticated(identity.value) then Err(Unauthorized(AUTHENTICATION_REQUIRED))
    else
      var claims := identity.value.claims;
      if "session_id" !in claims then Err(KeyError("session_id"))
      else if !claims["session_id"].JString? then Err(ValueError(SESSION_ID_REQUIRED))
      else match Parse(claims["session_id"].s)
        case None => Err(ValueError(BAD_UUID))
        case Some(u) => Ok(u)
  }

  function UuidOfSession(claims: Claims): Option<Uuid>
  {
    if "session_id" in claims && claims["session_id"].JString? then Parse(claims["session_id"].s) else None
  }

  /**
   * The tokens this example issues carry `sid`, never `session_id`: an identity authenticated
   * from one of them always makes `revoke_handler` fail with `KeyError`, and one made at login
   * is not authenticated at all.
   */
  lemma RevokeRefusesIssuedIdentities(p: TokenPayload, accessToken: string, refreshToken: string)
    ensures RevokeTarget(Some(Identity(ClaimsOf(p), Some("Bearer"), JNull, JNull))) == Err(KeyError("session_id"))
    ensures RevokeTarget(Some(MakeIdentity(p, accessToken, refreshToken))) == Err(Unauthorized(AUTHENTICATION_REQUIRED))
  {
    assert "session_id" !in ClaimsOf(p);
  }

  /** `OAuth2PasswordHandler`: the request handlers around a provider. */
  class OAuth2PasswordHandler {
    const settings: Settings
    const provider: AppAuthProvider

    constructor (settings: Settings, provider: AppAuthProvider)
      ensures this.settings == settings && this.provider == provider
    {
      this.settings := settings;
      this.provider := provider;
    }

    /** `revoke_handler`: refused requests change nothing; otherwise the tokens of that id are revoked. */
    method RevokeHandler(identity: Option<Identity>) returns (r: Result<(), AuthError>)
      requires provider.storage.Valid()
      modifies provider.storage
      ensures provider.storage.Valid() && provider.storage.users == old(provider.storage.users)
      ensures RevokeTarget(identity).Err? ==> r == Err(RevokeTarget(identity).error)
                                              && provider.storage.tokens == old(provider.storage.tokens)
      ensures RevokeTarget(identity).Ok? ==>
                r.Ok? && provider.storage.tokens == UserStore.WithoutUser(old(provider.storage.tokens), RevokeTarget(identity).value)
    {
      var target := RevokeTarget(identity);
      if target.Err? {
        return Err(target.error);
      }
      r := provider.RevokeRefreshToken(identity.value.claims["session_id"].s);
    }
  }
}
