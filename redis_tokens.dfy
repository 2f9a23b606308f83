/**
 * `RedisTokensStore`: OpenID Connect tokens kept in Redis under a random trace id that the
 * browser carries in a cookie. Redis is a map from key to stored text and expiry; JSON
 * encoding and decoding are the `dumps` and `loads` the store is given.
 */
module RedisTokens {
  import opened Results
  import opened Json
  import opened Identities
  import opened Uuids

  const DEFAULT_TRACE_COOKIE := "tokenstraceid"
  /** Two hours, in seconds. */
  const DEFAULT_EXPIRATION: int := 60 * 120

  /** A response cookie with the attributes `set_cookie` fills in. */
  datatype Cookie = Cookie(name: string, value: string, domain: Option<string>, path: string,
                           httpOnly: bool, secure: bool, expires: Option<int>)

  /** The cookies a response will set, by name. */
  class HttpResponse {
    var cookies: map<string, Cookie>

    constructor ()
      ensures cookies == map[]
    {
      cookies := map[];
    }
  }

  /** A Redis value and the `ex` expiry, in seconds, it was set with. */
  datatype Entry = Entry(value: string, ex: int)

  /** `data.get` on a decoded value that is not a JSON object. */
  datatype RestoreError = AttributeError(name: string)

  type Dumps = Json -> string
  type Loads = string -> Option<Json>

  /** `None` or the text, as JSON. */
  function OptionalText(s: Option<string>): (j: Json)
    ensures s.None? <==> j == JNull
  {
    match s
    case Some(t) => JString(t)
    case None => JNull
  }

  /** The object `store_tokens` serialises. */
  function TokensObject(accessToken: string, refreshToken: Option<string>): Json
  {
    JObject(map["access_token" := JString(accessToken), "refresh_token" := OptionalText(refreshToken)])
  }

  /** The request's identity, or `Identity({})` when it has none. */
  function OrEmpty(identity: Option<Identity>): (r: Identity)
    ensures identity.Some? ==> r == identity.value
    ensures identity.None? ==> r == Unauthenticated(map[])
  {
    match identity
    case Some(id) => id
    case None => Unauthenticated(map[])
  }

  /** `get_trace_id`: the cookie's value when present and non-empty, otherwise a fresh UUID's text. */
  function TraceId(cookies: map<string, string>, cookieName: string, newId: Uuid): (r: string)
    requires WellFormed(newId)
    ensures r != ""
    ensures cookieName in cookies && cookies[cookieName] != "" ==> r == cookies[cookieName]
    ensures !(cookieName in cookies && cookies[cookieName] != "") ==> r == Canonical(newId) && Parse(r) == Some(newId)
  {
    if cookieName in cookies && cookies[cookieName] != "" then cookies[cookieName]
    else
      ParseCanonical(newId);
      Canonical(newId)
  }

  /**
   * The identity `restore_tokens` leaves on the request: unchanged when the cookie is missing
   * or empty, when Redis has nothing under it, or when the value is not JSON; otherwise both
   * tokens from the stored object, on a new empty identity if there was none.
   */
  function Restored(redis: map<string, Entry>, cookies: map<string, string>, cookieName: string,
                    identity: Option<Identity>, loads: Loads): (r: (Option<Identity>, Result<(), RestoreError>))
    ensures r.1.Err? ==> r.0 == Some(OrEmpty(identity))
    ensures cookieName !in cookies || cookies[cookieName] == "" || cookies[cookieName] !in redis
            || redis[cookies[cookieName]].value == "" || loads(redis[cookies[cookieName]].value).None?
            ==> r == (identity, Ok(()))
    ensures cookieName in cookies && cookies[cookieName] != "" && cookies[cookieName] in redis
            && redis[cookies[cookieName]].value != "" && loads(redis[cookies[cookieName]].value).Some?
            ==> var data := loads(redis[cookies[cookieName]].value).value;
                (data.JObject? ==> r == (Some(OrEmpty(identity).(accessToken := Get(data.members, "access_token"),
                                                                  refreshToken := Get(data.members, "refresh_token"))), Ok(())))
                && (!data.JObject? ==> r == (Some(OrEmpty(identity)), Err(AttributeError("get"))))
  {
    if cookieName !in cookies || cookies[cookieName] == "" then (identity, Ok(()))
    else
      var traceId := cookies[cookieName];
      if traceId !in redis || redis[traceId].value == "" then (identity, Ok(()))
      else match loads(redis[traceId].value)
        case None => (identity, Ok(()))
        case Some(data) =>
          var target := OrEmpty(identity);
          if !data.JObject? then (Some(target), Err(AttributeError("get")))
          else
            var tokens := target.(accessToken := Get(data.members, "access_token"),
                                  refreshToken := Get(data.members, "refresh_token"));
            (Some(tokens), Ok(()))
  }

  /** `unset_tokens`: the key named by a present, non-empty cookie is deleted. */
  function Unset(redis: map<string, Entry>, cookies: map<string, string>, cookieName: string): (r: map<string, Entry>)
    ensures cookieName in cookies && cookies[cookieName] != "" ==> r == redis - {cookies[cookieName]}
    ensures !(cookieName in cookies && cookies[cookieName] != "") ==> r == redis
  {
    if cookieName in cookies && cookies[cookieName] != "" then redis - {cookies[cookieName]} else redis
  }

  class RedisTokensStore {
    const traceCookieName: string
    const expirationSeconds: int
    const dumps: Dumps
    const loads: Loads
    var redis: map<string, Entry>

    constructor (redis: map<string, Entry>, traceCookieName: string, expirationSeconds: int, dumps: Dumps, loads: Loads)
      ensures this.redis == redis && this.traceCookieName == traceCookieName
      ensures this.expirationSeconds == expirationSeconds && this.dumps == dumps && this.loads == loads
    {
      this.redis := redis;
      this.traceCookieName := traceCookieName;
      this.expirationSeconds := expirationSeconds;
      this.dumps := dumps;
      this.loads := loads;
    }

    /**
     * `store_tokens`: an http-only cookie on path "/" carries the trace id, secure exactly
     * over https, and Redis holds both tokens under it with the store's expiry.
     */
    method StoreTokens(request: HttpRequest, response: HttpResponse, accessToken: string,
                       refreshToken: Option<string>, newId: Uuid)
      requires WellFormed(newId)
      modifies this, response
      ensures var traceId := TraceId(request.cookies, traceCookieName, newId);
        response.cookies == old(response.cookies)[traceCookieName :=
          Cookie(traceCookieName, traceId, None, "/", true, request.scheme == "https", None)]
        && redis == old(redis)[traceId := Entry(dumps(TokensObject(accessToken, refreshToken)), expirationSeconds)]
    {
      var traceId := TraceId(request.cookies, traceCookieName, newId);
      var secure := request.scheme == "https";
      response.cookies := response.cookies[traceCookieName :=
        Cookie(traceCookieName, traceId, None, "/", true, secure, None)];
      redis := redis[traceId := Entry(dumps(TokensObject(accessToken, refreshToken)), expirationSeconds)];
    }

    /** `restore_tokens`: see `Restored`; Redis is only read. */
    method RestoreTokens(request: HttpRequest) returns (r: Result<(), RestoreError>)
      modifies request
      ensures (request.identity, r) == Restored(redis, request.cookies, traceCookieName, old(request.identity), loads)
    {
      var outcome := Restored(redis, request.cookies, traceCookieName, request.identity, loads);
      request.identity := outcome.0;
      return outcome.1;
    }

    /** `unset_tokens`: deletes the key named by the cookie, if any. */
    method UnsetTokens(request: HttpRequest)
      modifies this
      ensures redis == Unset(old(redis), request.cookies, traceCookieName)
    {
      redis := Unset(redis, request.cookies, traceCookieName);
    }
  }

  /**
   * Storing then restoring with the trace id the cookie carries gives back the stored pair,
   * on the request's identity or a new empty one; nothing else about the identity changes.
   */
  lemma StoreThenRestore(redis: map<string, Entry>, cookieName: string, traceId: string, ex: int,
                         accessToken: string, refreshToken: Option<string>, identity: Option<Identity>,
                         dumps: Dumps, loads: Loads)
    requires traceId != ""
    requires dumps(TokensObject(accessToken, refreshToken)) != ""
    requires loads(dumps(TokensObject(accessToken, refreshToken))) == Some(TokensObject(accessToken, refreshToken))
    ensures var stored := redis[traceId := Entry(dumps(TokensObject(accessToken, refreshToken)), ex)];
      var base := OrEmpty(identity);
      Restored(stored, map[cookieName := traceId], cookieName, identity, loads)
        == (Some(base.(accessToken := JString(accessToken), refreshToken := OptionalText(refreshToken))), Ok(()))
  {
  }

  /** After signing out, restoring with the same cookie leaves the identity as it was. */
  lemma UnsetThenRestore(redis: map<string, Entry>, cookies: map<string, string>, cookieName: string,
                         identity: Option<Identity>, loads: Loads)
    ensures Restored(Unset(redis, cookies, cookieName), cookies, cookieName, identity, loads) == (identity, Ok(()))
  {
  }

  /** Without the cookie nothing is restored and nothing is deleted. */
  lemma NoCookieNoEffect(redis: map<string, Entry>, cookies: map<string, string>, cookieName: string,
                         identity: Option<Identity>, loads: Loads)
    requires cookieName !in cookies
    ensures Restored(redis, cookies, cookieName, identity, loads) == (identity, Ok(()))
    ensures Unset(redis, cookies, cookieName) == redis
  {
  }
}
