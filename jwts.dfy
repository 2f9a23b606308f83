/**
 * The JWT validator of the JWT validation example: the key id from the JOSE header (section
 * 4.1.4 of RFC 7515), the key of that id in the cached key set (section 5 of RFC 7517), and
 * validation against each configured issuer in turn.
 */
module Jwts {
  import opened ByteStrings
  import opened Results
  import opened Json
  import opened Jwks

  datatype JwtError =
    | InvalidAuthorizationToken(message: string)
    | OAuthException(message: string)
    | InvalidToken(reason: string)
    | AttributeError(name: string)
    | KeySetError(fault: JwkError)

  const INVALID_TOKEN_PREFIX := "Invalid authorization token: "

  /** `InvalidAuthorizationToken(details)`: the message is the fixed prefix and the details. */
  function InvalidAuthorization(details: string): (e: JwtError)
    ensures e.InvalidAuthorizationToken?
    ensures |e.message| == |INVALID_TOKEN_PREFIX| + |details|
    ensures e.message[..|INVALID_TOKEN_PREFIX|] == INVALID_TOKEN_PREFIX
    ensures e.message[|INVALID_TOKEN_PREFIX|..] == details
  {
    InvalidAuthorizationToken(INVALID_TOKEN_PREFIX + details)
  }

  /** `jwt.get_unverified_header`: the JOSE header, or `Err` (a `DecodeError`) for a malformed token. */
  type HeaderReader = string -> Result<map<string, Json>, string>

  /** `get_kid`: an empty header and a header without `kid` are refused with their own details. */
  function GetKid(token: string, header: HeaderReader): (r: Result<Json, JwtError>)
    ensures header(token).Err? ==> r == Err(InvalidToken(header(token).error))
    ensures header(token).Ok? && header(token).value == map[] ==> r == Err(InvalidAuthorization("missing headers"))
    ensures header(token).Ok? && header(token).value != map[] && "kid" !in header(token).value
            ==> r == Err(InvalidAuthorization("missing kid"))
    ensures r.Ok? <==> header(token).Ok? && "kid" in header(token).value
    ensures r.Ok? ==> r.value == header(token).value["kid"]
  {
    match header(token)
    case Err(reason) => Err(InvalidToken(reason))
    case Ok(h) =>
      if h == map[] then Err(InvalidAuthorization("missing headers"))
      else if "kid" !in h then Err(InvalidAuthorization("missing kid"))
      else Ok(h["kid"])
  }

  /** The keys before position `i` are objects whose `kid` is not the one sought. */
  predicate NoMatchBefore(keys: seq<Json>, kid: Json, i: int)
    requires 0 <= i <= |keys|
  {
    forall j :: 0 <= j < i ==> keys[j].JObject? && Get(keys[j].members, "kid") != kid
  }

  const KEYS_EXPECTED := "Expected a JWKS structure defining a `keys` property"

  /**
   * The `for jwk in …` loop of `get_jwk` over a list of keys: the first object whose `kid`
   * equals the one sought; a key that is not an object has no `get`.
   */
  function FirstJwk(keys: seq<Json>, kid: Json): (r: Result<map<string, Json>, JwtError>)
    ensures r.Ok? ==> exists i :: 0 <= i < |keys| && keys[i] == JObject(r.value)
                                  && Get(r.value, "kid") == kid && NoMatchBefore(keys, kid, i)
    ensures r == Err(InvalidAuthorization("kid not recognized")) <==> NoMatchBefore(keys, kid, |keys|)
    ensures (forall j :: 0 <= j < |keys| ==> keys[j].JObject?) ==> r.Ok? || r == Err(InvalidAuthorization("kid not recognized"))
  {
    if keys == [] then Err(InvalidAuthorization("kid not recognized"))
    else if !keys[0].JObject? then Err(JwtError.AttributeError("get"))
    else if Get(keys[0].members, "kid") == kid then Ok(keys[0].members)
    else
      var r := FirstJwk(keys[1..], kid);
      assert r.Ok? ==> exists i :: 1 <= i < |keys| && keys[i] == JObject(r.value)
                                   && Get(r.value, "kid") == kid && NoMatchBefore(keys, kid, i) by {
        if r.Ok? {
          var i :| 0 <= i < |keys[1..]| && keys[1..][i] == JObject(r.value)
                   && Get(r.value, "kid") == kid && NoMatchBefore(keys[1..], kid, i);
          assert NoMatchBefore(keys, kid, i + 1);
        }
      }
      assert NoMatchBefore(keys, kid, |keys|) <==> NoMatchBefore(keys[1..], kid, |keys| - 1);
      r
  }

  /** The key of `get_jwk` in a key set: the set must define `keys`, a list searched in order. */
  function KeyIn(jwks: Json, kid: Json): (r: Result<map<string, Json>, JwtError>)
    ensures !(jwks.JObject? && "keys" in jwks.members) ==> r == Err(OAuthException(KEYS_EXPECTED))
    ensures jwks.JObject? && "keys" in jwks.members && jwks.members["keys"].JArray?
            ==> r == FirstJwk(jwks.members["keys"].items, kid)
  {
    if !(jwks.JObject? && "keys" in jwks.members) then Err(OAuthException(KEYS_EXPECTED))
    else if !jwks.members["keys"].JArray? then Err(JwtError.AttributeError("get"))
    else FirstJwk(jwks.members["keys"].items, kid)
  }

  /** A list of key objects in which some key carries the id yields the first such key. */
  lemma {:induction false} PresentKidFound(keys: seq<Json>, kid: Json, i: int)
    requires forall j :: 0 <= j < |keys| ==> keys[j].JObject?
    requires 0 <= i < |keys| && Get(keys[i].members, "kid") == kid
    ensures FirstJwk(keys, kid).Ok? && Get(FirstJwk(keys, kid).value, "kid") == kid
    ensures JObject(FirstJwk(keys, kid).value) in keys
  {
    if Get(keys[0].members, "kid") != kid {
      PresentKidFound(keys[1..], kid, i - 1);
    }
  }

  /** The search of `get_jwk` in a key set, as a loop. */
  method SelectJwk(jwks: Json, kid: Json) returns (r: Result<map<string, Json>, JwtError>)
    ensures r == KeyIn(jwks, kid)
  {
    if !(jwks.JObject? && "keys" in jwks.members) {
      return Err(OAuthException(KEYS_EXPECTED));
    }
    var keys := jwks.members["keys"];
    if !keys.JArray? {
      return Err(JwtError.AttributeError("get"));
    }
    var i := 0;
    while i < |keys.items|
      invariant 0 <= i <= |keys.items|
      invariant FirstJwk(keys.items[i..], kid) == FirstJwk(keys.items, kid)
    {
      var jwk := keys.items[i];
      if !jwk.JObject? {
        return Err(JwtError.AttributeError("get"));
      }
      if Get(jwk.members, "kid") == kid {
        return Ok(jwk.members);
      }
      assert keys.items[i..][1..] == keys.items[i + 1..];
      i := i + 1;
    }
    return Err(InvalidAuthorization("kid not recognized"));
  }

  /** What `jwt.decode` reports for one issuer. */
  datatype DecodeOutcome = Decoded(payload: map<string, Json>) | InvalidIssuer | Invalid(reason: string)

  /** `jwt.decode(token, key, algorithms=…, audience=…, issuer=…)`. */
  type JwtDecoder = (string, Bytes, seq<string>, seq<string>, string) -> DecodeOutcome

  /** The issuers before position `i` all reported a wrong issuer. */
  predicate WrongIssuerBefore(issuers: seq<string>, outcome: string -> DecodeOutcome, i: int)
    requires 0 <= i <= |issuers|
  {
    forall j :: 0 <= j < i ==> outcome(issuers[j]) == InvalidIssuer
  }

  /**
   * The issuer loop of `validate_jwt`: issuers are tried in order; a wrong issuer moves on,
   * a successful decode is returned, any other failure ends the loop; when every issuer
   * (possibly none) is wrong the token is refused.
   */
  function FirstIssuer(issuers: seq<string>, outcome: string -> DecodeOutcome): (r: Result<map<string, Json>, JwtError>)
    ensures r == Err(InvalidAuthorization("Invalid access token.")) <==> WrongIssuerBefore(issuers, outcome, |issuers|)
    ensures r.Ok? ==> exists i :: 0 <= i < |issuers| && WrongIssuerBefore(issuers, outcome, i)
                                  && outcome(issuers[i]) == Decoded(r.value)
    ensures r.Err? ==> r.error.InvalidToken? || r == Err(InvalidAuthorization("Invalid access token."))
    ensures r.Err? && r.error.InvalidToken? ==>
              exists i :: 0 <= i < |issuers| && WrongIssuerBefore(issuers, outcome, i)
                          && outcome(issuers[i]) == Invalid(r.error.reason)
  {
    if issuers == [] then Err(InvalidAuthorization("Invalid access token."))
    else match outcome(issuers[0])
      case Decoded(payload) => Ok(payload)
      case Invalid(reason) => Err(InvalidToken(reason))
      case InvalidIssuer =>
        var r := FirstIssuer(issuers[1..], outcome);
        assert WrongIssuerBefore(issuers, outcome, |issuers|) <==> WrongIssuerBefore(issuers[1..], outcome, |issuers| - 1);
        assert r.Ok? ==> exists i :: 0 <= i < |issuers| && WrongIssuerBefore(issuers, outcome, i)
                                     && outcome(issuers[i]) == Decoded(r.value) by {
          if r.Ok? {
            var i :| 0 <= i < |issuers[1..]| && WrongIssuerBefore(issuers[1..], outcome, i)
                     && outcome(issuers[1..][i]) == Decoded(r.value);
            assert WrongIssuerBefore(issuers, outcome, i + 1);
          }
        }
        assert r.Err? && r.error.InvalidToken? ==>
                 exists i :: 0 <= i < |issuers| && WrongIssuerBefore(issuers, outcome, i)
                             && outcome(issuers[i]) == Invalid(r.error.reason) by {
          if r.Err? && r.error.InvalidToken? {
            var i :| 0 <= i < |issuers[1..]| && WrongIssuerBefore(issuers[1..], outcome, i)
                     && outcome(issuers[1..][i]) == Invalid(r.error.reason);
            assert WrongIssuerBefore(issuers, outcome, i + 1);
          }
        }
        r
  }

  /** When the first issuers are wrong and the next one decodes, its payload is the result. */
  lemma {:induction false} FirstDecodeReturned(issuers: seq<string>, outcome: string -> DecodeOutcome, i: int)
    requires 0 <= i < |issuers| && WrongIssuerBefore(issuers, outcome, i) && outcome(issuers[i]).Decoded?
    ensures FirstIssuer(issuers, outcome) == Ok(outcome(issuers[i]).payload)
  {
    if i > 0 {
      FirstDecodeReturned(issuers[1..], outcome, i - 1);
    }
  }

  /** The outcome of `jwt.decode` of a token under one key, for each issuer. */
  function OutcomeOf(token: string, key: Bytes, audiences: seq<string>, algorithms: seq<string>, decode: JwtDecoder)
    : (r: string -> DecodeOutcome)
    ensures forall iss :: r(iss) == decode(token, key, algorithms, audiences, iss)
  {
    (iss: string) => decode(token, key, algorithms, audiences, iss)
  }

  /** The issuer loop of `validate_jwt`, as a loop. */
  method TryIssuers(token: string, key: Bytes, issuers: seq<string>, audiences: seq<string>,
                    algorithms: seq<string>, decode: JwtDecoder)
    returns (r: Result<map<string, Json>, JwtError>)
    ensures r == FirstIssuer(issuers, OutcomeOf(token, key, audiences, algorithms, decode))
  {
    ghost var outcome := OutcomeOf(token, key, audiences, algorithms, decode);
    for i := 0 to |issuers|
      invariant FirstIssuer(issuers[i..], outcome) == FirstIssuer(issuers, outcome)
    {
      match decode(token, key, algorithms, audiences, issuers[i])
      case Decoded(payload) =>
        return Ok(payload);
      case Invalid(reason) =>
        return Err(InvalidToken(reason));
      case InvalidIssuer =>
        assert issuers[i..][1..] == issuers[i + 1..];
    }
    return Err(InvalidAuthorization("Invalid access token."));
  }

  /** The key set `get_jwks` returns: the memo when there is one, otherwise a fresh read. */
  function JwksOf(cached: Option<Json>, authority: string, fetch: Fetch): (r: Result<Json, JwkError>)
    ensures cached.Some? ==> r == Ok(cached.value)
    ensures cached.None? ==> r == ReadJwksFromAuthority(authority, fetch)
  {
    if cached.Some? then Ok(cached.value) else ReadJwksFromAuthority(authority, fetch)
  }

  /** The memo after `get_jwks`: a successful read is remembered, a failed one is not. */
  function CacheAfter(cached: Option<Json>, authority: string, fetch: Fetch): (c: Option<Json>)
    ensures cached.Some? ==> c == cached
    ensures c.Some? ==> JwksOf(cached, authority, fetch) == Ok(c.value)
    ensures c.None? <==> JwksOf(cached, authority, fetch).Err?
  {
    if cached.Some? then cached
    else match ReadJwksFromAuthority(authority, fetch)
      case Ok(jwks) => Some(jwks)
      case Err(_) => None
  }

  /** `get_jwk`: the key set's failure propagates, otherwise the key of that id is searched. */
  function JwkOf(jwks: Result<Json, JwkError>, kid: Json): (r: Result<map<string, Json>, JwtError>)
    ensures jwks.Err? ==> r == Err(KeySetError(jwks.error))
    ensures jwks.Ok? ==> r == KeyIn(jwks.value, kid)
  {
    match jwks
    case Err(e) => Err(KeySetError(e))
    case Ok(j) => KeyIn(j, kid)
  }

  /** `get_public_key`: the kid is read first, then its key is found and turned into PEM. */
  function PublicKeyOf(token: string, header: HeaderReader, jwks: Result<Json, JwkError>, pem: PemEncoder)
    : (r: Result<Bytes, JwtError>)
    ensures GetKid(token, header).Err? ==> r == Err(GetKid(token, header).error)
    ensures GetKid(token, header).Ok? && JwkOf(jwks, GetKid(token, header).value).Err?
            ==> r == Err(JwkOf(jwks, GetKid(token, header).value).error)
    ensures r.Ok? <==> GetKid(token, header).Ok? && JwkOf(jwks, GetKid(token, header).value).Ok?
                       && RsaPemFromJwk(JwkOf(jwks, GetKid(token, header).value).value, pem).Ok?
    ensures r.Ok? ==> r.value == RsaPemFromJwk(JwkOf(jwks, GetKid(token, header).value).value, pem).value
  {
    match GetKid(token, header)
    case Err(e) => Err(e)
    case Ok(kid) =>
      match JwkOf(jwks, kid)
      case Err(e) => Err(e)
      case Ok(jwk) =>
        match RsaPemFromJwk(jwk, pem)
        case Err(e) => Err(KeySetError(e))
        case Ok(key) => Ok(key)
  }

  /** `validate_jwt`: once the public key is found, the issuer loop decides. */
  function ValidationOf(token: string, header: HeaderReader, jwks: Result<Json, JwkError>, pem: PemEncoder,
                        decode: JwtDecoder, issuers: seq<string>, audiences: seq<string>, algorithms: seq<string>)
    : (r: Result<map<string, Json>, JwtError>)
    ensures PublicKeyOf(token, header, jwks, pem).Err? ==> r == Err(PublicKeyOf(token, header, jwks, pem).error)
    ensures PublicKeyOf(token, header, jwks, pem).Ok?
            ==> r == FirstIssuer(issuers, OutcomeOf(token, PublicKeyOf(token, header, jwks, pem).value, audiences, algorithms, decode))
  {
    match PublicKeyOf(token, header, jwks, pem)
    case Err(e) => Err(e)
    case Ok(key) => FirstIssuer(issuers, OutcomeOf(token, key, audiences, algorithms, decode))
  }

  /** The first key carrying the id, all keys before it being objects, is the one found. */
  lemma {:induction false} FirstMatchFound(keys: seq<Json>, kid: Json, k: int)
    requires 0 <= k < |keys| && keys[k].JObject? && Get(keys[k].members, "kid") == kid
    requires NoMatchBefore(keys, kid, k)
    ensures FirstJwk(keys, kid) == Ok(keys[k].members)
  {
    if k > 0 {
      FirstMatchFound(keys[1..], kid, k - 1);
    }
  }

  /**
   * A token whose kid first names key `k` of the key set, whose key makes a PEM key, and
   * which the issuers before `i` refuse only for their issuer, validates to the payload the
   * issuer `i` decodes.
   */
  lemma KnownKeyValidates(token: string, header: HeaderReader, jwks: Json, pem: PemEncoder, decode: JwtDecoder,
                          issuers: seq<string>, audiences: seq<string>, algorithms: seq<string>, k: int, i: int)
    requires GetKid(token, header).Ok?
    requires jwks.JObject? && "keys" in jwks.members && jwks.members["keys"].JArray?
    requires var keys := jwks.members["keys"].items;
      0 <= k < |keys| && keys[k].JObject? && Get(keys[k].members, "kid") == GetKid(token, header).value
      && NoMatchBefore(keys, GetKid(token, header).value, k)
      && RsaPemFromJwk(keys[k].members, pem).Ok?
    requires var outcome := OutcomeOf(token, RsaPemFromJwk(jwks.members["keys"].items[k].members, pem).value,
                                      audiences, algorithms, decode);
      0 <= i < |issuers| && WrongIssuerBefore(issuers, outcome, i) && outcome(issuers[i]).Decoded?
    ensures var outcome := OutcomeOf(token, RsaPemFromJwk(jwks.members["keys"].items[k].members, pem).value,
                                     audiences, algorithms, decode);
      ValidationOf(token, header, Ok(jwks), pem, decode, issuers, audiences, algorithms) == Ok(outcome(issuers[i]).payload)
  {
    var keys := jwks.members["keys"].items;
    FirstMatchFound(keys, GetKid(token, header).value, k);
    var outcome := OutcomeOf(token, RsaPemFromJwk(keys[k].members, pem).value, audiences, algorithms, decode);
    FirstDecodeReturned(issuers, outcome, i);
  }

  const DEFAULT_ALGORITHMS: seq<string> := ["RS256"]

  /** `JWTValidator`: its configuration and the memo of `get_jwks`. */
  class JwtValidator {
    const authority: string
    const validIssuers: seq<string>
    const validAudiences: seq<string>
    const algorithms: seq<string>
    var cachedJwks: Option<Json>

    /** The configuration is copied; nothing is fetched yet. */
    constructor (authority: string, validIssuers: seq<string>, validAudiences: seq<string>, algorithms: seq<string>)
      ensures this.authority == authority && this.validIssuers == validIssuers
      ensures this.validAudiences == validAudiences && this.algorithms == algorithms
      ensures cachedJwks.None?
    {
      this.authority := authority;
      this.validIssuers := validIssuers;
      this.validAudiences := validAudiences;
      this.algorithms := algorithms;
      cachedJwks := None;
    }

    /** `get_jwks`: the first successful read is remembered and returned from then on. */
    method GetJwks(fetch: Fetch) returns (r: Result<Json, JwkError>)
      modifies this
      ensures r == JwksOf(old(cachedJwks), authority, fetch)
      ensures cachedJwks == CacheAfter(old(cachedJwks), authority, fetch)
    {
      if cachedJwks.Some? {
        return Ok(cachedJwks.value);
      }
      r := ReadJwksFromAuthority(authority, fetch);
      if r.Ok? {
        cachedJwks := Some(r.value);
      }
    }

    /** `get_jwk`: the key of that id in the (cached) key set. */
    method GetJwk(kid: Json, fetch: Fetch) returns (r: Result<map<string, Json>, JwtError>)
      modifies this
      ensures r == JwkOf(JwksOf(old(cachedJwks), authority, fetch), kid)
      ensures cachedJwks == CacheAfter(old(cachedJwks), authority, fetch)
    {
      var jwks := GetJwks(fetch);
      if jwks.Err? {
        return Err(KeySetError(jwks.error));
      }
      r := SelectJwk(jwks.value, kid);
    }

    /** `get_public_key`: the PEM key for the token's key id; a token without one leaves the memo alone. */
    method GetPublicKey(token: string, header: HeaderReader, fetch: Fetch, pem: PemEncoder)
      returns (r: Result<Bytes, JwtError>)
      modifies this
      ensures r == PublicKeyOf(token, header, JwksOf(old(cachedJwks), authority, fetch), pem)
      ensures cachedJwks == if GetKid(token, header).Err? then old(cachedJwks) else CacheAfter(old(cachedJwks), authority, fetch)
    {
      var kid :- GetKid(token, header);
      var jwk :- GetJwk(kid, fetch);
      var key := RsaPemFromJwk(jwk, pem);
      if key.Err? {
        return Err(KeySetError(key.error));
      }
      return Ok(key.value);
    }

    /**
     * `validate_jwt`: the public key is found first; then the configured issuers are tried
     * in order.
     */
    method ValidateJwt(token: string, header: HeaderReader, fetch: Fetch, pem: PemEncoder, decode: JwtDecoder)
      returns (r: Result<map<string, Json>, JwtError>)
      modifies this
      ensures r == ValidationOf(token, header, JwksOf(old(cachedJwks), authority, fetch), pem, decode,
                                validIssuers, validAudiences, algorithms)
      ensures cachedJwks == if GetKid(token, header).Err? then old(cachedJwks) else CacheAfter(old(cachedJwks), authority, fetch)
    {
      var key :- GetPublicKey(token, header, fetch, pem);
      r := TryIssuers(token, key, validIssuers, validAudiences, algorithms, decode);
    }
  }
}
