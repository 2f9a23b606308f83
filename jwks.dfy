/**
 * The JWK helpers of the JWT validation example: RSA key members read as base64url unsigned
 * integers (section 6.3.1 of RFC 7518, section 5 of RFC 4648), the presence checks before a
 * PEM key is built, and the OpenID Connect discovery of the key set (section 4 of OpenID
 * Connect Discovery 1.0).
 */
module Jwks {
  import opened ByteStrings
  import opened Results
  import opened Json
  import opened Texts
  import Utf8
  import Base64
  import BigEndian
  import Decimal

  /** A value `_ensure_bytes` accepts: text or bytes. */
  datatype KeyText = Str(text: string) | Raw(bytes: Bytes)

  datatype JwkError =
    | ValueError(message: string)
    | TypeError
    | AttributeError(name: string)
    | Base64Error
    | InvalidKey
    | HttpError(status: nat)
    | FailedRequestError(status: nat, message: string)
    | JsonDecodeError

  /** RSA public numbers to a PEM SubjectPublicKeyInfo; `Err` when they are not a valid key. */
  type PemEncoder = (nat, nat) -> Result<Bytes, ()>

  /** An HTTP GET: status and the body as `json.loads` reads it (`None` when it is not JSON). */
  datatype Reply = Reply(status: nat, body: Option<Json>)
  type Fetch = string -> Reply

  /** `_ensure_bytes`: text is UTF-8 encoded, bytes are returned unchanged. */
  function EnsureBytes(key: KeyText): (r: Bytes)
    ensures key.Raw? ==> r == key.bytes
    ensures key.Str? ==> Utf8.Decode(r) == Some(key.text)
  {
    match key
    case Str(s) => Utf8.DecodeEncode(s); Utf8.Encode(s)
    case Raw(b) => b
  }

  /** `_decode_value`: `==` is appended, the result base64url-decoded and read big-endian. */
  function DecodeValue(val: KeyText): (r: Result<nat, JwkError>)
    ensures r.Ok? <==> Base64.UrlSafeDecode(EnsureBytes(val) + [Base64.PAD, Base64.PAD]).Some?
    ensures r.Ok? ==> r.value == BigEndian.FromBytes(Base64.UrlSafeDecode(EnsureBytes(val) + [Base64.PAD, Base64.PAD]).value)
    ensures r.Err? ==> r.error == Base64Error
  {
    match Base64.UrlSafeDecode(EnsureBytes(val) + [Base64.PAD, Base64.PAD])
    case None => Err(Base64Error)
    case Some(decoded) => Ok(BigEndian.FromBytes(decoded))
  }

  /** A JWK member given to `_decode_value`: only text can have `b"=="` appended to its encoding. */
  function DecodeMember(val: Json): (r: Result<nat, JwkError>)
    ensures val.JString? ==> r == DecodeValue(Str(val.s))
    ensures !val.JString? ==> r == Err(TypeError)
  {
    if val.JString? then DecodeValue(Str(val.s)) else Err(TypeError)
  }

  /** The unpadded base64url form of a number's shortest big-endian bytes decodes to the number. */
  lemma DecodeValueOfEncoded(n: nat)
    ensures DecodeValue(Raw(Base64.UrlEncode(BigEndian.ToBytes(n)))) == Ok(n)
  {
    Base64.DecodeEncodedWithPadding(BigEndian.ToBytes(n));
    BigEndian.FromToBytes(n);
  }

  /** Leading zero bytes in the encoded value do not change the number. */
  lemma DecodeValueLeadingZero(b: Bytes)
    ensures DecodeValue(Raw(Base64.UrlEncode([0 as byte] + b))) == DecodeValue(Raw(Base64.UrlEncode(b)))
  {
    Base64.DecodeEncodedWithPadding([0 as byte] + b);
    Base64.DecodeEncodedWithPadding(b);
    BigEndian.LeadingZero(b);
  }

  /** ASCII text decodes exactly like the bytes of its characters. */
  lemma DecodeAsciiText(s: string)
    requires forall i :: 0 <= i < |s| ==> s[i] as int < 0x80
    ensures DecodeValue(Str(s)) == DecodeValue(Raw(Ascii(s)))
  {
    Utf8.EncodeAscii(s);
  }

  function MissingPropertyMessage(name: string): string
  {
    "Expected a JWK defining a " + name + " property."
  }

  /** `_ensure_jwk_properties`: the first name, in argument order, that the JWK lacks is reported. */
  function EnsureJwkProperties(jwk: map<string, Json>, names: seq<string>): (r: Result<(), JwkError>)
    ensures r.Ok? <==> forall i :: 0 <= i < |names| ==> names[i] in jwk
    ensures r.Err? ==> exists i :: 0 <= i < |names| && names[i] !in jwk
                                   && (forall j :: 0 <= j < i ==> names[j] in jwk)
                                   && r.error == ValueError(MissingPropertyMessage(names[i]))
  {
    if names == [] then Ok(())
    else if names[0] !in jwk then Err(ValueError(MissingPropertyMessage(names[0])))
    else
      var r := EnsureJwkProperties(jwk, names[1..]);
      if r.Err? then
        var i :| 0 <= i < |names[1..]| && names[1..][i] !in jwk
                 && (forall j :: 0 <= j < i ==> names[1..][j] in jwk)
                 && r.error == ValueError(MissingPropertyMessage(names[1..][i]));
        assert names[i + 1] !in jwk && forall j :: 0 <= j < i + 1 ==> names[j] in jwk;
        r
      else r
  }

  /**
   * `rsa_pem_from_jwk`: both `n` and `e` must be present before either is decoded; then the
   * modulus and the exponent are decoded, in that order, and handed to the PEM encoder.
   */
  function RsaPemFromJwk(jwk: map<string, Json>, pem: PemEncoder): (r: Result<Bytes, JwkError>)
    ensures "n" !in jwk ==> r == Err(ValueError(MissingPropertyMessage("n")))
    ensures "n" in jwk && "e" !in jwk ==> r == Err(ValueError(MissingPropertyMessage("e")))
    ensures r.Ok? <==> "n" in jwk && "e" in jwk && DecodeMember(jwk["n"]).Ok? && DecodeMember(jwk["e"]).Ok?
                       && pem(DecodeMember(jwk["n"]).value, DecodeMember(jwk["e"]).value).Ok?
    ensures r.Ok? ==> r.value == pem(DecodeMember(jwk["n"]).value, DecodeMember(jwk["e"]).value).value
  {
    var present := EnsureJwkProperties(jwk, ["n", "e"]);
    if present.Err? then
      assert ["n", "e"][0] == "n" && ["n", "e"][1] == "e";
      Err(present.error)
    else
      assert "n" == ["n", "e"][0] && "e" == ["n", "e"][1];
      var n :- DecodeMember(jwk["n"]);
      var e :- DecodeMember(jwk["e"]);
      match pem(n, e)
      case Err(_) => Err(InvalidKey)
      case Ok(key) => Ok(key)
  }

  const WELL_KNOWN := "/.well-known/openid-configuration"

  /** The discovery document's URL: the authority without trailing slashes, then the well-known path. */
  function DiscoveryUrl(authority: string): (r: string)
    ensures |r| >= |WELL_KNOWN| && r[|r| - |WELL_KNOWN|..] == WELL_KNOWN
    ensures var base := r[..|r| - |WELL_KNOWN|];
      |base| <= |authority| && base == authority[..|base|] && (base == [] || base[|base| - 1] != '/')
      && forall i :: |base| <= i < |authority| ==> authority[i] == '/'
  {
    RStrip(authority, '/') + WELL_KNOWN
  }

  /** A trailing slash on the authority does not change the discovery URL. */
  lemma DiscoveryUrlTrailingSlash(authority: string)
    ensures DiscoveryUrl(authority + "/") == DiscoveryUrl(authority)
    ensures |DiscoveryUrl(authority)| >= |WELL_KNOWN|
    ensures DiscoveryUrl(authority)[|DiscoveryUrl(authority)| - |WELL_KNOWN|..] == WELL_KNOWN
  {
    RStripAppend(authority, '/');
  }

  function FailedRequestMessage(status: nat): string
  {
    "Response status does not indicate success: " + AsText(Decimal.ShowNat(status))
  }

  function AsText(b: Bytes): string
  {
    seq(|b|, i requires 0 <= i < |b| => b[i] as int as char)
  }

  /** A final status `urlopen` returns instead of raising `HTTPError`. */
  predicate IsSuccess(status: nat)
  {
    200 <= status < 300
  }

  /**
   * `_read_json_data`: `urlopen` raises `HTTPError` for a final status outside 2xx; any other
   * status but 200 is refused by the function itself; otherwise the body must be JSON.
   */
  function ReadJsonData(url: string, fetch: Fetch): (r: Result<Json, JwkError>)
    ensures !IsSuccess(fetch(url).status) ==> r == Err(HttpError(fetch(url).status))
    ensures IsSuccess(fetch(url).status) && fetch(url).status != 200
            ==> r == Err(FailedRequestError(fetch(url).status, FailedRequestMessage(fetch(url).status)))
    ensures r.Ok? <==> fetch(url).status == 200 && fetch(url).body.Some?
    ensures r.Ok? ==> r.value == fetch(url).body.value
  {
    var reply := fetch(url);
    if !IsSuccess(reply.status) then Err(HttpError(reply.status))
    else if reply.status != 200 then Err(FailedRequestError(reply.status, FailedRequestMessage(reply.status)))
    else match reply.body
      case None => Err(JsonDecodeError)
      case Some(data) => Ok(data)
  }

  const MISSING_JWKS_URI := "Expected a `jwks_uri` property in the OpenID Configuration"

  /**
   * `read_jwks_from_authority`: the discovery document must define `jwks_uri`; the key set is
   * read from that address.
   */
  function ReadJwksFromAuthority(authority: string, fetch: Fetch): (r: Result<Json, JwkError>)
    ensures ReadJsonData(DiscoveryUrl(authority), fetch).Err? ==> r == Err(ReadJsonData(DiscoveryUrl(authority), fetch).error)
    ensures ReadJsonData(DiscoveryUrl(authority), fetch).Ok?
            && !(ReadJsonData(DiscoveryUrl(authority), fetch).value.JObject?
                 && "jwks_uri" in ReadJsonData(DiscoveryUrl(authority), fetch).value.members)
            ==> r == Err(ValueError(MISSING_JWKS_URI))
    ensures ReadJsonData(DiscoveryUrl(authority), fetch).Ok?
            ==> var config := ReadJsonData(DiscoveryUrl(authority), fetch).value;
                config.JObject? && "jwks_uri" in config.members
                ==> var uri := config.members["jwks_uri"];
                    r == if uri.JString? then ReadJsonData(uri.s, fetch) else Err(AttributeError("timeout"))
    ensures r.Ok? ==> var config := ReadJsonData(DiscoveryUrl(authority), fetch).value;
      config.JObject? && "jwks_uri" in config.members && config.members["jwks_uri"].JString?
      && r == ReadJsonData(config.members["jwks_uri"].s, fetch)
  {
    var config :- ReadJsonData(DiscoveryUrl(authority), fetch);
    if !(config.JObject? && "jwks_uri" in config.members) then Err(ValueError(MISSING_JWKS_URI))
    else
      var uri := config.members["jwks_uri"];
      if !uri.JString? then Err(AttributeError("timeout"))
      else ReadJsonData(uri.s, fetch)
  }
}
