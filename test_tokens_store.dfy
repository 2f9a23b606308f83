/** `TestTokensStore`: an in-memory OpenID Connect tokens store holding one token pair. */
module TestTokensStore {
  import opened Results
  import opened Json
  import opened Identities
  import opened RedisTokens

  /** `assert request.identity is not None` failing. */
  datatype StoreError = AssertionError

  class TokensStore {
    var accessToken: Option<string>
    var refreshToken: Option<string>

    /** A new store holds no tokens. */
    constructor ()
      ensures accessToken == None && refreshToken == None
    {
      accessToken := None;
      refreshToken := None;
    }

    /** `store_tokens`: both fields are overwritten; the request, response and expiry are not used. */
    method StoreTokens(request: HttpRequest, response: HttpResponse, accessToken: string,
                       refreshToken: Option<string>, expires: Option<int>)
      modifies this
      ensures this.accessToken == Some(accessToken) && this.refreshToken == refreshToken
    {
      this.accessToken := Some(accessToken);
      this.refreshToken := refreshToken;
    }

    /** `unset_tokens`: both fields are cleared. */
    method UnsetTokens(request: HttpRequest)
      modifies this
      ensures accessToken == None && refreshToken == None
    {
      accessToken := None;
      refreshToken := None;
    }

    /** `restore_tokens`: the current pair is copied onto the request's identity, which must exist. */
    method RestoreTokens(request: HttpRequest) returns (r: Result<(), StoreError>)
      modifies request
      ensures r.Err? <==> old(request.identity).None?
      ensures r.Err? ==> request.identity == old(request.identity)
      ensures r.Ok? ==> request.identity == Some(Restore(old(request.identity).value, accessToken, refreshToken))
    {
      if request.identity.None? {
        return Err(AssertionError);
      }
      request.identity := Some(Restore(request.identity.value, accessToken, refreshToken));
      return Ok(());
    }
  }

  /** The identity with the store's pair set as its tokens, `None` where a token is missing. */
  function Restore(identity: Identity, accessToken: Option<string>, refreshToken: Option<string>): (r: Identity)
    ensures r.claims == identity.claims && r.authMode == identity.authMode
  {
    identity.(accessToken := OptionalText(accessToken), refreshToken := OptionalText(refreshToken))
  }
}
