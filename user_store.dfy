/**
 * The user and refresh-token tables of the OAuth2 password example and the data-access
 * object over them: password hashing in the `salt$digest` format, registration, lookups,
 * refresh-token storage, revocation and removal.
 */
module UserStore {
  import opened ByteStrings
  import opened Results
  import opened Hex
  import opened Texts
  import opened Uuids
  import opened PyDicts
  import Utf8

  /** A stored user; `password` holds the `salt$digest` hash. */
  datatype User = User(id: Uuid, username: string, password: string, active: bool)

  /** What `User.dict()` returns: the password is excluded. */
  datatype UserInfo = UserInfo(id: Uuid, username: string, active: bool)

  /** A stored refresh token; `expiredAt` is a timestamp in seconds. */
  datatype Token = Token(id: Uuid, userId: Uuid, sessionId: Uuid, expiredAt: int)

  datatype StoreError =
    | ValueError(message: string)
    | KeyError(key: Uuid)
    | RuntimeError(message: string)
    | ValidationError

  /** PBKDF2-HMAC-SHA512 with 1024 iterations, applied to the password bytes and the salt. */
  type Pbkdf2 = (Bytes, Bytes) -> Bytes

  /** `hashpw`: the salt and the digest, each in hex, joined by one `$`. */
  function HashPw(password: string, salt: Bytes, pbkdf2: Pbkdf2): (r: string)
    ensures Split(r, '$') == [ToHex(salt), ToHex(pbkdf2(Utf8.Encode(password), salt))]
  {
    var s := ToHex(salt);
    var d := ToHex(pbkdf2(Utf8.Encode(password), salt));
    assert !IsHexDigit('$');
    assert '$' !in s && '$' !in d;
    SplitJoined(s, d, '$');
    s + "$" + d
  }

  /**
   * `checkpw`: the stored text must split on `$` into exactly two parts and the first must
   * be hex; only the digest part is compared with a fresh hash of the candidate password.
   */
  function CheckPw(password: string, hashed: string, pbkdf2: Pbkdf2): (r: Result<bool, StoreError>)
    ensures r.Ok? <==> |Split(hashed, '$')| == 2 && FromHex(Split(hashed, '$')[0]).Some?
    ensures r.Ok? ==> (r.value <==>
      Split(hashed, '$')[1] == ToHex(pbkdf2(Utf8.Encode(password), FromHex(Split(hashed, '$')[0]).value)))
  {
    var parts := Split(hashed, '$');
    if |parts| != 2 then Err(ValueError("wrong number of values to unpack"))
    else match FromHex(parts[0])
      case None => Err(ValueError("non-hexadecimal number found in fromhex() arg"))
      case Some(salt) => Ok(parts[1] == ToHex(pbkdf2(Utf8.Encode(password), salt)))
  }

  /** A hash made by `HashPw` is accepted for exactly the passwords whose digest matches. */
  lemma CheckHashed(password: string, candidate: string, salt: Bytes, pbkdf2: Pbkdf2)
    ensures CheckPw(candidate, HashPw(password, salt, pbkdf2), pbkdf2)
         == Ok(pbkdf2(Utf8.Encode(candidate), salt) == pbkdf2(Utf8.Encode(password), salt))
  {
    FromHexToHex(salt);
    var a := pbkdf2(Utf8.Encode(candidate), salt);
    var b := pbkdf2(Utf8.Encode(password), salt);
    if ToHex(a) == ToHex(b) {
      ToHexInjective(a, b);
    }
  }

  /** The original password is always accepted against its own hash. */
  lemma CheckOwnPassword(password: string, salt: Bytes, pbkdf2: Pbkdf2)
    ensures CheckPw(password, HashPw(password, salt, pbkdf2), pbkdf2) == Ok(true)
  {
    CheckHashed(password, password, salt, pbkdf2);
  }

  /** A key of a Python dict lookup: the user table is keyed by `str`, a token id is a UUID. */
  datatype PyKey = StrKey(text: string) | UuidKey(uuid: Uuid)

  /** `USER_DB.get(key)`: a `str` never compares equal to a `UUID`, so only a text key can hit. */
  function UserTableGet(users: Dict<string, User>, key: PyKey): (r: Option<User>)
    ensures r.Some? <==> key.StrKey? && key.text in users.items
    ensures r.Some? ==> r.value == users.items[key.text]
  {
    match key
    case StrKey(t) => users.Get(t)
    case UuidKey(_) => None
  }

  /** The checks on the stored token: known jti, not expired, same user, same session. */
  function TokenMatches(tokens: Dict<Uuid, Token>, userId: Uuid, jti: Uuid, sessionId: Uuid, now: int): (b: bool)
    ensures b <==> tokens.Get(jti).Some? && now <= tokens.Get(jti).value.expiredAt
                   && tokens.Get(jti).value.userId == userId && tokens.Get(jti).value.sessionId == sessionId
  {
    jti in tokens.items
    && !(tokens.items[jti].expiredAt < now)
    && tokens.items[jti].userId == userId
    && tokens.items[jti].sessionId == sessionId
  }

  /** The first user, in insertion order, whose id is `id`. */
  function FirstWithId(names: seq<string>, items: map<string, User>, id: Uuid): (r: Option<User>)
    requires forall i :: 0 <= i < |names| ==> names[i] in items
    ensures r.Some? ==> r.value.id == id && exists i :: 0 <= i < |names| && items[names[i]] == r.value
    ensures r.None? ==> forall i :: 0 <= i < |names| ==> items[names[i]].id != id
  {
    if names == [] then None
    else if items[names[0]].id == id then Some(items[names[0]])
    else
      var r := FirstWithId(names[1..], items, id);
      assert forall i :: 1 <= i < |names| ==> names[i] == names[1..][i - 1];
      r
  }

  /** The position of the first token, in insertion order, that belongs to the user. */
  function FirstTokenOf(jtis: seq<Uuid>, items: map<Uuid, Token>, userId: Uuid): (r: Option<nat>)
    requires forall i :: 0 <= i < |jtis| ==> jtis[i] in items
    ensures r.Some? ==> r.value < |jtis| && items[jtis[r.value]].userId == userId
    ensures r.Some? ==> forall j :: 0 <= j < r.value ==> items[jtis[j]].userId != userId
    ensures r.None? ==> forall j :: 0 <= j < |jtis| ==> items[jtis[j]].userId != userId
  {
    if jtis == [] then None
    else if items[jtis[0]].userId == userId then Some(0)
    else match FirstTokenOf(jtis[1..], items, userId)
      case None => None
      case Some(i) => Some(i + 1)
  }

  /** The first index holding a token of the user is the one `FirstTokenOf` finds. */
  lemma {:induction false} FirstTokenAt(jtis: seq<Uuid>, items: map<Uuid, Token>, userId: Uuid, i: nat)
    requires forall k :: 0 <= k < |jtis| ==> jtis[k] in items
    requires i < |jtis| && items[jtis[i]].userId == userId
    requires forall j :: 0 <= j < i ==> items[jtis[j]].userId != userId
    ensures FirstTokenOf(jtis, items, userId) == Some(i)
  {
    if i > 0 {
      FirstTokenAt(jtis[1..], items, userId, i - 1);
    }
  }

  /** What the deleting loop does: only the first token of the user is deleted before it fails. */
  function RevokeFirst(tokens: Dict<Uuid, Token>, userId: Uuid): (r: Dict<Uuid, Token>)
    requires tokens.Valid()
    ensures r.Valid()
  {
    match FirstTokenOf(tokens.keys, tokens.items, userId)
    case None => tokens
    case Some(i) => tokens.Remove(tokens.keys[i])
  }

  /** Every token of the user among `jtis` removed, the others kept; defined from the back. */
  function RemoveOwnedAmong(tokens: Dict<Uuid, Token>, jtis: seq<Uuid>, userId: Uuid): (r: Dict<Uuid, Token>)
    requires tokens.Valid()
    ensures r.Valid()
  {
    if jtis == [] then tokens
    else
      var d := RemoveOwnedAmong(tokens, jtis[..|jtis| - 1], userId);
      var k := jtis[|jtis| - 1];
      if k in d.items && d.items[k].userId == userId then d.Remove(k) else d
  }

  /** One more key of the snapshot handled: that key is removed if it is the user's. */
  lemma RemoveOwnedAmongStep(tokens: Dict<Uuid, Token>, jtis: seq<Uuid>, i: nat, userId: Uuid)
    requires tokens.Valid() && i < |jtis|
    ensures var d := RemoveOwnedAmong(tokens, jtis[..i], userId);
            RemoveOwnedAmong(tokens, jtis[..i + 1], userId)
              == if jtis[i] in d.items && d.items[jtis[i]].userId == userId then d.Remove(jtis[i]) else d
  {
    assert jtis[..i + 1][..i] == jtis[..i];
  }

  /** The intended result of revocation: the table without any token of the user. */
  function WithoutUser(tokens: Dict<Uuid, Token>, userId: Uuid): (r: Dict<Uuid, Token>)
    requires tokens.Valid()
    ensures r.Valid()
  {
    RemoveOwnedAmong(tokens, tokens.keys, userId)
  }

  lemma {:induction false} RemoveOwnedAmongItems(tokens: Dict<Uuid, Token>, jtis: seq<Uuid>, userId: Uuid)
    requires tokens.Valid()
    ensures forall k :: k in RemoveOwnedAmong(tokens, jtis, userId).items
              <==> k in tokens.items && !(k in jtis && tokens.items[k].userId == userId)
    ensures forall k :: k in RemoveOwnedAmong(tokens, jtis, userId).items
              ==> RemoveOwnedAmong(tokens, jtis, userId).items[k] == tokens.items[k]
  {
    if jtis != [] {
      var front := jtis[..|jtis| - 1];
      RemoveOwnedAmongItems(tokens, front, userId);
      assert forall k :: k in jtis <==> k in front || k == jtis[|jtis| - 1];
    }
  }

  /** After revocation no token of the user remains, and every other token is kept unchanged. */
  lemma WithoutUserItems(tokens: Dict<Uuid, Token>, userId: Uuid)
    requires tokens.Valid()
    ensures forall k :: k in WithoutUser(tokens, userId).items ==> WithoutUser(tokens, userId).items[k].userId != userId
    ensures forall k :: k in tokens.items && tokens.items[k].userId != userId ==>
              k in WithoutUser(tokens, userId).items && WithoutUser(tokens, userId).items[k] == tokens.items[k]
  {
    RemoveOwnedAmongItems(tokens, tokens.keys, userId);
  }

  /**
   * As written, two tokens of one user are not both revoked: the second survives the first
   * deletion, where the intended revocation removes it.
   */
  lemma RevokeFirstKeepsSecondToken(t1: Token, t2: Token)
    requires t1.id != t2.id && t1.userId == t2.userId
    ensures var d := Empty<Uuid, Token>().Set(t1.id, t1).Set(t2.id, t2);
      RevokeFirst(d, t1.userId).Get(t2.id) == Some(t2)
      && WithoutUser(d, t1.userId).Get(t2.id) == None
  {
    var d := Empty<Uuid, Token>().Set(t1.id, t1).Set(t2.id, t2);
    assert d.keys == [t1.id, t2.id];
    assert FirstTokenOf(d.keys, d.items, t1.userId) == Some(0);
    RemoveOwnedAmongItems(d, d.keys, t1.userId);
    assert t2.id in d.keys && d.items[t2.id] == t2;
    assert t2.id !in WithoutUser(d, t1.userId).items;
  }

  /**
   * The two module-level tables, `USER_DB` (username to user) and `TOKEN_DB` (jti to token),
   * together with the operations of `UserDAL` on them.
   */
  class UserDal {
    var users: Dict<string, User>
    var tokens: Dict<Uuid, Token>

    /** Each user is stored under its username and each token under its own id. */
    predicate Valid()
      reads this
    {
      users.Valid() && tokens.Valid()
      && (forall name :: name in users.items ==> users.items[name].username == name)
      && (forall jti :: jti in tokens.items ==> tokens.items[jti].id == jti)
    }

    constructor ()
      ensures Valid() && users == Empty() && tokens == Empty()
    {
      users := Empty();
      tokens := Empty();
    }

    /**
     * `register`: the user, with a fresh id and the hashed password, replaces any entry under
     * the username; the result leaves the password out.
     */
    method Register(username: string, password: string, salt: Bytes, newId: Uuid, pbkdf2: Pbkdf2)
      returns (info: UserInfo)
      requires Valid()
      modifies this
      ensures Valid()
      ensures users == old(users).Set(username, User(newId, username, HashPw(password, salt, pbkdf2), true))
      ensures tokens == old(tokens)
      ensures info == UserInfo(newId, username, true)
    {
      var hashed := HashPw(password, salt, pbkdf2);
      var user := User(newId, username, hashed, true);
      users := users.Set(username, user);
      info := UserInfo(user.id, user.username, user.active);
    }

    /** `get_authuser_by_username`: the user stored under the name, if any. */
    function GetAuthUserByUsername(username: string): (r: Option<User>)
      requires Valid()
      reads this
      ensures r.Some? <==> username in users.items
      ensures r.Some? ==> r.value == users.items[username] && r.value.username == username
    {
      users.Get(username)
    }

    /**
     * `save_refresh_token`: inserts or replaces exactly the entry keyed by the jti; the
     * `Token` model refuses ids that are not version-4 UUIDs.
     */
    method SaveRefreshToken(userId: Uuid, jti: Uuid, sessionId: Uuid, expiredAt: int)
      returns (r: Result<(), StoreError>)
      requires Valid()
      modifies this
      ensures Valid() && users == old(users)
      ensures r.Ok? <==> IsVersion4(jti) && IsVersion4(userId) && IsVersion4(sessionId)
      ensures r.Ok? ==> tokens == old(tokens).Set(jti, Token(jti, userId, sessionId, expiredAt))
      ensures r.Err? ==> r.error == ValidationError && tokens == old(tokens)
    {
      if !(IsVersion4(jti) && IsVersion4(userId) && IsVersion4(sessionId)) {
        return Err(ValidationError);
      }
      tokens := tokens.Set(jti, Token(jti, userId, sessionId, expiredAt));
      return Ok(());
    }

    /**
     * `get_user_by_refresh_token` as written: after the token checks it looks the user table
     * up by the user's UUID, a key that can never be present.
     */
    function GetUserByRefreshTokenAsWritten(userId: Uuid, jti: Uuid, sessionId: Uuid, now: int): (r: Option<User>)
      reads this
      ensures r.None?
    {
      if !TokenMatches(tokens, userId, jti, sessionId, now) then None
      else UserTableGet(users, UuidKey(userId))
    }

    /**
     * `get_user_by_refresh_token` as intended: after the token checks, the user whose id is
     * the token's user id.
     */
    function GetUserByRefreshToken(userId: Uuid, jti: Uuid, sessionId: Uuid, now: int): (r: Option<User>)
      requires Valid()
      reads this
      ensures r.Some? ==> TokenMatches(tokens, userId, jti, sessionId, now)
      ensures r.Some? ==> r.value.id == userId && r.value.username in users.items
                          && users.items[r.value.username] == r.value
      ensures (TokenMatches(tokens, userId, jti, sessionId, now)
               && exists name :: name in users.items && users.items[name].id == userId) ==> r.Some?
    {
      if !TokenMatches(tokens, userId, jti, sessionId, now) then None
      else
        var r := FirstWithId(users.keys, users.items, userId);
        assert forall name :: name in users.items ==> exists i :: 0 <= i < |users.keys| && users.keys[i] == name;
        r
    }

    /**
     * `revoke_refresh_token` as written: the loop deletes from the table it iterates over, so
     * the first deletion makes the next step fail with `RuntimeError`.
     */
    method RevokeRefreshTokenAsWritten(userId: Uuid) returns (r: Result<(), StoreError>)
      requires Valid()
      modifies this
      ensures Valid() && users == old(users)
      ensures tokens == RevokeFirst(old(tokens), userId)
      ensures r.Err? <==> FirstTokenOf(old(tokens).keys, old(tokens).items, userId).Some?
      ensures r.Err? ==> r.error.RuntimeError?
    {
      var i := 0;
      while i < |tokens.keys|
        invariant 0 <= i <= |tokens.keys|
        invariant tokens == old(tokens) && users == old(users)
        invariant forall j :: 0 <= j < i ==> tokens.items[tokens.keys[j]].userId != userId
      {
        var token := tokens.items[tokens.keys[i]];
        if token.userId == userId {
          FirstTokenAt(tokens.keys, tokens.items, userId, i);
          ghost var before := tokens;
          assert token.id == before.keys[i];
          tokens := tokens.Remove(token.id);
          assert tokens == RevokeFirst(before, userId);
          return Err(RuntimeError("dictionary changed size during iteration"));
        }
        i := i + 1;
      }
      return Ok(());
    }

    /** `revoke_refresh_token` as intended: every token of the user is removed. */
    method RevokeRefreshToken(userId: Uuid)
      requires Valid()
      modifies this
      ensures Valid() && users == old(users)
      ensures tokens == WithoutUser(old(tokens), userId)
    {
      var snapshot := tokens.keys;
      for i := 0 to |snapshot|
        invariant Valid() && users == old(users)
        invariant tokens == RemoveOwnedAmong(old(tokens), snapshot[..i], userId)
      {
        var jti := snapshot[i];
        RemoveOwnedAmongStep(old(tokens), snapshot, i, userId);
        if jti in tokens.items && tokens.items[jti].userId == userId {
          tokens := tokens.Remove(jti);
        }
      }
      assert snapshot[..|snapshot|] == snapshot;
    }

    /** `remove_used_refresh_token`: deletes exactly that key; an absent key is a `KeyError`. */
    method RemoveUsedRefreshToken(tokenId: Uuid) returns (r: Result<(), StoreError>)
      requires Valid()
      modifies this
      ensures Valid() && users == old(users)
      ensures r.Err? <==> tokenId !in old(tokens.items)
      ensures r.Err? ==> r.error == KeyError(tokenId) && tokens == old(tokens)
      ensures r.Ok? ==> tokens == old(tokens).Remove(tokenId)
    {
      if tokenId !in tokens.items {
        return Err(KeyError(tokenId));
      }
      tokens := tokens.Remove(tokenId);
      return Ok(());
    }
  }

  /**
   * As written, a registered user holding a valid refresh token is still not found, where
   * the intended lookup finds the user.
   */
  lemma RefreshLookupMissesRegisteredUser(dal: UserDal, userId: Uuid, jti: Uuid, sessionId: Uuid, now: int, name: string)
    requires dal.Valid()
    requires TokenMatches(dal.tokens, userId, jti, sessionId, now)
    requires name in dal.users.items && dal.users.items[name].id == userId
    ensures dal.GetUserByRefreshTokenAsWritten(userId, jti, sessionId, now).None?
    ensures dal.GetUserByRefreshToken(userId, jti, sessionId, now).Some?
  {
  }
}
