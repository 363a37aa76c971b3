/**
 * The handlers of backend/routes/app_auth.py over the earlier
 * repositories: logging in issues a token row, logging out should remove
 * it, registering creates a user.
 */
module AuthRoutes {
  import opened Wrappers
  import opened TokenModel
  import opened UserModel
  import opened Store
  import opened UserFactory
  import opened AuthSchemas
  import opened Http
  import LegacyUserRepository
  import LegacyTokenRepository

  type Users = LegacyUserRepository.UserRepository
  type Tokens = LegacyTokenRepository.TokenRepository

  /**
   * `login(user_login)`: an unknown email raises `UserNotFoundError`, a
   * plain exception, so 500; a wrong password gives 400; otherwise one new
   * token row is created for the user and its JWT returned.
   */
  method Login(users: Users, tokens: Tokens, login: AuthSchemas.Login, newTokenId: Id) returns (r: Response<map<string, string>>)
    requires users.db == tokens.db && tokens.Valid()
    modifies tokens.db
    ensures tokens.Valid()
    ensures old(users.GetByEmail(login.email)).None? ==> r == Error(500, "User not found")
    ensures r.Error? && r.status == 400 <==>
      old(users.GetByEmail(login.email)).Some? && !CheckPassword(old(users.GetByEmail(login.email)).value, login.password)
    ensures r.Error? && r.status == 400 ==> r.detail == "Incorrect password"
    ensures r.Ok? <==>
      && old(users.GetByEmail(login.email)).Some? && CheckPassword(old(users.GetByEmail(login.email)).value, login.password)
      && old(forall t :: t in tokens.db.tokens ==> t.id != newTokenId)
    ensures r.Ok? ==>
      var owner := old(users.GetByEmail(login.email)).value.id;
      && r.status == 200
      && r.body == map["token" := GenerateBearerToken(tokens.signer, owner)]
      && tokens.db.tokens == old(tokens.db.tokens) + [NewToken(newTokenId, owner, tokens.signer)]
    ensures r.Error? ==> tokens.db.tokens == old(tokens.db.tokens)
    ensures tokens.db.users == old(tokens.db.users) && tokens.db.edges == old(tokens.db.edges)
  {
    var found := users.GetByEmail(login.email);
    if found.None? {
      return Error(500, "User not found");
    }
    var user := found.value;
    if !CheckPassword(user, login.password) {
      return Error(400, "Incorrect password");
    }
    assert HasUser(tokens.db.users, user.id) by {
      var i :| 0 <= i < |users.db.users| && users.db.users[i] == user;
    }
    var created := tokens.Create(user, newTokenId);
    if created.Failure? {
      return Error(500, "IntegrityError");
    }
    r := Ok(200, map["token" := created.value.token]);
  }

  /**
   * `login` as written. The earlier `User` declares no `check_password`, so
   * every user the email lookup finds raises `AttributeError`, a plain
   * exception: every login ends in 500 and no token row is issued.
   */
  function LoginAsWritten(users: Users, login: AuthSchemas.Login): (r: Response<map<string, string>>)
    reads users.db
    ensures r.Error? && r.status == 500
    ensures r.detail == "User not found" <==> users.GetByEmail(login.email).None?
  {
    match users.GetByEmail(login.email)
    case None => Error(500, "User not found")
    case Some(_) => Error(500, "'User' object has no attribute 'check_password'")
  }

  /**
   * `logout(token)` as written: hands the JWT to `TokenRepository.delete`,
   * which takes an owner id. It removes the first row owned by a user whose
   * id is the JWT string, and nothing when there is none.
   */
  method Logout(tokens: Tokens, token: string) returns (r: Response<Empty>)
    requires tokens.Valid()
    modifies tokens.db
    ensures tokens.Valid()
    ensures r == Ok(204, Empty)
    ensures !old(Owns(tokens.db.tokens, token)) ==> tokens.db.tokens == old(tokens.db.tokens)
    ensures old(Owns(tokens.db.tokens, token)) ==>
      exists i :: FirstOwnedAt(old(tokens.db.tokens), token, i)
        && tokens.db.tokens == old(tokens.db.tokens)[..i] + old(tokens.db.tokens)[i + 1..]
    ensures tokens.db.users == old(tokens.db.users) && tokens.db.edges == old(tokens.db.edges)
  {
    tokens.Delete(token);
    r := Ok(204, Empty);
  }

  /** An encoder with the shape of an HS256 JWT: header, payload, signature. */
  const ExampleSigner: Signer :=
    Signer((claims: map<string, string>, key: string, alg: string) =>
      "eyJhbGciOiJIUzI1NiJ9." + (if "user_id" in claims then claims["user_id"] else "") + ".c2lnbmF0dXJl", "secret")

  /**
   * A user "u1" who logged in holds one row storing its JWT. The JWT is no
   * user id, so logging out with it as written leaves the row in place,
   * while removing the rows that store it empties the table.
   */
  lemma LogoutKeepsIssuedToken()
    ensures var jwt := GenerateBearerToken(ExampleSigner, "u1");
      var rows := [NewToken("t1", "u1", ExampleSigner)];
      && rows[0].token == jwt
      && !Owns(rows, jwt)
      && WithoutTokens(rows, TokenString, jwt) == []
  {
    var jwt := GenerateBearerToken(ExampleSigner, "u1");
    assert jwt == "eyJhbGciOiJIUzI1NiJ9.u1.c2lnbmF0dXJl";
    assert |jwt| != |"u1"|;
  }

  /**
   * `logout(token)` as the code evidently intends it: every row storing the
   * presented JWT is removed, so it no longer matches any row; other rows
   * stay.
   */
  method LogoutByToken(tokens: Tokens, token: string) returns (r: Response<Empty>)
    requires tokens.Valid()
    modifies tokens.db
    ensures tokens.Valid()
    ensures r == Ok(204, Empty)
    ensures tokens.db.tokens == WithoutTokens(old(tokens.db.tokens), TokenString, token)
    ensures forall t :: t in tokens.db.tokens ==> t.token != token
    ensures forall t :: t in old(tokens.db.tokens) && t.token != token ==> t in tokens.db.tokens
    ensures tokens.db.users == old(tokens.db.users) && tokens.db.edges == old(tokens.db.edges)
  {
    ghost var before := tokens.db.tokens;
    WithoutTokensUnique(tokens.db.tokens, TokenString, token);
    tokens.db.tokens := WithoutTokens(tokens.db.tokens, TokenString, token);
    forall j | 0 <= j < |tokens.db.tokens| ensures HasUser(tokens.db.users, tokens.db.tokens[j].user_id) {
      assert tokens.db.tokens[j] in before;
      var k :| 0 <= k < |before| && before[k] == tokens.db.tokens[j];
    }
    r := Ok(204, Empty);
  }

  /**
   * `register(user)`: 400 when the email is taken; otherwise the user is
   * created and returned with 201. Only `HTTPException` is caught, so a
   * failed insert escapes as a server error (500).
   */
  method Register(users: Users, uc: UserCreate, newId: Id, salt: string) returns (r: Response<UserInApp>)
    requires users.Valid()
    modifies users.db
    ensures users.Valid()
    ensures r.Error? && r.status == 400 <==> old(exists u :: u in users.db.users && u.profile.email == uc.profile.email)
    ensures r.Error? && r.status == 400 ==> r.detail == "Email already registered"
    ensures r.Error? ==> r.status in {400, 500} && users.db.users == old(users.db.users)
    ensures r.Ok? <==> old(NoClash(Earlier, users.db.users, FromCreate(uc, newId, salt)))
    ensures r.Ok? ==> r.status == 201 && r.body == UserInApp(newId, uc.profile)
    ensures r.Ok? ==> users.db.users == old(users.db.users) + [FromCreate(uc, newId, salt)]
    ensures users.db.edges == old(users.db.edges) && users.db.tokens == old(users.db.tokens)
  {
    var existing := users.GetByEmail(uc.profile.email);
    if existing.Some? {
      assert !NoClash(Earlier, users.db.users, FromCreate(uc, newId, salt)) by {
        var i :| 0 <= i < |users.db.users| && users.db.users[i] == existing.value;
        assert Clashes(Earlier, users.db.users[i], FromCreate(uc, newId, salt));
      }
      return Error(400, "Email already registered");
    }
    var created := users.Create(uc, newId, salt);
    if created.Failure? {
      return Error(500, "Internal Server Error");
    }
    r := Ok(201, FromDb(created.value));
  }
}
