/**
 * `UserFactory` of backend/factory/user_factory.py: the bridge between
 * `users` rows and the request and response schemas.
 */
module UserFactory {
  import opened Wrappers
  import opened Passwords
  import opened Attributes
  import opened TokenModel
  import opened UserModel

  /** `UserInApp`: the key and the seven profile fields, nothing else. */
  datatype UserInApp = UserInApp(id: Id, profile: Profile)

  /** `from_db`: copies the key and the profile verbatim; the digest does not travel. */
  function FromDb(u: User): (r: UserInApp)
    ensures r.id == u.id && r.profile == u.profile
  {
    UserInApp(u.id, u.profile)
  }

  /**
   * `from_create` as the code evidently intends it: the profile of the
   * request on a row keyed `id`, with the request's password hashed.
   */
  function FromCreate(uc: UserCreate, id: Id, salt: string): (r: User)
    ensures r.id == id && r.profile == uc.profile
    ensures forall candidate :: CheckPassword(r, candidate) <==> candidate == uc.password
  {
    SetPassword(User(id, uc.profile, HashPw(uc.password, salt)), uc.password, salt)
  }

  /** Reading a created user back through `from_db` gives the request's profile under the new key. */
  lemma FromDbAfterFromCreate(uc: UserCreate, id: Id, salt: string)
    ensures FromDb(FromCreate(uc, id, salt)) == UserInApp(id, uc.profile)
  {
  }

  /** The attributes a `UserCreate` instance has: its profile fields and `password`. */
  function CreateAttribute(uc: UserCreate, name: string): (r: Option<Value>)
    ensures r.Some? <==> name in ProfileColumns || name == "password"
    ensures name == "password" ==> r == Some(Text(uc.password))
  {
    if name == "password" then Some(Text(uc.password))
    else if name in ProfileColumns then Some(ColumnValue(uc.profile, name))
    else None
  }

  /** Python's `AttributeError`, naming the missing attribute. */
  datatype AttributeError = AttributeError(name: string)

  /**
   * `from_create` as written: it reads `user.password_hash` from the
   * request, which declares `password` instead.
   */
  function FromCreateAsWritten(uc: UserCreate, id: Id, salt: string): Result<User, AttributeError> {
    match CreateAttribute(uc, "password_hash")
    case Some(Text(digest)) => Success(SetPassword(User(id, uc.profile, Bcrypt(salt, digest)), digest, salt))
    case _ => Failure(AttributeError("password_hash"))
  }

  /** As written, building a user from a request always fails. */
  lemma FromCreateAlwaysFails(uc: UserCreate, id: Id, salt: string)
    ensures FromCreateAsWritten(uc, id, salt) == Failure(AttributeError("password_hash"))
  {
    assert "password_hash" !in ProfileColumns;
  }
}
