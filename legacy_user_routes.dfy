/**
 * The handlers of backend/routes/users.py over the earlier repository.
 * Besides its own `HTTPException`s, a handler maps `ValueError` to 400
 * (creation only) and every other exception to 500.
 */
module LegacyUserRoutes {
  import opened Wrappers
  import opened Seqs
  import opened TokenModel
  import opened UserModel
  import opened Store
  import opened UserSchemas
  import opened UserFactory
  import opened Validation
  import opened Http
  import LegacyUserRepository

  type Repo = LegacyUserRepository.UserRepository

  /** The body of a listing: `UserList`. */
  datatype UserList = UserList(total: nat, users: seq<UserInApp>)

  /**
   * `create_user(user)`: the validator's exceptions are plain exceptions
   * and give 500; a failed insert gives 500; otherwise 201 with the new row
   * seen through `from_db`. The "Email already registered" branch can never
   * fire after the validator.
   */
  method CreateUser(repo: Repo, uc: UserCreate, newId: Id, salt: string) returns (r: Response<UserInApp>)
    requires repo.Valid()
    modifies repo.db
    ensures repo.Valid()
    ensures r.Ok? <==>
      old(Validate(repo.db.users, uc)).Success? && old(NoClash(Earlier, repo.db.users, FromCreate(uc, newId, salt)))
    ensures r.Ok? ==> r.status == 201 && r.body == UserInApp(newId, uc.profile)
    ensures r.Ok? ==> repo.db.users == old(repo.db.users) + [FromCreate(uc, newId, salt)]
    ensures r.Error? ==> r.status == 500 && repo.db.users == old(repo.db.users)
    ensures r.Error? && old(Validate(repo.db.users, uc)).Failure? ==> r.detail == old(Validate(repo.db.users, uc)).error.message
    ensures repo.db.edges == old(repo.db.edges) && repo.db.tokens == old(repo.db.tokens)
  {
    var v := Validate(repo.db.users, uc);
    if v.Failure? {
      return Error(500, v.error.message);
    }
    if repo.GetByEmail(uc.profile.email).Some? {
      return Error(400, "Email already registered");
    }
    var created := repo.Create(uc, newId, salt);
    if created.Failure? {
      return Error(500, "IntegrityError");
    }
    r := Ok(201, FromDb(created.value));
  }

  /**
   * `get_users(limit, offset)` with `UserList` accepting its items: the
   * slice seen through `from_db`, and the count of all users whatever the
   * slice.
   */
  function GetUsers(repo: Repo, limit: int, offset: int): (r: Response<UserList>)
    reads repo.db
    ensures r.Ok? <==> limit >= 0 && offset >= 0
    ensures r.Error? ==> r.status == 500
    ensures r.Ok? ==> r.status == 200 && r.body.total == |repo.db.users| && |r.body.users| <= limit
    ensures r.Ok? ==>
      |r.body.users| == if offset >= |repo.db.users| then 0
        else if |repo.db.users| - offset < limit then |repo.db.users| - offset
        else limit
    ensures r.Ok? ==> forall i :: 0 <= i < |r.body.users| ==>
      offset + i < |repo.db.users| && r.body.users[i] == FromDb(repo.db.users[offset + i])
  {
    match repo.List(limit, offset)
    case Failure(_) => Error(500, "invalid LIMIT or OFFSET")
    case Success(rows) =>
      Ok(200, UserList(|repo.db.users|, seq(|rows|, i requires 0 <= i < |rows| => FromDb(rows[i]))))
  }

  /**
   * `get_users(limit, offset)` as written: `UserList.users` is a list of
   * the schema `User`, which requires `created_at`, and the items built by
   * `from_db` carry no such field. Validation fails on any non-empty slice,
   * and the handler turns the failure into 500.
   */
  function GetUsersAsWritten(repo: Repo, limit: int, offset: int): (r: Response<UserList>)
    reads repo.db
    ensures r.Ok? <==> limit >= 0 && offset >= 0 && (limit == 0 || offset >= |repo.db.users|)
    ensures r.Error? ==> r.status == 500
    ensures r.Ok? ==> r == Ok(200, UserList(|repo.db.users|, []))
  {
    match repo.List(limit, offset)
    case Failure(_) => Error(500, "invalid LIMIT or OFFSET")
    case Success(rows) =>
      if |rows| > 0 then Error(500, "validation error for UserList")
      else Ok(200, UserList(|repo.db.users|, []))
  }

  /** With one user in the table, the first page of ten is 500 as written, and lists that user once corrected. */
  lemma ListingRefusedAsWritten(repo: Repo)
    requires |repo.db.users| >= 1
    ensures GetUsersAsWritten(repo, 10, 0) == Error(500, "validation error for UserList")
    ensures GetUsers(repo, 10, 0).Ok? && GetUsers(repo, 10, 0).body.users[0] == FromDb(repo.db.users[0])
  {
  }

  /** `get_user(user_name)`: 404 exactly when no user has that display name. */
  function GetUser(repo: Repo, userName: string): (r: Response<UserInApp>)
    reads repo.db
    ensures r.Error? <==> forall u :: u in repo.db.users ==> u.profile.display_name != userName
    ensures r.Error? ==> r.status == 404 && r.detail == "User not found"
    ensures r.Ok? ==> r.status == 200 && r.body.profile.display_name == userName
    ensures r.Ok? ==>
      exists i :: 0 <= i < |repo.db.users| && repo.db.users[i].id == r.body.id
        && repo.db.users[i].profile == r.body.profile
        && forall j :: 0 <= j < i ==> repo.db.users[j].profile.display_name != userName
  {
    match repo.GetByDisplayName(userName)
    case None => Error(404, "User not found")
    case Some(u) => Ok(200, FromDb(u))
  }

  /**
   * `update_user(user_id, user)`: 400 when the email is another user's,
   * 404 when there is no such user, 500 when the commit fails, otherwise
   * 200 with the updated row.
   */
  method UpdateUser(repo: Repo, userId: Id, form: UpdateForm) returns (r: Response<UserInApp>)
    requires repo.Valid()
    requires UpdateFormAccepted(form)
    modifies repo.db
    ensures repo.Valid()
    ensures r.Error? && r.status == 400 <==>
      form.email.Some? && form.email.value != "" && old(exists u :: u in repo.db.users && u.profile.email == form.email.value && u.id != userId)
    ensures r.Error? && r.status == 404 <==>
      && !(form.email.Some? && form.email.value != "" && old(exists u :: u in repo.db.users && u.profile.email == form.email.value && u.id != userId))
      && !old(HasUser(repo.db.users, userId))
    ensures r.Error? ==> r.status in {400, 404, 500} && repo.db.users == old(repo.db.users)
    ensures r.Ok? ==>
      exists i :: 0 <= i < |old(repo.db.users)| && old(repo.db.users)[i].id == userId
        && repo.db.users == old(repo.db.users)[i := ApplyUserUpdate(old(repo.db.users)[i], FormVars(form), "", false)]
        && r.body == FromDb(repo.db.users[i])
    ensures repo.db.edges == old(repo.db.edges) && repo.db.tokens == old(repo.db.tokens)
  {
    if form.email.Some? && form.email.value != "" {
      var existing := repo.GetByEmail(form.email.value);
      if existing.Some? && existing.value.id != userId {
        return Error(400, "Email already in use");
      }
      if existing.Some? {
        forall u | u in repo.db.users && u.profile.email == form.email.value ensures u.id == userId {
          repo.EmailLookupUnique(form.email.value, u);
        }
      }
    }
    var updated := repo.Update(userId, form);
    if updated.Failure? {
      return Error(500, "IntegrityError");
    }
    if updated.value.None? {
      return Error(404, "User not found");
    }
    r := Ok(200, FromDb(updated.value.value));
  }

  /**
   * `delete_user(user_id)`: 404 when there is no such user; 500 when the
   * user still owns tokens; otherwise 204 and the row is gone.
   */
  method DeleteUser(repo: Repo, userId: Id) returns (r: Response<Empty>)
    requires repo.Valid()
    modifies repo.db
    ensures repo.Valid()
    ensures r.Error? && r.status == 404 <==> !old(HasUser(repo.db.users, userId))
    ensures r.Error? && r.status == 500 <==> old(HasUser(repo.db.users, userId) && Owns(repo.db.tokens, userId))
    ensures r.Error? ==> repo.db.users == old(repo.db.users) && repo.db.edges == old(repo.db.edges)
    ensures r.Ok? ==> r.status == 204 && repo.db.users == WithoutUser(old(repo.db.users), userId)
    ensures r.Ok? ==> EdgesWithout(old(repo.db.edges), userId) <= repo.db.edges <= old(repo.db.edges)
    ensures repo.db.tokens == old(repo.db.tokens)
  {
    var user := repo.Get(userId);
    if user.None? {
      return Error(404, "User not found");
    }
    var err := repo.Delete(userId);
    if err.Some? {
      return Error(500, "IntegrityError");
    }
    r := Ok(204, Empty);
  }

  /**
   * `add_friend(user_id, friend_id)`: 400 for oneself, 404 when either user
   * is missing, 500 when the edge is already there, otherwise 204 and the
   * edge is added.
   */
  method AddFriend(repo: Repo, userId: Id, friendId: Id) returns (r: Response<Empty>)
    requires repo.Valid()
    modifies repo.db
    ensures repo.Valid()
    ensures r.Error? && r.status == 400 <==> userId == friendId
    ensures r.Error? && r.status == 404 <==>
      userId != friendId && !old(HasUser(repo.db.users, userId) && HasUser(repo.db.users, friendId))
    ensures r.Error? && r.status == 500 <==>
      userId != friendId && old(HasUser(repo.db.users, userId) && HasUser(repo.db.users, friendId)) && (userId, friendId) in old(repo.db.edges)
    ensures r.Error? ==> repo.db.edges == old(repo.db.edges)
    ensures r.Ok? ==> r.status == 204 && repo.db.edges == old(repo.db.edges) + {(userId, friendId)}
    ensures repo.db.users == old(repo.db.users) && repo.db.tokens == old(repo.db.tokens)
  {
    if userId == friendId {
      return Error(400, "Cannot add yourself as friend");
    }
    var user := repo.Get(userId);
    var friend := repo.Get(friendId);
    if user.None? || friend.None? {
      return Error(404, "User or friend not found");
    }
    var err := repo.AddFriend(userId, friendId);
    if err.Some? {
      return Error(500, "IntegrityError");
    }
    r := Ok(204, Empty);
  }

  /**
   * `remove_friend(user_id, friend_id)`: 404 when either user is missing,
   * 500 when the edge is not there, otherwise 204 and the edge is gone.
   */
  method RemoveFriend(repo: Repo, userId: Id, friendId: Id) returns (r: Response<Empty>)
    requires repo.Valid()
    modifies repo.db
    ensures repo.Valid()
    ensures r.Error? && r.status == 404 <==> !old(HasUser(repo.db.users, userId) && HasUser(repo.db.users, friendId))
    ensures r.Error? && r.status == 500 <==>
      old(HasUser(repo.db.users, userId) && HasUser(repo.db.users, friendId)) && (userId, friendId) !in old(repo.db.edges)
    ensures r.Error? ==> repo.db.edges == old(repo.db.edges)
    ensures r.Ok? ==> r.status == 204 && repo.db.edges == old(repo.db.edges) - {(userId, friendId)}
    ensures repo.db.users == old(repo.db.users) && repo.db.tokens == old(repo.db.tokens)
  {
    var user := repo.Get(userId);
    var friend := repo.Get(friendId);
    if user.None? || friend.None? {
      return Error(404, "User or friend not found");
    }
    var err := repo.RemoveFriend(userId, friendId);
    if err.Some? {
      return Error(500, "ValueError");
    }
    r := Ok(204, Empty);
  }
}
