/**
 * The handlers of backend/app/routes/users.py over the later repository:
 * which status code each request gets, what the body is, and the
 * pagination arithmetic of the user listing.
 */
module AppUserRoutes {
  import opened Wrappers
  import opened Seqs
  import opened Attributes
  import opened TokenModel
  import opened UserModel
  import opened Store
  import opened Validation
  import opened Http
  import AppUserRepository

  type Repo = AppUserRepository.UserRepository

  /** `ceil(total / per_page)` on natural numbers. */
  function CeilDiv(n: nat, k: nat): (r: nat)
    requires k > 0
    ensures r * k >= n
    ensures r > 0 ==> (r - 1) * k < n
    ensures r == 0 <==> n == 0
  {
    var r := (n + k - 1) / k;
    var m := (n + k - 1) % k;
    assert n + k - 1 == r * k + m && 0 <= m < k;
    assert (r - 1) * k == r * k - k;
    r
  }

  /** Pages 1 to `n` of `LIMIT k OFFSET (page - 1) * k`, concatenated. */
  function PagesFrom<T>(s: seq<T>, k: nat, n: nat): seq<T> {
    if n == 0 then [] else PagesFrom(s, k, n - 1) + Page(s, k, (n - 1) * k)
  }

  /** The first `n` pages are the first `n * k` rows. */
  lemma {:induction false} PagesPrefix<T>(s: seq<T>, k: nat, n: nat)
    requires k > 0
    ensures n * k <= |s| ==> PagesFrom(s, k, n) == s[..n * k]
    ensures n * k > |s| ==> PagesFrom(s, k, n) == s
  {
    if n > 0 {
      PagesPrefix(s, k, n - 1);
      assert (n - 1) * k + k == n * k;
      AppendPage(s, k, (n - 1) * k, PagesFrom(s, k, n - 1));
    }
  }

  /** The rows before offset `o`, followed by the page at `o`, are the rows before `o + k`. */
  lemma AppendPage<T>(s: seq<T>, k: nat, o: nat, before: seq<T>)
    requires o <= |s| ==> before == s[..o]
    requires o > |s| ==> before == s
    ensures o + k <= |s| ==> before + Page(s, k, o) == s[..o + k]
    ensures o + k > |s| ==> before + Page(s, k, o) == s
  {
    if o >= |s| {
      assert Page(s, k, o) == [];
      assert s[..|s|] == s;
    } else if o + k <= |s| {
      assert Page(s, k, o) == s[o..o + k];
      assert s[..o] + s[o..o + k] == s[..o + k];
    } else {
      assert Page(s, k, o) == s[o..];
      assert s[..o] + s[o..] == s;
    }
  }

  /**
   * Walking pages 1 to `pages` lists every user exactly once, in table
   * order: the pages partition the table.
   */
  lemma PagesPartitionTable<T>(s: seq<T>, k: nat)
    requires k > 0
    ensures PagesFrom(s, k, CeilDiv(|s|, k)) == s
  {
    PagesPrefix(s, k, CeilDiv(|s|, k));
    if CeilDiv(|s|, k) * k <= |s| {
      assert s[..CeilDiv(|s|, k) * k] == s;
    }
  }

  /** A page past the last one is empty. */
  lemma PageBeyondLastIsEmpty<T>(s: seq<T>, k: nat, page: nat)
    requires k > 0 && page > CeilDiv(|s|, k)
    ensures Page(s, k, (page - 1) * k) == []
  {
    var n := CeilDiv(|s|, k);
    assert (page - 1) * k >= n * k by {
      assert page - 1 >= n;
    }
  }

  /** The body of a listing: `PaginatedUsers`. */
  datatype PaginatedUsers = PaginatedUsers(total: nat, users: seq<UserOut>, page: int, per_page: int, pages: nat)

  /** `from_user(user, include_friends_count=True)` over a whole page. */
  function WithFriendCounts(rows: seq<User>, users: seq<User>, edges: set<(Id, Id)>): (r: seq<UserOut>)
    ensures |r| == |rows|
    ensures forall i :: 0 <= i < |rows| ==>
      && r[i].id == rows[i].id && r[i].profile == rows[i].profile
      && r[i].friends_count == Some(|Friends(users, edges, rows[i].id)|)
  {
    seq(|rows|, i requires 0 <= i < |rows| => FromUser(rows[i], Friends(users, edges, rows[i].id), true))
  }

  /** Row `i` of a listed page is user `offset + i`, with its own friend count. */
  lemma ListedPage(users: seq<User>, edges: set<(Id, Id)>, rows: seq<User>, offset: int)
    requires forall i :: 0 <= i < |rows| ==> 0 <= offset + i < |users| && rows[i] == users[offset + i]
    ensures forall i :: 0 <= i < |rows| ==>
      var o := WithFriendCounts(rows, users, edges)[i];
      && 0 <= offset + i < |users|
      && HasUser(users, o.id)
      && o.id == users[offset + i].id && o.profile == users[offset + i].profile
      && o.friends_count == Some(|Friends(users, edges, o.id)|)
  {
    var out := WithFriendCounts(rows, users, edges);
    forall i | 0 <= i < |out|
      ensures 0 <= offset + i < |users| && HasUser(users, out[i].id)
      ensures out[i].id == users[offset + i].id && out[i].profile == users[offset + i].profile
      ensures out[i].friends_count == Some(|Friends(users, edges, out[i].id)|)
    {
      assert rows[i] == users[offset + i];
    }
  }

  /** `(page - 1) * per_page`: where page `page` starts. */
  function PageOffset(page: int, perPage: int): int {
    (page - 1) * perPage
  }

  /**
   * `get_users(page, per_page)`: the count of all users, and page `page` of
   * `per_page` users with their friend counts. A negative offset or count,
   * a zero page size, or a page or size `PaginatedUsers` refuses all end in
   * 500.
   */
  function GetUsers(repo: Repo, page: int, perPage: int): (r: Response<PaginatedUsers>)
    reads repo.db
    ensures r.Ok? <==> PaginationAccepted(page, perPage)
    ensures r.Error? ==> r.status == 500
    ensures r.Ok? ==> r.status == 200 && r.body.total == |repo.db.users| && r.body.page == page && r.body.per_page == perPage
    ensures r.Ok? ==> r.body.pages == CeilDiv(|repo.db.users|, perPage)
    ensures r.Ok? ==> |r.body.users| <= perPage
    ensures r.Ok? ==>
      |r.body.users| == if PageOffset(page, perPage) >= |repo.db.users| then 0
        else if |repo.db.users| - PageOffset(page, perPage) < perPage then |repo.db.users| - PageOffset(page, perPage)
        else perPage
  {
    var total := |repo.db.users|;
    match repo.List(perPage, PageOffset(page, perPage))
    case Failure(_) => Error(500, "invalid LIMIT or OFFSET")
    case Success(rows) =>
      if perPage == 0 then Error(500, "division by zero")
      else if !PaginationAccepted(page, perPage) then Error(500, "PaginatedUsers rejected page or per_page")
      else Ok(200, PaginatedUsers(total, WithFriendCounts(rows, repo.db.users, repo.db.edges), page, perPage, CeilDiv(total, perPage)))
  }

  /**
   * The users of an answered listing are the table's users from
   * `(page - 1) * per_page` on, in table order, each with its own friend
   * count.
   */
  lemma GetUsersListsPage(repo: Repo, page: int, perPage: int)
    ensures var r := GetUsers(repo, page, perPage);
      r.Ok? ==> forall i :: 0 <= i < |r.body.users| ==>
        && PageOffset(page, perPage) + i < |repo.db.users|
        && r.body.users[i].id == repo.db.users[PageOffset(page, perPage) + i].id
        && r.body.users[i].profile == repo.db.users[PageOffset(page, perPage) + i].profile
        && r.body.users[i].friends_count == Some(|repo.GetFriends(r.body.users[i].id)|)
  {
    var r := GetUsers(repo, page, perPage);
    if r.Ok? {
      var rows := repo.List(perPage, PageOffset(page, perPage)).value;
      ListedPage(repo.db.users, repo.db.edges, rows, PageOffset(page, perPage));
    }
  }

  function UserKey(u: User): Id { u.id }

  function OutKey(o: UserOut): Id { o.id }

  /** The keys of a sequence of rows or listed users, in order. */
  function Keys<T>(s: seq<T>, key: T -> Id): (r: seq<Id>)
    ensures |r| == |s|
    ensures forall i :: 0 <= i < |s| ==> r[i] == key(s[i])
  {
    seq(|s|, i requires 0 <= i < |s| => key(s[i]))
  }

  /** The keys a client collects by requesting pages 1 to `n` of `per_page` users. */
  function WalkPages(repo: Repo, perPage: int, n: nat): seq<Id>
    reads repo.db
    requires 1 <= perPage <= 100
  {
    if n == 0 then [] else WalkPages(repo, perPage, n - 1) + Keys(GetUsers(repo, n, perPage).body.users, OutKey)
  }

  /** Page `page` of the listing holds the keys of `LIMIT per_page OFFSET (page - 1) * per_page`. */
  lemma PageKeys(repo: Repo, page: nat, perPage: int)
    requires page >= 1 && 1 <= perPage <= 100
    ensures Keys(GetUsers(repo, page, perPage).body.users, OutKey) == Page(Keys(repo.db.users, UserKey), perPage, (page - 1) * perPage)
  {
    var listed := GetUsers(repo, page, perPage).body.users;
    var keys := Page(Keys(repo.db.users, UserKey), perPage, (page - 1) * perPage);
    GetUsersListsPage(repo, page, perPage);
    assert |Keys(listed, OutKey)| == |keys|;
    forall i | 0 <= i < |keys| ensures Keys(listed, OutKey)[i] == keys[i] {
      assert listed[i].id == repo.db.users[PageOffset(page, perPage) + i].id;
    }
  }

  /** Pages 1 to `n` of the listing hold the keys of the first `n` table pages. */
  lemma {:induction false} WalkIsPagesFrom(repo: Repo, perPage: int, n: nat)
    requires 1 <= perPage <= 100
    ensures WalkPages(repo, perPage, n) == PagesFrom(Keys(repo.db.users, UserKey), perPage, n)
  {
    if n > 0 {
      WalkIsPagesFrom(repo, perPage, n - 1);
      PageKeys(repo, n, perPage);
    }
  }

  /**
   * A client that requests pages 1 to `pages` of any accepted size sees
   * every user exactly once, in table order.
   */
  lemma WalkingPagesListsEveryUser(repo: Repo, perPage: int)
    requires 1 <= perPage <= 100
    ensures WalkPages(repo, perPage, CeilDiv(|repo.db.users|, perPage)) == Keys(repo.db.users, UserKey)
  {
    WalkIsPagesFrom(repo, perPage, CeilDiv(|repo.db.users|, perPage));
    PagesPartitionTable(Keys(repo.db.users, UserKey), perPage);
  }

  /** `get_user(username)`: 404 exactly when no user has that display name. */
  function GetUser(repo: Repo, username: string): (r: Response<UserOut>)
    reads repo.db
    ensures r.Error? <==> forall u :: u in repo.db.users ==> u.profile.display_name != username
    ensures r.Error? ==> r.status == 404 && r.detail == "User not found"
    ensures r.Ok? ==> r.status == 200 && r.body.profile.display_name == username
    ensures r.Ok? ==>
      exists i :: 0 <= i < |repo.db.users| && repo.db.users[i].id == r.body.id
        && repo.db.users[i].profile == r.body.profile
        && forall j :: 0 <= j < i ==> repo.db.users[j].profile.display_name != username
    ensures r.Ok? ==> r.body.friends_count == Some(|repo.GetFriends(r.body.id)|)
  {
    match repo.GetByDisplayName(username)
    case None => Error(404, "User not found")
    case Some(u) => Ok(200, FromUser(u, Friends(repo.db.users, repo.db.edges, u.id), true))
  }

  /**
   * `create_user(user_data)`: validator errors give 400 with the
   * validator's message; a failed insert gives 500; otherwise 201 with the
   * public view of the new row. The route's own "Email already registered"
   * check can never fire: the validator has refused a taken email already.
   */
  method CreateUser(repo: Repo, data: UserCreate, newId: Id, salt: string) returns (r: Response<UserOut>)
    requires repo.Valid()
    modifies repo.db
    ensures repo.Valid()
    ensures r.Error? && r.status == 400 <==> old(Validate(repo.db.users, data)).Failure?
    ensures r.Error? && r.status == 400 ==> r.detail == old(Validate(repo.db.users, data)).error.message
    ensures r.Error? ==> r.detail != "Email already registered"
    ensures r.Error? && r.status != 400 ==> r.status == 500 && old(HasUser(repo.db.users, newId))
    ensures r.Ok? <==> old(Validate(repo.db.users, data)).Success? && !old(HasUser(repo.db.users, newId))
    ensures r.Ok? ==> r.status == 201 && r.body == UserOut(newId, data.profile, None)
    ensures r.Ok? ==>
      exists u :: repo.db.users == old(repo.db.users) + [u] && u.id == newId && u.profile == data.profile
        && forall c :: CheckPassword(u, c) <==> c == data.password
    ensures r.Error? ==> repo.db.users == old(repo.db.users)
    ensures repo.db.edges == old(repo.db.edges) && repo.db.tokens == old(repo.db.tokens)
  {
    var v := Validate(repo.db.users, data);
    if v.Failure? {
      return Error(400, v.error.message);
    }
    if repo.GetByEmail(data.profile.email).Some? {
      return Error(400, "Email already registered");
    }
    var created := repo.Create(data.profile, Some(data.password), newId, salt);
    if created.Failure? {
      return Error(500, "IntegrityError");
    }
    r := Ok(201, FromUser(created.value, [], false));
  }

  /** The email of an update belongs to a user other than `userId`. */
  predicate EmailOfAnother(repo: Repo, userId: Id, email: Option<string>)
    reads repo.db
  {
    email.Some? && email.value != "" && repo.GetByEmail(email.value).Some? && repo.GetByEmail(email.value).value.id != userId
  }

  /** The dictionary an update request produces is one `update` accepts. */
  lemma UpdateEntriesWellTyped(u: UserUpdate)
    ensures UserUpdateWellTyped(UpdateEntries(u))
  {
    var data := UpdateEntries(u);
    forall i | 0 <= i < |data|
      ensures data[i].0 in {"display_name", "email", "country", "avatar", "password"}
    {
      var a := OptionalEntry("display_name", u.display_name);
      var b := OptionalEntry("email", u.email);
      var c := OptionalEntry("country", u.country);
      var d := OptionalEntry("avatar", u.avatar);
      var e := OptionalEntry("password", u.password);
      assert data == a + b + c + d + e;
      if i < |a| { assert data[i] == a[i]; }
      else if i < |a + b| { assert data[i] == b[i - |a|]; }
      else if i < |a + b + c| { assert data[i] == c[i - |a + b|]; }
      else if i < |a + b + c + d| { assert data[i] == d[i - |a + b + c|]; }
      else { assert data[i] == e[i - |a + b + c + d|]; }
    }
  }

  /**
   * `update_user(user_id, user_data)`: 400 when the new email is another
   * user's, 404 when there is no such user, otherwise 200 with the updated
   * row's public view (the explicitly set fields applied, the password
   * re-hashed).
   */
  method UpdateUser(repo: Repo, userId: Id, upd: UserUpdate, salt: string) returns (r: Response<UserOut>)
    requires repo.Valid()
    requires UserUpdateAccepted(upd)
    modifies repo.db
    ensures repo.Valid()
    ensures r.Error? && r.status == 400 <==> old(EmailOfAnother(repo, userId, upd.email))
    ensures r.Error? && r.status == 404 <==>
      !old(EmailOfAnother(repo, userId, upd.email)) && !old(HasUser(repo.db.users, userId))
    ensures r.Error? ==> repo.db.users == old(repo.db.users)
    ensures r.Ok? ==> r.status == 200 && r.body.id == userId && r.body.friends_count.None?
    ensures r.Ok? ==>
      exists i :: 0 <= i < |old(repo.db.users)| && old(repo.db.users)[i].id == userId
        && repo.db.users == old(repo.db.users)[i := ApplyUserUpdate(old(repo.db.users)[i], UpdateEntries(upd), salt, true)]
        && r.body.profile == repo.db.users[i].profile
    ensures repo.db.edges == old(repo.db.edges) && repo.db.tokens == old(repo.db.tokens)
  {
    if upd.email.Some? && upd.email.value != "" {
      var existing := repo.GetByEmail(upd.email.value);
      if existing.Some? && existing.value.id != userId {
        return Error(400, "Email already in use");
      }
    }
    UpdateEntriesWellTyped(upd);
    var updated := repo.Update(userId, UpdateEntries(upd), salt);
    if updated.None? {
      return Error(404, "User not found");
    }
    r := Ok(200, FromUser(updated.value, [], false));
  }

  /** `delete_user(user_id)`: 404 exactly when the repository found no such user, otherwise 204. */
  method DeleteUser(repo: Repo, userId: Id) returns (r: Response<Empty>)
    requires repo.Valid()
    modifies repo.db
    ensures repo.Valid()
    ensures r.Error? <==> !old(HasUser(repo.db.users, userId))
    ensures r.Error? ==> r.status == 404 && repo.db.users == old(repo.db.users)
    ensures r.Ok? ==> r.status == 204 && !HasUser(repo.db.users, userId)
    ensures repo.db.users == WithoutUser(old(repo.db.users), userId)
    ensures EdgesWithout(old(repo.db.edges), userId) <= repo.db.edges <= old(repo.db.edges)
    ensures repo.db.tokens == WithoutTokens(old(repo.db.tokens), Owner, userId)
  {
    var ok := repo.Delete(userId);
    if !ok {
      return Error(404, "User not found");
    }
    r := Ok(204, Empty);
  }

  /**
   * `add_friend(user_id, friend_id)`: 400 for oneself, before the store is
   * touched; 404 whenever the repository answers false, which includes
   * "already friends"; otherwise 204 and the edge exists.
   */
  method AddFriend(repo: Repo, userId: Id, friendId: Id) returns (r: Response<Empty>)
    requires repo.Valid()
    modifies repo.db
    ensures repo.Valid()
    ensures r.Error? && r.status == 400 <==> userId == friendId
    ensures r.Error? && r.status == 404 <==>
      userId != friendId && !(old(HasUser(repo.db.users, userId) && HasUser(repo.db.users, friendId)) && (userId, friendId) !in old(repo.db.edges))
    ensures r.Error? ==> repo.db.edges == old(repo.db.edges)
    ensures r.Ok? ==> r.status == 204 && repo.db.edges == old(repo.db.edges) + {(userId, friendId)}
    ensures repo.db.users == old(repo.db.users) && repo.db.tokens == old(repo.db.tokens)
  {
    if userId == friendId {
      return Error(400, "Cannot add yourself as friend");
    }
    var ok := repo.AddFriend(userId, friendId);
    if !ok {
      return Error(404, "User or friend not found");
    }
    r := Ok(204, Empty);
  }

  /** `remove_friend(user_id, friend_id)`: 404 exactly when the repository answers false, otherwise 204. */
  method RemoveFriend(repo: Repo, userId: Id, friendId: Id) returns (r: Response<Empty>)
    requires repo.Valid()
    modifies repo.db
    ensures repo.Valid()
    ensures r.Error? <==>
      !(old(HasUser(repo.db.users, userId) && HasUser(repo.db.users, friendId)) && (userId, friendId) in old(repo.db.edges))
    ensures r.Error? ==> r.status == 404 && repo.db.edges == old(repo.db.edges)
    ensures r.Ok? ==> r.status == 204 && repo.db.edges == old(repo.db.edges) - {(userId, friendId)}
    ensures repo.db.users == old(repo.db.users) && repo.db.tokens == old(repo.db.tokens)
  {
    var ok := repo.RemoveFriend(userId, friendId);
    if !ok {
      return Error(404, "User or friend not found");
    }
    r := Ok(204, Empty);
  }
}
