/**
 * `UserRepository` of backend/app/repositories/user_repository.py: the
 * queries and writes on the `users` table and the friendship edges, over
 * a database created from the later schema.
 */
module AppUserRepository {
  import opened Wrappers
  import opened Seqs
  import opened Passwords
  import opened Attributes
  import opened TokenModel
  import opened UserModel
  import opened Store

  class UserRepository {
    const db: Database

    constructor (db: Database)
      ensures this.db == db
    {
      this.db := db;
    }

    ghost predicate Valid()
      reads db
    {
      db.Valid() && db.schema == Later
    }

    /** `get`: the row keyed `id`. */
    function Get(id: Id): Option<User>
      reads db
    {
      UserWithId(db.users, id)
    }

    /** `get_by_spotify_id`: the first row with that Spotify id. */
    function GetBySpotifyId(spotifyId: string): (r: Option<User>)
      reads db
      ensures r.Some? ==>
        exists i :: 0 <= i < |db.users| && db.users[i] == r.value
          && r.value.profile.spotify_id == Some(spotifyId)
          && forall j :: 0 <= j < i ==> db.users[j].profile.spotify_id != Some(spotifyId)
      ensures r.None? <==> forall u :: u in db.users ==> u.profile.spotify_id != Some(spotifyId)
    {
      First(db.users, (u: User) => u.profile.spotify_id == Some(spotifyId))
    }

    /** `get_by_email`: the first row with that email. */
    function GetByEmail(email: string): (r: Option<User>)
      reads db
      ensures r.Some? ==>
        exists i :: 0 <= i < |db.users| && db.users[i] == r.value
          && r.value.profile.email == email
          && forall j :: 0 <= j < i ==> db.users[j].profile.email != email
      ensures r.None? <==> forall u :: u in db.users ==> u.profile.email != email
    {
      First(db.users, (u: User) => u.profile.email == email)
    }

    /** `get_by_display_name`: the first row with that display name. */
    function GetByDisplayName(name: string): Option<User>
      reads db
    {
      UserNamed(db.users, name)
    }

    /** `list(limit, start)`: `LIMIT limit OFFSET start`; PostgreSQL rejects a negative count. */
    function List(limit: int, start: int): (r: Result<seq<User>, RepoError>)
      reads db
      ensures r.Failure? <==> limit < 0 || start < 0
      ensures r.Failure? ==> r.error == DataError
      ensures r.Success? ==> |r.value| <= limit
      ensures r.Success? && start < |db.users| ==>
        |r.value| == if |db.users| - start < limit then |db.users| - start else limit
      ensures r.Success? && start >= |db.users| ==> r.value == []
      ensures r.Success? ==> forall i :: 0 <= i < |r.value| ==> start + i < |db.users| && r.value[i] == db.users[start + i]
    {
      if limit < 0 || start < 0 then Failure(DataError)
      else Success(Page(db.users, limit, start))
    }

    /** `get_friends`: the users `userId` lists, or nothing when there is no such user. */
    function GetFriends(userId: Id): (r: seq<User>)
      reads db
      ensures !HasUser(db.users, userId) ==> r == []
      ensures HasUser(db.users, userId) ==>
        forall v :: v in r <==> v in db.users && (userId, v.id) in db.edges
    {
      if Get(userId).Some? then Friends(db.users, db.edges, userId) else []
    }

    /**
     * `create(user_data)`: a `User` built from the profile, its password
     * hashed when the dictionary has one, inserted under the fresh key
     * `newId`. A missing password leaves the NOT NULL digest unset and a key
     * collision violates the primary key: both roll back with
     * IntegrityError.
     */
    method Create(profile: Profile, password: Option<string>, newId: Id, salt: string)
      returns (r: Result<User, RepoError>)
      requires Valid()
      modifies db
      ensures Valid()
      ensures r.Success? <==> password.Some? && !old(HasUser(db.users, newId))
      ensures r.Success? ==> r.value.id == newId && r.value.profile == profile
      ensures r.Success? ==> forall candidate :: CheckPassword(r.value, candidate) <==> candidate == password.value
      ensures r.Success? ==> db.users == old(db.users) + [r.value]
      ensures r.Failure? ==> r.error == IntegrityError && db.users == old(db.users)
      ensures db.edges == old(db.edges) && db.tokens == old(db.tokens)
    {
      if password.None? {
        return Failure(IntegrityError);
      }
      var user := SetPassword(User(newId, profile, Bcrypt("", "")), password.value, salt);
      AppendUserConsistent(db.schema, db.users, user);
      if !UsersConsistent(db.schema, db.users + [user]) {
        return Failure(IntegrityError);
      }
      assert forall i :: 0 <= i < |db.users| ==> (db.users + [user])[i] == db.users[i];
      db.users := db.users + [user];
      r := Success(user);
    }

    /**
     * `update(id, update_data)`: walks the dictionary in order, skipping
     * `None`, hashing `"password"` and assigning profile columns; the row is
     * written back in place. This is the loop the code evidently intends; as
     * written `hasattr(db_user, "password")` is false and the password is
     * skipped (see `UserModel.PasswordIgnoredAsWritten`).
     */
    method Update(id: Id, data: seq<Entry>, salt: string) returns (r: Option<User>)
      requires Valid() && UserUpdateWellTyped(data)
      modifies db
      ensures Valid()
      ensures r.None? <==> !old(HasUser(db.users, id))
      ensures r.None? ==> db.users == old(db.users)
      ensures r.Some? ==>
        exists i :: 0 <= i < |old(db.users)| && old(db.users)[i].id == id
          && r.value == ApplyUserUpdate(old(db.users)[i], data, salt, true)
          && db.users == old(db.users)[i := r.value]
      ensures db.edges == old(db.edges) && db.tokens == old(db.tokens)
    {
      var found := FirstIndex(db.users, (u: User) => u.id == id);
      if found.None? {
        return None;
      }
      var idx := found.value;
      var user := db.users[idx];
      var k := 0;
      while k < |data|
        invariant 0 <= k <= |data|
        invariant user == ApplyUserUpdate(db.users[idx], data[..k], salt, true)
      {
        var (field, value) := data[k];
        assert data[..k + 1][..k] == data[..k];
        if value != Null && (field == "password" || field in ProfileColumns) {
          if field == "password" {
            user := SetPassword(user, value.s, salt);
          } else {
            user := user.(profile := SetColumn(user.profile, field, value));
          }
        }
        k := k + 1;
      }
      assert data[..k] == data;
      ghost var before := db.users;
      db.users := db.users[idx := user];
      assert forall j :: 0 <= j < |db.users| ==> db.users[j].id == before[j].id;
      assert forall uid :: HasUser(before, uid) ==> HasUser(db.users, uid);
      r := Some(user);
    }

    /**
     * `delete(id)`: removes the row and, through the `all, delete-orphan`
     * cascade, the user's tokens. Association rows that do not touch the
     * user stay; the foreign keys of `friends_association` leave none that
     * does.
     */
    method Delete(id: Id) returns (ok: bool)
      requires Valid()
      modifies db
      ensures Valid()
      ensures ok <==> old(HasUser(db.users, id))
      ensures !ok ==> db.users == old(db.users) && db.edges == old(db.edges) && db.tokens == old(db.tokens)
      ensures db.users == WithoutUser(old(db.users), id)
      ensures EdgesWithout(old(db.edges), id) <= db.edges <= old(db.edges)
      ensures db.tokens == WithoutTokens(old(db.tokens), Owner, id)
    {
      var found := FirstIndex(db.users, (u: User) => u.id == id);
      if found.None? {
        DeleteAbsentUser(db.schema, db.users, db.edges, db.tokens, id);
        return false;
      }
      var i := found.value;
      RemoveAtIsWithoutUser(db.users, i);
      DeleteUserConsistent(db.schema, db.users, db.edges, db.tokens, i);
      db.users, db.edges, db.tokens := db.users[..i] + db.users[i + 1..], EdgesWithout(db.edges, id), WithoutTokens(db.tokens, Owner, id);
      ok := true;
    }

    /**
     * `add_friend(user_id, friend_id)`: records the edge when both users
     * exist and it is not there yet; answers whether it was added.
     */
    method AddFriend(userId: Id, friendId: Id) returns (ok: bool)
      requires Valid()
      modifies db
      ensures Valid()
      ensures ok <==> old(HasUser(db.users, userId) && HasUser(db.users, friendId)) && (userId, friendId) !in old(db.edges)
      ensures db.edges == if ok then old(db.edges) + {(userId, friendId)} else old(db.edges)
      ensures db.users == old(db.users) && db.tokens == old(db.tokens)
    {
      var user := Get(userId);
      var friend := Get(friendId);
      if user.None? || friend.None? {
        return false;
      }
      assert friend.value in Friends(db.users, db.edges, userId) <==> (userId, friendId) in db.edges;
      if friend.value !in Friends(db.users, db.edges, userId) {
        db.edges := db.edges + {(userId, friendId)};
        return true;
      }
      return false;
    }

    /**
     * `remove_friend(user_id, friend_id)`: drops the edge when both users
     * exist and it is there; answers whether it was removed.
     */
    method RemoveFriend(userId: Id, friendId: Id) returns (ok: bool)
      requires Valid()
      modifies db
      ensures Valid()
      ensures ok <==> old(HasUser(db.users, userId) && HasUser(db.users, friendId)) && (userId, friendId) in old(db.edges)
      ensures db.edges == if ok then old(db.edges) - {(userId, friendId)} else old(db.edges)
      ensures db.users == old(db.users) && db.tokens == old(db.tokens)
    {
      var user := Get(userId);
      var friend := Get(friendId);
      if user.None? || friend.None? {
        return false;
      }
      assert friend.value in Friends(db.users, db.edges, userId) <==> (userId, friendId) in db.edges;
      if friend.value in Friends(db.users, db.edges, userId) {
        db.edges := db.edges - {(userId, friendId)};
        return true;
      }
      return false;
    }
  }

  /** Adding the same friend twice: the second call answers false and the edge is there once. */
  method AddFriendTwice(repo: UserRepository, userId: Id, friendId: Id) returns (first: bool, second: bool)
    requires repo.Valid()
    modifies repo.db
    ensures repo.Valid()
    ensures !second
    ensures first <==> old(HasUser(repo.db.users, userId) && HasUser(repo.db.users, friendId)) && (userId, friendId) !in old(repo.db.edges)
    ensures repo.db.edges == if first then old(repo.db.edges) + {(userId, friendId)} else old(repo.db.edges)
  {
    first := repo.AddFriend(userId, friendId);
    second := repo.AddFriend(userId, friendId);
  }
}
