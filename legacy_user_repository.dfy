/**
 * The earlier `UserRepository` of backend/repositories/user_repository.py,
 * over a database created from the earlier schema (unique `email` and
 * `spotify_id`, no cascade from users to tokens). Every failure rolls the
 * session back and re-raises; here it is returned and the tables are left
 * as they were.
 */
module LegacyUserRepository {
  import opened Wrappers
  import opened Seqs
  import opened Attributes
  import opened TokenModel
  import opened UserModel
  import opened Store
  import opened UserSchemas
  import opened UserFactory

  class UserRepository {
    const db: Database

    constructor (db: Database)
      ensures this.db == db
    {
      this.db := db;
    }

    ghost predicate Valid()
      reads db
    {
      db.Valid() && db.schema == Earlier
    }

    /**
     * `create(instance)`: inserts the row `from_create` builds, keyed
     * `newId`. The commit fails with IntegrityError when an existing row has
     * the key, the email or the Spotify id.
     */
    method Create(uc: UserCreate, newId: Id, salt: string) returns (r: Result<User, RepoError>)
      requires Valid()
      modifies db
      ensures Valid()
      ensures r.Success? <==> old(NoClash(Earlier, db.users, FromCreate(uc, newId, salt)))
      ensures r.Success? ==> r.value == FromCreate(uc, newId, salt) && db.users == old(db.users) + [r.value]
      ensures r.Failure? ==> r.error == IntegrityError && db.users == old(db.users)
      ensures db.edges == old(db.edges) && db.tokens == old(db.tokens)
    {
      var user := FromCreate(uc, newId, salt);
      AppendUserConsistent(db.schema, db.users, user);
      if !UsersConsistent(db.schema, db.users + [user]) {
        return Failure(IntegrityError);
      }
      assert forall i :: 0 <= i < |db.users| ==> (db.users + [user])[i] == db.users[i];
      db.users := db.users + [user];
      r := Success(user);
    }

    /** `get(id)`: the row keyed `id`, or `None`. */
    function Get(id: Id): Option<User>
      reads db
    {
      UserWithId(db.users, id)
    }

    /** `get_by_spotify_id`: the first row with that Spotify id. */
    function GetBySpotifyId(spotifyId: string): (r: Option<User>)
      reads db
      ensures r.Some? ==> r.value in db.users && r.value.profile.spotify_id == Some(spotifyId)
      ensures r.None? <==> forall u :: u in db.users ==> u.profile.spotify_id != Some(spotifyId)
    {
      First(db.users, (u: User) => u.profile.spotify_id == Some(spotifyId))
    }

    /** `get_by_email`: the first row with that email. */
    function GetByEmail(email: string): (r: Option<User>)
      reads db
      ensures r.Some? ==> r.value in db.users && r.value.profile.email == email
      ensures r.None? <==> forall u :: u in db.users ==> u.profile.email != email
    {
      First(db.users, (u: User) => u.profile.email == email)
    }

    /** `get_by_display_name`: the first row with that display name. */
    function GetByDisplayName(name: string): Option<User>
      reads db
    {
      UserNamed(db.users, name)
    }

    /** With unique emails, the row `get_by_email` finds is the only one with that email. */
    lemma EmailLookupUnique(email: string, u: User)
      requires Valid() && u in db.users && u.profile.email == email
      ensures GetByEmail(email) == Some(u)
    {
      var users := db.users;
      assert ContactsUnique(users);
      var r := GetByEmail(email).value;
      var i :| 0 <= i < |users| && users[i] == r;
      var j :| 0 <= j < |users| && users[j] == u;
      if i < j {
        assert users[i].profile.email != users[j].profile.email;
      } else if j < i {
        assert users[j].profile.email != users[i].profile.email;
      }
    }

    /** `list(limit, start)`: the `LIMIT`/`OFFSET` slice, `[]` when it is empty. */
    function List(limit: int, start: int): (r: Result<seq<User>, RepoError>)
      reads db
      ensures r.Failure? <==> limit < 0 || start < 0
      ensures r.Failure? ==> r.error == DataError
      ensures r.Success? ==> |r.value| <= limit
      ensures r.Success? && start < |db.users| ==>
        |r.value| == if |db.users| - start < limit then |db.users| - start else limit
      ensures r.Success? && start >= |db.users| ==> r.value == []
      ensures r.Success? ==> forall i :: 0 <= i < |r.value| ==> start + i < |db.users| && r.value[i] == db.users[start + i]
    {
      if limit < 0 || start < 0 then Failure(DataError)
      else
        var users := Page(db.users, limit, start);
        Success(if users == [] then [] else users)
    }

    /**
     * `delete(id)`: removes the row when there is one. The tokens' foreign
     * key has no cascade, so a user who still owns tokens cannot be removed:
     * the commit fails with IntegrityError.
     */
    method Delete(id: Id) returns (err: Option<RepoError>)
      requires Valid()
      modifies db
      ensures Valid()
      ensures err.Some? <==> old(HasUser(db.users, id) && Owns(db.tokens, id))
      ensures err.Some? ==> err.value == IntegrityError
      ensures err.Some? ==> db.users == old(db.users) && db.edges == old(db.edges)
      ensures err.None? ==> db.users == WithoutUser(old(db.users), id)
      ensures err.None? ==> EdgesWithout(old(db.edges), id) <= db.edges <= old(db.edges)
      ensures db.tokens == old(db.tokens)
    {
      var found := FirstIndex(db.users, (u: User) => u.id == id);
      if found.None? {
        WithoutAbsentUser(db.users, id);
        assert EdgesWithout(db.edges, id) == db.edges by {
          forall e | e in db.edges ensures e.0 != id && e.1 != id {
            assert HasUser(db.users, e.0) && HasUser(db.users, e.1);
          }
        }
        return None;
      }
      var i := found.value;
      if Owns(db.tokens, id) {
        return Some(IntegrityError);
      }
      RemoveAtIsWithoutUser(db.users, i);
      RemoveUserConsistent(db.schema, db.users, i);
      ghost var before := db.users;
      db.users := db.users[..i] + db.users[i + 1..];
      db.edges := EdgesWithout(db.edges, id);
      forall j | 0 <= j < |db.tokens| ensures HasUser(db.users, db.tokens[j].user_id) {
        HasUserAfterRemove(before, i, db.tokens[j].user_id);
      }
      forall e | e in db.edges ensures HasUser(db.users, e.0) && HasUser(db.users, e.1) {
        HasUserAfterRemove(before, i, e.0);
        HasUserAfterRemove(before, i, e.1);
      }
      err := None;
    }

    /**
     * `update(id, instance)`: copies every non-`None` field of the form onto
     * the row, in declaration order. No row: `None`. The commit fails with
     * IntegrityError when the new email or Spotify id belongs to another row.
     */
    method Update(id: Id, form: UpdateForm) returns (r: Result<Option<User>, RepoError>)
      requires Valid()
      modifies db
      ensures Valid()
      ensures r == Success(None) <==> !old(HasUser(db.users, id))
      ensures r.Failure? ==> r.error == IntegrityError
      ensures !r.Success? || r.value.None? ==> db.users == old(db.users)
      ensures r.Success? && r.value.Some? ==>
        exists i :: 0 <= i < |old(db.users)| && old(db.users)[i].id == id
          && r.value.value == ApplyUserUpdate(old(db.users)[i], FormVars(form), "", false)
          && db.users == old(db.users)[i := r.value.value]
      ensures r.Failure? ==>
        exists i :: 0 <= i < |old(db.users)| && old(db.users)[i].id == id
          && !UsersConsistent(Earlier, old(db.users)[i := ApplyUserUpdate(old(db.users)[i], FormVars(form), "", false)])
      ensures db.edges == old(db.edges) && db.tokens == old(db.tokens)
    {
      var found := FirstIndex(db.users, (u: User) => u.id == id);
      if found.None? {
        return Success(None);
      }
      var data := FormVars(form);
      var idx := found.value;
      var user := db.users[idx];
      var k := 0;
      while k < |data|
        invariant 0 <= k <= |data|
        invariant user == ApplyUserUpdate(db.users[idx], data[..k], "", false)
      {
        var (key, value) := data[k];
        assert data[..k + 1][..k] == data[..k];
        if value != Null {
          user := user.(profile := SetColumn(user.profile, key, value));
        }
        k := k + 1;
      }
      assert data[..k] == data;
      var updated := db.users[idx := user];
      if !UsersConsistent(db.schema, updated) {
        return Failure(IntegrityError);
      }
      ghost var before := db.users;
      db.users := updated;
      assert forall j :: 0 <= j < |db.users| ==> db.users[j].id == before[j].id;
      r := Success(Some(user));
    }

    /**
     * `add_friend(user_id, friend_id)`: appends the edge whenever both users
     * exist. There is no duplicate check, so an edge already there violates
     * the association table's key and fails with IntegrityError.
     */
    method AddFriend(userId: Id, friendId: Id) returns (err: Option<RepoError>)
      requires Valid()
      modifies db
      ensures Valid()
      ensures err.Some? <==> old(HasUser(db.users, userId) && HasUser(db.users, friendId)) && (userId, friendId) in old(db.edges)
      ensures err.Some? ==> err.value == IntegrityError
      ensures db.edges ==
        if err.None? && old(HasUser(db.users, userId) && HasUser(db.users, friendId))
        then old(db.edges) + {(userId, friendId)}
        else old(db.edges)
      ensures db.users == old(db.users) && db.tokens == old(db.tokens)
    {
      var user := Get(userId);
      var friend := Get(friendId);
      if user.Some? && friend.Some? {
        if (userId, friendId) in db.edges {
          return Some(IntegrityError);
        }
        db.edges := db.edges + {(userId, friendId)};
      }
      err := None;
    }

    /**
     * `remove_friend(user_id, friend_id)`: removes the edge whenever both
     * users exist. `list.remove` of an edge that is not there raises
     * ValueError.
     */
    method RemoveFriend(userId: Id, friendId: Id) returns (err: Option<RepoError>)
      requires Valid()
      modifies db
      ensures Valid()
      ensures err.Some? <==> old(HasUser(db.users, userId) && HasUser(db.users, friendId)) && (userId, friendId) !in old(db.edges)
      ensures err.Some? ==> err.value == ValueError
      ensures db.edges ==
        if err.None? && old(HasUser(db.users, userId) && HasUser(db.users, friendId))
        then old(db.edges) - {(userId, friendId)}
        else old(db.edges)
      ensures db.users == old(db.users) && db.tokens == old(db.tokens)
    {
      var user := Get(userId);
      var friend := Get(friendId);
      if user.Some? && friend.Some? {
        if friend.value !in Friends(db.users, db.edges, userId) {
          return Some(ValueError);
        }
        db.edges := db.edges - {(userId, friendId)};
      }
      err := None;
    }
  }
}
