/**
 * `TokenRepository` of backend/app/repositories/token_repository.py: the
 * queries and writes on the `tokens` table of a database created from the
 * later schema. Every lookup by owner acts on the owner's first row.
 */
module AppTokenRepository {
  import opened Wrappers
  import opened Seqs
  import opened Attributes
  import opened TokenModel
  import opened UserModel
  import opened Store

  class TokenRepository {
    const db: Database
    /** The JWT encoder and the process-wide secret key. */
    const signer: Signer

    constructor (db: Database, signer: Signer)
      ensures this.db == db && this.signer == signer
    {
      this.db := db;
      this.signer := signer;
    }

    ghost predicate Valid()
      reads db
    {
      db.Valid() && db.schema == Later
    }

    /** `get(user_id)`: the owner's first row. */
    function Get(userId: Id): Option<Token>
      reads db
    {
      FirstTokenOf(db.tokens, userId)
    }

    /** `get_all_active_tokens`: exactly the active rows. */
    function GetAllActiveTokens(): (r: seq<Token>)
      reads db
      ensures forall t :: t in r <==> t in db.tokens && t.is_active
    {
      Filter(db.tokens, (t: Token) => t.is_active)
    }

    /** `get_by_token(token)`: the first row storing that string. */
    function GetByToken(token: string): (r: Option<Token>)
      reads db
      ensures r.Some? ==>
        exists i :: 0 <= i < |db.tokens| && db.tokens[i] == r.value
          && r.value.token == token
          && forall j :: 0 <= j < i ==> db.tokens[j].token != token
      ensures r.None? <==> forall t :: t in db.tokens ==> t.token != token
    {
      First(db.tokens, (t: Token) => t.token == token)
    }

    /** `list(limit, start)`: `OFFSET start LIMIT limit`; PostgreSQL rejects a negative count. */
    function List(limit: int, start: int): (r: Result<seq<Token>, RepoError>)
      reads db
      ensures r.Failure? <==> limit < 0 || start < 0
      ensures r.Failure? ==> r.error == DataError
      ensures r.Success? ==> |r.value| <= limit
      ensures r.Success? && start < |db.tokens| ==>
        |r.value| == if |db.tokens| - start < limit then |db.tokens| - start else limit
      ensures r.Success? && start >= |db.tokens| ==> r.value == []
      ensures r.Success? ==> forall i :: 0 <= i < |r.value| ==> start + i < |db.tokens| && r.value[i] == db.tokens[start + i]
    {
      if limit < 0 || start < 0 then Failure(DataError)
      else Success(Page(db.tokens, limit, start))
    }

    /**
     * `create(user)`: a new active row for `user` holding a freshly issued
     * JWT, under the fresh key `newId`. A key collision, or an owner no
     * longer in `users`, rolls back with IntegrityError.
     */
    method Create(user: User, newId: Id) returns (r: Result<Token, RepoError>)
      requires Valid()
      modifies db
      ensures Valid()
      ensures r.Success? <==>
        old(HasUser(db.users, user.id)) && forall t :: t in old(db.tokens) ==> t.id != newId
      ensures r.Success? ==> r.value == NewToken(newId, user.id, signer) && db.tokens == old(db.tokens) + [r.value]
      ensures r.Failure? ==> r.error == IntegrityError && db.tokens == old(db.tokens)
      ensures old(AllIssued(signer, db.tokens)) ==> AllIssued(signer, db.tokens)
      ensures db.users == old(db.users) && db.edges == old(db.edges)
    {
      var token := NewToken(newId, user.id, signer);
      if !HasUser(db.users, user.id) || exists i :: 0 <= i < |db.tokens| && db.tokens[i].id == newId {
        return Failure(IntegrityError);
      }
      db.tokens := db.tokens + [token];
      assert forall i :: 0 <= i < |db.tokens| - 1 ==> db.tokens[i] == old(db.tokens)[i];
      r := Success(token);
    }

    /** `delete(user_id)`: removes the owner's first row; answers whether there was one. */
    method Delete(userId: Id) returns (ok: bool)
      requires Valid()
      modifies db
      ensures Valid()
      ensures ok <==> old(Owns(db.tokens, userId))
      ensures !ok ==> db.tokens == old(db.tokens)
      ensures ok ==> exists i :: FirstOwnedAt(old(db.tokens), userId, i) && db.tokens == old(db.tokens)[..i] + old(db.tokens)[i + 1..]
      ensures db.users == old(db.users) && db.edges == old(db.edges)
    {
      var found := FirstIndex(db.tokens, (t: Token) => t.user_id == userId);
      if found.None? {
        return false;
      }
      var i := found.value;
      assert FirstOwnedAt(db.tokens, userId, i);
      RemoveTokenConsistent(db.schema, db.users, db.edges, db.tokens, i);
      db.tokens := db.tokens[..i] + db.tokens[i + 1..];
      ok := true;
    }

    /**
     * `update(user_id, update_data)`: walks the dictionary in order over
     * the owner's first row, skipping `None` and assigning the columns the
     * row has; the row is written back in place.
     */
    method Update(userId: Id, data: seq<Entry>) returns (r: Option<Token>)
      requires Valid() && TokenUpdateWellTyped(data)
      modifies db
      ensures Valid()
      ensures r.None? <==> !old(Owns(db.tokens, userId))
      ensures r.None? ==> db.tokens == old(db.tokens)
      ensures r.Some? ==>
        exists i :: FirstOwnedAt(old(db.tokens), userId, i)
          && r.value == ApplyTokenUpdate(old(db.tokens)[i], data)
          && db.tokens == old(db.tokens)[i := r.value]
      ensures db.users == old(db.users) && db.edges == old(db.edges)
    {
      var found := FirstIndex(db.tokens, (t: Token) => t.user_id == userId);
      if found.None? {
        return None;
      }
      var i := found.value;
      var token := db.tokens[i];
      var k := 0;
      while k < |data|
        invariant 0 <= k <= |data|
        invariant token == ApplyTokenUpdate(db.tokens[i], data[..k])
      {
        var (field, value) := data[k];
        assert data[..k + 1][..k] == data[..k];
        if value != Null && field in TokenColumns {
          if field == "token" {
            token := token.(token := value.s);
          } else {
            token := token.(is_active := value.b);
          }
        }
        k := k + 1;
      }
      assert data[..k] == data;
      TokenUpdateEffect(db.tokens[i], data);
      assert FirstOwnedAt(db.tokens, userId, i);
      ReplaceTokenConsistent(db.schema, db.users, db.edges, db.tokens, i, token);
      db.tokens := db.tokens[i := token];
      r := Some(token);
    }

    /** `deactivate(user_id)`: clears `is_active` on the owner's first row; answers whether there was one. */
    method Deactivate(userId: Id) returns (ok: bool)
      requires Valid()
      modifies db
      ensures Valid()
      ensures ok <==> old(Owns(db.tokens, userId))
      ensures !ok ==> db.tokens == old(db.tokens)
      ensures ok ==>
        exists i :: FirstOwnedAt(old(db.tokens), userId, i)
          && db.tokens == old(db.tokens)[i := old(db.tokens)[i].(is_active := false)]
      ensures db.users == old(db.users) && db.edges == old(db.edges)
    {
      var data := [("is_active", Flag(false))];
      var updated := Update(userId, data);
      ok := updated.Some?;
      if ok {
        assert LastAssigned(data, "token") == None;
        assert LastAssigned(data, "is_active") == Some(Flag(false));
        forall t: Token ensures ApplyTokenUpdate(t, data) == t.(is_active := false) {
          TokenUpdateEffect(t, data);
        }
      }
    }

    /**
     * `refresh_token(user_id)`: stores a freshly issued JWT in the owner's
     * first row. Since the token depends only on the owner and the secret,
     * refreshing a row that already holds its issued token changes nothing.
     */
    method RefreshToken(userId: Id) returns (r: Option<Token>)
      requires Valid()
      modifies db
      ensures Valid()
      ensures r.None? <==> !old(Owns(db.tokens, userId))
      ensures r.None? ==> db.tokens == old(db.tokens)
      ensures r.Some? ==>
        exists i :: FirstOwnedAt(old(db.tokens), userId, i)
          && r.value == old(db.tokens)[i].(token := GenerateBearerToken(signer, userId))
          && db.tokens == old(db.tokens)[i := r.value]
      ensures old(AllIssued(signer, db.tokens)) ==> db.tokens == old(db.tokens)
      ensures db.users == old(db.users) && db.edges == old(db.edges)
    {
      var found := FirstIndex(db.tokens, (t: Token) => t.user_id == userId);
      if found.None? {
        return None;
      }
      var i := found.value;
      var token := db.tokens[i].(token := GenerateBearerToken(signer, userId));
      assert FirstOwnedAt(db.tokens, userId, i);
      db.tokens := db.tokens[i := token];
      r := Some(token);
    }
  }
}
