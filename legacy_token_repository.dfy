/**
 * The earlier `TokenRepository` of backend/repositories/token_repository.py,
 * over a database created from the earlier schema. Every lookup by owner
 * acts on the owner's first row.
 */
module LegacyTokenRepository {
  import opened Wrappers
  import opened Seqs
  import opened Attributes
  import opened TokenModel
  import opened UserModel
  import opened Store

  class TokenRepository {
    const db: Database
    /** The JWT encoder and the process-wide secret key. */
    const signer: Signer

    constructor (db: Database, signer: Signer)
      ensures this.db == db && this.signer == signer
    {
      this.db := db;
      this.signer := signer;
    }

    ghost predicate Valid()
      reads db
    {
      db.Valid() && db.schema == Earlier
    }

    /**
     * `create(instance)`: a new active row for the user holding a freshly
     * issued JWT, keyed `newId`; a key collision or an owner no longer in
     * `users` fails with IntegrityError.
     */
    method Create(user: User, newId: Id) returns (r: Result<Token, RepoError>)
      requires Valid()
      modifies db
      ensures Valid()
      ensures r.Success? <==>
        old(HasUser(db.users, user.id)) && forall t :: t in old(db.tokens) ==> t.id != newId
      ensures r.Success? ==> r.value == NewToken(newId, user.id, signer) && db.tokens == old(db.tokens) + [r.value]
      ensures r.Failure? ==> r.error == IntegrityError && db.tokens == old(db.tokens)
      ensures db.users == old(db.users) && db.edges == old(db.edges)
    {
      var token := NewToken(newId, user.id, signer);
      if !HasUser(db.users, user.id) || exists i :: 0 <= i < |db.tokens| && db.tokens[i].id == newId {
        return Failure(IntegrityError);
      }
      db.tokens := db.tokens + [token];
      r := Success(token);
    }

    /** `get(user_id)`: the owner's first row. */
    function Get(userId: Id): Option<Token>
      reads db
    {
      FirstTokenOf(db.tokens, userId)
    }

    /** `delete(user_id)`: removes the owner's first row, if any; otherwise nothing happens. */
    method Delete(userId: Id)
      requires Valid()
      modifies db
      ensures Valid()
      ensures !old(Owns(db.tokens, userId)) ==> db.tokens == old(db.tokens)
      ensures old(Owns(db.tokens, userId)) ==>
        exists i :: FirstOwnedAt(old(db.tokens), userId, i) && db.tokens == old(db.tokens)[..i] + old(db.tokens)[i + 1..]
      ensures db.users == old(db.users) && db.edges == old(db.edges)
    {
      var found := FirstIndex(db.tokens, (t: Token) => t.user_id == userId);
      if found.Some? {
        var i := found.value;
        assert FirstOwnedAt(db.tokens, userId, i);
        RemoveTokenConsistent(db.schema, db.users, db.edges, db.tokens, i);
        db.tokens := db.tokens[..i] + db.tokens[i + 1..];
      }
    }

    /** `list(limit, start)`: the `LIMIT`/`OFFSET` slice, `[]` when it is empty. */
    function List(limit: int, start: int): (r: Result<seq<Token>, RepoError>)
      reads db
      ensures r.Failure? <==> limit < 0 || start < 0
      ensures r.Failure? ==> r.error == DataError
      ensures r.Success? ==> |r.value| <= limit
      ensures r.Success? && start < |db.tokens| ==>
        |r.value| == if |db.tokens| - start < limit then |db.tokens| - start else limit
      ensures r.Success? && start >= |db.tokens| ==> r.value == []
      ensures r.Success? ==> forall i :: 0 <= i < |r.value| ==> start + i < |db.tokens| && r.value[i] == db.tokens[start + i]
    {
      if limit < 0 || start < 0 then Failure(DataError)
      else
        var tokens := Page(db.tokens, limit, start);
        Success(if tokens == [] then [] else tokens)
    }

    /**
     * `update(user_id, instance)`: copies every non-`None` attribute onto
     * the owner's first row, in order; no row: `None`.
     */
    method Update(userId: Id, data: seq<Entry>) returns (r: Option<Token>)
      requires Valid() && TokenUpdateWellTyped(data)
      modifies db
      ensures Valid()
      ensures r.None? <==> !old(Owns(db.tokens, userId))
      ensures r.None? ==> db.tokens == old(db.tokens)
      ensures r.Some? ==>
        exists i :: FirstOwnedAt(old(db.tokens), userId, i)
          && r.value == ApplyTokenUpdate(old(db.tokens)[i], data)
          && db.tokens == old(db.tokens)[i := r.value]
      ensures db.users == old(db.users) && db.edges == old(db.edges)
    {
      var found := FirstIndex(db.tokens, (t: Token) => t.user_id == userId);
      if found.None? {
        return None;
      }
      var i := found.value;
      var token := db.tokens[i];
      var k := 0;
      while k < |data|
        invariant 0 <= k <= |data|
        invariant token == ApplyTokenUpdate(db.tokens[i], data[..k])
      {
        var (key, value) := data[k];
        assert data[..k + 1][..k] == data[..k];
        if value != Null {
          token := SetTokenAttr(token, (key, value));
        }
        k := k + 1;
      }
      assert data[..k] == data;
      TokenUpdateEffect(db.tokens[i], data);
      assert FirstOwnedAt(db.tokens, userId, i);
      ReplaceTokenConsistent(db.schema, db.users, db.edges, db.tokens, i, token);
      db.tokens := db.tokens[i := token];
      r := Some(token);
    }
  }
}
