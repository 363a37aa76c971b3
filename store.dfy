/**
 * The relational store behind both repository variants: the `users`,
 * `friends_association` and `tokens` tables, and the constraints the
 * database enforces when a transaction commits.
 */
module Store {
  import opened Wrappers
  import opened Seqs
  import opened TokenModel
  import opened UserModel

  /**
   * The schema the tables were created from. `Later` is backend/app/models:
   * only primary keys are unique, and a user's tokens are deleted with it.
   * `Earlier` is backend/models: `email` and `spotify_id` are also unique, and
   * nothing cascades from a user to its tokens.
   */
  datatype Schema = Later | Earlier

  /**
   * The exceptions a repository call re-raises after rolling back: a
   * violated constraint, a value PostgreSQL rejects (a negative LIMIT or
   * OFFSET), and Python's `list.remove` of a missing element.
   */
  datatype RepoError = IntegrityError | DataError | ValueError

  predicate HasUser(users: seq<User>, id: Id) {
    exists i :: 0 <= i < |users| && users[i].id == id
  }

  predicate UserIdsUnique(users: seq<User>) {
    forall i, j :: 0 <= i < j < |users| ==> users[i].id != users[j].id
  }

  /** No two users share an email, nor a non-null Spotify id. */
  predicate ContactsUnique(users: seq<User>) {
    forall i, j :: 0 <= i < j < |users| ==>
      && users[i].profile.email != users[j].profile.email
      && (users[i].profile.spotify_id.Some? ==> users[i].profile.spotify_id != users[j].profile.spotify_id)
  }

  /** The constraints on `users` under `schema`. */
  predicate UsersConsistent(schema: Schema, users: seq<User>) {
    UserIdsUnique(users) && (schema == Earlier ==> ContactsUnique(users))
  }

  predicate TokenIdsUnique(tokens: seq<Token>) {
    forall i, j :: 0 <= i < j < |tokens| ==> tokens[i].id != tokens[j].id
  }

  /** The foreign key `tokens.user_id -> users.id`. */
  predicate TokensReferenceUsers(users: seq<User>, tokens: seq<Token>) {
    forall i :: 0 <= i < |tokens| ==> HasUser(users, tokens[i].user_id)
  }

  /** The foreign keys `friends_association.user_id` and `friend_id` -> `users.id`. */
  predicate EdgesReferenceUsers(users: seq<User>, edges: set<(Id, Id)>) {
    forall e :: e in edges ==> HasUser(users, e.0) && HasUser(users, e.1)
  }

  /** Every row stores the JWT issued for its own owner. */
  predicate AllIssued(signer: Signer, tokens: seq<Token>) {
    forall i :: 0 <= i < |tokens| ==> tokens[i].token == GenerateBearerToken(signer, tokens[i].user_id)
  }

  /** `i` is the position of `userId`'s first row. */
  predicate FirstOwnedAt(tokens: seq<Token>, userId: Id, i: int) {
    && 0 <= i < |tokens| && tokens[i].user_id == userId
    && forall j :: 0 <= j < i ==> tokens[j].user_id != userId
  }

  predicate Owns(tokens: seq<Token>, userId: Id) {
    exists i :: 0 <= i < |tokens| && tokens[i].user_id == userId
  }

  /** `query(User).filter(User.id == id).first()`: the row keyed `id`. */
  function UserWithId(users: seq<User>, id: Id): (r: Option<User>)
    ensures r.Some? ==> r.value in users && r.value.id == id
    ensures r.None? <==> !HasUser(users, id)
  {
    First(users, (u: User) => u.id == id)
  }

  /** `query(User).filter(User.display_name == name).first()`: the first row with that display name. */
  function UserNamed(users: seq<User>, name: string): (r: Option<User>)
    ensures r.Some? ==>
      exists i :: 0 <= i < |users| && users[i] == r.value
        && r.value.profile.display_name == name
        && forall j :: 0 <= j < i ==> users[j].profile.display_name != name
    ensures r.None? <==> forall u :: u in users ==> u.profile.display_name != name
  {
    First(users, (u: User) => u.profile.display_name == name)
  }

  /** `query(Token).filter(Token.user_id == user_id).first()`: the owner's first row. */
  function FirstTokenOf(tokens: seq<Token>, userId: Id): (r: Option<Token>)
    ensures r.Some? ==> exists i :: FirstOwnedAt(tokens, userId, i) && tokens[i] == r.value
    ensures r.None? <==> !Owns(tokens, userId)
  {
    match FirstIndex(tokens, (t: Token) => t.user_id == userId)
    case None => None
    case Some(i) => Some(tokens[i])
  }

  /** Tables whose constraints all hold: the only states a commit can produce. */
  predicate Consistent(schema: Schema, users: seq<User>, edges: set<(Id, Id)>, tokens: seq<Token>) {
    && UsersConsistent(schema, users)
    && EdgesReferenceUsers(users, edges)
    && TokenIdsUnique(tokens)
    && TokensReferenceUsers(users, tokens)
  }

  /** The users table without the row keyed `id`. */
  function WithoutUser(users: seq<User>, id: Id): (r: seq<User>)
    ensures forall u :: u in r <==> u in users && u.id != id
  {
    if users == [] then []
    else (if users[0].id == id then [] else [users[0]]) + WithoutUser(users[1..], id)
  }

  /** The two string columns a `tokens` row is selected by. */
  datatype TokenKey = Owner | TokenString

  function KeyValue(t: Token, key: TokenKey): string {
    match key
    case Owner => t.user_id
    case TokenString => t.token
  }

  /** The tokens table without the rows whose `key` column holds `value`. */
  function WithoutTokens(tokens: seq<Token>, key: TokenKey, value: string): (r: seq<Token>)
    ensures forall t :: t in r <==> t in tokens && KeyValue(t, key) != value
  {
    if tokens == [] then []
    else (if KeyValue(tokens[0], key) == value then [] else [tokens[0]]) + WithoutTokens(tokens[1..], key, value)
  }

  /** The association rows that touch neither end `id`: SQLAlchemy deletes the others with the user. */
  function EdgesWithout(edges: set<(Id, Id)>, id: Id): (r: set<(Id, Id)>)
    ensures forall e :: e in r <==> e in edges && e.0 != id && e.1 != id
  {
    set e | e in edges && e.0 != id && e.1 != id
  }

  /** With unique keys, removing the row at `i` is removing every row with its key. */
  lemma {:induction false} RemoveAtIsWithoutUser(users: seq<User>, i: nat)
    requires i < |users| && UserIdsUnique(users)
    ensures users[..i] + users[i + 1..] == WithoutUser(users, users[i].id)
  {
    var id := users[i].id;
    var tail := users[1..];
    TailIdsUnique(users);
    if i == 0 {
      WithoutAbsentUser(tail, id);
      assert users[..0] + users[1..] == tail;
    } else {
      RemoveAtIsWithoutUser(tail, i - 1);
      assert tail[i - 1] == users[i];
      assert WithoutUser(users, id) == [users[0]] + WithoutUser(tail, id);
      RemoveAtOfTail(users, i);
    }
  }

  /** The rows after the first keep unique keys, none of them the first row's. */
  lemma TailIdsUnique(users: seq<User>)
    requires |users| > 0 && UserIdsUnique(users)
    ensures UserIdsUnique(users[1..])
    ensures forall j :: 0 <= j < |users[1..]| ==> users[1..][j].id != users[0].id
  {
    var tail := users[1..];
    forall a, b | 0 <= a < b < |tail| ensures tail[a].id != tail[b].id {
      assert tail[a] == users[a + 1] && tail[b] == users[b + 1];
    }
    forall j | 0 <= j < |tail| ensures tail[j].id != users[0].id {
      assert tail[j] == users[j + 1];
    }
  }

  /** Removing position `i > 0` keeps the head and removes position `i - 1` of the tail. */
  lemma RemoveAtOfTail<T>(s: seq<T>, i: nat)
    requires 0 < i < |s|
    ensures s[..i] + s[i + 1..] == [s[0]] + (s[1..][..i - 1] + s[1..][i..])
  {
    assert s[..i] == [s[0]] + s[1..][..i - 1];
    assert s[i + 1..] == s[1..][i..];
  }

  /** Removing a key nobody has changes nothing. */
  lemma {:induction false} WithoutAbsentUser(users: seq<User>, id: Id)
    requires forall j :: 0 <= j < |users| ==> users[j].id != id
    ensures WithoutUser(users, id) == users
  {
    if users != [] {
      var tail := users[1..];
      forall j | 0 <= j < |tail| ensures tail[j].id != id {
        assert tail[j] == users[j + 1];
      }
      WithoutAbsentUser(tail, id);
      assert WithoutUser(users, id) == [users[0]] + WithoutUser(tail, id);
      assert users == [users[0]] + tail;
    }
  }

  /** Removing the rows holding a value no row holds changes nothing. */
  lemma {:induction false} WithoutAbsentValue(tokens: seq<Token>, key: TokenKey, value: string)
    requires forall j :: 0 <= j < |tokens| ==> KeyValue(tokens[j], key) != value
    ensures WithoutTokens(tokens, key, value) == tokens
  {
    if tokens != [] {
      var tail := tokens[1..];
      forall j | 0 <= j < |tail| ensures KeyValue(tail[j], key) != value {
        assert tail[j] == tokens[j + 1];
      }
      WithoutAbsentValue(tail, key, value);
      assert WithoutTokens(tokens, key, value) == [tokens[0]] + WithoutTokens(tail, key, value);
      assert tokens == [tokens[0]] + tail;
    }
  }

  /** Dropping rows keeps token keys unique. */
  lemma {:induction false} WithoutTokensUnique(tokens: seq<Token>, key: TokenKey, value: string)
    requires TokenIdsUnique(tokens)
    ensures TokenIdsUnique(WithoutTokens(tokens, key, value))
  {
    if tokens != [] {
      var tail := tokens[1..];
      var rest := WithoutTokens(tail, key, value);
      TokenTailUnique(tokens);
      WithoutTokensUnique(tail, key, value);
      if KeyValue(tokens[0], key) != value {
        var r := [tokens[0]] + rest;
        forall a, b | 0 <= a < b < |r| ensures r[a].id != r[b].id {
          assert r[b] == rest[b - 1];
          if a == 0 {
            assert rest[b - 1] in tail;
          } else {
            assert r[a] == rest[a - 1];
          }
        }
      }
    }
  }

  /** The token rows after the first keep unique keys, none of them the first row's. */
  lemma TokenTailUnique(tokens: seq<Token>)
    requires |tokens| > 0 && TokenIdsUnique(tokens)
    ensures TokenIdsUnique(tokens[1..])
    ensures forall t :: t in tokens[1..] ==> t.id != tokens[0].id
  {
    var tail := tokens[1..];
    forall a, b | 0 <= a < b < |tail| ensures tail[a].id != tail[b].id {
      assert tail[a] == tokens[a + 1] && tail[b] == tokens[b + 1];
    }
    forall t | t in tail ensures t.id != tokens[0].id {
      var k :| 0 <= k < |tail| && tail[k] == t;
      assert tokens[k + 1] == t;
    }
  }

  /**
   * Deleting the row at `i` together with every association row and every
   * token row that refers to its key leaves consistent tables.
   */
  lemma DeleteUserConsistent(schema: Schema, users: seq<User>, edges: set<(Id, Id)>, tokens: seq<Token>, i: nat)
    requires Consistent(schema, users, edges, tokens) && i < |users|
    ensures Consistent(schema, users[..i] + users[i + 1..], EdgesWithout(edges, users[i].id), WithoutTokens(tokens, Owner, users[i].id))
  {
    var id := users[i].id;
    var rest := users[..i] + users[i + 1..];
    RemoveUserConsistent(schema, users, i);
    WithoutTokensUnique(tokens, Owner, id);
    var kept := WithoutTokens(tokens, Owner, id);
    forall j | 0 <= j < |kept| ensures HasUser(rest, kept[j].user_id) {
      assert kept[j] in kept;
      var k :| 0 <= k < |tokens| && tokens[k] == kept[j];
      HasUserAfterRemove(users, i, kept[j].user_id);
    }
    forall e | e in EdgesWithout(edges, id) ensures HasUser(rest, e.0) && HasUser(rest, e.1) {
      HasUserAfterRemove(users, i, e.0);
      HasUserAfterRemove(users, i, e.1);
    }
  }

  /** With consistent tables, deleting a key no user has removes no row of any table. */
  lemma DeleteAbsentUser(schema: Schema, users: seq<User>, edges: set<(Id, Id)>, tokens: seq<Token>, id: Id)
    requires Consistent(schema, users, edges, tokens) && !HasUser(users, id)
    ensures WithoutUser(users, id) == users
    ensures EdgesWithout(edges, id) == edges
    ensures WithoutTokens(tokens, Owner, id) == tokens
  {
    WithoutAbsentUser(users, id);
    forall j | 0 <= j < |tokens| ensures KeyValue(tokens[j], Owner) != id {
      assert HasUser(users, tokens[j].user_id);
    }
    WithoutAbsentValue(tokens, Owner, id);
    forall e | e in edges ensures e.0 != id && e.1 != id {
      assert HasUser(users, e.0) && HasUser(users, e.1);
    }
  }

  /** Removing one token row keeps every constraint. */
  lemma RemoveTokenConsistent(schema: Schema, users: seq<User>, edges: set<(Id, Id)>, tokens: seq<Token>, i: nat)
    requires Consistent(schema, users, edges, tokens) && i < |tokens|
    ensures Consistent(schema, users, edges, tokens[..i] + tokens[i + 1..])
  {
    var rest := tokens[..i] + tokens[i + 1..];
    assert forall j :: 0 <= j < |rest| ==> rest[j] == tokens[if j < i then j else j + 1];
  }

  /** Rewriting a token row in place, with its key and owner kept, keeps every constraint. */
  lemma ReplaceTokenConsistent(schema: Schema, users: seq<User>, edges: set<(Id, Id)>, tokens: seq<Token>, i: nat, t: Token)
    requires Consistent(schema, users, edges, tokens) && i < |tokens|
    requires t.id == tokens[i].id && t.user_id == tokens[i].user_id
    ensures Consistent(schema, users, edges, tokens[i := t])
  {
  }

  /** A key other than the removed row's is still present after the removal. */
  lemma HasUserAfterRemove(users: seq<User>, i: nat, id: Id)
    requires i < |users| && HasUser(users, id) && users[i].id != id
    ensures HasUser(users[..i] + users[i + 1..], id)
  {
    var j :| 0 <= j < |users| && users[j].id == id;
    var s := users[..i] + users[i + 1..];
    if j < i { assert s[j] == users[j]; } else { assert s[j - 1] == users[j]; }
  }

  /** `u` may not sit beside `existing`: same key, or under `Earlier` the same email or non-null Spotify id. */
  predicate Clashes(schema: Schema, existing: User, u: User) {
    || existing.id == u.id
    || (schema == Earlier && existing.profile.email == u.profile.email)
    || (schema == Earlier && existing.profile.spotify_id.Some? && existing.profile.spotify_id == u.profile.spotify_id)
  }

  predicate NoClash(schema: Schema, users: seq<User>, u: User) {
    forall i :: 0 <= i < |users| ==> !Clashes(schema, users[i], u)
  }

  /** Appending a row keeps the user constraints exactly when it clashes with no existing row. */
  lemma {:induction false} AppendUserConsistent(schema: Schema, users: seq<User>, u: User)
    requires UsersConsistent(schema, users)
    ensures UsersConsistent(schema, users + [u]) <==> NoClash(schema, users, u)
  {
    var s := users + [u];
    if forall i :: 0 <= i < |users| ==>
        && users[i].id != u.id
        && (schema == Earlier ==> users[i].profile.email != u.profile.email)
        && (schema == Earlier && users[i].profile.spotify_id.Some? ==> users[i].profile.spotify_id != u.profile.spotify_id)
    {
      forall i, j | 0 <= i < j < |s|
        ensures s[i].id != s[j].id
        ensures schema == Earlier ==> s[i].profile.email != s[j].profile.email
        ensures schema == Earlier && s[i].profile.spotify_id.Some? ==> s[i].profile.spotify_id != s[j].profile.spotify_id
      {
        assert s[i] == users[i];
        if j == |users| { assert s[j] == u; } else { assert s[j] == users[j]; }
      }
    } else {
      var i :| 0 <= i < |users| && !(
        && users[i].id != u.id
        && (schema == Earlier ==> users[i].profile.email != u.profile.email)
        && (schema == Earlier && users[i].profile.spotify_id.Some? ==> users[i].profile.spotify_id != u.profile.spotify_id));
      assert s[i] == users[i] && s[|users|] == u;
    }
  }

  /** Removing a row keeps the user constraints. */
  lemma RemoveUserConsistent(schema: Schema, users: seq<User>, i: nat)
    requires UsersConsistent(schema, users) && i < |users|
    ensures UsersConsistent(schema, users[..i] + users[i + 1..])
  {
    var s := users[..i] + users[i + 1..];
    forall a, b | 0 <= a < b < |s|
      ensures s[a].id != s[b].id
      ensures schema == Earlier ==> s[a].profile.email != s[b].profile.email
    {
      var a' := if a < i then a else a + 1;
      var b' := if b < i then b else b + 1;
      assert s[a] == users[a'] && s[b] == users[b'];
    }
  }

  /** The tables of one database. */
  class Database {
    const schema: Schema
    var users: seq<User>
    var edges: set<(Id, Id)>
    var tokens: seq<Token>

    ghost predicate Valid()
      reads this
    {
      Consistent(schema, users, edges, tokens)
    }

    constructor (schema: Schema)
      ensures Valid() && this.schema == schema
      ensures users == [] && edges == {} && tokens == []
    {
      this.schema := schema;
      users, edges, tokens := [], {}, [];
    }
  }
}
