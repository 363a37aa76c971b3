/**
 * The `tokens` table (backend/app/models/tokens.py and its earlier twin
 * backend/models/tokens.py): one row per issued bearer token, and the
 * JWT the row stores.
 */
module TokenModel {
  import opened Wrappers
  import opened Attributes

  /** Row identifiers: the string form of a UUID. */
  type Id = string

  /** A `tokens` row. Timestamps are not modelled. */
  datatype Token = Token(id: Id, user_id: Id, token: string, is_active: bool)

  /** `jwt.encode(payload, key, algorithm)`, a library call outside the model. */
  type JwtEncode = (map<string, string>, string, string) -> string

  /** The encoder together with the process-wide `JWT_SECRET_KEY`. */
  datatype Signer = Signer(encode: JwtEncode, secret: string)

  /** The claims a bearer token carries: the user id and nothing else. */
  function BearerPayload(userId: Id): (payload: map<string, string>)
    ensures payload.Keys == {"user_id"} && payload["user_id"] == userId
  {
    map["user_id" := userId]
  }

  /** `Token.generate_bearer_token(user_id)`: an HS256 JWT over the payload, signed with the secret. */
  function GenerateBearerToken(signer: Signer, userId: Id): string {
    signer.encode(BearerPayload(userId), signer.secret, "HS256")
  }

  /** `Token(user_id=..., token=generate_bearer_token(user_id))` with the column defaults applied. */
  function NewToken(id: Id, userId: Id, signer: Signer): (t: Token)
    ensures t.id == id && t.user_id == userId
    ensures t.token == GenerateBearerToken(signer, userId)
    ensures t.is_active
  {
    Token(id, userId, GenerateBearerToken(signer, userId), true)
  }

  /** Columns an update dictionary may assign. */
  const TokenColumns: set<string> := {"token", "is_active"}

  /** Attributes of `Token` that no update dictionary passes: key, owner, timestamps, relationship. */
  const TokenInternals: set<string> := {"id", "user_id", "created_at", "updated_at", "user"}

  /** Every non-`None` entry names an updatable column with a value of its type, or no attribute at all. */
  predicate TokenUpdateWellTyped(data: seq<Entry>) {
    forall i :: 0 <= i < |data| && data[i].1 != Null ==>
      && data[i].0 !in TokenInternals
      && (data[i].0 == "token" ==> data[i].1.Text?)
      && (data[i].0 == "is_active" ==> data[i].1.Flag?)
  }

  /**
   * One turn of the loop `if value is not None and hasattr(db_token, field):
   * setattr(db_token, field, value)`; a name that is no column changes no
   * persisted state.
   */
  function SetTokenAttr(t: Token, e: Entry): Token
    requires e.1 != Null ==> e.0 !in TokenInternals
    requires e.0 == "token" && e.1 != Null ==> e.1.Text?
    requires e.0 == "is_active" && e.1 != Null ==> e.1.Flag?
  {
    if e.1 == Null then t
    else if e.0 == "token" then t.(token := e.1.s)
    else if e.0 == "is_active" then t.(is_active := e.1.b)
    else t
  }

  /** The row after the whole dictionary has been applied in order. */
  function ApplyTokenUpdate(t: Token, data: seq<Entry>): Token
    requires TokenUpdateWellTyped(data)
  {
    if data == [] then t
    else SetTokenAttr(ApplyTokenUpdate(t, data[..|data| - 1]), data[|data| - 1])
  }

  /**
   * A token update keeps the row's id and owner, gives each column the
   * value last assigned to it, and leaves unassigned columns alone.
   */
  lemma {:induction false} TokenUpdateEffect(t: Token, data: seq<Entry>)
    requires TokenUpdateWellTyped(data)
    ensures var r := ApplyTokenUpdate(t, data);
      && r.id == t.id && r.user_id == t.user_id
      && r.token == (match LastAssigned(data, "token") case Some(v) => v.s case None => t.token)
      && r.is_active == (match LastAssigned(data, "is_active") case Some(v) => v.b case None => t.is_active)
  {
    if data != [] {
      var init := data[..|data| - 1];
      assert data == init + [data[|data| - 1]];
      TokenUpdateEffect(t, init);
      LastAssignedSnoc(init, data[|data| - 1], "token");
      LastAssignedSnoc(init, data[|data| - 1], "is_active");
      var k := |data| - 1;
      if data[k].1 != Null && data[k].0 == "token" {
        assert LastAssigned(data, "token") == Some(data[k].1);
      }
    }
  }
}
