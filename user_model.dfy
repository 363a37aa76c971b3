/**
 * The `users` table and the `friends_association` edges
 * (backend/app/models/users.py, and its earlier twin backend/models/users.py),
 * the password helpers of `User`, the public projection `UserOut`, and the
 * request models `UserCreate`, `UserUpdate` and `PaginatedUsers`.
 */
module UserModel {
  import opened Wrappers
  import opened Seqs
  import opened Passwords
  import opened Attributes
  import opened TokenModel

  /** The profile columns every variant stores. */
  datatype Profile = Profile(
    spotify_id: Option<string>,
    country: Option<string>,
    display_name: string,
    email: string,
    avatar: Option<string>,
    is_online: bool,
    currently_playing: Option<string>)

  /** A `users` row: the key, the profile and the bcrypt digest. Timestamps are not modelled. */
  datatype User = User(id: Id, profile: Profile, password_hash: PasswordHash)

  /** `User.check_password`. */
  predicate CheckPassword(u: User, password: string) {
    CheckPw(password, u.password_hash)
  }

  /** `User.set_password`: the row with a fresh digest of `password`; nothing else changes. */
  function SetPassword(u: User, password: string, salt: string): (r: User)
    ensures r.id == u.id && r.profile == u.profile
    ensures forall candidate :: CheckPassword(r, candidate) <==> candidate == password
  {
    u.(password_hash := HashPw(password, salt))
  }

  /** The users `id` lists as friends: edges `(id, friend)` from the association table. */
  function Friends(users: seq<User>, edges: set<(Id, Id)>, id: Id): (r: seq<User>)
    ensures forall v :: v in r ==> v in users && (id, v.id) in edges
    ensures forall v :: v in users && (id, v.id) in edges ==> v in r
  {
    Filter(users, (v: User) => (id, v.id) in edges)
  }

  /** The users that list `id` as a friend: edges `(other, id)`. */
  function FriendedBy(users: seq<User>, edges: set<(Id, Id)>, id: Id): (r: seq<User>)
    ensures forall v :: v in r ==> v in users && (v.id, id) in edges
    ensures forall v :: v in users && (v.id, id) in edges ==> v in r
  {
    Filter(users, (v: User) => (v.id, id) in edges)
  }

  /** `friends` and `friended_by` are two views of the same edges. */
  lemma FriendsInverse(users: seq<User>, edges: set<(Id, Id)>, a: User, b: User)
    requires a in users && b in users
    ensures b in Friends(users, edges, a.id) <==> a in FriendedBy(users, edges, b.id)
  {
  }

  /**
   * With unique keys every friend is listed once: `len(user.friends)` counts
   * the users at the far end of the user's association rows.
   */
  lemma FriendsListedOnce(users: seq<User>, edges: set<(Id, Id)>, id: Id, v: User)
    requires forall i, j :: 0 <= i < j < |users| ==> users[i].id != users[j].id
    ensures multiset(Friends(users, edges, id))[v] == if v in users && (id, v.id) in edges then 1 else 0
  {
    FilterCounts(users, (w: User) => (id, w.id) in edges, v);
    DistinctCount(users, v);
  }

  /** The public projection of a user. `created_at` is not modelled. */
  datatype UserOut = UserOut(id: Id, profile: Profile, friends_count: Option<nat>)

  /**
   * `UserOut.from_user(user, include_friends_count)`: copies the key and the
   * profile, never the digest or the relationships; the friend count is set
   * only on request.
   */
  function FromUser(u: User, friends: seq<User>, includeFriendsCount: bool): (r: UserOut)
    ensures r.id == u.id && r.profile == u.profile
    ensures r.friends_count == if includeFriendsCount then Some(|friends|) else None
  {
    UserOut(u.id, u.profile, if includeFriendsCount then Some(|friends|) else None)
  }

  /** The request model `UserCreate`: the profile and the plain-text password. */
  datatype UserCreate = UserCreate(profile: Profile, password: string)

  /** The request model `UserUpdate`; an absent field is `None`. */
  datatype UserUpdate = UserUpdate(
    display_name: Option<string>,
    email: Option<string>,
    country: Option<string>,
    avatar: Option<string>,
    password: Option<string>)

  /** `UserUpdate.password` is 8 to 50 characters when supplied. */
  predicate UserUpdateAccepted(u: UserUpdate) {
    u.password.Some? ==> 8 <= |u.password.value| <= 50
  }

  /** `PaginatedUsers` accepts `page >= 1` and `1 <= per_page <= 100`. */
  predicate PaginationAccepted(page: int, perPage: int) {
    page >= 1 && 1 <= perPage <= 100
  }

  /** One entry per supplied field, in declaration order. */
  function OptionalEntry(name: string, v: Option<string>): seq<Entry> {
    if v.Some? then [(name, Text(v.value))] else []
  }

  /** `user_data.model_dump(exclude_unset=True)`. */
  function UpdateEntries(u: UserUpdate): (data: seq<Entry>)
    ensures forall i :: 0 <= i < |data| ==> data[i].1.Text?
  {
    OptionalEntry("display_name", u.display_name) + OptionalEntry("email", u.email)
    + OptionalEntry("country", u.country) + OptionalEntry("avatar", u.avatar)
    + OptionalEntry("password", u.password)
  }

  /** A one-field dictionary assigns its field the supplied value, and nothing else. */
  lemma OptionalEntryAssigns(field: string, v: Option<string>, name: string)
    ensures LastAssigned(OptionalEntry(field, v), name) == if name == field then Supplied(v) else None
  {
    if v.Some? {
      LastAssignedSnoc([], (field, Text(v.value)), name);
      assert [] + [(field, Text(v.value))] == OptionalEntry(field, v);
    }
  }

  /**
   * `model_dump(exclude_unset=True)` assigns exactly the fields the request
   * supplied, each its supplied string, and no other name.
   */
  lemma UpdateEntriesAssign(u: UserUpdate, name: string)
    ensures LastAssigned(UpdateEntries(u), name) ==
      if name == "display_name" then Supplied(u.display_name)
      else if name == "email" then Supplied(u.email)
      else if name == "country" then Supplied(u.country)
      else if name == "avatar" then Supplied(u.avatar)
      else if name == "password" then Supplied(u.password)
      else None
  {
    var e1 := OptionalEntry("display_name", u.display_name);
    var e2 := OptionalEntry("email", u.email);
    var e3 := OptionalEntry("country", u.country);
    var e4 := OptionalEntry("avatar", u.avatar);
    var e5 := OptionalEntry("password", u.password);
    OptionalEntryAssigns("display_name", u.display_name, name);
    OptionalEntryAssigns("email", u.email, name);
    OptionalEntryAssigns("country", u.country, name);
    OptionalEntryAssigns("avatar", u.avatar, name);
    OptionalEntryAssigns("password", u.password, name);
    LastAssignedAppend(e1, e2, name);
    LastAssignedAppend(e1 + e2, e3, name);
    LastAssignedAppend(e1 + e2 + e3, e4, name);
    LastAssignedAppend(e1 + e2 + e3 + e4, e5, name);
  }

  /** The profile columns an update dictionary may assign. */
  const ProfileColumns: set<string> :=
    {"spotify_id", "country", "display_name", "email", "avatar", "is_online", "currently_playing"}

  /** Attributes of `User` that no update dictionary passes: key, digest, timestamps, relationships. */
  const UserInternals: set<string> :=
    {"id", "password_hash", "created_at", "updated_at", "friends", "friended_by", "tokens"}

  /** The value of a profile column, `None` for a missing optional value. */
  function ColumnValue(p: Profile, name: string): Value {
    match name
    case "spotify_id" => if p.spotify_id.Some? then Text(p.spotify_id.value) else Null
    case "country" => if p.country.Some? then Text(p.country.value) else Null
    case "display_name" => Text(p.display_name)
    case "email" => Text(p.email)
    case "avatar" => if p.avatar.Some? then Text(p.avatar.value) else Null
    case "is_online" => Flag(p.is_online)
    case "currently_playing" => if p.currently_playing.Some? then Text(p.currently_playing.value) else Null
    case _ => Null
  }

  /** `v` has the type of column `name`. */
  predicate Fits(name: string, v: Value) {
    if name == "is_online" then v.Flag? else v.Text?
  }

  /** Every non-`None` entry names a profile column with a value of its type, the password, or no attribute at all. */
  predicate UserUpdateWellTyped(data: seq<Entry>) {
    forall i :: 0 <= i < |data| && data[i].1 != Null ==>
      && data[i].0 !in UserInternals
      && (data[i].0 in ProfileColumns ==> Fits(data[i].0, data[i].1))
      && (data[i].0 == "password" ==> data[i].1.Text?)
  }

  /** `setattr(user, name, v)` on a profile column. */
  function SetColumn(p: Profile, name: string, v: Value): (r: Profile)
    requires name in ProfileColumns && Fits(name, v)
    ensures ColumnValue(r, name) == v
    ensures forall c :: c != name ==> ColumnValue(r, c) == ColumnValue(p, c)
  {
    match name
    case "spotify_id" => p.(spotify_id := Some(v.s))
    case "country" => p.(country := Some(v.s))
    case "display_name" => p.(display_name := v.s)
    case "email" => p.(email := v.s)
    case "avatar" => p.(avatar := Some(v.s))
    case "is_online" => p.(is_online := v.b)
    case "currently_playing" => p.(currently_playing := Some(v.s))
  }

  /**
   * One turn of the `update` loop: skip `None`, send `"password"` through
   * `set_password` when the password key is honoured, `setattr` a profile
   * column, and ignore any other name. `honourPassword` false is the loop as
   * written, where `hasattr(db_user, "password")` is false; true is the loop
   * the code evidently intends.
   */
  function SetUserAttr(u: User, e: Entry, salt: string, honourPassword: bool): User
    requires UserUpdateWellTyped([e])
  {
    assert [e][0] == e;
    if e.1 == Null then u
    else if e.0 == "password" && honourPassword then SetPassword(u, e.1.s, salt)
    else if e.0 in ProfileColumns then u.(profile := SetColumn(u.profile, e.0, e.1))
    else u
  }

  /** The row after the whole dictionary has been applied in order. */
  function ApplyUserUpdate(u: User, data: seq<Entry>, salt: string, honourPassword: bool): (r: User)
    requires UserUpdateWellTyped(data)
    ensures r.id == u.id
  {
    if data == [] then u
    else
      var k := |data| - 1;
      assert [data[k]][0] == data[k];
      SetUserAttr(ApplyUserUpdate(u, data[..k], salt, honourPassword), data[k], salt, honourPassword)
  }

  /**
   * An update gives every profile column the value last assigned to it,
   * and leaves the columns nobody assigned as they were.
   */
  lemma {:induction false} UpdateColumns(u: User, data: seq<Entry>, salt: string, honourPassword: bool, c: string)
    requires UserUpdateWellTyped(data)
    requires c in ProfileColumns
    ensures ColumnValue(ApplyUserUpdate(u, data, salt, honourPassword).profile, c)
         == LastAssigned(data, c).GetOr(ColumnValue(u.profile, c))
  {
    if data != [] {
      var k := |data| - 1;
      assert data == data[..k] + [data[k]];
      UpdateColumns(u, data[..k], salt, honourPassword, c);
      LastAssignedSnoc(data[..k], data[k], c);
    }
  }

  /**
   * With the password key honoured, the digest afterwards is bcrypt's digest
   * of the password last assigned; with no password assigned it is unchanged.
   */
  lemma {:induction false} UpdatePassword(u: User, data: seq<Entry>, salt: string)
    requires UserUpdateWellTyped(data)
    ensures ApplyUserUpdate(u, data, salt, true).password_hash
         == match LastAssigned(data, "password")
            case Some(v) => HashPw(v.s, salt)
            case None => u.password_hash
  {
    if data != [] {
      var k := |data| - 1;
      assert data == data[..k] + [data[k]];
      UpdatePassword(u, data[..k], salt);
      LastAssignedSnoc(data[..k], data[k], "password");
    }
  }

  /** As written, the `"password"` entry never reaches `set_password`: the digest never changes. */
  lemma {:induction false} PasswordIgnoredAsWritten(u: User, data: seq<Entry>, salt: string)
    requires UserUpdateWellTyped(data)
    ensures ApplyUserUpdate(u, data, salt, false).password_hash == u.password_hash
  {
    if data != [] {
      PasswordIgnoredAsWritten(u, data[..|data| - 1], salt);
    }
  }
}
