# syncify backend core, modelled in Dafny

This project models the part of syncify that stores users, friendships and
bearer tokens, and the HTTP handlers built on it. It also models two small
front-end helpers.

The back end exists in two variants, and the model keeps both:

- the later one under `backend/app/` (SQLModel models, repositories that
  answer `bool`/`None`, routes with pagination);
- the earlier one under `backend/` (SQLAlchemy models with unique emails and
  Spotify ids, repositories that let exceptions through, the pydantic schemas,
  the `UserValidator`, the `UserFactory` and the login/logout/register routes).

The database is `Store.Database`, a class holding three tables:

- `users`, a `seq<User>` in table order, so `.first()` is the first match;
- `friends_association`, a `set<(Id, Id)>`;
- `tokens`, a `seq<Token>`.

Its `Valid()` invariant says the constraints of the schema it was created
from hold:

- primary keys are unique;
- under the earlier schema, emails and non-null Spotify ids are unique too;
- both foreign keys hold.

Each repository is a class over one shared `Database`. Its queries are
functions that read the tables. Its mutators are methods that reassign them
and keep the invariant.

A failing commit is modelled as `IntegrityError`, after which the state is
unchanged because of the rollback. A negative `LIMIT`/`OFFSET` is
`DataError`, and `list.remove` of a missing element is `ValueError`. A
handler answers with `Http.Response`: a status and a body, or an
`HTTPException` status and a detail.

Randomness, crypto and time are parameters or symbols:

- new ids (`uuid4`) and bcrypt salts are parameters;
- bcrypt is a symbolic digest that accepts exactly its pre-image;
- `jwt.encode` is a function value in `TokenModel.Signer`, together with the
  secret key.

The front-end helpers are `formatTime` (milliseconds to `m:ss`, for whole
non-negative milliseconds) and the sign-up handler's required-field check.

Some outcomes follow from the code in ways that are easy to miss:

- `backend/models/tokens.py:15` declares no cascade, so deleting an
  earlier-schema user who owns tokens fails with an integrity error (500).
- In the earlier routes, a missing friendship on removal and a duplicate
  friendship on addition end in 500. `list.remove` raises `ValueError`
  (backend/repositories/user_repository.py:82), and a second insert violates
  the association table's key (backend/models/users.py:10-11); neither is
  caught as a 404.
- Creating a user with a taken email is refused by the validator first, with
  "Email already in use". The later routes answer 400. The earlier routes
  answer 500, because their validator exceptions are not `ValueError`s. The
  routes' own "Email already registered" branch can never fire.

## Model

| member | source | states |
|---|---|---|
| Seqs.FirstIndex | backend/app/repositories/user_repository.py:15-17 | the position returned satisfies the condition and no earlier row does; `None` exactly when no row does |
| Seqs.First | backend/app/repositories/user_repository.py:15-17 | `.first()` answers a row of the table that satisfies the condition and comes before every other match; `None` exactly when no row matches |
| Seqs.Filter | backend/app/repositories/token_repository.py:47-49 | `.all()` under a `WHERE` keeps exactly the rows satisfying the condition |
| Seqs.FilterCounts | backend/app/models/users.py:49-57 | the rows kept are each kept as often as the table holds them, and no other row appears |
| Seqs.FilterAppend | backend/app/repositories/token_repository.py:47-49 | the rows kept stay in table order: filtering two runs of rows filters each run and joins the results |
| Seqs.DistinctCount | backend/app/models/users.py:33 | a row of a table without repeated rows occurs in it exactly once |
| Seqs.Page | backend/app/repositories/user_repository.py:31-33 | `LIMIT`/`OFFSET` answers at most `limit` rows, exactly the rows starting at `offset` in table order, and none past the end |
| Text.LStrip | backend/schemas/users.py:26-29 | `lstrip` drops a leading run of whitespace and stops at the first non-space |
| Text.RStrip | backend/schemas/users.py:26-29 | `rstrip` drops a trailing run of whitespace and stops at the last non-space |
| Text.StripSpec | backend/schemas/users.py:26-29 | `strip` keeps a contiguous piece of the input, removes only whitespace, and leaves no whitespace at either end |
| Text.StripTrimmed | backend/schemas/users.py:29 | a stripped name neither starts nor ends with whitespace |
| Text.StripEmptyIff | backend/schemas/users.py:27-28 | `not v.strip()` holds exactly when every character is whitespace |
| Text.DecimalString | frontend/src/composables/useSpotifySDK.ts:16 | `toString` of a natural number is all digits, one digit exactly below 10, at most two below 100, with no leading zero |
| Text.DecimalRoundTrip | frontend/src/composables/useSpotifySDK.ts:16 | reading a rendered number back gives the number |
| Text.PadStart | frontend/src/composables/useSpotifySDK.ts:16 | `padStart(width, fill)` reaches the width, ends with the original text and is filled with `fill` before it |
| Passwords.CheckHashed | backend/app/models/users.py:71-81 | `checkpw` accepts a `hashpw` digest for its own password and no other |
| Attributes.LastAssigned | backend/app/repositories/user_repository.py:85-90 | the value an update dictionary last assigns to a name is non-`None` and present in it; there is one exactly when some entry assigns the name |
| Attributes.LastAssignedSnoc | backend/app/repositories/user_repository.py:85-90 | one more entry changes the last assignment of a name only if that entry assigns the name |
| Attributes.LastAssignedAppend | backend/app/repositories/user_repository.py:85-90 | in a dictionary made of two parts, a name takes the second part's last value when it assigns one, else the first part's |
| TokenModel.BearerPayload | backend/app/models/tokens.py:53-55 | the JWT claims are exactly `{"user_id": user_id}` |
| TokenModel.NewToken | backend/app/repositories/token_repository.py:69-71 | a new row belongs to the user, stores that user's bearer JWT and is active |
| TokenModel.TokenUpdateEffect | backend/app/repositories/token_repository.py:155-157 | a token update keeps the row's key and owner and gives `token` and `is_active` the value last assigned, or leaves them |
| UserModel.SetPassword | backend/app/models/users.py:71-75 | `set_password` keeps the key and profile; afterwards `check_password` accepts exactly the new password |
| UserModel.Friends | backend/app/models/users.py:49-57 | `user.friends` is exactly the users at the far end of the user's association rows |
| UserModel.FriendedBy | backend/app/models/users.py:58-66 | `friended_by` is exactly the users whose association rows point at the user |
| UserModel.FriendsInverse | backend/app/models/users.py:49-66 | `b` is among `a`'s friends exactly when `a` is among those who befriended `b` |
| UserModel.FriendsListedOnce | backend/app/models/users.py:49-57 | with unique keys, `user.friends` lists each user at the far end of the user's association rows exactly once and no one else, so its length counts friends |
| UserModel.FromUser | backend/app/models/users.py:93-101 | `UserOut.from_user` copies key and profile, never the digest, and sets the friend count only on request |
| UserModel.UpdateEntries | backend/app/routes/users.py:171-173 | `model_dump(exclude_unset=True)` of an update request yields only string values |
| UserModel.UpdateEntriesAssign | backend/app/routes/users.py:171-173 | `model_dump(exclude_unset=True)` assigns exactly the supplied fields, each its supplied string, and no other name |
| UserModel.SetColumn | backend/app/repositories/user_repository.py:90 | `setattr` on a profile column sets that column and no other |
| UserModel.ApplyUserUpdate | backend/app/repositories/user_repository.py:85-90 | applying an update dictionary never changes the row's key |
| UserModel.UpdateColumns | backend/app/repositories/user_repository.py:85-90 | after an update, every profile column holds the value last assigned to it, or its old value |
| UserModel.UpdatePassword | backend/app/repositories/user_repository.py:87-88 | with the password key honoured, the digest is the digest of the password last assigned, or unchanged |
| UserModel.PasswordIgnoredAsWritten | backend/app/repositories/user_repository.py:86-88 | as written, an update never changes the digest |
| Store.WithoutUser | backend/app/repositories/user_repository.py:113-118 | the users table without a key holds exactly the other rows |
| Store.WithoutTokens | backend/app/models/users.py:67-69 | the tokens table without the rows whose owner (or token string) is a value holds exactly the other rows |
| Store.EdgesWithout | backend/app/models/users.py:16-17 | the association rows touching neither end of a key are exactly those kept |
| Store.RemoveAtIsWithoutUser | backend/app/models/users.py:41-43 | with unique keys, deleting the row found by key removes every row with that key |
| Store.WithoutAbsentUser | backend/app/repositories/user_repository.py:113-119 | removing a key no row has leaves the table as it was |
| Store.WithoutAbsentValue | backend/app/models/users.py:67-69 | removing token rows by a value no row holds leaves the table as it was |
| Store.WithoutTokensUnique | backend/app/models/tokens.py:17-19 | dropping token rows keeps token keys unique |
| Store.HasUserAfterRemove | backend/app/models/tokens.py:20-24 | a key other than the deleted row's still exists afterwards, so foreign keys to it still hold |
| Store.AppendUserConsistent | backend/models/users.py:18-22 | an insert keeps the user constraints exactly when the new row clashes with no existing row on the key, or (earlier schema) on email or Spotify id |
| Store.RemoveUserConsistent | backend/models/users.py:18-22 | deleting a row keeps the user constraints |
| Store.DeleteUserConsistent | backend/app/models/users.py:67-69 | deleting a user together with its association rows and its tokens keeps every constraint, foreign keys included |
| Store.DeleteAbsentUser | backend/app/repositories/user_repository.py:113-119 | with consistent tables, deleting a key no user has removes no row of any table |
| Store.RemoveTokenConsistent | backend/app/models/tokens.py:17-24 | removing one token row keeps every constraint |
| Store.ReplaceTokenConsistent | backend/app/models/tokens.py:17-24 | rewriting a token row in place, with its key and owner kept, keeps every constraint |
| Store.UserWithId | backend/app/repositories/user_repository.py:15-17 | `get(id)`, in both repositories (also backend/repositories/user_repository.py:24-31): the row with that key; `None` exactly when there is none |
| Store.UserNamed | backend/app/repositories/user_repository.py:27-29 | `get_by_display_name`, in both repositories (also backend/repositories/user_repository.py:100-104): the first row with that display name; `None` exactly when no row has it |
| Store.FirstTokenOf | backend/app/repositories/token_repository.py:17-35 | `get(user_id)` of both token repositories (also backend/repositories/token_repository.py:32-36): the user's first token row; `None` exactly when the user owns none |
| AppUserRepository.UserRepository.GetBySpotifyId | backend/app/repositories/user_repository.py:19-21 | answers the first row with that Spotify id; `None` exactly when no row has it |
| AppUserRepository.UserRepository.GetByEmail | backend/app/repositories/user_repository.py:23-25 | answers the first row with that email; `None` exactly when no row has it |
| AppUserRepository.UserRepository.List | backend/app/repositories/user_repository.py:31-33 | exactly the page: `min(limit, total - start)` users, the rows from `start` on in table order, none past the end; a negative limit or offset is a database error |
| AppUserRepository.UserRepository.GetFriends | backend/app/repositories/user_repository.py:192-204 | `[]` for an unknown user, otherwise exactly the user's friends |
| AppUserRepository.UserRepository.Create | backend/app/repositories/user_repository.py:35-64 | succeeds exactly when a password is given and the key is free, appends the row, and the stored digest accepts exactly that password; otherwise nothing changes |
| AppUserRepository.UserRepository.Update | backend/app/repositories/user_repository.py:66-98 | corrected, see Findings: `None` exactly for an unknown key; otherwise the row, and only it, becomes the update applied to it, with the password re-hashed (as written the password is dropped) |
| AppUserRepository.UserRepository.Delete | backend/app/repositories/user_repository.py:100-122 | true exactly when the user existed; the row and its tokens are gone, and no friendship row keeps a dangling end |
| AppUserRepository.UserRepository.AddFriend | backend/app/repositories/user_repository.py:124-156 | true exactly when both users exist and the edge was absent; then, and only then, the edge is added |
| AppUserRepository.UserRepository.RemoveFriend | backend/app/repositories/user_repository.py:158-190 | true exactly when both users exist and the edge was present; then, and only then, the edge is removed |
| AppUserRepository.AddFriendTwice | backend/app/repositories/user_repository.py:148-153 | adding the same friendship twice answers false the second time and adds one edge |
| AppTokenRepository.TokenRepository.GetAllActiveTokens | backend/app/repositories/token_repository.py:37-52 | exactly the active rows |
| AppTokenRepository.TokenRepository.GetByToken | backend/app/repositories/token_repository.py:225-243 | the first row, in table order, storing that token string; `None` exactly when no row does |
| AppTokenRepository.TokenRepository.List | backend/app/repositories/token_repository.py:112-131 | exactly the page: `min(limit, total - start)` rows from `start` on in table order; negative arguments are a database error |
| AppTokenRepository.TokenRepository.Create | backend/app/repositories/token_repository.py:54-83 | appends the new row for an existing user with a free key, otherwise fails with an integrity error and changes nothing; rows keep storing their owner's JWT |
| AppTokenRepository.TokenRepository.Delete | backend/app/repositories/token_repository.py:85-110 | true exactly when the user owns a row; the user's first row, and only it, is removed |
| AppTokenRepository.TokenRepository.Update | backend/app/repositories/token_repository.py:133-169 | `None` exactly when the user owns no row; otherwise the user's first row, and only it, becomes the update applied to it |
| AppTokenRepository.TokenRepository.Deactivate | backend/app/repositories/token_repository.py:171-188 | true exactly when the user owns a row; that first row is switched inactive and nothing else changes |
| AppTokenRepository.TokenRepository.RefreshToken | backend/app/repositories/token_repository.py:190-223 | `None` exactly when the user owns no row; otherwise the first row stores a fresh JWT for the user, which changes nothing when every row already stores its owner's JWT |
| UserSchemas.EmailMustBeValidDomain | backend/schemas/users.py:17-22 | accepts an address, unchanged, exactly when it ends with `.com`, `.fr` or `.net`; otherwise the domain message |
| UserSchemas.DomainIsCaseSensitive | backend/schemas/users.py:20 | the suffix test is exact: `a@b.COM` is refused and `a@b.com` accepted |
| UserSchemas.NameMustBeValid | backend/schemas/users.py:24-29 | refuses exactly the all-whitespace names; otherwise answers the stripped, non-empty name |
| UserSchemas.FirstMissingClass | backend/schemas/users.py:38-44 | names the first of upper case, lower case and digit the password lacks; none exactly when it has all three |
| UserSchemas.PasswordMustBeStrong | backend/schemas/users.py:36-45 | accepts exactly the passwords with an upper-case letter, a lower-case letter and a digit; otherwise the message for the first class missing |
| UserSchemas.CheckDisplayName | backend/schemas/users.py:7-29 | a display name is accepted exactly when it has 2 to 50 characters and is not all whitespace, and is then stored stripped |
| UserSchemas.CheckPassword | backend/schemas/users.py:34-45 | a password is accepted exactly when it has 8 to 50 characters and an upper-case letter, a lower-case letter and a digit |
| UserSchemas.CreateErrors | backend/schemas/users.py:6-45 | the report of a create request is empty exactly when every field passes, and names only constrained fields |
| UserSchemas.ParseUserCreate | backend/schemas/users.py:6-45 | corrected, see Findings: with the validators registered, a create request is accepted exactly when every field constraint and validator passes, and the accepted name is the stripped one |
| UserSchemas.ParseUserCreateAsWritten | backend/schemas/users.py:6-45 | as the decorators are written, only the `Field` constraints apply: lengths of name, country, Spotify id and password; the name is kept as sent |
| UserSchemas.ValidatorsSkippedAsWritten | backend/schemas/users.py:17-18 | as written, a blank name, a foreign domain and a weak password are accepted, and the registered validators refuse the same request |
| UserSchemas.StrippedNameCanBeShort | backend/schemas/users.py:7-29 | the length bound applies before stripping: `" a "` is accepted and stored as `"a"` |
| UserSchemas.FormVars | backend/repositories/user_repository.py:56-58 | `vars(form)` yields the five form fields, each a profile column, never `is_online` or `spotify_id` |
| UserSchemas.FormVarsAssign | backend/repositories/user_repository.py:56-58 | the loop over `vars(form)` assigns exactly the filled-in form fields, each its value, and no other name |
| AuthSchemas.ParseLogin | backend/schemas/auth.py:5-14 | corrected, see Findings: with the validator registered, a login is accepted exactly when its email ends with an allowed domain; the password is not checked |
| AuthSchemas.UpperCaseDomainRefused | backend/schemas/auth.py:11-14 | a login at `a@b.COM` is refused |
| AuthSchemas.ParseLoginAsWritten | backend/schemas/auth.py:5-14 | as the decorators are written, every email and password form a login |
| AuthSchemas.LoginDomainUncheckedAsWritten | backend/schemas/auth.py:9-10 | as written, a login at `a@b.COM` passes, and the registered validator refuses it |
| Validation.ValidateEmail | backend/utils/validation/users.py:17-20 | refuses exactly an email some user has |
| Validation.ValidateDisplayName | backend/utils/validation/users.py:22-25 | refuses exactly a display name some user has |
| Validation.ValidatePassword | backend/utils/validation/users.py:27-35 | refuses exactly a password lacking a class, naming the first one missing |
| Validation.Validate | backend/utils/validation/users.py:11-15 | checks email, then name, then password: each error is raised exactly when the checks before it pass and it fails; true otherwise |
| UserFactory.FromDb | backend/factory/user_factory.py:10-24 | `from_db` copies the key and the profile, not the digest |
| UserFactory.FromCreate | backend/factory/user_factory.py:26-42 | the intended `from_create`: the request's profile under the new key, with a digest accepting exactly the request's password |
| UserFactory.FromDbAfterFromCreate | backend/factory/user_factory.py:10-42 | a created user read back through `from_db` is the request's profile under the new key |
| UserFactory.CreateAttribute | backend/schemas/users.py:32-34 | a `UserCreate` has the profile fields and `password`, and no other attribute |
| UserFactory.FromCreateAlwaysFails | backend/factory/user_factory.py:39-41 | as written, building a user from any request fails on the missing `password_hash` |
| LegacyUserRepository.UserRepository.Create | backend/repositories/user_repository.py:12-22 | corrected, see Findings (as written `from_create` always raises): appends the factory's row exactly when it clashes with no row on key, email or Spotify id; otherwise an integrity error and nothing changes |
| LegacyUserRepository.UserRepository.GetBySpotifyId | backend/repositories/user_repository.py:88-92 | a row with that Spotify id; `None` exactly when there is none |
| LegacyUserRepository.UserRepository.GetByEmail | backend/repositories/user_repository.py:94-98 | a row with that email; `None` exactly when there is none |
| LegacyUserRepository.UserRepository.EmailLookupUnique | backend/models/users.py:22 | with unique emails, the email lookup finds the one user holding the email |
| LegacyUserRepository.UserRepository.List | backend/repositories/user_repository.py:43-50 | exactly the page: `min(limit, total - start)` users, the rows from `start` on in table order, none past the end; negative arguments are a database error |
| LegacyUserRepository.UserRepository.Delete | backend/repositories/user_repository.py:33-41 | fails with an integrity error exactly when the user exists and still owns tokens; otherwise the row is gone (a missing user changes nothing) |
| LegacyUserRepository.UserRepository.Update | backend/repositories/user_repository.py:52-64 | `None` exactly for an unknown key; an integrity error when the new email or Spotify id is taken; otherwise the row, and only it, becomes the form applied to it |
| LegacyUserRepository.UserRepository.AddFriend | backend/repositories/user_repository.py:66-75 | an integrity error exactly when both users exist and the edge is already there; otherwise the edge is added when both users exist |
| LegacyUserRepository.UserRepository.RemoveFriend | backend/repositories/user_repository.py:77-86 | a `ValueError` exactly when both users exist and the edge is absent; otherwise the edge is removed when both users exist |
| LegacyTokenRepository.TokenRepository.Create | backend/repositories/token_repository.py:12-30 | appends the user's new row exactly when the user exists and the key is free; otherwise an integrity error and nothing changes |
| LegacyTokenRepository.TokenRepository.Delete | backend/repositories/token_repository.py:38-46 | removes the user's first row, and nothing when the user owns none |
| LegacyTokenRepository.TokenRepository.List | backend/repositories/token_repository.py:48-55 | exactly the page: `min(limit, total - start)` rows from `start` on in table order, none past the end; negative arguments are a database error |
| LegacyTokenRepository.TokenRepository.Update | backend/repositories/token_repository.py:57-69 | `None` exactly when the user owns no row; otherwise the first row, and only it, becomes the update applied to it |
| AppUserRoutes.CeilDiv | backend/app/routes/users.py:107 | `ceil(total / per_page)`: the fewest pages of `per_page` rows that hold `total` rows |
| AppUserRoutes.PagesPrefix | backend/app/routes/users.py:97-98 | the first `n` pages together are the first `n * per_page` users |
| AppUserRoutes.PagesPartitionTable | backend/app/routes/users.py:97-107 | pages 1 to `pages` list every user exactly once, in table order |
| AppUserRoutes.PageBeyondLastIsEmpty | backend/app/routes/users.py:98-107 | a page past `pages` is empty |
| AppUserRoutes.WithFriendCounts | backend/app/routes/users.py:102-104 | one entry per row, in order; each keeps its row's key and profile and carries the number of that row's friends |
| AppUserRoutes.GetUsers | backend/app/routes/users.py:78-111 | 200 exactly when `page >= 1` and `1 <= per_page <= 100`, else 500; the body holds the total, exactly `min(per_page, total - (page - 1) * per_page)` users (none past the end), and `ceil(total / per_page)` pages |
| AppUserRoutes.GetUsersListsPage | backend/app/routes/users.py:97-104 | the users of an answered listing are the table's users from `(page - 1) * per_page` on, in table order, each with its own friend count |
| AppUserRoutes.PageKeys | backend/app/routes/users.py:97-104 | page `page` of the listing holds exactly the keys of `LIMIT per_page OFFSET (page - 1) * per_page` |
| AppUserRoutes.WalkIsPagesFrom | backend/app/routes/users.py:97-107 | requesting pages 1 to `n` collects the keys of the first `n` table pages |
| AppUserRoutes.WalkingPagesListsEveryUser | backend/app/routes/users.py:78-111 | a client that requests pages 1 to `pages` of the answer, for any accepted `per_page`, sees every user exactly once, in table order |
| AppUserRoutes.GetUser | backend/app/routes/users.py:114-141 | 404 exactly when no user has the name; otherwise the key and profile of the first row with that name, with its friend count |
| AppUserRoutes.CreateUser | backend/app/routes/users.py:33-75 | 400 with the validator's message exactly when validation fails; 500 on a taken key; otherwise 201, the old rows kept and one row appended with the new key, the sent profile and a digest that accepts exactly the sent password; "Email already registered" is never answered |
| AppUserRoutes.UpdateEntriesWellTyped | backend/app/routes/users.py:171-173 | the dictionary an update request produces only names updatable fields with string values |
| AppUserRoutes.UpdateUser | backend/app/routes/users.py:144-182 | corrected, see Findings (password re-hashed): for a body `UserUpdate` accepts (password of 8 to 50 characters), 400 exactly when the new email is another user's; 404 exactly when, past that, the user is unknown; otherwise 200 and only that row updated |
| AppUserRoutes.DeleteUser | backend/app/routes/users.py:185-205 | 404 exactly for an unknown user; otherwise 204, the user and its tokens gone, every friendship row touching it removed and none added |
| AppUserRoutes.AddFriend | backend/app/routes/users.py:208-234 | 400 exactly for oneself; 404 exactly when a user is missing or the friendship exists; otherwise 204 and the edge added |
| AppUserRoutes.RemoveFriend | backend/app/routes/users.py:237-260 | 404 exactly when a user is missing or the friendship is absent; otherwise 204 and the edge removed |
| LegacyUserRoutes.CreateUser | backend/routes/users.py:23-48 | corrected, see Findings (as written every creation is 500): 201 with the new user exactly when validation passes and the row fits the constraints; every failure is 500 and changes nothing |
| LegacyUserRoutes.GetUsers | backend/routes/users.py:51-68 | corrected, see Findings (as written any non-empty slice is 500): 200 exactly for non-negative limit and offset: exactly `min(limit, total - offset)` users, the rows from `offset` on in table order seen through `from_db`, and the total count of users |
| LegacyUserRoutes.GetUsersAsWritten | backend/routes/users.py:60-68 | as written: 200 with the total and no users exactly when the arguments are non-negative and the slice is empty; any other request is 500 |
| LegacyUserRoutes.ListingRefusedAsWritten | backend/routes/users.py:64-65 | with one user in the table, the first page of ten is 500 as written, while the corrected listing shows that user |
| LegacyUserRoutes.GetUser | backend/routes/users.py:71-89 | 404 exactly when no user has the name; otherwise the key and profile of the first row with that name |
| LegacyUserRoutes.UpdateUser | backend/routes/users.py:92-115 | for a body `UserUpdate` accepts (name of 2 to 50 characters, country of at most 2), 400 exactly when the email is another user's; 404 exactly when, past that, the user is unknown; a failed commit 500; otherwise 200 and only that row updated |
| LegacyUserRoutes.DeleteUser | backend/routes/users.py:118-132 | 404 exactly for an unknown user, 500 exactly when the user still owns tokens, otherwise 204, the row gone, every friendship row touching it removed and none added |
| LegacyUserRoutes.AddFriend | backend/routes/users.py:136-158 | 400 exactly for oneself; 404 exactly when a user is missing; 500 exactly when already friends; otherwise 204 and the edge added |
| LegacyUserRoutes.RemoveFriend | backend/routes/users.py:161-180 | 404 exactly when a user is missing; 500 exactly when not friends; otherwise 204 and the edge removed |
| AuthRoutes.Login | backend/routes/app_auth.py:15-41 | corrected, see Findings (as written every login is 500): 500 for an unknown email, 400 exactly for a wrong password; otherwise one token row is added for the user and its JWT returned |
| AuthRoutes.LoginAsWritten | backend/routes/app_auth.py:22-41 | as written, every login answers 500: "User not found" exactly for an unknown email, the missing `check_password` otherwise |
| AuthRoutes.Logout | backend/routes/app_auth.py:44-55 | as written: removes the first row owned by a user whose id is the presented string, and nothing otherwise |
| AuthRoutes.LogoutKeepsIssuedToken | backend/routes/app_auth.py:50-51 | a user who logged in holds a row storing its JWT that logout as written does not remove |
| AuthRoutes.LogoutByToken | backend/routes/app_auth.py:44-55 | the intended logout: afterwards no row stores the presented JWT, and every other row stays |
| AuthRoutes.Register | backend/routes/app_auth.py:58-71 | corrected, see Findings (as written every registration is 500): 400 exactly for a taken email; otherwise 201 with the new user when the row fits the constraints, else 500 |
| SpotifySdk.Minutes | frontend/src/composables/useSpotifySDK.ts:15 | the minutes shown are below 60 |
| SpotifySdk.Seconds | frontend/src/composables/useSpotifySDK.ts:14 | the seconds shown are below 60 |
| SpotifySdk.TwoDigits | frontend/src/composables/useSpotifySDK.ts:16 | the padded seconds are exactly two digits and read back as the seconds |
| SpotifySdk.PaddedValue | frontend/src/composables/useSpotifySDK.ts:16 | padding a number below 60 to two places keeps its value |
| SpotifySdk.FormatTime | frontend/src/composables/useSpotifySDK.ts:13-17 | the output is 4 or 5 characters with the colon third from the end, and minutes carry no leading zero |
| SpotifySdk.FormatTimeFields | frontend/src/composables/useSpotifySDK.ts:16 | the output is the minutes, a colon and the padded seconds |
| SpotifySdk.FormatTimeReadsBack | frontend/src/composables/useSpotifySDK.ts:13-17 | the fields read back as `floor(ms/60000) mod 60` and `floor(ms/1000) mod 60`, together the whole seconds since the last full hour |
| SpotifySdk.FormatTimeDropsHours | frontend/src/composables/useSpotifySDK.ts:15 | adding an hour does not change the display |
| Signup.HandleSignup | frontend/src/server/api/signup.ts:12-38 | 400 "Tous les champs sont requis." exactly when one of the seven fields is falsy; otherwise 200 with exactly the five profile fields, as sent |
| Signup.SecretsNotEchoed | frontend/src/server/api/signup.ts:35-38 | the password and terms flag only gate the reply: any truthy values give the same reply |

## Left out

- Logging, the health checks and FastAPI's dependency injection are left out. They carry no decision.
- Connection errors are left out. So are database errors other than the three in `Store.RepoError`: the commit constraints, negative `LIMIT`/`OFFSET`, and `list.remove` of a missing element.
- bcrypt and JWT are symbolic. Hash collisions, the salt format and the `ValueError` that `bcrypt.checkpw` raises on a malformed digest are not modelled. The login route's `ValueError` branch (400) is therefore never reached in the model.
- Timestamps (`created_at`, `updated_at`) are not modelled, and neither is `created_at` in `UserOut`.
- Column length limits (`max_length=255`, `String(36)`) are not modelled.
- `EmailStr` syntax checking is not modelled: any string is an email, subject only to the domain validators.
- `UserSchemas.ParseUserCreate`, `UserSchemas.ParseUserCreateAsWritten` and `UserSchemas.DomainIsCaseSensitive`: keep the email as sent. Pydantic's `EmailStr` (backend/schemas/users.py:9; backend/app/models/users.py:28, 127) normalises the address and lower-cases its domain before any after-validator runs, so "a@b.COM" would pass the domain check and be stored as "a@b.com". That normalisation is library behaviour and is not modelled.
- Character classes are ASCII. `str.isupper`, `str.islower` and `str.isdigit` also accept other Unicode letters and digits.
- `@classmethod` stacked above `@field_validator` (backend/schemas/users.py:17-18, 24-25, 36-37; backend/schemas/auth.py:9-10) most likely leaves all four validators unregistered under pydantic v2, so as written they never run. Findings records this. `UserSchemas.ParseUserCreate`, `UserSchemas.CheckDisplayName`, `UserSchemas.CreateErrors`, `UserSchemas.StrippedNameCanBeShort`, `UserSchemas.DomainIsCaseSensitive`, `AuthSchemas.ParseLogin` and `AuthSchemas.UpperCaseDomainRefused` describe the intended parse, with the validators running; `UserSchemas.ParseUserCreateAsWritten` and `AuthSchemas.ParseLoginAsWritten` describe the parse as written.
- `UserInApp` is imported from `backend/schemas/users.py` but is not defined there. It is modelled as the key plus the seven profile fields that `from_db` passes. As written, the imports at backend/factory/user_factory.py:2 and backend/routes/app_auth.py:8 fail, so none of the earlier modules loads; every as-written outcome under Findings assumes the name exists.
- `AppUserRoutes.CreateUser`: backend/app/routes/users.py:14 imports `backend.app.utils.validation.users`, which is not part of this model. The earlier validator (`Validation`, backend/utils/validation/users.py) stands in for it, and the 400 answers rest on that.
- backend/utils/exceptions.py, imported at backend/utils/validation/users.py:3 and backend/routes/app_auth.py:9, is not part of this model. Its exceptions are taken to be plain `Exception` subclasses, as in backend/app/utils/exceptions.py:1-14, so none is a `ValueError`. `LegacyUserRoutes.CreateUser` answering 500 on every failure and `AuthRoutes.Login` answering 500 for an unknown email rest on that.
- The earlier `User` model declares no `password_hash`, `set_password` or `check_password`. Both variants use the later model's password handling.
- `AuthRoutes.Login`: models the login with the later `User`'s `check_password`. As written the earlier `User` (backend/models/users.py:15-37) has no `check_password`, so every known email ends in 500 (`AuthRoutes.LoginAsWritten`).
- `AppUserRepository.UserRepository.Update`: requires the dictionary to name no internal attribute (key, digest, timestamps, relationships) and to give each profile column a value of its type. The source's `hasattr`/`setattr` loop accepts any key; the model does not say what assigning an internal attribute or an ill-typed value does. Its one caller passes `model_dump` of `UserUpdate`, which complies (`AppUserRoutes.UpdateEntriesWellTyped`).
- `AppTokenRepository.TokenRepository.Update`: requires the dictionary to name only token columns with values of their type, for the same reason. The source's loop accepts any key.
- `LegacyTokenRepository.TokenRepository.Update` is given `vars(User instance)` in the source. It is modelled over an update dictionary of token columns. No route calls it.
- The check-then-create race between concurrent requests (an email taken between the lookup and the insert) is not modelled. Requests run one at a time.
- `response_model` filtering of handler results is not modelled. The Python float in `ceil(total / per_page)` is replaced by exact integer ceiling division.
- `formatTime` is modelled for whole, non-negative milliseconds only. JavaScript's floating-point division, negative positions and `NaN` are not modelled.
- The refs, listeners and interval of the player composable are out of scope.
- The sign-up body is modelled as a JSON object. A body that is not an object makes the destructuring throw; that case is not modelled. Logging the new user is the handler's only side effect and is left out.
- `AppUserRepository.UserRepository.Delete`: only bounds the friendship rows left afterwards. At least every row touching the user is gone, and no other row is added. The ORM's exact handling of association rows on delete is not stated in the source.
- `LegacyUserRepository.UserRepository.Delete`: bounds the friendship rows the same way, for the same reason.
- `AppUserRoutes.DeleteUser`: states the same bound on the friendship rows as the repository delete it calls, not their exact new set.
- `LegacyUserRoutes.DeleteUser`: states the same bound on the friendship rows when it answers 204, not their exact new set.
- `LegacyUserRepository.UserRepository.Update`: an integrity error on the commit is described by the constraint the updated row breaks. Which constraint the database reports first is not modelled.

## Findings

| source | as written | input that shows it | evidently intended | confidence | as-written member | corrected member |
|---|---|---|---|---|---|---|
| backend/factory/user_factory.py:39-41 | `from_create` reads `user.password_hash` from a `UserCreate`, which declares `password` (backend/schemas/users.py:34), so every earlier create and register raises `AttributeError` | any `UserCreate`, for example display name "Alice1", password "Passw0rd" | hash the request's `password` | high, not executed | UserFactory.FromCreateAlwaysFails | UserFactory.FromCreate |
| backend/app/repositories/user_repository.py:86-88 | `hasattr(db_user, "password")` is false for the `User` table model, so the `set_password` branch is dead and a new password is silently dropped | `update(id, {"password": "N3wPassw0rd"})` on an existing user | re-hash and store the new password | high, not executed | UserModel.PasswordIgnoredAsWritten | UserModel.UpdatePassword |
| backend/routes/app_auth.py:50-51 | `logout` hands the JWT to `TokenRepository.delete`, which selects rows by owner id, so the issued token row stays | user "u1" logs in and gets row "t1" storing its JWT; logout with that JWT | remove the row(s) storing the presented token | high, not executed | AuthRoutes.LogoutKeepsIssuedToken | AuthRoutes.LogoutByToken |
| backend/routes/app_auth.py:29 | `login` calls `user_in_db.check_password`, which the earlier `User` (backend/models/users.py:15-37) does not declare, so the `AttributeError` becomes a 500 | any login whose email belongs to a user, with the right password | compare the password against the stored digest: 400 when wrong, a token when right | high, not executed | AuthRoutes.LoginAsWritten | AuthRoutes.Login |
| backend/schemas/users.py:17-18 | `@classmethod` is stacked above `@field_validator` (also lines 24-25 and 36-37), so pydantic v2 finds a `classmethod` object instead of its validator marker and registers none of the three validators | `UserCreate` with display name "  ", email "a@b.org", Spotify id "abcde", password "password" is accepted, name unstripped | the validators run (`@field_validator` above `@classmethod`) | medium, not executed | UserSchemas.ValidatorsSkippedAsWritten | UserSchemas.ParseUserCreate |
| backend/schemas/auth.py:9-10 | the same decorator order leaves the login's domain validator unregistered | `Login` with email "a@b.COM" is accepted | the domain check runs | medium, not executed | AuthSchemas.LoginDomainUncheckedAsWritten | AuthSchemas.ParseLogin |
| backend/routes/users.py:64-65 | `UserList.users` is a list of the schema `User` (backend/schemas/users.py:60-73), which requires `created_at`; the `from_db` items carry only the key and seven profile fields, so building `UserList` fails validation and the handler answers 500 | one user in the table, `limit=10`, `offset=0` | 200 with that user listed | medium: rests on `UserInApp` having only the fields `from_db` passes, and on pydantic validation; not executed | LegacyUserRoutes.GetUsersAsWritten | LegacyUserRoutes.GetUsers |
