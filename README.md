# Auth, users and profiles services of a NestJS "RealWorld" backend, in Dafny

This project models the service logic behind four parts of the HTTP layer.

- **Authentication service.** `validateUser`, `login`, `register`, a logout that blacklists each token in a cache until the token expires, and the blacklist check.
- **Authentication controller.** It reads the bearer token out of the `Authorization` header and decides whether to call the service's logout.
- **User service.** Create, list, look up, update and remove users in the users table.
- **Profiles service.** Reads profiles and keeps the follow relation between users.

The external collaborators are values passed in:

- **bcryptjs** is `Bcrypt(hash, compare)`. Its salt is an explicit argument, so hashing is not assumed to be deterministic.
- **The JWT service** is `Jwt(sign, decode)`.
- **The clock** is a `now` parameter in milliseconds.
- **Failures of the cache or the repository** are boolean parameters that pick the failing outcome.

The users table is a `map<int, User>` together with the next generated id. The cache is a map from keys to `(value, expiresAt)` entries.

Modules, one per source file or component:

- `Common` (common.dfy): `Option`, `Result`, the HTTP exceptions and JavaScript truthiness of optional strings.
- `Cache` (cache.dfy): the cache manager's `get` and `set` with a TTL in milliseconds.
- `Users` (users.dfy): the user records and the pure lookups `findAll`, `findOne` and `findByEmail`. The class `UsersService` owns the table and changes it with `Create`, `Update` and `Remove`.
- `Auth` (auth_service.dfy): `ValidateUser`, `Login` and `RegisterOutcome` as functions. The logout TTL and the resulting cache state are the functions `LogoutTtl` and `LogoutStore`. The class `AuthService` holds the cache and implements `Register`, `Logout` and `IsTokenBlacklisted`.
- `AuthController` (auth_controller.dfy): JavaScript's `split(' ')`, `ExtractTokenFromHeader` and the controller's `Logout`.
- `Profiles` (profiles.dfy): `GetProfile` and the list operations behind follow and unfollow. The class `ProfilesService` implements `FollowUser` and `UnfollowUser` on the shared users table.

How the code handles sessions and the cache:

- **Per-token blacklist.** There is no per-user session record: `login` writes nothing to the cache, and `logout` adds one entry for the token, `blacklist:<token>`.
- **TTL units.** The TTL is in milliseconds, computed as `exp * 1000 - now`.
- **Cache read failures.** When the cache read fails, `isTokenBlacklisted` answers `false`, meaning "not blacklisted".

Modelling choices:

- **Lookup order.** The database fixes no order for `findOne({ where })` on a non-key column or for `find()`. The model takes the row with the lowest id, and `findAll` lists rows by ascending id.
- **Following lists.** A user's `following` relation is the sequence of followed ids.
- **Profile lookup.** The profile query (the profile table joined with users by username) is an independent map from username to `(profile id, user id, bio, image)`. The profile entity declares no `user` relation, so how it is kept in step with the users table cannot be seen.
- **Cache expiry.** A cache entry can be read while `now < expiresAt`.
- **A user's bio and image.** `create` writes `''` into the bio and image of a new `Profile` saved with the user (src/users/users.service.ts:36-44). `login` reads `bio` and `image` from the user row, where src/users/user.entity.ts:6-7 declares them as optional columns of `User`. The entity declares no `profile` relation, so how the two are linked is not visible. The model takes the user row's `bio` and `image` to be that profile's. A new row therefore starts with `""` for both, and the bio and image equalities in `Auth.LoginAfterCreate` rest on this choice.

## Model

| member | source | states |
|---|---|---|
| `Cache.Put` | src/auth/auth.service.ts:80 | a TTL write makes the value readable for exactly `ttl` ms from `now`, absent afterwards, and changes no other key |
| `Users.FindBy` | src/users/users.service.ts:20-32 | `findOne({ where })` finds nothing exactly when no stored user meets the condition; otherwise it finds a stored user that meets it, with the lowest such id |
| `Users.FindByEmail` | src/users/users.service.ts:75-77 | nothing exactly when no stored user has the email; otherwise a stored row with that email, password included |
| `Users.FindAll` | src/users/users.service.ts:57-63 | every stored user appears without its password, every element is a stored user without password, and ids strictly ascend |
| `Users.FindOne` | src/users/users.service.ts:65-73 | NotFound 'User not found' exactly when the id is absent; otherwise the stored user without its password |
| `Users.FindByEmailAfterInsert` | src/users/users.service.ts:34-47 | after inserting a user whose email was free, the email lookup finds exactly that new row |
| `Users.UsersService.Create` | src/users/users.service.ts:19-55 | Conflict 'Email already exists' before 'Username already exists'; nothing saved on any error; on success the row stores `hash(password, salt)`, empty bio and image, no followed users, under the next id, and the response has no password |
| `Users.UsersService.Update` | src/users/users.service.ts:79-99 | NotFound with the table unchanged for an absent id; otherwise only truthy email, username and password are applied, the password as a hash; bio, image, following and all other users keep their values |
| `Users.UsersService.Remove` | src/users/users.service.ts:101-108 | NotFound with the table unchanged for an absent id; otherwise exactly that key disappears and every other user keeps its row |
| `Auth.ValidateUser` | src/auth/auth.service.ts:22-29 | null for an unknown email and null for a wrong password alike; a found user whose stored hash matches the password is returned without its password; a non-null result is always such a user |
| `Auth.Login` | src/auth/auth.service.ts:31-47 | Unauthorized 'Invalid credentials' exactly when `validateUser` gives null; otherwise the token signs `{email, sub: id}` of a stored user with that email, and the response carries that user's email, username, bio and image |
| `Auth.RegisterOutcome` | src/auth/auth.service.ts:49-68 | a Conflict from `create` is rethrown unchanged, and any other failure becomes Unauthorized 'Registration failed'; a created user gets a response with its email, a token signing its email and id, and its username, bio and image |
| `Auth.LoginAfterCreate` | src/auth/auth.service.ts:22-62 | a user just created with a free email logs in with its password; with registration and login each signing at their own moment, the login response equals registration's response in every field except the token, and the login token signs the new user's email and id |
| `Auth.BlacklistKeyInjective` | src/auth/auth.service.ts:80 | distinct tokens have distinct `blacklist:` keys |
| `Auth.LogoutTtl` | src/auth/auth.service.ts:73-79 | the TTL is never negative; it is positive exactly when `exp` is a non-zero number with `exp*1000 > now`, and then it equals `exp*1000 - now` ms |
| `Auth.LogoutStore` | src/auth/auth.service.ts:71-86 | with no positive TTL or a failing write the cache is unchanged; otherwise only `blacklist:<token>` is added, with value 'true' and expiry equal to the token's `exp` in ms |
| `Auth.BlacklistedAfterLogout` | src/auth/auth.service.ts:80-91 | after logging out an unexpired token, the token reads as blacklisted at every moment before its expiry |
| `Auth.BlacklistLapsesAtExpiry` | src/auth/auth.service.ts:77-80 | from the token's own expiry on, its blacklist entry no longer reads as blacklisted |
| `Auth.LogoutLeavesOtherTokens` | src/auth/auth.service.ts:80 | logging out one token never changes whether any other token is blacklisted |
| `Auth.AuthService.Register` | src/auth/auth.service.ts:49-69 | the two Conflicts in `create`'s order and 'Registration failed' on a save failure, each with the table unchanged; on success the user is inserted and the response carries the signed `{email, sub}` token, empty bio and image |
| `Auth.AuthService.Logout` | src/auth/auth.service.ts:71-86 | never throws; the new cache is `LogoutStore` of the old cache |
| `Auth.AuthService.IsTokenBlacklisted` | src/auth/auth.service.ts:88-95 | true exactly when the read succeeds and a live `blacklist:<token>` entry holds exactly 'true'; a failing read gives false |
| `AuthController.Split` | src/auth/auth.controller.ts:149 | `split(' ')` always yields at least one piece and no piece contains a space |
| `AuthController.JoinSplit` | src/auth/auth.controller.ts:149 | joining the pieces with single spaces gives back the header |
| `AuthController.SplitJoin` | src/auth/auth.controller.ts:149 | splitting a join of space-free pieces gives back the pieces |
| `AuthController.SplitNoSpace` | src/auth/auth.controller.ts:149 | a string without spaces splits into itself alone |
| `AuthController.SplitAfterSpace` | src/auth/auth.controller.ts:149 | a space-free prefix before a space is the first piece, followed by the split of the rest |
| `AuthController.SplitHead` | src/auth/auth.controller.ts:149 | the first piece is the text before the first space; with a space present, the other pieces are the split of what follows it |
| `AuthController.ExtractTokenFromHeader` | src/auth/auth.controller.ts:148-151 | a token is extracted only from a present header, and it never contains a space |
| `AuthController.ExtractTokenCharacterised` | src/auth/auth.controller.ts:148-151 | a token comes out exactly when the header starts with case-sensitive "Bearer "; it is the space-free text after that prefix, up to the next space or the end |
| `AuthController.MissingHeaderGivesNothing` | src/auth/auth.controller.ts:149 | no Authorization header gives undefined |
| `AuthController.OtherSchemeGivesNothing` | src/auth/auth.controller.ts:150 | a header whose first piece is any space-free scheme other than "Bearer", lower-case "bearer" included, gives undefined |
| `AuthController.ExtraPiecesIgnored` | src/auth/auth.controller.ts:149 | "Bearer <token> <rest>" gives exactly `<token>` for a space-free token, whatever follows |
| `AuthController.BareSchemeExamples` | src/auth/auth.controller.ts:149-150 | "Bearer" alone gives undefined and "Bearer " gives the empty token |
| `AuthController.Logout` | src/auth/auth.controller.ts:140-146 | always answers the same message; the cache changes as the service's logout of the token when a non-empty token was extracted, and not at all otherwise |
| `Profiles.GetProfile` | src/profiles/profiles.service.ts:17-48 | NotFound 'Profile not found' exactly when no profile has the username; `following` is false for a falsy or unknown current user, otherwise true exactly when the profile's user id is in the current user's `following` list |
| `Profiles.FindPair` | src/profiles/profiles.service.ts:50-67 | 'Target user not found' whenever the username is unknown, even if the current user is missing too; 'Current user not found' only after that; success exactly when both exist, giving the lowest id with that username |
| `Profiles.Without` | src/profiles/profiles.service.ts:102 | the filtered list does not contain the target, contains every other id exactly when the original did, and is no longer than the original |
| `Profiles.WithoutConcat` | src/profiles/profiles.service.ts:102 | filtering distributes over concatenation, so kept entries stay in order |
| `Profiles.WithoutAbsent` | src/profiles/profiles.service.ts:102 | filtering out an id that does not occur leaves the list unchanged |
| `Profiles.WithoutCounts` | src/profiles/profiles.service.ts:102 | the filtered list's multiset is the original's with the target's count set to zero |
| `Profiles.FollowList` | src/profiles/profiles.service.ts:69-74 | Conflict 'Already following this user' exactly when the target is listed; otherwise the old list with exactly the target appended, and a duplicate-free list stays duplicate-free |
| `Profiles.UnfollowList` | src/profiles/profiles.service.ts:98-103 | Conflict 'Not following this user' exactly when the target is not listed; otherwise every occurrence of the target is removed and all other entries are kept |
| `Profiles.FollowThenUnfollow` | src/profiles/profiles.service.ts:69-103 | following an id that was not listed and then unfollowing it restores the original list |
| `Profiles.UnfollowThenFollow` | src/profiles/profiles.service.ts:69-103 | on a duplicate-free list, unfollowing and then following again moves the target to the end |
| `Profiles.ProfilesService.FollowUser` | src/profiles/profiles.service.ts:50-77 | errors in `FindPair` order, then the Conflict, each with the table unchanged; otherwise only the current user's list changes, with the target appended and saved; the answer is `getProfile` on the saved state, with `following == true` when the profile belongs to the target |
| `Profiles.ProfilesService.UnfollowUser` | src/profiles/profiles.service.ts:79-106 | errors in `FindPair` order, then the Conflict, each with the table unchanged; otherwise only the current user's list changes, with the target filtered out and saved; the answer is `getProfile` on the saved state, with `following == false` when the profile belongs to the target |

## Left out

- Controllers that only delegate (users and profiles controllers, `login`, `register` and the `me` endpoint of the auth controller), bootstrap, module wiring, Swagger metadata and DTO validation decorators: they hold no logic of their own.
- `redisTest` (src/auth/auth.controller.ts:153-162) calls `testRedisConnection`, which `AuthService` (src/auth/auth.service.ts:14-96) does not define, so there is nothing to model. The route guards on `login`, `me` and `logout` are not modelled either.
- The internals of bcryptjs, the JWT library and the cache manager: bcryptjs and the JWT library are function values, the cache is a map. `sign` depends on the clock through its `iat` claim, so each call gets the signer in effect at that moment.
- Asynchrony and concurrent requests: each service call is one atomic step.
- `createdAt` and `updatedAt` columns and response fields: they come from the database clock.
- Repository failures other than `save` in `create`: they propagate unchanged and are not modelled. A failure of any of them would reach the caller as an exception in place of the modelled result. They are:
  - `findOne` in `create`, `findOne`, `findByEmail`, `update`, `remove`, `getProfile`, `followUser` and `unfollowUser`;
  - `find` in `findAll`;
  - `remove` in `remove`;
  - `save` in `update`, `followUser` and `unfollowUser` (src/profiles/profiles.service.ts:74 and 103);
  - the profile query in `getProfile`.
- A throwing `sign` inside `register` would also become 'Registration failed', but `sign` is total in this model.
- Database unique constraints and cascades are not visible in the source and are not modelled. This covers a constraint rejecting an `update` that duplicates an email or username, and the removal of a user's follow rows or profile along with the user. It also covers the profile row that `create` saves with the new user.
- `exp` values that are not whole numbers, and JavaScript floating-point arithmetic in `exp * 1000`: the model uses unbounded integers.
- `Cache.Put`: requires a positive TTL, because the code calls `set` only with a positive TTL and the cache manager's handling of other values is not visible.
