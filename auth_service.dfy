/** The authentication service: credential checks, token issue on login and
    registration, and a per-token blacklist written on logout. */
module Auth {
  import opened Common
  import opened Users
  import Cache

  /** The claims signed into a token. */
  datatype Payload = Payload(email: string, sub: int)

  /** The `exp` claim of a decoded token: absent, a number of seconds since
      the epoch (a NumericDate, section 4.1.4 of RFC 7519), or some other
      JSON value. */
  datatype ExpClaim = NoExp | NumericExp(seconds: int) | OtherExp

  datatype Claims = Claims(exp: ExpClaim)

  /** The JWT service. `sign` depends on the moment of signing, so each call
      site receives the signer in effect at that moment. `decode` does not
      verify the signature; `None` stands both for a `null` result and for
      a thrown exception. */
  datatype Jwt = Jwt(sign: Payload -> string, decode: string -> Option<Claims>)

  datatype LoginDto = LoginDto(email: string, password: string)

  /** The `user` object of a login or registration response. */
  datatype AuthUser = AuthUser(email: string, token: string, username: string,
                               bio: string, image: string)

  /** `validateUser`: the user without its password when the email is known
      and the password matches its stored hash; otherwise the same `null`,
      whichever of the two checks failed. */
  function ValidateUser(t: Table, email: string, password: string, bcrypt: Bcrypt): (r: Option<UserResponse>)
    requires Valid(t)
    ensures (forall k :: k in t.rows ==> t.rows[k].email != email) ==> r == None
    ensures FindByEmail(t, email).Some? && !bcrypt.compare(password, FindByEmail(t, email).value.password) ==> r == None
    ensures FindByEmail(t, email).Some? && bcrypt.compare(password, FindByEmail(t, email).value.password) ==>
              r == Some(Strip(FindByEmail(t, email).value))
    ensures r.Some? ==> exists k :: k in t.rows && t.rows[k].email == email
                                  && bcrypt.compare(password, t.rows[k].password)
                                  && r.value == Strip(t.rows[k])
  {
    match FindByEmail(t, email)
    case None => None
    case Some(user) =>
      if bcrypt.compare(password, user.password) then Some(Strip(user)) else None
  }

  /** The response body built from a user and its signed `{email, sub}` payload. */
  function Issue(u: UserResponse, jwt: Jwt): AuthUser
  {
    AuthUser(u.email, jwt.sign(Payload(u.email, u.id)), u.username, u.bio, u.image)
  }

  /** `login`: Unauthorized exactly when `validateUser` rejects the
      credentials; otherwise the token signs the user's email and id. */
  function Login(t: Table, dto: LoginDto, bcrypt: Bcrypt, jwt: Jwt): (r: Result<AuthUser>)
    requires Valid(t)
    ensures r.Err? <==> ValidateUser(t, dto.email, dto.password, bcrypt).None?
    ensures r.Err? ==> r.error == Unauthorized("Invalid credentials")
    ensures r.Ok? ==> exists k :: k in t.rows && t.rows[k].email == dto.email
                               && r.value.token == jwt.sign(Payload(dto.email, k))
                               && r.value.username == t.rows[k].username
                               && r.value.bio == t.rows[k].bio
                               && r.value.image == t.rows[k].image
    ensures r.Ok? ==> r.value.email == dto.email
  {
    match ValidateUser(t, dto.email, dto.password, bcrypt)
    case None => Err(Unauthorized("Invalid credentials"))
    case Some(user) => Ok(Issue(user, jwt))
  }

  /** What `register` makes of the outcome of the user service's `create`:
      a Conflict passes through unchanged, any other failure becomes
      Unauthorized 'Registration failed', and a created user gets a token. */
  function RegisterOutcome(created: Result<UserResponse>, jwt: Jwt): (r: Result<AuthUser>)
    ensures created.Err? && created.error.Conflict? ==> r == Err(created.error)
    ensures created.Err? && !created.error.Conflict? ==> r == Err(Unauthorized("Registration failed"))
    ensures created.Ok? ==> r == Ok(AuthUser(created.value.email,
                                             jwt.sign(Payload(created.value.email, created.value.id)),
                                             created.value.username, created.value.bio, created.value.image))
  {
    match created
    case Ok(user) => Ok(Issue(user, jwt))
    case Err(e) => if e.Conflict? then Err(e) else Err(Unauthorized("Registration failed"))
  }

  /** A user just inserted by `create` can log in with the password it
      registered with. Registration and the later login sign at different
      moments, so each has its own signer: the two responses agree on every
      field but the token, and the login token signs the new user's email
      and id. */
  lemma LoginAfterCreate(t: Table, dto: CreateUserDto, bcrypt: Bcrypt, salt: nat, jwtReg: Jwt, jwtLogin: Jwt)
    requires Valid(t)
    requires !Taken(t, ByEmail(dto.email))
    requires bcrypt.compare(dto.password, bcrypt.hash(dto.password, salt))
    ensures Valid(Inserted(t, dto, bcrypt.hash(dto.password, salt)))
    ensures var login := Login(Inserted(t, dto, bcrypt.hash(dto.password, salt)), LoginDto(dto.email, dto.password), bcrypt, jwtLogin);
            var reg := RegisterOutcome(Ok(UserResponse(t.nextId, dto.email, dto.username, "", "")), jwtReg);
            && login.Ok? && reg.Ok?
            && login.value == reg.value.(token := login.value.token)
            && login.value.token == jwtLogin.sign(Payload(dto.email, t.nextId))
  {
    FindByEmailAfterInsert(t, dto, bcrypt.hash(dto.password, salt));
  }

  /** The cache key of a blacklisted token. */
  function BlacklistKey(token: string): string
  {
    "blacklist:" + token
  }

  lemma BlacklistKeyInjective(a: string, b: string)
    requires BlacklistKey(a) == BlacklistKey(b)
    ensures a == b
  {
    assert a == BlacklistKey(a)[10..];
    assert b == BlacklistKey(b)[10..];
  }

  /** `exp` is a number and truthy (JavaScript's `0` is falsy). */
  predicate HasNumericExp(decoded: Option<Claims>)
  {
    decoded.Some? && decoded.value.exp.NumericExp? && decoded.value.exp.seconds != 0
  }

  function Max(a: int, b: int): int
  {
    if a < b then b else a
  }

  /** The time-to-live, in milliseconds, that `logout` computes for a token
      decoded at time `now` (milliseconds): `exp` counts seconds, hence the
      factor 1000. */
  function LogoutTtl(decoded: Option<Claims>, now: int): (ttl: int)
    ensures ttl >= 0
    ensures ttl > 0 <==> HasNumericExp(decoded) && decoded.value.exp.seconds * 1000 > now
    ensures ttl > 0 ==> ttl == decoded.value.exp.seconds * 1000 - now
  {
    if HasNumericExp(decoded) then
      var expiresAt := decoded.value.exp.seconds * 1000;
      Max(0, expiresAt - now)
    else 0
  }

  /** The cache after `logout(token)`: an entry `blacklist:<token>` with value
      'true' that expires when the token does, written only when the TTL is
      positive and the cache write succeeds; otherwise the cache as it was. */
  function LogoutStore(cache: Cache.Store, token: string, decoded: Option<Claims>, now: int, setFails: bool): (r: Cache.Store)
    ensures LogoutTtl(decoded, now) == 0 || setFails ==> r == cache
    ensures LogoutTtl(decoded, now) > 0 && !setFails ==>
              && r.Keys == cache.Keys + {BlacklistKey(token)}
              && r[BlacklistKey(token)] == Cache.Entry("true", decoded.value.exp.seconds * 1000)
              && forall k :: k in cache && k != BlacklistKey(token) ==> r[k] == cache[k]
  {
    var ttl := LogoutTtl(decoded, now);
    if ttl > 0 && !setFails then Cache.Put(cache, BlacklistKey(token), "true", ttl, now) else cache
  }

  /** `isTokenBlacklisted` when the cache answers: its value is exactly 'true'. */
  predicate Blacklisted(cache: Cache.Store, token: string, now: int)
  {
    Cache.Get(cache, BlacklistKey(token), now) == Some("true")
  }

  /** After logging out an unexpired token, the token reads as blacklisted
      at every moment until its own expiry. */
  lemma BlacklistedAfterLogout(cache: Cache.Store, token: string, decoded: Option<Claims>, now: int, later: int)
    requires LogoutTtl(decoded, now) > 0
    requires now <= later < decoded.value.exp.seconds * 1000
    ensures Blacklisted(LogoutStore(cache, token, decoded, now, false), token, later)
  {
  }

  /** Once the token's own expiry has passed, its blacklist entry has lapsed too. */
  lemma BlacklistLapsesAtExpiry(cache: Cache.Store, token: string, decoded: Option<Claims>, now: int, later: int)
    requires LogoutTtl(decoded, now) > 0
    requires decoded.value.exp.seconds * 1000 <= later
    ensures !Blacklisted(LogoutStore(cache, token, decoded, now, false), token, later)
  {
  }

  /** Logging out one token never changes whether another token is blacklisted. */
  lemma LogoutLeavesOtherTokens(cache: Cache.Store, token: string, other: string, decoded: Option<Claims>,
                                now: int, setFails: bool, later: int)
    requires other != token
    ensures Blacklisted(LogoutStore(cache, token, decoded, now, setFails), other, later)
            == Blacklisted(cache, other, later)
  {
    if BlacklistKey(other) == BlacklistKey(token) {
      BlacklistKeyInjective(other, token);
    }
  }

  /** The state the service keeps between requests: the cache manager's store. */
  class AuthService {
    const users: UsersService
    var cache: Cache.Store

    constructor(users: UsersService)
      ensures this.users == users && cache == map[]
    {
      this.users := users;
      cache := map[];
    }

    /** `register`: create the user, then sign `{email, sub: id}`; creation
        errors are mapped as `RegisterOutcome` states. */
    method Register(dto: CreateUserDto, bcrypt: Bcrypt, salt: nat, saveFails: bool, jwt: Jwt)
      returns (r: Result<AuthUser>)
      requires Valid(users.table)
      modifies users
      ensures Valid(users.table)
      ensures Taken(old(users.table), ByEmail(dto.email)) ==>
                r == Err(Conflict("Email already exists")) && users.table == old(users.table)
      ensures !Taken(old(users.table), ByEmail(dto.email)) && Taken(old(users.table), ByUsername(dto.username)) ==>
                r == Err(Conflict("Username already exists")) && users.table == old(users.table)
      ensures !Taken(old(users.table), ByEmail(dto.email)) && !Taken(old(users.table), ByUsername(dto.username)) && saveFails ==>
                r == Err(Unauthorized("Registration failed")) && users.table == old(users.table)
      ensures !Taken(old(users.table), ByEmail(dto.email)) && !Taken(old(users.table), ByUsername(dto.username)) && !saveFails ==>
                && users.table == Inserted(old(users.table), dto, bcrypt.hash(dto.password, salt))
                && r == Ok(AuthUser(dto.email, jwt.sign(Payload(dto.email, old(users.table).nextId)), dto.username, "", ""))
    {
      var created := users.Create(dto, bcrypt, salt, saveFails);
      r := RegisterOutcome(created, jwt);
    }

    /** `logout`: blacklist the token until its own expiry. Never throws: a
        token that does not decode, has no usable `exp` or has expired leaves
        the cache alone, and so does a failing cache write (`setFails`). */
    method Logout(token: string, jwt: Jwt, now: int, setFails: bool)
      modifies this
      ensures cache == LogoutStore(old(cache), token, jwt.decode(token), now, setFails)
    {
      var decoded := jwt.decode(token);
      if HasNumericExp(decoded) {
        var expiresAt := decoded.value.exp.seconds * 1000;
        var currentTime := now;
        var ttl := Max(0, expiresAt - currentTime);
        if ttl > 0 {
          if !setFails {
            cache := Cache.Put(cache, BlacklistKey(token), "true", ttl, now);
          }
        }
      }
    }

    /** `isTokenBlacklisted`: true only for a live entry whose value is exactly
        'true'; a failing cache read (`getFails`) answers false. */
    method IsTokenBlacklisted(token: string, now: int, getFails: bool) returns (b: bool)
      ensures b <==> !getFails && BlacklistKey(token) in cache
                     && cache[BlacklistKey(token)].value == "true"
                     && now < cache[BlacklistKey(token)].expiresAt
      ensures b ==> Blacklisted(cache, token, now)
    {
      if getFails {
        return false;
      }
      var result := Cache.Get(cache, BlacklistKey(token), now);
      b := result == Some("true");
    }
  }
}
