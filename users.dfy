/** The users table and the user service that reads and writes it. */
module Users {
  import opened Common

  /** A row of the users table. `bio` and `image` are the user's profile
      columns; `following` lists the ids of the users this user follows. */
  datatype User = User(id: int, email: string, username: string, password: string,
                       bio: string, image: string, following: seq<int>)

  /** A user as the services hand it out: every column but the password. */
  datatype UserResponse = UserResponse(id: int, email: string, username: string,
                                       bio: string, image: string)

  datatype CreateUserDto = CreateUserDto(username: string, email: string, password: string)

  /** Every field is optional; `bio` and `image` are accepted but never applied. */
  datatype UpdateUserDto = UpdateUserDto(username: Option<string>, email: Option<string>,
                                         password: Option<string>, bio: Option<string>,
                                         image: Option<string>)

  /** bcryptjs as the services use it. `hash` is salted, so the salt is an
      argument: hashing the same password twice need not give the same hash. */
  datatype Bcrypt = Bcrypt(hash: (string, nat) -> string, compare: (string, string) -> bool)

  /** The repository: the stored rows by primary key, and the next key the
      database will generate. */
  datatype Table = Table(rows: map<int, User>, nextId: int)

  /** Keys are generated from 1 upwards and every row carries its own key. */
  predicate Valid(t: Table)
  {
    1 <= t.nextId &&
    forall k :: k in t.rows ==> 1 <= k < t.nextId && t.rows[k].id == k
  }

  /** A `where` condition of the repository's `findOne`. */
  datatype Lookup = ByEmail(email: string) | ByUsername(username: string)

  predicate Matches(u: User, key: Lookup)
  {
    match key
    case ByEmail(e) => u.email == e
    case ByUsername(n) => u.username == n
  }

  /** Some stored user satisfies the condition. */
  predicate Taken(t: Table, key: Lookup)
  {
    exists k :: k in t.rows && Matches(t.rows[k], key)
  }

  /** The user without its password column. */
  function Strip(u: User): UserResponse
  {
    UserResponse(u.id, u.email, u.username, u.bio, u.image)
  }

  /** The keys of `rows` in [lo, hi), in ascending order. */
  function KeysIn(rows: map<int, User>, lo: int, hi: int): (ks: seq<int>)
    ensures forall i :: 0 <= i < |ks| ==> lo <= ks[i] < hi && ks[i] in rows
    ensures forall i, j :: 0 <= i < j < |ks| ==> ks[i] < ks[j]
    ensures forall k :: lo <= k < hi && k in rows ==> k in ks
    decreases hi - lo
  {
    if lo >= hi then []
    else if lo in rows then [lo] + KeysIn(rows, lo + 1, hi)
    else KeysIn(rows, lo + 1, hi)
  }

  /** The first key in [lo, hi), scanning upwards, whose row meets the condition. */
  function ScanFrom(rows: map<int, User>, lo: int, hi: int, key: Lookup): (r: Option<int>)
    ensures r.Some? ==> lo <= r.value < hi && r.value in rows && Matches(rows[r.value], key)
    ensures r.Some? ==> forall k :: lo <= k < r.value && k in rows ==> !Matches(rows[k], key)
    ensures r.None? <==> forall k :: lo <= k < hi && k in rows ==> !Matches(rows[k], key)
    decreases hi - lo
  {
    if lo >= hi then None
    else if lo in rows && Matches(rows[lo], key) then Some(lo)
    else ScanFrom(rows, lo + 1, hi, key)
  }

  /** `findOne({ where })` on a non-key column: the stored user with the
      lowest id that meets the condition, or nothing when none does. */
  function FindBy(t: Table, key: Lookup): (r: Option<User>)
    requires Valid(t)
    ensures r.None? <==> !Taken(t, key)
    ensures r.Some? ==> r.value.id in t.rows && t.rows[r.value.id] == r.value && Matches(r.value, key)
    ensures r.Some? ==> forall k :: k in t.rows && Matches(t.rows[k], key) ==> r.value.id <= k
  {
    match ScanFrom(t.rows, 1, t.nextId, key)
    case None => None
    case Some(k) => Some(t.rows[k])
  }

  /** `findByEmail`: the stored row itself, password included. */
  function FindByEmail(t: Table, email: string): (r: Option<User>)
    requires Valid(t)
    ensures r.None? <==> forall k :: k in t.rows ==> t.rows[k].email != email
    ensures r.Some? ==> r.value.email == email && r.value.id in t.rows && t.rows[r.value.id] == r.value
  {
    FindBy(t, ByEmail(email))
  }

  /** `findAll`: every stored user, in ascending id order, without passwords. */
  function FindAll(t: Table): (r: seq<UserResponse>)
    requires Valid(t)
    ensures forall k :: k in t.rows ==> Strip(t.rows[k]) in r
    ensures forall i :: 0 <= i < |r| ==> r[i].id in t.rows && r[i] == Strip(t.rows[r[i].id])
    ensures forall i, j :: 0 <= i < j < |r| ==> r[i].id < r[j].id
  {
    var ks := KeysIn(t.rows, 1, t.nextId);
    var r := seq(|ks|, i requires 0 <= i < |ks| => Strip(t.rows[ks[i]]));
    StrippedRowsCover(t, ks, r);
    r
  }

  lemma StrippedRowsCover(t: Table, ks: seq<int>, r: seq<UserResponse>)
    requires Valid(t)
    requires forall k :: k in t.rows ==> k in ks
    requires forall i :: 0 <= i < |ks| ==> ks[i] in t.rows
    requires |r| == |ks| && forall i :: 0 <= i < |ks| ==> r[i] == Strip(t.rows[ks[i]])
    ensures forall k :: k in t.rows ==> Strip(t.rows[k]) in r
  {
    forall k | k in t.rows
      ensures Strip(t.rows[k]) in r
    {
      var i :| 0 <= i < |ks| && ks[i] == k;
      assert r[i] == Strip(t.rows[k]);
    }
  }

  /** `findOne(id)`: the user without its password, or NotFound. */
  function FindOne(t: Table, id: int): (r: Result<UserResponse>)
    ensures r.Err? <==> id !in t.rows
    ensures r.Err? ==> r.error == NotFound("User not found")
    ensures r.Ok? ==> r.value == Strip(t.rows[id])
  {
    if id in t.rows then Ok(Strip(t.rows[id])) else Err(NotFound("User not found"))
  }

  /** The table after `create` has saved a new user under the next key, with
      an empty profile and no followed users. */
  function Inserted(t: Table, dto: CreateUserDto, hashed: string): Table
  {
    Table(t.rows[t.nextId := User(t.nextId, dto.email, dto.username, hashed, "", "", [])],
          t.nextId + 1)
  }

  /** After a user has been inserted with an email nobody else had, looking
      that email up finds exactly the new user. */
  lemma FindByEmailAfterInsert(t: Table, dto: CreateUserDto, hashed: string)
    requires Valid(t)
    requires !Taken(t, ByEmail(dto.email))
    ensures Valid(Inserted(t, dto, hashed))
    ensures FindByEmail(Inserted(t, dto, hashed), dto.email)
            == Some(User(t.nextId, dto.email, dto.username, hashed, "", "", []))
  {
    var t' := Inserted(t, dto, hashed);
    assert t.nextId in t'.rows && Matches(t'.rows[t.nextId], ByEmail(dto.email));
  }

  /** The user service: owns the users repository. */
  class UsersService {
    var table: Table

    constructor()
      ensures table == Table(map[], 1)
    {
      table := Table(map[], 1);
    }

    /** `create`: email uniqueness is checked before username uniqueness; on
        success the row stores the hash of the password, never the password
        itself, and starts with an empty bio and image. `saveFails` is the
        outcome of the repository's `save` (or of hashing), which may throw. */
    method Create(dto: CreateUserDto, bcrypt: Bcrypt, salt: nat, saveFails: bool)
      returns (r: Result<UserResponse>)
      requires Valid(table)
      modifies this
      ensures Valid(table)
      ensures Taken(old(table), ByEmail(dto.email)) ==>
                r == Err(Conflict("Email already exists")) && table == old(table)
      ensures !Taken(old(table), ByEmail(dto.email)) && Taken(old(table), ByUsername(dto.username)) ==>
                r == Err(Conflict("Username already exists")) && table == old(table)
      ensures !Taken(old(table), ByEmail(dto.email)) && !Taken(old(table), ByUsername(dto.username)) && saveFails ==>
                r == Err(Internal) && table == old(table)
      ensures !Taken(old(table), ByEmail(dto.email)) && !Taken(old(table), ByUsername(dto.username)) && !saveFails ==>
                && table == Inserted(old(table), dto, bcrypt.hash(dto.password, salt))
                && table.rows[old(table).nextId].password == bcrypt.hash(dto.password, salt)
                && r == Ok(UserResponse(old(table).nextId, dto.email, dto.username, "", ""))
    {
      var existingUserByEmail := FindBy(table, ByEmail(dto.email));
      if existingUserByEmail.Some? {
        return Err(Conflict("Email already exists"));
      }
      var existingUserByUsername := FindBy(table, ByUsername(dto.username));
      if existingUserByUsername.Some? {
        return Err(Conflict("Username already exists"));
      }
      if saveFails {
        return Err(Internal);
      }
      var hashedPassword := bcrypt.hash(dto.password, salt);
      var id := table.nextId;
      var newUser := User(id, dto.email, dto.username, hashedPassword, "", "", []);
      table := Table(table.rows[id := newUser], id + 1);
      r := Ok(UserResponse(id, newUser.email, newUser.username, newUser.bio, newUser.image));
    }

    /** `update`: only a truthy email, username or password is applied (the
        password as a fresh hash); every other column, and every other user,
        stays as it was. */
    method Update(id: int, dto: UpdateUserDto, bcrypt: Bcrypt, salt: nat)
      returns (r: Result<UserResponse>)
      requires Valid(table)
      modifies this
      ensures Valid(table)
      ensures id !in old(table).rows ==> r == Err(NotFound("User not found")) && table == old(table)
      ensures id in old(table).rows ==> id in table.rows
      ensures id in old(table).rows ==>
                var u := old(table).rows[id];
                var v := table.rows[id];
                && table.nextId == old(table).nextId
                && table.rows == old(table).rows[id := v]
                && v.email == (if Truthy(dto.email) then dto.email.value else u.email)
                && v.username == (if Truthy(dto.username) then dto.username.value else u.username)
                && v.password == (if Truthy(dto.password) then bcrypt.hash(dto.password.value, salt) else u.password)
                && v.id == u.id && v.bio == u.bio && v.image == u.image && v.following == u.following
                && r == Ok(Strip(v))
    {
      if id !in table.rows {
        return Err(NotFound("User not found"));
      }
      var user := table.rows[id];
      if Truthy(dto.email) {
        user := user.(email := dto.email.value);
      }
      if Truthy(dto.username) {
        user := user.(username := dto.username.value);
      }
      if Truthy(dto.password) {
        user := user.(password := bcrypt.hash(dto.password.value, salt));
      }
      table := table.(rows := table.rows[id := user]);
      r := Ok(Strip(user));
    }

    /** `remove`: deletes exactly the user with that id, or throws NotFound. */
    method Remove(id: int) returns (r: Result<()>)
      requires Valid(table)
      modifies this
      ensures Valid(table)
      ensures id !in old(table).rows ==> r == Err(NotFound("User not found")) && table == old(table)
      ensures id in old(table).rows ==>
                && r == Ok(())
                && table.nextId == old(table).nextId
                && table.rows.Keys == old(table).rows.Keys - {id}
                && forall k :: k in table.rows ==> table.rows[k] == old(table).rows[k]
    {
      if id !in table.rows {
        return Err(NotFound("User not found"));
      }
      table := table.(rows := table.rows - {id});
      r := Ok(());
    }
  }
}
