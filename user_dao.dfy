/** `dao.UserDAO`: the `users` table. `fails` is a `SQLException` from the
    call's own connection or statement. */
module UserDao {
  import opened Basics
  import opened Tables
  import opened Database
  import opened UserModel

  /** `u` is the user built from row `row` with key `id`: same id, name and
      email, and the variant named by the role column. A listener built
      from a row has no playlists loaded. */
  ghost predicate Describes(u: User, id: int, row: UserRow)
    reads if u.Listener? then {u.playlists} else {}
  {
    && u.id == id && u.name == row.name && u.email == row.email
    && RoleFromName(row.role) == Some(RoleOf(u))
    && (u.Listener? ==> u.playlists.items == [])
  }

  /** The `switch (Role.valueOf(role))` that each query applies to a row:
      `Admin` for "ADMIN", `Artist` for "ARTIST", `Listener` otherwise; a
      role column that names no role makes `valueOf` throw
      `IllegalArgumentException`. */
  method ToUser(id: int, row: UserRow) returns (r: Result<User>)
    ensures r.Err? <==> RoleFromName(row.role).None?
    ensures r.Err? ==> r.error == IllegalArgument
    ensures r.Ok? ==> Describes(r.value, id, row)
    ensures r.Ok? && r.value.Listener? ==> fresh(r.value.playlists)
  {
    match RoleFromName(row.role)
    case None =>
      r := Err(IllegalArgument);
    case Some(role) =>
      match role
      case ADMIN =>
        r := Ok(Admin(id, row.name, row.email));
      case ARTIST =>
        r := Ok(Artist(id, row.name, row.email));
      case LISTENER =>
        var u := NewListener(id, row.name, row.email);
        r := Ok(u);
  }

  /** `createUser(name, email, hash, role)`: one new row holding
      `role.name()`; the result is its generated key, or -1 when no key
      comes back. The UNIQUE constraint rejects an email already stored,
      with a `SQLException` and no change. */
  method CreateUser(server: Server, name: string, email: string, passwordHash: string, role: Role,
                    fails: bool, keyReturned: bool)
    returns (r: Result<int>)
    modifies server
    ensures r.Ok? <==> !fails && !EmailTaken(old(server.store), email)
    ensures r.Err? ==> r.error == SqlException && server.store == old(server.store)
    ensures r.Ok? ==> server.store == InsertUserRow(old(server.store), UserRow(name, email, passwordHash, RoleName(role))).value
    ensures r.Ok? ==> r.value == (if keyReturned then old(server.store.nextUserId) else -1)
    ensures old(server.Valid()) ==> server.Valid()
    ensures old(server.Valid()) && r.Ok? && r.value != -1 ==>
      r.value >= 1 && r.value !in old(server.store.users)
  {
    if fails {
      return Err(SqlException);
    }
    var row := UserRow(name, email, passwordHash, RoleName(role));
    match InsertUserRow(server.store, row)
    case None =>
      r := Err(SqlException);
    case Some(t) =>
      var id := server.store.nextUserId;
      if server.Valid() {
        InsertUserConsistent(server.store, row);
      }
      server.store := t;
      r := Ok(if keyReturned then id else -1);
  }

  /** `findByEmail(email)`: the user stored under that email, if any. On
      stored tables the role column always names a role, so the lookup
      never throws `IllegalArgumentException` there. */
  method FindByEmail(server: Server, email: string, fails: bool) returns (r: Result<Option<User>>)
    ensures fails ==> r == Err(SqlException)
    ensures !fails && UserByEmail(server.store, email).None? ==> r == Ok(None)
    ensures !fails && UserByEmail(server.store, email).Some? ==>
      var (id, row) := UserByEmail(server.store, email).value;
      && (r.Err? <==> RoleFromName(row.role).None?)
      && (r.Ok? ==> r.value.Some? && Describes(r.value.value, id, row) && r.value.value.email == email)
    ensures r.Err? && r.error == IllegalArgument ==> !server.Valid()
    ensures r.Ok? && r.value.Some? && r.value.value.Listener? ==> fresh(r.value.value.playlists)
  {
    if fails {
      return Err(SqlException);
    }
    match UserByEmail(server.store, email)
    case None =>
      r := Ok(None);
    case Some((id, row)) =>
      var u := ToUser(id, row);
      match u
      case Err(e) =>
        r := Err(e);
      case Ok(user) =>
        r := Ok(Some(user));
  }

  /** What `verifyPassword(email, hash)` answers: whether the first row
      with that email stores exactly that hash. No row gives false. */
  predicate StoredHashMatches(s: Store, email: string, passwordHash: string) {
    match UserByEmail(s, email)
    case None => false
    case Some((_, row)) => row.passwordHash == passwordHash
  }

  /** On stored tables that is: some user has that email and that hash. */
  lemma StoredHashMatchesIff(s: Store, email: string, passwordHash: string)
    requires Consistent(s)
    ensures StoredHashMatches(s, email, passwordHash) <==>
      exists id :: id in s.users && s.users[id].email == email && s.users[id].passwordHash == passwordHash
  {
    if id :| id in s.users && s.users[id].email == email && s.users[id].passwordHash == passwordHash {
      UserByEmailFinds(s, id);
    }
  }

  method VerifyPassword(server: Server, email: string, passwordHash: string, fails: bool)
    returns (r: Result<bool>)
    ensures fails ==> r == Err(SqlException)
    ensures !fails ==> r == Ok(StoredHashMatches(server.store, email, passwordHash))
  {
    if fails {
      return Err(SqlException);
    }
    match UserByEmail(server.store, email)
    case None =>
      r := Ok(false);
    case Some((_, row)) =>
      r := Ok(row.passwordHash == passwordHash);
  }

  /** `getAllUsers()`: one user per stored row, in key order, each with the
      variant its role column names. A row whose role names no role ends
      the call with `IllegalArgumentException`; on stored tables none does. */
  method GetAllUsers(server: Server, fails: bool) returns (r: Result<seq<User>>)
    ensures fails ==> r == Err(SqlException)
    ensures !fails ==> (r.Err? <==> exists i :: 0 <= i < |UserQuery(server.store)|
                                       && RoleFromName(UserQuery(server.store)[i].1.role).None?)
    ensures r.Err? && r.error == IllegalArgument ==> !server.Valid()
    ensures r.Ok? ==> var rows := UserQuery(server.store);
      |r.value| == |rows|
      && forall i :: 0 <= i < |rows| ==> Describes(r.value[i], rows[i].0, rows[i].1)
  {
    if fails {
      return Err(SqlException);
    }
    var rows := UserQuery(server.store);
    var out: seq<User> := [];
    var i := 0;
    while i < |rows|
      invariant 0 <= i <= |rows| && |out| == i
      invariant forall j :: 0 <= j < i ==> Describes(out[j], rows[j].0, rows[j].1)
      invariant forall j :: 0 <= j < i ==> RoleFromName(rows[j].1.role).Some?
    {
      var u := ToUser(rows[i].0, rows[i].1);
      if u.Err? {
        return Err(u.error);
      }
      out := out + [u.value];
      i := i + 1;
    }
    r := Ok(out);
  }

  /** `findById(id)`: the user with that key, if any, carrying the
      requested id. */
  method FindById(server: Server, id: int, fails: bool) returns (r: Result<Option<User>>)
    ensures fails ==> r == Err(SqlException)
    ensures !fails && id !in server.store.users ==> r == Ok(None)
    ensures !fails && id in server.store.users ==>
      && (r.Err? <==> RoleFromName(server.store.users[id].role).None?)
      && (r.Ok? ==> r.value.Some? && Describes(r.value.value, id, server.store.users[id]))
    ensures r.Err? && r.error == IllegalArgument ==> !server.Valid()
    ensures r.Ok? && r.value.Some? && r.value.value.Listener? ==> fresh(r.value.value.playlists)
  {
    if fails {
      return Err(SqlException);
    }
    match UserById(server.store, id)
    case None =>
      r := Ok(None);
    case Some(row) =>
      var u := ToUser(id, row);
      match u
      case Err(e) =>
        r := Err(e);
      case Ok(user) =>
        r := Ok(Some(user));
  }

  /** The role stored for a new user reads back as that role. */
  lemma StoredRoleRoundTrip(s: Store, name: string, email: string, passwordHash: string, role: Role)
    requires !EmailTaken(s, email)
    ensures var t := InsertUserRow(s, UserRow(name, email, passwordHash, RoleName(role))).value;
      RoleFromName(t.users[s.nextUserId].role) == Some(role)
  {
  }
}
