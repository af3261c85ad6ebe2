/**
 * The auth service: the `users` table and the operations on it, the role
 * check, and the authorization gates over the session record.
 */
module Auth {
  import opened Common
  import opened Hasher
  import Collation
  import Session

  const DefaultRole: string := "user"
  const AdminRole: string := "admin"

  /** One row of `users`; the `id` primary key is the row's key in the table map. */
  datatype UserRow = UserRow(
    username: string,
    passwordHash: PasswordHash,
    role: string,
    createdAt: int,
    updatedAt: int)

  /** One entry of `get_all_users`: the columns `id, username, role, created_at`, no hash. */
  datatype UserListing = UserListing(id: int, username: string, role: string, createdAt: int)

  /** The UNIQUE constraint on `username`. */
  ghost predicate UniqueUsernames(rows: map<int, UserRow>) {
    forall i, j :: i in rows && j in rows && rows[i].username == rows[j].username ==> i == j
  }

  predicate UsernameTaken(rows: map<int, UserRow>, username: string) {
    exists id :: id in rows && rows[id].username == username
  }

  /** Some row carries `username` and its hash verifies `password`. */
  predicate CredentialsVerify(rows: map<int, UserRow>, username: string, password: string) {
    exists id :: id in rows && rows[id].username == username && VerifyPassword(password, rows[id].passwordHash)
  }

  /** The public fields of a row, as `authenticate_user` returns them. */
  function PublicUser(id: int, row: UserRow): (d: UserDict)
    ensures d.Keys == {"id", "username", "role"} && "password_hash" !in d
    ensures HasIdentity(d) && d["id"] == IntVal(id) && d["username"] == StrVal(row.username)
    ensures d["role"] == StrVal(row.role)
  {
    map["id" := IntVal(id), "username" := StrVal(row.username), "role" := StrVal(row.role)]
  }

  function Listing(id: int, row: UserRow): UserListing {
    UserListing(id, row.username, row.role, row.createdAt)
  }

  /** Strictly ascending by username under the BINARY collation. */
  predicate SortedByUsername(xs: seq<UserListing>) {
    forall i, j :: 0 <= i < j < |xs| ==> Collation.Less(xs[i].username, xs[j].username)
  }

  /** Place `x` in front of the first entry whose username is greater. */
  function InsertByUsername(xs: seq<UserListing>, x: UserListing): (r: seq<UserListing>)
    ensures |r| == |xs| + 1
    ensures forall e :: e in r <==> e in xs || e == x
    ensures multiset(r) == multiset(xs) + multiset{x}
  {
    if xs == [] then [x]
    else if Collation.Less(x.username, xs[0].username) then [x] + xs
    else
      assert xs == [xs[0]] + xs[1..];
      [xs[0]] + InsertByUsername(xs[1..], x)
  }

  lemma {:induction false} InsertKeepsSorted(xs: seq<UserListing>, x: UserListing)
    requires SortedByUsername(xs)
    requires forall e :: e in xs ==> e.username != x.username
    ensures SortedByUsername(InsertByUsername(xs, x))
  {
    if xs == [] {
    } else if Collation.Less(x.username, xs[0].username) {
      forall j | 0 < j < |xs|
        ensures Collation.Less(x.username, xs[j].username)
      {
        Collation.LessTransitive(x.username, xs[0].username, xs[j].username);
      }
    } else {
      Collation.LessTrichotomous(x.username, xs[0].username);
      InsertKeepsSorted(xs[1..], x);
      var r := InsertByUsername(xs, x);
      assert r == [xs[0]] + InsertByUsername(xs[1..], x);
      forall j | 0 < j < |r|
        ensures Collation.Less(xs[0].username, r[j].username)
      {
        assert r[j] in InsertByUsername(xs[1..], x);
      }
    }
  }

  /** `is_admin`: the `role` key is present and equals `'admin'`. */
  function IsAdmin(user: UserDict): (ok: bool)
    ensures "role" !in user ==> !ok
    ensures ok ==> user["role"].StrVal? && user["role"].s == "admin"
  {
    "role" in user && user["role"] == StrVal(AdminRole)
  }

  /** For a dictionary built from a row, `is_admin` is exactly the row's role test. */
  lemma IsAdminOfPublicUser(id: int, row: UserRow)
    ensures IsAdmin(PublicUser(id, row)) <==> row.role == AdminRole
    ensures !IsAdmin(map k | k in PublicUser(id, row) && k != "role" :: PublicUser(id, row)[k])
  {
  }

  /** `require_auth`: the `authenticated` key is present and true. The login time is not consulted. */
  function RequireAuth(s: Session.SessionState): (ok: bool)
    reads s
    ensures ok <==> s.authenticated == Val(true)
    ensures s.authenticated == Absent ==> !ok
  {
    s.authenticated.Present() && IsTrue(s.authenticated)
  }

  /** `require_admin`: authenticated, and the session user is an admin. */
  function RequireAdmin(s: Session.SessionState): (ok: bool)
    reads s
    requires RequireAuth(s) ==> s.user.Val?
    ensures ok <==> RequireAuth(s) && IsAdmin(s.user.v)
    ensures !RequireAuth(s) ==> !ok
  {
    if !RequireAuth(s) then false
    else IsAdmin(s.user.v)
  }

  /** `logout`: delete the `authenticated` and `user` keys if present; `login_time` stays. */
  method Logout(s: Session.SessionState)
    modifies s
    ensures s.authenticated == Absent && s.user == Absent
    ensures s.loginTime == old(s.loginTime)
  {
    var keys := ["authenticated", "user"];
    for k := 0 to |keys|
      invariant k >= 1 ==> s.authenticated == Absent
      invariant k >= 2 ==> s.user == Absent
      invariant s.loginTime == old(s.loginTime)
    {
      if keys[k] == "authenticated" && s.authenticated.Present() {
        s.authenticated := Absent;
      } else if keys[k] == "user" && s.user.Present() {
        s.user := Absent;
      }
    }
  }

  /**
   * The `users` table. `created` records whether `CREATE TABLE` has run;
   * `lastId` is the AUTOINCREMENT sequence value, the largest id ever assigned.
   */
  class UsersTable {
    var created: bool
    var rows: map<int, UserRow>
    var lastId: nat

    ghost predicate Valid()
      reads this
    {
      && (!created ==> rows == map[])
      && (forall id :: id in rows ==> 1 <= id <= lastId)
      && UniqueUsernames(rows)
    }

    /** A database file in which the table has not been created. */
    constructor ()
      ensures Valid() && !created && rows == map[] && lastId == 0
    {
      created, rows, lastId := false, map[], 0;
    }

    /** `init_database`: `CREATE TABLE IF NOT EXISTS`, keeping any existing rows. */
    method InitDatabase()
      requires Valid()
      modifies this
      ensures Valid() && created
      ensures rows == old(rows) && lastId == old(lastId)
    {
      created := true;
    }

    /**
     * `create_user`: insert a row with a fresh id, the salted hash and the
     * role. Returns false, with nothing changed, when the username is taken
     * or the table is missing (the exception is caught).
     */
    method CreateUser(username: string, password: string, salt: string, now: int, role: string := DefaultRole)
      returns (ok: bool)
      requires Valid()
      modifies this
      ensures Valid() && created == old(created)
      ensures ok <==> old(created) && !UsernameTaken(old(rows), username)
      ensures ok ==> (lastId == old(lastId) + 1 && lastId !in old(rows)
                      && rows == old(rows)[lastId := UserRow(username, HashPassword(password, salt), role, now, now)])
      ensures !ok ==> rows == old(rows) && lastId == old(lastId)
    {
      if !created || UsernameTaken(rows, username) {
        return false;
      }
      lastId := lastId + 1;
      rows := rows[lastId := UserRow(username, HashPassword(password, salt), role, now, now)];
      return true;
    }

    /**
     * `update_user_password`: replace the hash and `updated_at` of the row
     * with that id. Returns true whenever the table exists, also when no row
     * has that id; then nothing changes.
     */
    method UpdateUserPassword(userId: int, newPassword: string, salt: string, now: int)
      returns (ok: bool)
      requires Valid()
      modifies this
      ensures Valid() && created == old(created) && lastId == old(lastId)
      ensures ok == old(created)
      ensures userId in old(rows) ==>
        rows == old(rows)[userId := old(rows)[userId].(passwordHash := HashPassword(newPassword, salt), updatedAt := now)]
      ensures userId !in old(rows) ==> rows == old(rows)
    {
      if !created {
        return false;
      }
      if userId in rows {
        rows := rows[userId := rows[userId].(passwordHash := HashPassword(newPassword, salt), updatedAt := now)];
      }
      return true;
    }

    /** `delete_user`: remove the row with that id, if any. Returns true whenever the table exists. */
    method DeleteUser(userId: int) returns (ok: bool)
      requires Valid()
      modifies this
      ensures Valid() && created == old(created) && lastId == old(lastId)
      ensures ok == old(created)
      ensures rows == old(rows) - {userId}
    {
      if !created {
        return false;
      }
      rows := rows - {userId};
      return true;
    }

    /**
     * `authenticate_user`: the public fields of the row with that username,
     * only when the password verifies against that row's hash; None otherwise.
     */
    method AuthenticateUser(username: string, password: string) returns (r: Option<UserDict>)
      requires Valid() && created
      ensures r.Some? <==> CredentialsVerify(rows, username, password)
      ensures r.Some? ==> exists id :: id in rows && rows[id].username == username
                                      && r.value == PublicUser(id, rows[id])
      ensures r.Some? ==> "password_hash" !in r.value && r.value.Keys == {"id", "username", "role"}
    {
      if !UsernameTaken(rows, username) {
        return None;
      }
      var id :| id in rows && rows[id].username == username;
      if VerifyPassword(password, rows[id].passwordHash) {
        return Some(PublicUser(id, rows[id]));
      }
      return None;
    }

    /** `get_all_users`: every row, once, as its listing, ascending by username. */
    method GetAllUsers() returns (r: seq<UserListing>)
      requires Valid() && created
      ensures |r| == |rows|
      ensures forall i :: 0 <= i < |r| ==> r[i].id in rows && r[i] == Listing(r[i].id, rows[r[i].id])
      ensures forall id :: id in rows ==> Listing(id, rows[id]) in r
      ensures SortedByUsername(r)
    {
      var remaining := rows.Keys;
      r := [];
      while remaining != {}
        invariant remaining <= rows.Keys
        invariant |r| + |remaining| == |rows|
        invariant forall e :: e in r ==> e.id in rows.Keys - remaining && e == Listing(e.id, rows[e.id])
        invariant forall id :: id in rows.Keys - remaining ==> Listing(id, rows[id]) in r
        invariant SortedByUsername(r)
        decreases |remaining|
      {
        var id := Pick(remaining);
        var x := Listing(id, rows[id]);
        forall e | e in r
          ensures e.username != x.username
        {
          assert e.id != id;
        }
        InsertKeepsSorted(r, x);
        r := InsertByUsername(r, x);
        remaining := remaining - {id};
      }
      assert forall i :: 0 <= i < |r| ==> r[i] in r;
    }
  }

  /**
   * Create a user, then log in with the same password and with another one:
   * the first login yields the new row's public fields, the second nothing.
   */
  method CreateThenAuthenticate(t: UsersTable, username: string, password: string, other: string,
                                salt: string, now: int)
    returns (created: bool, good: Option<UserDict>, bad: Option<UserDict>)
    requires t.Valid() && t.created && !UsernameTaken(t.rows, username)
    requires other != password
    modifies t
    ensures created && t.lastId == old(t.lastId) + 1
    ensures good == Some(map["id" := IntVal(t.lastId), "username" := StrVal(username), "role" := StrVal(DefaultRole)])
    ensures bad == None
  {
    created := t.CreateUser(username, password, salt, now);
    var row := t.rows[t.lastId];
    VerifyAfterHash(password, salt);
    VerifyRejectsOther(password, other, salt);
    assert row.username == username && VerifyPassword(password, row.passwordHash);
    good := t.AuthenticateUser(username, password);
    assert good.value == PublicUser(t.lastId, row);
    bad := t.AuthenticateUser(username, other);
  }

  /** Creating the same username twice: the second call fails and one row carries that name. */
  method CreateTwice(t: UsersTable, username: string, p1: string, p2: string, salt: string, now: int)
    returns (first: bool, second: bool)
    requires t.Valid() && t.created && !UsernameTaken(t.rows, username)
    modifies t
    ensures first && !second
    ensures t.lastId in t.rows && t.rows[t.lastId].username == username
    ensures forall id :: id in t.rows && t.rows[id].username == username ==> id == t.lastId
  {
    first := t.CreateUser(username, p1, salt, now);
    assert t.rows[t.lastId].username == username;
    second := t.CreateUser(username, p2, salt, now);
  }

  /** After `delete_user`, the deleted user can no longer log in. */
  method DeleteThenAuthenticate(t: UsersTable, userId: int, password: string) returns (r: Option<UserDict>)
    requires t.Valid() && t.created && userId in t.rows
    modifies t
    ensures r == None
  {
    var name := t.rows[userId].username;
    var ok := t.DeleteUser(userId);
    r := t.AuthenticateUser(name, password);
  }
}
