/**
 * The database initialisation script: create the tables, then create the
 * default admin account unless a row named `admin` already exists.
 */
module InitDb {
  import opened Hasher
  import opened Auth

  const AdminUsername: string := "admin"
  const DefaultAdminPassword: string := "changeme123"

  /** The ids of the rows carrying `name`. */
  function NamedIds(rows: map<int, UserRow>, name: string): set<int> {
    set id | id in rows && rows[id].username == name
  }

  /** `SELECT COUNT(*) FROM users WHERE username = ?`. */
  function CountNamed(rows: map<int, UserRow>, name: string): (n: nat)
    ensures n > 0 <==> UsernameTaken(rows, name)
  {
    var ids := NamedIds(rows, name);
    if UsernameTaken(rows, name) then
      var id :| id in rows && rows[id].username == name;
      assert id in ids;
      |ids|
    else
      assert forall x :: x !in ids;
      0
  }

  /** Under the UNIQUE constraint a name occurs in at most one row. */
  lemma UniqueNameCount(rows: map<int, UserRow>, name: string)
    requires UniqueUsernames(rows)
    ensures CountNamed(rows, name) == (if UsernameTaken(rows, name) then 1 else 0)
  {
    if UsernameTaken(rows, name) {
      var id :| id in rows && rows[id].username == name;
      assert id in NamedIds(rows, name);
      forall x | x in NamedIds(rows, name)
        ensures x == id
      {
      }
      assert NamedIds(rows, name) == {id};
    }
  }

  /**
   * `main`: returns the process exit status. The tables are created first;
   * a present `admin` row means nothing is created; otherwise the default
   * admin is created once, and a failed creation exits with status 1.
   */
  method Bootstrap(t: UsersTable, salt: string, now: int) returns (exitStatus: int)
    requires t.Valid()
    modifies t
    ensures t.Valid() && t.created
    ensures exitStatus == 0
    ensures UsernameTaken(old(t.rows), AdminUsername) ==> t.rows == old(t.rows) && t.lastId == old(t.lastId)
    ensures !UsernameTaken(old(t.rows), AdminUsername) ==>
      t.lastId == old(t.lastId) + 1
      && t.rows == old(t.rows)[t.lastId := UserRow(AdminUsername, HashPassword(DefaultAdminPassword, salt), AdminRole, now, now)]
    ensures CountNamed(t.rows, AdminUsername) == 1
  {
    t.InitDatabase();
    var count := CountNamed(t.rows, AdminUsername);
    if count > 0 {
      UniqueNameCount(t.rows, AdminUsername);
      return 0;
    }
    var ok := t.CreateUser(AdminUsername, DefaultAdminPassword, salt, now, AdminRole);
    if !ok {
      return 1;
    }
    assert t.rows[t.lastId].username == AdminUsername;
    UniqueNameCount(t.rows, AdminUsername);
    return 0;
  }

  /** Running the script twice leaves exactly one `admin` row, the one the first run left. */
  method BootstrapTwice(t: UsersTable, salt1: string, salt2: string, now1: int, now2: int)
    returns (first: int, second: int)
    requires t.Valid()
    modifies t
    ensures first == 0 && second == 0
    ensures CountNamed(t.rows, AdminUsername) == 1
  {
    first := Bootstrap(t, salt1, now1);
    ghost var afterFirst := t.rows;
    second := Bootstrap(t, salt2, now2);
    assert t.rows == afterFirst;
  }

  /** The default admin can log in with the default password right after bootstrap on an empty table. */
  method BootstrapThenLogin(t: UsersTable, salt: string, now: int) returns (r: Common.Option<Common.UserDict>)
    requires t.Valid() && t.rows == map[]
    modifies t
    ensures r.Some? && IsAdmin(r.value)
  {
    var status := Bootstrap(t, salt, now);
    VerifyAfterHash(DefaultAdminPassword, salt);
    assert t.rows[t.lastId].username == AdminUsername;
    r := t.AuthenticateUser(AdminUsername, DefaultAdminPassword);
  }
}
