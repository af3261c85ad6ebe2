/**
 * The admin page's forms: the checks run before `create_user` and before
 * `update_user_password`, in the order the forms run them, and the user
 * list's rule that no delete action is offered for one's own row.
 */
module UserManagement {
  import opened Common
  import opened Hasher
  import opened Auth
  import Session

  const MinUsernameLength: nat := 3
  const MinPasswordLength: nat := 8

  /** The role select box, whose options are `user` and `admin`. */
  datatype RoleChoice = UserChoice | AdminChoice

  function RoleName(c: RoleChoice): (r: string)
    ensures r == DefaultRole || r == AdminRole
    ensures r == AdminRole <==> c == AdminChoice
  {
    match c
    case UserChoice => "user"
    case AdminChoice => "admin"
  }

  datatype CreateFormCheck = MissingCredentials | UsernameTooShort | PasswordTooShort | PasswordsDiffer | CreateAccepted

  /** The creation form's checks: empty fields first, then the lengths, then the confirmation. */
  function CheckCreateForm(username: string, password: string, confirm: string): (r: CreateFormCheck)
    ensures r == MissingCredentials <==> username == [] || password == []
    ensures r == UsernameTooShort <==> username != [] && password != [] && |username| < MinUsernameLength
    ensures r == PasswordTooShort <==> |username| >= MinUsernameLength && password != [] && |password| < MinPasswordLength
    ensures r == PasswordsDiffer <==> |username| >= MinUsernameLength && |password| >= MinPasswordLength && password != confirm
    ensures r == CreateAccepted <==> |username| >= MinUsernameLength && |password| >= MinPasswordLength && password == confirm
  {
    if username == [] || password == [] then MissingCredentials
    else if |username| < MinUsernameLength then UsernameTooShort
    else if |password| < MinPasswordLength then PasswordTooShort
    else if password != confirm then PasswordsDiffer
    else CreateAccepted
  }

  datatype CreateOutcome = CreateRejected(reason: CreateFormCheck) | Created | CreateFailed

  /** A submitted creation form: `create_user` runs only once every check has passed. */
  method SubmitCreateUserForm(t: UsersTable, username: string, password: string, confirm: string,
                              role: RoleChoice, salt: string, now: int)
    returns (outcome: CreateOutcome)
    requires t.Valid()
    modifies t
    ensures t.Valid() && t.created == old(t.created)
    ensures CheckCreateForm(username, password, confirm) != CreateAccepted ==>
      outcome == CreateRejected(CheckCreateForm(username, password, confirm))
    ensures outcome.CreateRejected? <==> CheckCreateForm(username, password, confirm) != CreateAccepted
    ensures outcome == Created <==>
      CheckCreateForm(username, password, confirm) == CreateAccepted
      && old(t.created) && !UsernameTaken(old(t.rows), username)
    ensures outcome != Created ==> t.rows == old(t.rows) && t.lastId == old(t.lastId)
    ensures outcome == CreateFailed <==>
      CheckCreateForm(username, password, confirm) == CreateAccepted
      && (!old(t.created) || UsernameTaken(old(t.rows), username))
    ensures outcome == Created ==>
      (&& |username| >= MinUsernameLength && |password| >= MinPasswordLength && password == confirm
       && t.lastId == old(t.lastId) + 1
       && t.rows == old(t.rows)[t.lastId := UserRow(username, HashPassword(password, salt), RoleName(role), now, now)]
       && (t.rows[t.lastId].role == DefaultRole || t.rows[t.lastId].role == AdminRole))
  {
    var check := CheckCreateForm(username, password, confirm);
    if check != CreateAccepted {
      return CreateRejected(check);
    }
    var ok := t.CreateUser(username, password, salt, now, RoleName(role));
    if ok {
      return Created;
    }
    return CreateFailed;
  }

  datatype NewPasswordCheck = NewPasswordTooShort | NewPasswordsDiffer | NewPasswordAccepted

  /** The password form's checks on the new password: its length first, then the confirmation. */
  function CheckNewPassword(newPassword: string, confirm: string): (r: NewPasswordCheck)
    ensures r == NewPasswordTooShort <==> |newPassword| < MinPasswordLength
    ensures r == NewPasswordsDiffer <==> |newPassword| >= MinPasswordLength && newPassword != confirm
    ensures r == NewPasswordAccepted <==> |newPassword| >= MinPasswordLength && newPassword == confirm
  {
    if |newPassword| < MinPasswordLength then NewPasswordTooShort
    else if newPassword != confirm then NewPasswordsDiffer
    else NewPasswordAccepted
  }

  /** `st.session_state.get('user')` when it is truthy: a missing key, None and `{}` all read as no user. */
  function SessionUser(s: Session.SessionState): (u: Option<UserDict>)
    reads s
    ensures u.Some? <==> s.user.Val? && s.user.v != map[]
    ensures u.Some? ==> u.value == s.user.v
  {
    if s.user.Val? && s.user.v != map[] then Some(s.user.v) else None
  }

  datatype PasswordChangeOutcome =
    | NoSessionUser
    | WrongCurrentPassword
    | NewPasswordRejected(reason: NewPasswordCheck)
    | PasswordChanged
    | PasswordChangeFailed

  /**
   * A submitted password form: no session user stops it; then the current
   * password is checked against the session user's name; then the new
   * password. Only then is the session user's id updated.
   */
  method SubmitPasswordChangeForm(t: UsersTable, s: Session.SessionState, currentPassword: string,
                                  newPassword: string, confirm: string, salt: string, now: int)
    returns (outcome: PasswordChangeOutcome)
    requires t.Valid() && t.created
    requires SessionUser(s).Some? ==> HasIdentity(s.user.v)
    modifies t
    ensures t.Valid() && t.created && t.lastId == old(t.lastId)
    ensures outcome != PasswordChanged ==> t.rows == old(t.rows)
    ensures outcome == NoSessionUser <==> SessionUser(s) == None
    ensures outcome == WrongCurrentPassword <==>
      SessionUser(s).Some? && !CredentialsVerify(old(t.rows), s.user.v["username"].s, currentPassword)
    ensures outcome.NewPasswordRejected? ==>
      SessionUser(s).Some? && CredentialsVerify(old(t.rows), s.user.v["username"].s, currentPassword)
      && outcome.reason == CheckNewPassword(newPassword, confirm) && outcome.reason != NewPasswordAccepted
    ensures outcome != PasswordChangeFailed
    ensures outcome == PasswordChanged <==>
      SessionUser(s).Some? && CredentialsVerify(old(t.rows), s.user.v["username"].s, currentPassword)
      && |newPassword| >= MinPasswordLength && newPassword == confirm
    ensures outcome == PasswordChanged ==>
      var id := s.user.v["id"].n;
      t.rows == if id in old(t.rows)
                then old(t.rows)[id := old(t.rows)[id].(passwordHash := HashPassword(newPassword, salt), updatedAt := now)]
                else old(t.rows)
  {
    var current := SessionUser(s);
    if current.None? {
      return NoSessionUser;
    }
    var who := t.AuthenticateUser(current.value["username"].s, currentPassword);
    if who.None? {
      return WrongCurrentPassword;
    }
    var check := CheckNewPassword(newPassword, confirm);
    if check != NewPasswordAccepted {
      return NewPasswordRejected(check);
    }
    var ok := t.UpdateUserPassword(current.value["id"].n, newPassword, salt, now);
    if ok {
      return PasswordChanged;
    }
    return PasswordChangeFailed;
  }

  /** `user['id'] != current_user.get('id')`: a missing `id` key reads as None, which equals no row id. */
  function DeleteOffered(rowId: int, current: UserDict): (offered: bool)
    ensures offered <==> !("id" in current && current["id"] == IntVal(rowId))
  {
    if "id" in current then current["id"] != IntVal(rowId) else true
  }

  /** `st.session_state.get('user', {})`; a stored None is not a dictionary, so it is excluded. */
  function ListViewer(s: Session.SessionState): (r: UserDict)
    reads s
    requires !s.user.Null?
    ensures s.user.Absent? ==> r == map[]
    ensures s.user.Val? ==> r == s.user.v
  {
    if s.user.Val? then s.user.v else map[]
  }

  /** The session user's own row, if the session user has an `id`. */
  predicate IsOwnRow(s: Session.SessionState, rowId: int)
    reads s
  {
    s.user.Val? && "id" in s.user.v && s.user.v["id"] == IntVal(rowId)
  }

  /** `render_user_list`: one entry per listed user, saying whether it offers a delete button. */
  method DeleteButtons(users: seq<UserListing>, s: Session.SessionState) returns (buttons: seq<bool>)
    requires users != [] ==> !s.user.Null?
    ensures |buttons| == |users|
    ensures forall i :: 0 <= i < |users| ==> (buttons[i] <==> !IsOwnRow(s, users[i].id))
  {
    buttons := [];
    if users == [] {
      return;
    }
    for i := 0 to |users|
      invariant |buttons| == i
      invariant forall k :: 0 <= k < i ==> (buttons[k] <==> !IsOwnRow(s, users[k].id))
    {
      var current := ListViewer(s);
      buttons := buttons + [DeleteOffered(users[i].id, current)];
    }
  }

  /** The delete button of the `i`-th listed user, pressed: one's own row has no button and is never deleted. */
  method DeleteFromList(t: UsersTable, s: Session.SessionState, users: seq<UserListing>, i: nat)
    returns (outcome: Option<bool>)
    requires t.Valid() && i < |users| && !s.user.Null?
    modifies t
    ensures t.Valid() && t.created == old(t.created) && t.lastId == old(t.lastId)
    ensures outcome.None? <==> IsOwnRow(s, users[i].id)
    ensures outcome.None? ==> t.rows == old(t.rows)
    ensures outcome.Some? ==> outcome.value == t.created && t.rows == old(t.rows) - {users[i].id}
  {
    if !DeleteOffered(users[i].id, ListViewer(s)) {
      return None;
    }
    var ok := t.DeleteUser(users[i].id);
    return Some(ok);
  }
}
