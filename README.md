# Streamlit framework template: authentication core, admin forms, acmt.007 builder and footer

A Dafny model of the sequential logic of a Streamlit application template. It covers:

- **Credential store and auth service** (`Auth`, `Hasher`, `Collation`). The SQLite `users` table is a class holding a map from id to row. It keeps a flag for whether `CREATE TABLE` has run and the AUTOINCREMENT sequence value. The module also has the create, update, delete, authenticate and list operations, the `is_admin` role check, the `require_auth` and `require_admin` gates, and `logout`. Password hashing is a keyed stand-in digest taking an explicit salt. `ORDER BY username` uses SQLite's BINARY collation.
- **Session lifecycle** (`Session`). The per-client `st.session_state` record is a class with the `authenticated`, `user` and `login_time` keys. Each key may be missing, hold `None`, or hold a value. The module covers init, login, clear, the lazy expiry check that clears an expired session, and the current-user read. The current time is a parameter, in microseconds.
- **Admin page forms** (`UserManagement`):
  - the ordered early-return checks of the user creation form;
  - the ordered checks of the password change form;
  - the rule that the user list offers no delete button on one's own row.
- **Bootstrap script** (`InitDb`): create the tables, count the rows named `admin`, create the default admin when there are none, and exit with status 1 when creation fails.
- **acmt.007.001.05 builder** (`AccountOpening`): the element tree the account opening page builds from its form fields. Elements are appended to their parent's child sequence in the page's order, under the page's `if` guards. Every element is in the `urn:iso:std:iso:20022:tech:xsd:acmt.007.001.05` namespace.
- **Footer** (`Footer`): the HTML markup of `render_footer` and `render_simple_footer`. The footer's link row is built by a loop that appends an anchor per link and a `•` separator between links. The link row is specified by an independent token sequence.

Three behaviours of the code a reader may not expect, which the model follows:

- `require_auth` only reads the `authenticated` key. It does not apply the session expiry check.
- `logout` deletes the `authenticated` and `user` keys and leaves `login_time` in place.
- `update_user_password` and `delete_user` return true whenever the statement runs, including when no row has the given id.

## Model

| member | source | states |
|---|---|---|
| Hasher.VerifyPassword | streamlit_app/core/auth.py:27-38 | a hash verifies a password iff it is exactly the hash of that password under the hash's own salt |
| Hasher.HashPassword | streamlit_app/core/auth.py:12-24 | the hash records the salt it was made with |
| Hasher.VerifyAfterHash | streamlit_app/core/auth.py:27-38 | a hash verifies against the password it was made from, for every salt |
| Hasher.DigestInjective | streamlit_app/core/auth.py:27-38 | with one salt, two passwords have equal digests iff they are equal |
| Hasher.VerifyRejectsOther | streamlit_app/core/auth.py:27-38 | no password except the hashed one verifies against a hash |
| Hasher.SaltedHashesDiffer | streamlit_app/core/auth.py:22-24 | one password hashed with two different salts gives two different hashes, and both verify |
| Collation.LessIrreflexive | streamlit_app/core/auth.py:167 | the username order never places a name before itself |
| Collation.LessTrichotomous | streamlit_app/core/auth.py:167 | two distinct names are always ordered one way or the other |
| Collation.LessAsymmetric | streamlit_app/core/auth.py:167 | two names are never ordered both ways |
| Collation.LessTransitive | streamlit_app/core/auth.py:167 | the username order is transitive |
| Session.TimeoutMicros | core/session.py:53-54 | without a configured value, the timeout is 60 minutes (3 600 000 000 microseconds) |
| Session.Expired | core/session.py:53-56 | without a configured timeout a login has expired once more than 3 600 000 000 microseconds have elapsed; with one, once more than that many minutes have elapsed |
| Session.ExpiryBoundary | core/session.py:56 | a login is still live at exactly the timeout and expired one microsecond later, because the comparison is strict |
| Session.SessionState.InitSessionState | core/session.py:12-21 | each missing key is filled with False, None or None; a present key keeps its value; a second call changes nothing |
| Session.SessionState.SetAuthenticatedUser | core/session.py:24-33 | afterwards `authenticated` is true, `user` is the given user and `login_time` is now |
| Session.SessionState.ClearSession | core/session.py:36-40 | afterwards the keys hold False, None and None, whatever the previous state |
| Session.SessionState.IsSessionValid | core/session.py:43-60 | the result is true iff the session was logged in with an unexpired login time. When not logged in, or with no login time, nothing changes. An expired login is cleared. A true result changes nothing |
| Session.SessionState.GetCurrentUser | core/session.py:63-72 | returns the stored user iff the session is valid at `now`, and None otherwise. Like the validity check, it clears an expired login to False, None and None, and changes nothing in every other case |
| Session.CheckAfterFailedCheck | core/session.py:50-58 | once a validity check fails, so does every later check until the next login |
| Session.LoginThenCurrentUser | core/session.py:24-72 | after a login, the current user is the logged-in user while at most the timeout has elapsed, and None after that |
| Auth.PublicUser | streamlit_app/core/auth.py:62-67 | the returned dictionary has exactly the keys `id`, `username` and `role`, holding the row's values, and never `password_hash` |
| Auth.InsertByUsername | streamlit_app/core/auth.py:167 | inserting an entry adds exactly that entry: the result is the old entries plus the new one, counted with multiplicity |
| Auth.InsertKeepsSorted | streamlit_app/core/auth.py:167 | inserting an entry with a new username into a list sorted by username keeps it sorted |
| Auth.IsAdmin | streamlit_app/core/auth.py:174-184 | `is_admin` is false when the `role` key is missing, and true only when `role` holds the string `'admin'` |
| Auth.IsAdminOfPublicUser | streamlit_app/core/auth.py:174-184 | `is_admin` of a user dictionary is true iff the role is `'admin'`, and false when the `role` key is missing |
| Auth.RequireAuth | streamlit_app/core/auth.py:187-199 | true iff the `authenticated` key is present and true; a missing key gives false; expiry is not consulted |
| Auth.RequireAdmin | streamlit_app/core/auth.py:202-218 | true iff `require_auth` holds and the session user is an admin; false whenever `require_auth` fails |
| Auth.Logout | streamlit_app/core/auth.py:221-225 | the `authenticated` and `user` keys are removed; `login_time` is unchanged |
| Auth.UsersTable.InitDatabase | core/database.py:43-62 | the table exists afterwards; existing rows and the id sequence are kept |
| Auth.UsersTable.CreateUser | streamlit_app/core/auth.py:72-100 | succeeds iff the table exists and the username is not taken. On success it adds exactly one row under the next id, with the username, the salted hash, the role (default `'user'`) and the timestamps. On failure nothing changes, so usernames stay unique |
| Auth.UsersTable.UpdateUserPassword | streamlit_app/core/auth.py:103-130 | only the hash and `updated_at` of the row with that id change. It returns true whenever the table exists, also when no row has that id; then nothing changes |
| Auth.UsersTable.DeleteUser | streamlit_app/core/auth.py:133-154 | the row with that id is removed and no other. It returns true whenever the table exists, also when the id is absent |
| Auth.UsersTable.AuthenticateUser | streamlit_app/core/auth.py:41-69 | returns a user iff some row has that username and its hash verifies the password. The result is that row's public fields, without `password_hash` |
| Auth.UsersTable.GetAllUsers | streamlit_app/core/auth.py:157-171 | read-only. Returns every row exactly once as `id, username, role, created_at`, with no hash, in ascending username order |
| Auth.CreateThenAuthenticate | streamlit_app/core/auth.py:41-100 | after creating a user, logging in with its password yields `{id, username, role: 'user'}` and logging in with any other password yields None |
| Auth.CreateTwice | streamlit_app/core/auth.py:72-100 | creating the same username twice succeeds once and fails once. The row created first remains under the last id with that name, and no other row carries it |
| Auth.DeleteThenAuthenticate | streamlit_app/core/auth.py:41-154 | a deleted user can no longer log in |
| UserManagement.RoleName | streamlit_app/components/user_management.py:18 | the role select box yields only `'user'` or `'admin'` |
| UserManagement.CheckCreateForm | streamlit_app/components/user_management.py:22-38 | the form is rejected for empty fields first, then a username under 3 characters, then a password under 8, then a confirmation mismatch. Each outcome holds iff its condition holds and the earlier checks passed |
| UserManagement.SubmitCreateUserForm | streamlit_app/components/user_management.py:10-45 | `create_user` runs only when every check passes, and only with `'user'` or `'admin'`. The form is rejected iff a check fails, and a rejected form changes nothing. The user is created iff the checks pass, the table exists and the name is free. A failure is reported iff the checks passed but the table is missing or the name is taken |
| UserManagement.CheckNewPassword | streamlit_app/components/user_management.py:111-118 | the new password is rejected when it is under 8 characters, then when it differs from its confirmation; it is accepted iff neither holds |
| UserManagement.SessionUser | streamlit_app/components/user_management.py:101-104 | a session user exists iff the `user` key holds a non-empty dictionary |
| UserManagement.SubmitPasswordChangeForm | streamlit_app/components/user_management.py:87-124 | nothing happens without a session user. A wrong current password is rejected before the new password is checked. The session user's row changes iff the current password verifies and the new password is accepted; then it gets the new hash |
| UserManagement.DeleteOffered | streamlit_app/components/user_management.py:72-74 | a row offers deletion iff its id differs from the session user's `id`; a missing `id` always offers it |
| UserManagement.ListViewer | streamlit_app/components/user_management.py:73 | `get('user', {})` gives the stored user, or the empty dictionary when the key is missing |
| UserManagement.DeleteButtons | streamlit_app/components/user_management.py:48-84 | one entry per listed user; an entry offers a delete button iff the row is not the session user's own |
| UserManagement.DeleteFromList | streamlit_app/components/user_management.py:71-80 | pressing delete on a listed row removes exactly that row, except that one's own row has no button and is never deleted. The table's existence and its id sequence are unchanged |
| InitDb.CountNamed | streamlit_app/scripts/init_db.py:25-29 | the count of rows with a name is positive iff some row carries that name |
| InitDb.UniqueNameCount | streamlit_app/scripts/init_db.py:25-29 | under the UNIQUE constraint, that count is 1 or 0 |
| InitDb.Bootstrap | streamlit_app/scripts/init_db.py:14-47 | the tables are created first. An existing `admin` row means nothing changes. Otherwise exactly one row `admin` with the default password's hash and role `'admin'` is added. Either way exactly one `admin` row remains, with exit status 0 |
| InitDb.BootstrapTwice | streamlit_app/scripts/init_db.py:22-32 | running the script twice leaves exactly one `admin` row |
| InitDb.BootstrapThenLogin | streamlit_app/scripts/init_db.py:34-43 | after bootstrapping an empty table, `admin` can log in with `changeme123`, and the user is an admin |
| AccountOpening.Opt | streamlit_app/pages/2_Account_Opening_Request_Generator.py:91-109 | an optional leaf appears iff its value is non-empty, and then carries that value |
| AccountOpening.AllInNamespaceConcat | streamlit_app/pages/2_Account_Opening_Request_Generator.py:68-69 | a joined child sequence is in the namespace iff both parts are |
| AccountOpening.IsoFormatShape | streamlit_app/pages/2_Account_Opening_Request_Generator.py:113 | for a date the picker can return, `isoformat()` is ten characters with `-` at positions 4 and 7. The groups before, between and after the dashes are digit strings whose decimal values are the year, the month and the day |
| AccountOpening.AcctOther | streamlit_app/pages/2_Account_Opening_Request_Generator.py:27-33 | the other-identifier value is empty whenever an IBAN is given |
| AccountOpening.AcctTypePart | streamlit_app/pages/2_Account_Opening_Request_Generator.py:95-97 | `Tp/Cd` appears iff the account type is non-empty, and then carries it |
| AccountOpening.FlagText | streamlit_app/pages/2_Account_Opening_Request_Generator.py:114 | the urgency text is exactly `'true'` or `'false'`, and is `'true'` iff the box is checked |
| AccountOpening.AppendIfPresent | streamlit_app/pages/2_Account_Opening_Request_Generator.py:91-92 | a guarded `SubElement` appends the leaf iff its value is non-empty, and keeps the children in the namespace |
| AccountOpening.BuildRefs | streamlit_app/pages/2_Account_Opening_Request_Generator.py:71-81 | the built `Refs` element is exactly `RefsTree` of the form, and every element in it is in the namespace |
| AccountOpening.BuildAcct | streamlit_app/pages/2_Account_Opening_Request_Generator.py:83-109 | the built `Acct` element is exactly `AcctTree` of the form, and every element in it is in the namespace |
| AccountOpening.BuildCtrctDts | streamlit_app/pages/2_Account_Opening_Request_Generator.py:111-114 | the built `CtrctDts` element is exactly `CtrctDtsTree` of the form, and is in the namespace |
| AccountOpening.BuildAcctSvcrId | streamlit_app/pages/2_Account_Opening_Request_Generator.py:116-120 | the built `AcctSvcrId` element is exactly `AcctSvcrIdTree` of the form, and is in the namespace |
| AccountOpening.BuildAdr | streamlit_app/pages/2_Account_Opening_Request_Generator.py:132-144 | the built `Adr` element is exactly `AdrTree` of the form, and is in the namespace |
| AccountOpening.BuildOrg | streamlit_app/pages/2_Account_Opening_Request_Generator.py:122-150 | the built `Org` element is exactly `OrgTree` of the form, and is in the namespace |
| AccountOpening.BuildAccountOpeningRequest | streamlit_app/pages/2_Account_Opening_Request_Generator.py:66-150 | the built document is exactly `DocumentTree` of the form, and every element in it is in the acmt.007.001.05 namespace |
| AccountOpening.ZeroPad | streamlit_app/pages/2_Account_Opening_Request_Generator.py:113 | the padded digits are at least the requested width, and exactly that width when the number fits |
| AccountOpening.IsoFormat | streamlit_app/pages/2_Account_Opening_Request_Generator.py:113 | the ISO date text is at least ten characters long for every date; its content is stated by `IsoFormatShape` |
| AccountOpening.DigitsValue | streamlit_app/pages/2_Account_Opening_Request_Generator.py:113 | the decimal digits of a number are digit characters that read back as that number |
| AccountOpening.ZeroPadValue | streamlit_app/pages/2_Account_Opening_Request_Generator.py:113 | zero padding keeps the value: the padded text reads back as the number |
| AccountOpening.ZeroPadDigits | streamlit_app/pages/2_Account_Opening_Request_Generator.py:113 | the padded text consists of digit characters only |
| AccountOpening.DecValueConcat | streamlit_app/pages/2_Account_Opening_Request_Generator.py:113 | the value of joined digit strings is the first part's value shifted by the second part's length, plus the second part's value |
| AccountOpening.AcctIban | streamlit_app/pages/2_Account_Opening_Request_Generator.py:27-33 | `acct_iban` is non-empty only when the IBAN option is chosen, and then it is the IBAN input; with the Other option it is empty |
| AccountOpening.Append | streamlit_app/pages/2_Account_Opening_Request_Generator.py:68-150 | `SubElement` adds the new element at the end of its parent's children, and keeps the children in the namespace |
| AccountOpening.RefsTreeShape | streamlit_app/pages/2_Account_Opening_Request_Generator.py:71-81 | `Refs` holds `MsgId` with `Id` and `CreDtTm` carrying the given texts, then `PrcId` iff a processing field is non-empty. `PrcId` holds `Id` and `CreDtTm` iff each field is non-empty, in that order |
| AccountOpening.AcctTreeShape | streamlit_app/pages/2_Account_Opening_Request_Generator.py:83-109 | `Acct/Id` holds exactly one leaf: `IBAN` with the IBAN iff the IBAN option is chosen with a non-empty IBAN, otherwise `Othr` carrying the other identifier, possibly empty. After `Id` come exactly `Nm`, `Sts`, `Tp`, `Ccy`, `MnthlyPmtVal`, `MnthlyRcvdVal`, `MnthlyTxNb`, `AvrgBal` and `AcctPurp` for the non-empty fields, in that order |
| AccountOpening.AcctOptionalNames | streamlit_app/pages/2_Account_Opening_Request_Generator.py:89-109 | the optional account children name exactly the non-empty account fields, in the page's order |
| AccountOpening.CtrctDtsTreeShape | streamlit_app/pages/2_Account_Opening_Request_Generator.py:111-114 | `CtrctDts` holds `TrgtGoLiveDt` with the ISO go-live date, then `UrgcyFlg` with `true` iff the box is checked |
| AccountOpening.AcctSvcrIdTreeShape | streamlit_app/pages/2_Account_Opening_Request_Generator.py:116-120 | `AcctSvcrId` always holds `FinInstnId`, which holds `BICFI` iff it is given |
| AccountOpening.AdrTreeShape | streamlit_app/pages/2_Account_Opening_Request_Generator.py:132-144 | `Adr` starts with `Tp/Cd = ADDR`, then names exactly the non-empty fields among the two address lines, postcode, town and country, in that order |
| AccountOpening.OrgTreeShape | streamlit_app/pages/2_Account_Opening_Request_Generator.py:122-150 | `Org` names `OrgnStnId`, then `Nm` iff the name is given, then `Adr` and `CtctDtls`, both always present. `OrgnStnId` holds `AnyBIC` and `LEI` iff each is given; `CtctDtls` holds `Nm` and `EmailAdr` iff each is given; the address is `AdrTree` of the form |
| AccountOpening.DocumentTreeShape | streamlit_app/pages/2_Account_Opening_Request_Generator.py:66-72 | `Document` has the single child `AcctOpngReq`, whose children are the `Refs`, `Acct`, `CtrctDts`, `AcctSvcrId` and `Org` trees, in that order |
| AccountOpening.NamesConcat | streamlit_app/pages/2_Account_Opening_Request_Generator.py:68-150 | appending children appends their names, in order |
| Footer.LinkTokens | streamlit_app/components/footer.py:54-57 | n links give 2n-1 tokens: link i's anchor at position 2i, and a separator at each odd position |
| Footer.LinkTokensCons | streamlit_app/components/footer.py:54-57 | the link row of two or more links is the first anchor, a separator, then the row of the remaining links |
| Footer.AnchorsInOrder | streamlit_app/components/footer.py:54-55 | there is exactly one anchor per link, in list order, and no other anchor |
| Footer.BulletsBetween | streamlit_app/components/footer.py:56-57 | n links give n-1 separators |
| Footer.SeparatorsBetweenOnly | streamlit_app/components/footer.py:56-57 | a separator follows every anchor except the last, and the row ends with the last link's anchor |
| Footer.AppendLinks | streamlit_app/components/footer.py:54-57 | the loop over the links appends exactly the rendered link row |
| Footer.RenderFooter | streamlit_app/components/footer.py:10-64 | the markup is the head, then the `|` separator and the link row when there are links, then the closing tags |
| Footer.FooterShowsCopyrightAndVersion | streamlit_app/components/footer.py:46-48 | the copyright year, the holder and the version all appear, in that order |
| Footer.LinkSectionIffLinks | streamlit_app/components/footer.py:52-53 | the link section, opened by `|`, is emitted iff `footer_links` is set and non-empty |
| Footer.AnchorFields | streamlit_app/components/footer.py:55 | an anchor carries the link's URL right after `<a href="`, then `" target="_blank">`, then the link's text, then `</a>` |
| Footer.HasLinksFalsy | streamlit_app/components/footer.py:52 | an unset or empty `footer_links` is falsy, so no link section is emitted; a truthy one holds at least one link |
| Footer.FooterStartsWithHead | streamlit_app/components/footer.py:15-49 | the footer markup starts with the head: the style sheet, the copyright year and holder, and the version |
| Footer.FooterEndsWithTail | streamlit_app/components/footer.py:59-62 | the footer markup ends with the closing `</div>` tags |
| Footer.SimpleFooterHtml | streamlit_app/components/footer.py:67-95 | the text appears verbatim and unescaped between the fixed opening markup and the closing `</div>` |
| Footer.SimpleFooterInjective | streamlit_app/components/footer.py:90-92 | different texts give different simple footers, so nothing of the text is dropped or rewritten |

## Left out

- Hasher: bcrypt is a foreign call. In its place is a keyed, injective stand-in digest with an explicit salt argument. Random salt generation, the cost factor, one-wayness and malformed-hash errors from `checkpw` are not modelled.
- Hasher.DigestInjective, Hasher.VerifyRejectsOther and the wrong-password half of Auth.CreateThenAuthenticate hold for the injective stand-in only. The user creation form accepts passwords of up to 100 characters, longer than bcrypt's 72-byte input. bcrypt versions that truncate read only the first 72 bytes of the UTF-8 password, so two passwords that share those bytes verify against each other's hash. Versions that reject longer passwords raise instead, and `create_user` and `update_user_password` catch that and return False; the model accepts such passwords.
- SQLite plumbing is not modelled: connections, `PRAGMA`s, directory creation, auto-initialisation on import, the index on `username` and commit semantics. A failing statement is modelled only for a missing table and a taken username.
- Auth.UsersTable.AuthenticateUser and Auth.UsersTable.GetAllUsers require the table to exist, because on a missing table they raise rather than return.
- Session.SessionState.IsSessionValid, Session.SessionState.GetCurrentUser, Auth.RequireAdmin, UserManagement.SubmitPasswordChangeForm, UserManagement.ListViewer, UserManagement.DeleteButtons and UserManagement.DeleteFromList require inputs on which the code would raise. These are a missing `authenticated` key, or a missing `login_time` while authenticated (core/session.py:50); a missing `user` key in a valid session (core/session.py:71); a `user` that is None or missing behind a true `authenticated` (streamlit_app/core/auth.py:184, 213); a session user without `id` or `username` (streamlit_app/components/user_management.py:107, 121); and a `user` key holding None (streamlit_app/components/user_management.py:73-74). The raising paths are not modelled. No caller reaches them. `is_session_valid` and `get_current_user` are called only from streamlit_app/app.py:122, after streamlit_app/app.py:98 has run `init_session_state`, which fills all three keys. The other members run only behind `require_auth` (streamlit_app/core/auth.py:195), which stops unless the `authenticated` key is present and true. `authenticated` becomes true only in `set_authenticated_user` (core/session.py:31-33), which in the same step stores the login time and the user returned by `authenticate_user`, a dictionary with `id`, `username` and `role`; `clear_session` resets all three together.
- InitDb.Bootstrap: the exit-status-1 branch is in the model but cannot be reached. After `init_database` and a zero count, the modelled `create_user` always succeeds, and disk or I/O failures are not modelled.
- Wall-clock reads (`datetime.now()`, the `utcnow()` form defaults) are replaced by time parameters, in integer microseconds. Timezones and `timedelta` normalisation are not modelled.
- Streamlit UI is not modelled: rendering, messages, `st.rerun`, widget `max_chars`, columns, and the CSS and page layout of `streamlit_app/app.py`. `st.markdown` is not modelled either; the footer functions return the markup they would pass to it.
- XML text serialisation (`prettify`, minidom), the download button and the workspace file write are not modelled. The model is the element tree, not the bytes.
- AccountOpening.BuildAccountOpeningRequest takes the go-live date as a year-month-day record and formats it as `YYYY-MM-DD`. The date widget is not modelled.
- The second XML generator page, `streamlit_app/cli.py`, and the re-export modules `core/__init__.py` and `streamlit_app/components/__init__.py` are not part of this model.
- `streamlit_app/config/app_config.py` is not part of this model. Its values enter only as parameters: the timeout, and the footer's year, holder, version and links.
- Concurrency is not modelled: the database is shared across sessions (`check_same_thread=False`), and writes can race.
- The `print` logging is not modelled. This covers the `except` branches of the auth service and the bootstrap script's messages.
