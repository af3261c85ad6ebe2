/**
 * The per-client session record (`st.session_state`) as far as the
 * authentication core uses it: the `authenticated`, `user` and `login_time`
 * keys. Times are microsecond counts; the current time is a parameter.
 */
module Session {
  import opened Common

  const MicrosPerMinute: int := 60_000_000

  /** Used when the configuration has no `session_timeout_minutes` key. */
  const DefaultTimeoutMinutes: int := 60

  /** `timedelta(minutes=APP_CONFIG.get('session_timeout_minutes', 60))`, in microseconds. */
  function TimeoutMicros(configuredMinutes: Option<int>): (t: int)
    ensures configuredMinutes == None ==> t == 3_600_000_000
  {
    (if configuredMinutes.Some? then configuredMinutes.value else DefaultTimeoutMinutes) * MicrosPerMinute
  }

  /** A login at `loginTime` has expired at `now` once strictly more than the timeout has elapsed. */
  function Expired(loginTime: int, now: int, configuredMinutes: Option<int>): (ok: bool)
    ensures configuredMinutes == None ==> (ok <==> now - loginTime > 3_600_000_000)
    ensures configuredMinutes.Some? ==> (ok <==> now - loginTime > configuredMinutes.value * 60_000_000)
  {
    now - loginTime > TimeoutMicros(configuredMinutes)
  }

  /** At exactly the timeout a login is still live; one microsecond later it is not. */
  lemma ExpiryBoundary(loginTime: int, configuredMinutes: Option<int>)
    ensures !Expired(loginTime, loginTime + TimeoutMicros(configuredMinutes), configuredMinutes)
    ensures Expired(loginTime, loginTime + TimeoutMicros(configuredMinutes) + 1, configuredMinutes)
  {
  }

  class SessionState {
    var authenticated: Slot<bool>
    var user: Slot<UserDict>
    var loginTime: Slot<int>

    /** A new client session: none of the three keys is present yet. */
    constructor ()
      ensures authenticated == Absent && user == Absent && loginTime == Absent
    {
      authenticated, user, loginTime := Absent, Absent, Absent;
    }

    predicate Initialized()
      reads this
    {
      authenticated.Present() && user.Present() && loginTime.Present()
    }

    /** What `is_session_valid` reads without raising: `login_time` is only read after a true `authenticated`. */
    predicate CanCheckValidity()
      reads this
    {
      authenticated.Present() && (IsTrue(authenticated) ==> loginTime.Present())
    }

    /** The session is logged in and its login has not expired at `now`. */
    predicate Live(now: int, configuredMinutes: Option<int>)
      reads this
    {
      IsTrue(authenticated) && loginTime.Val? && !Expired(loginTime.v, now, configuredMinutes)
    }

    /** `init_session_state`: fill the missing keys with False/None/None; a present key keeps its value. */
    method InitSessionState()
      modifies this
      ensures Initialized()
      ensures authenticated == (if old(authenticated) == Absent then Val(false) else old(authenticated))
      ensures user == (if old(user) == Absent then Null else old(user))
      ensures loginTime == (if old(loginTime) == Absent then Null else old(loginTime))
      ensures old(Initialized()) ==> unchanged(this)
    {
      if authenticated == Absent {
        authenticated := Val(false);
      }
      if user == Absent {
        user := Null;
      }
      if loginTime == Absent {
        loginTime := Null;
      }
    }

    /** `set_authenticated_user`: mark the session logged in as `u` at `now`. */
    method SetAuthenticatedUser(u: UserDict, now: int)
      modifies this
      ensures authenticated == Val(true) && user == Val(u) && loginTime == Val(now)
      ensures Initialized() && CanCheckValidity()
    {
      authenticated := Val(true);
      user := Val(u);
      loginTime := Val(now);
    }

    /** `clear_session`: back to the logged-out values, whatever the state was. */
    method ClearSession()
      modifies this
      ensures authenticated == Val(false) && user == Null && loginTime == Null
      ensures Initialized()
    {
      authenticated := Val(false);
      user := Null;
      loginTime := Null;
    }

    /**
     * `is_session_valid`: false, with nothing changed, when the session is not
     * logged in or has no login time; false after clearing the session when the
     * login has expired; true, with nothing changed, otherwise.
     */
    method IsSessionValid(now: int, configuredMinutes: Option<int>) returns (valid: bool)
      requires CanCheckValidity()
      modifies this
      ensures valid == old(Live(now, configuredMinutes))
      ensures old(!IsTrue(authenticated) || !loginTime.Val?) ==> unchanged(this)
      ensures old(IsTrue(authenticated) && loginTime.Val?) && !valid ==>
        authenticated == Val(false) && user == Null && loginTime == Null
      ensures valid ==> unchanged(this)
      ensures CanCheckValidity()
    {
      if !IsTrue(authenticated) || !loginTime.Val? {
        return false;
      }
      if now - loginTime.v > TimeoutMicros(configuredMinutes) {
        ClearSession();
        return false;
      }
      return true;
    }

    /** `get_current_user`: the stored user when the session is valid (a stored None reads as None), else None. */
    method GetCurrentUser(now: int, configuredMinutes: Option<int>) returns (u: Option<UserDict>)
      requires CanCheckValidity()
      requires IsTrue(authenticated) && loginTime.Val? ==> user.Present()
      modifies this
      ensures u.Some? ==> old(Live(now, configuredMinutes)) && old(user) == Val(u.value)
      ensures old(Live(now, configuredMinutes)) && old(user).Val? ==> u == Some(old(user).v)
      ensures !old(Live(now, configuredMinutes)) ==> u == None
      ensures old(IsTrue(authenticated) && loginTime.Val?) && !old(Live(now, configuredMinutes)) ==>
        authenticated == Val(false) && user == Null && loginTime == Null
      ensures old(!IsTrue(authenticated) || !loginTime.Val? || Live(now, configuredMinutes)) ==> unchanged(this)
    {
      var valid := IsSessionValid(now, configuredMinutes);
      if valid {
        if user.Val? {
          return Some(user.v);
        }
        return None;
      }
      return None;
    }
  }

  /** A check that fails keeps failing, at any later (or earlier) time, until the next login. */
  method CheckAfterFailedCheck(s: SessionState, now: int, later: int, configuredMinutes: Option<int>)
    returns (first: bool, second: bool)
    requires s.CanCheckValidity()
    modifies s
    ensures !first ==> !second
  {
    first := s.IsSessionValid(now, configuredMinutes);
    second := s.IsSessionValid(later, configuredMinutes);
  }

  /** After a login, the current user is the logged-in user until the timeout has elapsed. */
  method LoginThenCurrentUser(s: SessionState, u: UserDict, loginAt: int, now: int, configuredMinutes: Option<int>)
    returns (current: Option<UserDict>)
    modifies s
    ensures now - loginAt <= TimeoutMicros(configuredMinutes) ==> current == Some(u)
    ensures now - loginAt > TimeoutMicros(configuredMinutes) ==> current == None
  {
    s.SetAuthenticatedUser(u, loginAt);
    current := s.GetCurrentUser(now, configuredMinutes);
  }
}
