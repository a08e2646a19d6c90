/**
 * The client's session store `useAuthStore` (src/store/auth.ts): two fields,
 * `user` and `isAuthenticated`, overwritten by `login` and `logout`.
 */
module AuthSession {
  import opened SharedTypes

  /** The store's data fields. */
  datatype AuthState = AuthState(user: Option<AuthUser>, isAuthenticated: bool)

  /** The flag says signed in exactly when a user is held. */
  predicate Consistent(s: AuthState) {
    s.isAuthenticated <==> s.user.Some?
  }

  /** The state the store is created with. */
  const Initial: AuthState := AuthState(None, false)

  /** `set({ user, isAuthenticated: true })`. */
  function LoggedIn(s: AuthState, u: AuthUser): (t: AuthState)
    ensures Consistent(t)
    ensures t.user == Some(u) && t.isAuthenticated
  {
    s.(user := Some(u), isAuthenticated := true)
  }

  /** `set({ user: null, isAuthenticated: false })`. */
  function LoggedOut(s: AuthState): (t: AuthState)
    ensures Consistent(t)
    ensures t == Initial
  {
    s.(user := None, isAuthenticated := false)
  }

  /** The store starts consistent. */
  lemma InitialConsistent()
    ensures Consistent(Initial) && Initial.user.None? && !Initial.isAuthenticated
  {
  }

  /** Logging out twice is logging out once. */
  lemma LogoutIdempotent(s: AuthState)
    ensures LoggedOut(LoggedOut(s)) == LoggedOut(s)
  {
  }

  /** Logging in and then out returns to the initial state, whatever came before. */
  lemma LoginThenLogout(s: AuthState, u: AuthUser)
    ensures LoggedOut(LoggedIn(s, u)) == Initial
  {
  }

  class AuthStore {
    var user: Option<AuthUser>
    var isAuthenticated: bool

    /** The store's fields as one value. */
    function State(): AuthState
      reads this
    {
      AuthState(user, isAuthenticated)
    }

    ghost predicate Valid()
      reads this
    {
      Consistent(State())
    }

    /** `create(...)`: no user, not signed in. */
    constructor ()
      ensures State() == Initial
      ensures Valid()
    {
      user := None;
      isAuthenticated := false;
    }

    /** `login(u)`: holds `u` and is signed in; nothing else changes. */
    method Login(u: AuthUser)
      modifies this
      ensures State() == LoggedIn(old(State()), u)
      ensures Valid()
    {
      user, isAuthenticated := Some(u), true;
    }

    /** `logout()`: holds no user and is signed out. */
    method Logout()
      modifies this
      ensures State() == LoggedOut(old(State()))
      ensures Valid()
    {
      user, isAuthenticated := None, false;
    }
  }
}
