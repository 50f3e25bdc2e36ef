/** The demo sign-in provider as a state machine: the signed-in user, the
    loading flag, and the stored entry under `'demo-auth-user'` as a plain
    value. */
module Auth {
  import opened Wrappers

  datatype User = User(id: string, email: string, name: string)

  datatype AuthState = AuthState(user: Option<User>, loading: bool, stored: Option<User>)

  const DemoEmail: string := "demo@example.com"
  const DemoPassword: string := "demo123"
  const DemoUser: User := User("demo-user-1", "demo@example.com", "Demo User")
  const InvalidCredentials: string := "Invalid email or password"

  /** The provider before its mount effect runs: nobody signed in, loading. */
  function Initial(stored: Option<User>): AuthState {
    AuthState(None, true, stored)
  }

  /** The mount effect: restore a stored user, then stop loading. */
  function Mount(s: AuthState): (r: AuthState)
    ensures !r.loading && r.stored == s.stored
    ensures s.stored.Some? ==> r.user == s.stored
    ensures s.stored.None? ==> r.user == s.user
  {
    AuthState(if s.stored.Some? then s.stored else s.user, false, s.stored)
  }

  /** `signIn`: the new state and the returned error, if any. */
  function SignIn(s: AuthState, email: string, password: string): (r: (AuthState, Option<string>))
  {
    if email == DemoEmail && password == DemoPassword then (s.(user := Some(DemoUser), stored := Some(DemoUser)), None)
    else (s, Some(InvalidCredentials))
  }

  /** `signOut`: nobody signed in and the stored entry removed. */
  function SignOut(s: AuthState): (r: AuthState)
    ensures r.user.None? && r.stored.None? && r.loading == s.loading
  {
    s.(user := None, stored := None)
  }

  /** Sign-in succeeds exactly for the demo credentials; success signs in
      and stores the demo user; failure reports the fixed message and
      changes nothing. */
  lemma SignInSpec(s: AuthState, email: string, password: string)
    ensures SignIn(s, email, password).1.None? <==> email == "demo@example.com" && password == "demo123"
    ensures SignIn(s, email, password).1.None? ==>
              SignIn(s, email, password).0.user == Some(User("demo-user-1", "demo@example.com", "Demo User"))
              && SignIn(s, email, password).0.stored == SignIn(s, email, password).0.user
    ensures SignIn(s, email, password).1.Some? ==>
              SignIn(s, email, password).0 == s
              && SignIn(s, email, password).1.value == "Invalid email or password"
  {
  }

  /** Signing out twice is signing out once. */
  lemma SignOutIdempotent(s: AuthState)
    ensures SignOut(SignOut(s)) == SignOut(s)
  {
  }

  /** The signed-in user and the stored entry agree. */
  predicate InSync(s: AuthState) {
    s.user == s.stored
  }

  /** After mounting, the user and the stored entry stay in sync through
      any sign-in and sign-out. */
  lemma InSyncPreserved(stored: Option<User>, s: AuthState, email: string, password: string)
    ensures InSync(Mount(Initial(stored))) && !Mount(Initial(stored)).loading
    ensures Mount(Initial(stored)).user == stored
    ensures InSync(s) ==> InSync(SignIn(s, email, password).0) && InSync(SignOut(s))
  {
  }
}
