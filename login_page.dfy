/** The sign-in and registration form (pages/Login.tsx): its mode, its two inputs and the error
    it shows, and the duplicate-email guard it applies before registering. */
module LoginPage {
  import opened Types
  import opened Text
  import opened Lists
  import opened App
  import AppContext

  const NOT_FOUND := "Researcher email not found. Please register if you are new."
  const ALREADY_REGISTERED := "This email is already registered."

  /** The `'signin' | 'register'` tab. */
  datatype Mode = SignIn | Join

  function EmailMatchesFor(email: string): User -> bool {
    (u: User) => EmailMatches(u, email)
  }

  /** `users.some(u => u.email.toLowerCase() === email.toLowerCase())`. */
  function EmailTaken(users: seq<User>, email: string): (b: bool)
    ensures b <==> exists i :: 0 <= i < |users| && EmailMatches(users[i], email)
  {
    Any(users, EmailMatchesFor(email))
  }

  /** The guard and the store's sign-in look at the same thing: an email is taken exactly when
      signing in with it succeeds. */
  lemma TakenIffSignInSucceeds(s: AppState, email: string)
    ensures EmailTaken(s.users, email) <==> App.Login(s, email).0
  {
  }

  /** Registering an email the guard lets through keeps the emails unique ignoring case, and
      signing in with that email afterwards finds the new account, which is already the session. */
  lemma GuardedRegister(s: AppState, name: string, email: string, id: string, now: Timestamp)
    requires !EmailTaken(s.users, email)
    ensures UniqueEmails(s.users) ==> UniqueEmails(Register(s, name, email, id, now).users)
    ensures var r := Register(s, name, email, id, now);
      App.Login(r, email) == (true, r)
  {
    var r := Register(s, name, email, id, now);
    var u := NewResearcher(name, email, id, now);
    if UniqueEmails(s.users) {
      forall i | 0 <= i < |s.users| ensures DistinctEmails(s.users[i], u) {
        assert !EmailMatches(s.users[i], email);
      }
      PairwiseAppend(s.users, u, DistinctEmails);
    }
    var n := |s.users|;
    assert EmailMatches(r.users[n], email);
    assert App.Login(r, email).0;
    var i :| FirstEmailMatch(r.users, email, i) && App.Login(r, email).1 == r.(currentUser := Some(r.users[i]));
    assert i == n;
  }

  class LoginForm {
    var mode: Mode
    var email: string
    var name: string
    /** The message shown above the form; empty shows none. */
    var error: string

    constructor ()
      ensures mode == SignIn && email == "" && name == "" && error == ""
    {
      mode := SignIn;
      email := "";
      name := "";
      error := "";
    }

    /** The two tab buttons: switching clears the error and keeps what was typed. */
    method SwitchMode(m: Mode)
      modifies this
      ensures mode == m && error == ""
      ensures email == old(email) && name == old(name)
    {
      mode := m;
      error := "";
    }

    /** `handleSignIn`: the error is cleared, then set when no user has the email. */
    method HandleSignIn(app: AppContext.Store)
      requires app.Valid()
      modifies this, app
      ensures app.Valid()
      ensures app.state == App.Login(old(app.state), email).1
      ensures error == if App.Login(old(app.state), email).0 then "" else NOT_FOUND
      ensures mode == old(mode) && email == old(email) && name == old(name)
      ensures app.cloudError == old(app.cloudError) && app.Quiet(old(app.outbox), old(app.alerts), old(app.isSyncing))
    {
      error := "";
      var success := app.Login(email);
      if !success {
        error := NOT_FOUND;
      }
    }

    /** `handleRegister`: a taken email shows the error and leaves the store alone; any other
        email registers a new researcher, which keeps the emails unique. */
    method HandleRegister(app: AppContext.Store, id: string, now: Timestamp)
      requires app.Valid()
      modifies this, app
      ensures app.Valid()
      ensures mode == old(mode) && email == old(email) && name == old(name)
      ensures EmailTaken(old(app.state).users, email) ==> error == ALREADY_REGISTERED && unchanged(app)
      ensures !EmailTaken(old(app.state).users, email) ==>
        && error == ""
        && app.state == Register(old(app.state), name, email, id, now)
        && app.cloudError == old(app.cloudError)
        && app.Pushed(old(app.outbox), old(app.alerts), old(app.isSyncing), SyncPayload(app.state))
      ensures UniqueEmails(old(app.state).users) ==> UniqueEmails(app.state.users)
    {
      error := "";
      if EmailTaken(app.state.users, email) {
        error := ALREADY_REGISTERED;
        return;
      }
      GuardedRegister(app.state, name, email, id, now);
      app.Register(name, email, id, now);
    }
  }
}
