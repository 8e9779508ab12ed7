/**
  The simulated sign-in of `src/context/auth-context.tsx`: a user, an admin
  flag and a status, changed by signing in, signing out and the development
  toggle, persisted to local storage, and a session derived from the user.
  Each asynchronous step is one transition; the router's last destination
  is recorded as `route`.
 */
module AuthContext {
  import opened Wrappers
  import opened AuthTypes

  datatype AuthStatus = Authenticated | Unauthenticated | Loading

  /** The record stored under `simulatedAuth`. */
  datatype StoredAuth = StoredAuth(user: User, isAdmin: bool)

  /** Sessions last one day. */
  const SessionLength := 24 * 60 * 60 * 1000

  /** The user signed in by the simulation. */
  const MockUser := User("123456", Some("Admin User"), Some("admin@haramainvolunteers.org"),
    Some("https://ui-avatars.com/api/?name=Admin+User&background=0D8ABC&color=fff"), AdminRole)

  function RoleFor(isAdmin: bool): AuthRole {
    if isAdmin then AdminRole else UserRole
  }

  /** `session`: present exactly when a user is, expiring a day after `now`. */
  function SessionOf(user: Option<User>, now: int): (r: Option<Session>)
    ensures r.Some? <==> user.Some?
    ensures r.Some? ==> r.value.user == user.value && r.value.expires == now + 86400000
  {
    if user.Some? then Some(Session(user.value, now + SessionLength)) else None
  }

  /** What the save effect leaves in storage: the user and flag while signed in, nothing otherwise. */
  function Persisted(user: Option<User>, isAdmin: bool): (r: Option<StoredAuth>)
    ensures r.None? <==> user.None?
  {
    if user.Some? then Some(StoredAuth(user.value, isAdmin)) else None
  }

  class AuthProvider {
    var user: Option<User>
    var isAdmin: bool
    var status: AuthStatus
    var storage: Option<StoredAuth>
    var route: Option<string>

    constructor(storage: Option<StoredAuth>)
      ensures user.None? && !isAdmin && status == Unauthenticated
      ensures this.storage == storage && route.None?
    {
      user := None;
      isAdmin := false;
      status := Unauthenticated;
      this.storage := storage;
      route := None;
    }

    /** The user's role follows the admin flag. */
    predicate Consistent()
      reads this
    {
      user.Some? ==> user.value.role == RoleFor(isAdmin)
    }

    /** Storage holds what the save effect writes for the current state. */
    predicate InStorage()
      reads this
    {
      storage == Persisted(user, isAdmin)
    }

    /** The mount effects: a stored record restores a signed-in state, then the state is saved. */
    method Mount()
      modifies this
      ensures old(storage).Some? ==>
        user == Some(old(storage).value.user) && isAdmin == old(storage).value.isAdmin && status == Authenticated
      ensures old(storage).None? ==> user == old(user) && isAdmin == old(isAdmin) && status == old(status)
      ensures InStorage() && route == old(route)
    {
      if storage.Some? {
        user := Some(storage.value.user);
        isAdmin := storage.value.isAdmin;
        status := Authenticated;
      }
      storage := Persisted(user, isAdmin);
    }

    /** `signInWithGoogle`, first step. */
    method BeginSignIn()
      modifies this
      ensures status == Loading
      ensures user == old(user) && isAdmin == old(isAdmin) && storage == old(storage) && route == old(route)
    {
      status := Loading;
    }

    /** `signInWithGoogle`, after the delay: the mock administrator is signed in and sent to the dashboard. */
    method CompleteSignIn()
      modifies this
      ensures user == Some(MockUser) && isAdmin && status == Authenticated
      ensures route == Some("/admin/dashboard")
      ensures Consistent() && InStorage()
    {
      isAdmin := true;
      user := Some(MockUser.(role := RoleFor(true)));
      status := Authenticated;
      route := Some("/admin/dashboard");
      storage := Persisted(user, isAdmin);
    }

    /** `signOutUser`, first step. */
    method BeginSignOut()
      modifies this
      ensures status == Loading
      ensures user == old(user) && isAdmin == old(isAdmin) && storage == old(storage) && route == old(route)
    {
      status := Loading;
    }

    /** `signOutUser`, after the delay: no user, signed out, sent home. The admin flag is left as it was. */
    method CompleteSignOut()
      modifies this
      ensures user.None? && status == Unauthenticated && route == Some("/")
      ensures isAdmin == old(isAdmin)
      ensures storage.None? && Consistent() && InStorage()
    {
      user := None;
      status := Unauthenticated;
      route := Some("/");
      storage := Persisted(user, isAdmin);
    }

    /** `toggleAdminStatus`: without a user nothing happens; otherwise the flag flips and the role follows. */
    method ToggleAdminStatus()
      modifies this
      ensures old(user).None? ==>
        user == old(user) && isAdmin == old(isAdmin) && route == old(route) && storage == old(storage)
      ensures old(user).Some? ==>
        isAdmin == !old(isAdmin) && user == Some(old(user).value.(role := RoleFor(isAdmin)))
        && route == Some(if isAdmin then "/admin/dashboard" else "/")
        && InStorage()
      ensures status == old(status)
      ensures Consistent()
    {
      if user.None? {
        return;
      }
      isAdmin := !isAdmin;
      user := Some(user.value.(role := RoleFor(isAdmin)));
      route := Some(if isAdmin then "/admin/dashboard" else "/");
      storage := Persisted(user, isAdmin);
    }

    function CurrentSession(now: int): Option<Session>
      reads this
    {
      SessionOf(user, now)
    }
  }

  /**
    Signing in, toggling twice and signing out: the toggle returns the flag
    and role to where they were, and signing out leaves no session and
    nothing stored.
   */
  method SessionScenario(now: int)
    returns (signedIn: Option<Session>, toggledOnce: bool, toggledTwice: bool, signedOut: Option<Session>, stored: Option<StoredAuth>)
    ensures signedIn == Some(Session(MockUser, now + 86400000))
    ensures !toggledOnce && toggledTwice
    ensures signedOut.None? && stored.None?
  {
    var a := new AuthProvider(None);
    a.Mount();
    a.BeginSignIn();
    a.CompleteSignIn();
    signedIn := a.CurrentSession(now);
    a.ToggleAdminStatus();
    toggledOnce := a.isAdmin;
    a.ToggleAdminStatus();
    toggledTwice := a.isAdmin;
    a.BeginSignOut();
    a.CompleteSignOut();
    signedOut := a.CurrentSession(now);
    stored := a.storage;
  }
}
