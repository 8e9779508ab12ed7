/**
  The access gate and mobile menu of the admin area, `src/app/admin/layout.tsx`:
  a spinner while the sign-in state is loading, a redirect to the
  unauthorized page for anyone but a signed-in administrator, and the admin
  shell only for one.
 */
module AdminLayout {
  import opened Wrappers
  import opened AuthTypes
  import opened AuthContext
  import FlatTranslation

  datatype View = Spinner | Nothing | AdminShell

  /** What the layout renders. */
  function Gate(status: AuthStatus, isAdmin: bool): (r: View)
    ensures r == Spinner <==> status.Loading?
    ensures r == AdminShell <==> status.Authenticated? && isAdmin
  {
    if status.Loading? then Spinner
    else if status.Unauthenticated? || !isAdmin then Nothing
    else AdminShell
  }

  /** Where the redirect effect sends the browser, if anywhere. */
  function Redirect(status: AuthStatus, isAdmin: bool): (r: Option<string>)
    ensures r.Some? ==> r.value == "/unauthorized"
  {
    if status.Loading? then None
    else if status.Unauthenticated? then Some("/unauthorized")
    else if !isAdmin then Some("/unauthorized")
    else None
  }

  /**
    Every state is exactly one of: loading (spinner, no redirect), admitted
    (shell, no redirect), or refused (nothing rendered, redirected).
   */
  lemma GateAndRedirectAgree(status: AuthStatus, isAdmin: bool)
    ensures Redirect(status, isAdmin).Some? <==> Gate(status, isAdmin) == Nothing
    ensures Gate(status, isAdmin) == Nothing <==> !status.Loading? && !(status.Authenticated? && isAdmin)
  {
  }

  /** Right after the simulated sign-in the admin area opens; after sign-out it redirects. */
  method GateScenario() returns (afterSignIn: View, afterSignOut: View, redirect: Option<string>)
    ensures afterSignIn == AdminShell
    ensures afterSignOut == Nothing && redirect == Some("/unauthorized")
  {
    var auth := new AuthProvider(None);
    auth.BeginSignIn();
    auth.CompleteSignIn();
    afterSignIn := Gate(auth.status, auth.isAdmin);
    auth.BeginSignOut();
    auth.CompleteSignOut();
    afterSignOut := Gate(auth.status, auth.isAdmin);
    redirect := Redirect(auth.status, auth.isAdmin);
  }

  /** The avatar's fallback letter: the name's first character, or `A` without a usable name. */
  function AvatarInitial(user: Option<User>): (r: char)
    ensures user.Some? && user.value.name.Some? && user.value.name.value != "" ==> r == user.value.name.value[0]
    ensures user.None? || user.value.name.None? || user.value.name.value == "" ==> r == 'A'
  {
    if user.Some? && user.value.name.Some? && user.value.name.value != "" then user.value.name.value[0] else 'A'
  }

  /** The document title while the admin area is shown, and the one restored on leaving it. */
  function AdminTitle(translations: map<string, string>): string {
    FlatTranslation.Lookup(translations, "adminPortal") + " | " + FlatTranslation.Lookup(translations, "siteName")
  }

  function LeavingTitle(translations: map<string, string>): string {
    FlatTranslation.Lookup(translations, "siteName")
  }

  /** Before the table has loaded, the titles show the bare keys. */
  lemma TitlesBeforeLoad()
    ensures AdminTitle(map[]) == "adminPortal | siteName"
    ensures LeavingTitle(map[]) == "siteName"
  {
  }

  /** The admin title always ends with the title restored on leaving, after a separator. */
  lemma AdminTitleEndsWithSiteName(translations: map<string, string>)
    ensures var a := AdminTitle(translations); var l := LeavingTitle(translations);
      |a| >= |l| + 3 && a[|a| - |l|..] == l && a[|a| - |l| - 3..|a| - |l|] == " | "
  {
    var p := FlatTranslation.Lookup(translations, "adminPortal");
    var l := LeavingTitle(translations);
    assert AdminTitle(translations) == (p + " | ") + l;
  }

  class MobileMenu {
    var isOpen: bool

    constructor()
      ensures !isOpen
    {
      isOpen := false;
    }

    /** The menu button flips the menu. */
    method Toggle()
      modifies this
      ensures isOpen == !old(isOpen)
    {
      isOpen := !isOpen;
    }

    /** A click on the backdrop closes it. */
    method BackdropClick()
      modifies this
      ensures !isOpen
    {
      isOpen := false;
    }
  }
}
