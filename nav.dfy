/**
 * The navigation bar: on which paths it is hidden, which link is active,
 * what it shows while the first user lookup is pending, and the `user` and
 * `loading` state driven by that lookup and by auth-change events.
 */
module Nav {
  import opened Wrappers
  import opened TaskData
  import Middleware

  /** The paths where the bar renders nothing. */
  const HideNavbarRoutes: seq<string> := ["/login", "/error"]

  /** The links' targets, in display order. */
  const NavHrefs: seq<string> := ["/dashboard", "/tasks", "/recipes", "/scanner", "/profile"]

  /** `hideNavbarRoutes.includes(pathname)`: exact equality with `/login` or `/error`. */
  function ShouldHideNavbar(pathname: string): (hidden: bool)
    ensures hidden <==> pathname == "/login" || pathname == "/error"
  {
    pathname in HideNavbarRoutes
  }

  /** `isActive(href)`: a link is active only on its own page, which is one where the navbar shows and a signed-in user is let through. */
  predicate IsActive(pathname: string, href: string)
    ensures IsActive(pathname, href) && href in NavHrefs ==>
      !ShouldHideNavbar(pathname) && Middleware.Guard(true, pathname) == Middleware.PassThrough
  {
    pathname == href
  }

  /** The links point to five different paths. */
  lemma NavHrefsDistinct()
    ensures forall i, j :: 0 <= i < j < |NavHrefs| ==> NavHrefs[i] != NavHrefs[j]
  {
    assert NavHrefs[0][1] == 'd' && NavHrefs[1][1] == 't' && NavHrefs[2][1] == 'r';
    assert NavHrefs[3][1] == 's' && NavHrefs[4][1] == 'p';
  }

  /** At most one link is highlighted, whatever the path. */
  lemma AtMostOneActive(pathname: string, i: nat, j: nat)
    requires i < j < |NavHrefs|
    ensures !(IsActive(pathname, NavHrefs[i]) && IsActive(pathname, NavHrefs[j]))
  {
    NavHrefsDistinct();
  }

  /** The bar is only ever hidden on routes the guard lets anyone reach. */
  lemma HiddenOnlyOnPublicRoutes(pathname: string)
    requires ShouldHideNavbar(pathname)
    ensures Middleware.IsPublicRoute(pathname)
    ensures !Middleware.Guard(false, pathname).RedirectToLogin?
  {
  }

  /** What the bar renders. */
  datatype View =
    | Hidden
    | Skeleton
    | Bar(active: seq<bool>, signedIn: bool)

  /**
   * The render decision: nothing on `/login` and `/error`; a placeholder
   * until the first lookup or auth event; otherwise the links, each marked
   * active when it is the current path, and the user menu or the sign-in link.
   */
  function ViewOf(pathname: string, user: Option<User>, loading: bool): (v: View)
    ensures v.Hidden? <==> ShouldHideNavbar(pathname)
    ensures v.Skeleton? <==> !ShouldHideNavbar(pathname) && loading
    ensures v.Bar? ==> |v.active| == |NavHrefs| && v.signedIn == user.Some?
    ensures v.Bar? ==> forall i :: 0 <= i < |NavHrefs| ==> (v.active[i] <==> pathname == NavHrefs[i])
  {
    if ShouldHideNavbar(pathname) then Hidden
    else if loading then Skeleton
    else Bar(seq(|NavHrefs|, i requires 0 <= i < |NavHrefs| => IsActive(pathname, NavHrefs[i])), user.Some?)
  }

  /** An auth-change event's session. */
  datatype Session = Session(user: User)

  /** The effects of `handleSignOut`, in order. */
  datatype Call = SignOut | Push(path: string)

  /** `handleSignOut`: sign out, and only once that has completed, navigate to `/login`. */
  function SignOutCalls(): (calls: seq<Call>)
    ensures calls == [SignOut, Push(Middleware.LoginPath)]
    ensures |calls| == 2 && calls[0] == SignOut && calls[1].Push?
    ensures Middleware.Guard(false, calls[1].path) == Middleware.PassThrough
    ensures ShouldHideNavbar(calls[1].path)
  {
    [SignOut, Push(Middleware.LoginPath)]
  }

  class NavState {
    var user: Option<User>
    var loading: bool

    constructor()
      ensures user == None && loading
    {
      user, loading := None, true;
    }

    /** The first `getUser` answer: records the user (or null) and ends loading. */
    method OnInitialUser(found: Option<User>)
      modifies this
      ensures user == found && !loading
    {
      user := found;
      loading := false;
    }

    /** An auth-change event: the session's user, or null without a session, and loading ends. */
    method OnAuthStateChange(session: Option<Session>)
      modifies this
      ensures user == (if session.Some? then Some(session.value.user) else None)
      ensures !loading
    {
      user := if session.Some? then Some(session.value.user) else None;
      loading := false;
    }
  }
}
