/**
 * The route guard that runs before every matched request: it looks at
 * whether the refreshed session has a user and at the request's pathname,
 * and either lets the request through or redirects it.
 */
module Middleware {

  datatype Decision = PassThrough | RedirectToLogin | RedirectToDashboard

  const LoginPath: string := "/login"
  const DashboardPath: string := "/dashboard"

  /** The routes reachable without a session, compared as whole pathnames. */
  const PublicRoutes: seq<string> := ["/", "/login", "/error"]

  /** `publicRoutes.includes(pathname)`: membership is exact string equality, with no prefix matching. */
  function IsPublicRoute(pathname: string): (b: bool)
    ensures b <==> pathname == "/" || pathname == "/login" || pathname == "/error"
  {
    pathname in PublicRoutes
  }

  /** Where a redirect sends the browser. */
  function Location(d: Decision): string
    requires d != PassThrough
  {
    if d == RedirectToLogin then LoginPath else DashboardPath
  }

  /**
   * The guard's decision. A signed-out request for a protected path goes to
   * the login page; a signed-in request for exactly `/login` goes to the
   * dashboard; everything else passes through.
   */
  function Guard(signedIn: bool, pathname: string): (d: Decision)
    ensures d == RedirectToLogin <==> !signedIn && !IsPublicRoute(pathname)
    ensures d == RedirectToDashboard <==> signedIn && pathname == LoginPath
    ensures d == PassThrough <==> (if signedIn then pathname != LoginPath else IsPublicRoute(pathname))
  {
    if !signedIn && !IsPublicRoute(pathname) then RedirectToLogin
    else if signedIn && pathname == LoginPath then RedirectToDashboard
    else PassThrough
  }

  /** Following a redirect with the same session is never redirected again: the guard cannot loop. */
  lemma NoRedirectLoop(signedIn: bool, pathname: string)
    requires Guard(signedIn, pathname) != PassThrough
    ensures Guard(signedIn, Location(Guard(signedIn, pathname))) == PassThrough
  {
  }

  /** A signed-out visitor is sent to `/login` for every path except exactly `/`, `/login` and `/error`. */
  lemma SignedOutOutcomes(pathname: string)
    ensures Guard(false, pathname) == (if pathname in {"/", "/login", "/error"} then PassThrough else RedirectToLogin)
  {
  }

  /** A signed-in visitor is only ever redirected away from `/login`, and only to the dashboard. */
  lemma SignedInOutcomes(pathname: string)
    ensures Guard(true, pathname) == (if pathname == "/login" then RedirectToDashboard else PassThrough)
  {
  }

  /** Paths that merely extend a public route are protected. */
  lemma ExtendedPublicPathsAreProtected()
    ensures Guard(false, "/login/") == RedirectToLogin
    ensures Guard(false, "/error/x") == RedirectToLogin
    ensures Guard(false, "/dashboard") == RedirectToLogin
  {
  }
}
