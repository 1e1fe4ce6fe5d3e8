// The route protection inside `updateSession` (lib/supabase/middleware.ts):
// prefix tests on the path, then a decision from the session user and the
// role stored in their profile row.

module Middleware {
  import opened DatabaseTypes
  import Guards

  predicate StartsWith(s: string, prefix: string) {
    prefix <= s
  }

  predicate IsAppRoute(pathname: string) { StartsWith(pathname, "/app") }
  predicate IsStudioRoute(pathname: string) { StartsWith(pathname, "/studio") }
  predicate IsAdminRoute(pathname: string) { StartsWith(pathname, "/admin") }

  predicate IsProtected(pathname: string) {
    IsAppRoute(pathname) || IsStudioRoute(pathname) || IsAdminRoute(pathname)
  }

  /** Return the session's response unchanged, or redirect to a path. */
  datatype RouteDecision = PassThrough | RedirectTo(path: string)

  /** The decision for `pathname` given the session user and, when the
      profile lookup returned a row, its role. */
  function Route(pathname: string, user: Option<string>, role: Option<UserRole>): (d: RouteDecision)
    // Unprotected paths pass for everyone.
    ensures !IsProtected(pathname) ==> d == PassThrough
    // Signed out on a protected path: the login page.
    ensures IsProtected(pathname) && user.None? ==> d == RedirectTo(Guards.LoginPath)
    // Signed in without a profile row, or as an admin: never redirected.
    ensures user.Some? && (role.None? || role == Some(Admin)) ==> d == PassThrough
    // Who is sent away, and from where.
    ensures IsProtected(pathname) && user.Some? && role == Some(Fan) ==>
              (d.RedirectTo? <==> IsStudioRoute(pathname) || IsAdminRoute(pathname))
    ensures IsProtected(pathname) && user.Some? && role == Some(Creator) ==>
              (d.RedirectTo? <==> IsAppRoute(pathname) || IsAdminRoute(pathname))
    ensures IsProtected(pathname) && user.Some? && role == Some(Unrecognized) ==>
              (d.RedirectTo? <==> IsAdminRoute(pathname))
    // Every redirect of a signed-in user goes to the landing page of their role.
    ensures user.Some? && d.RedirectTo? ==>
              role.Some? && role.value != Admin && d.path == Guards.RedirectPath(role.value)
  {
    if !IsProtected(pathname) then PassThrough
    else if user.None? then RedirectTo(Guards.LoginPath)
    else if role.None? then PassThrough
    else if role.value == Fan && (IsStudioRoute(pathname) || IsAdminRoute(pathname)) then RedirectTo(Guards.FanHome)
    else if role.value == Creator && IsAppRoute(pathname) then RedirectTo(Guards.CreatorHome)
    else if role.value != Admin && IsAdminRoute(pathname) then
      RedirectTo(if role.value == Creator then Guards.CreatorHome else Guards.FanHome)
    else PassThrough
  }

  /** The test is a bare prefix: "/application" is an app route, so a creator
      is sent from it to the studio, and a signed-out visitor to the login page. */
  lemma PrefixCatchesLongerNames(user: string)
    ensures IsAppRoute("/application")
    ensures Route("/application", Some(user), Some(Creator)) == RedirectTo(Guards.CreatorHome)
    ensures Route("/application", None, None) == RedirectTo(Guards.LoginPath)
  {
    assert "/app" <= "/application";
  }

  /** Where the middleware lets a signed-in user with a profile through, the
      page guard of that area admits them too. */
  lemma MiddlewareAgreesWithGuards(pathname: string, current: Guards.CurrentUser)
    requires Route(pathname, Some(current.userId), Some(current.profile.role)) == PassThrough
    ensures IsAppRoute(pathname) ==> Guards.RequireFan(Some(current)).Admit?
    ensures IsStudioRoute(pathname) ==> Guards.RequireCreator(Some(current)).Admit?
    ensures IsAdminRoute(pathname) ==> Guards.RequireAdmin(Some(current)).Admit?
  {
  }
}
