// Server-side access guards (lib/auth/guards.ts): who is signed in, and where
// a page sends a visitor whose role it does not admit.

module Guards {
  import opened DatabaseTypes

  const FanHome := "/app/dashboard"
  const CreatorHome := "/studio/dashboard"
  const AdminHome := "/admin/proofs"
  const LoginPath := "/auth/login"

  /** `getRedirectPath(role)`: each role's landing page; a value outside the
      three roles takes the `default` arm. */
  function RedirectPath(role: UserRole): (path: string)
    ensures path == CreatorHome <==> role == Creator
    ensures path == AdminHome <==> role == Admin
    ensures path == FanHome <==> role == Fan || role == Unrecognized
  {
    match role
    case Fan => FanHome
    case Creator => CreatorHome
    case Admin => AdminHome
    case Unrecognized => FanHome
  }

  /** The session user's id and their profile row. */
  datatype CurrentUser = CurrentUser(userId: string, profile: Profile)

  /** `getCurrentUser()`: `authUser` is the session's user, if any; the profile
      is looked up by id in `profiles`. Either call may fail. */
  function GetCurrentUser(authUser: Option<string>, authFails: bool,
                          profiles: map<string, Profile>, profileReadFails: bool): (r: Option<CurrentUser>)
    ensures r.None? <==> authFails || authUser.None? || profileReadFails || authUser.value !in profiles
    ensures r.Some? ==> r.value.userId == authUser.value && r.value.profile == profiles[authUser.value]
  {
    if authFails || authUser.None? then None
    else if profileReadFails || authUser.value !in profiles then None
    else Some(CurrentUser(authUser.value, profiles[authUser.value]))
  }

  /** What a guard does: hand the page the user, or throw Next's redirect. */
  datatype GuardOutcome = Admit(user: CurrentUser) | Redirect(path: string)

  /** `requireAuth()`. */
  function RequireAuth(current: Option<CurrentUser>): (g: GuardOutcome)
    ensures g.Redirect? <==> current.None?
    ensures g.Redirect? ==> g.path == LoginPath
    ensures g.Admit? ==> g.user == current.value
  {
    match current
    case None => Redirect(LoginPath)
    case Some(u) => Admit(u)
  }

  /** `requireRole(allowedRoles)`: a listed role is admitted; the switch sends a
      fan, creator or admin home, and any other value falls out of the switch
      and is admitted as well. */
  function RequireRole(current: Option<CurrentUser>, allowedRoles: seq<UserRole>): (g: GuardOutcome)
    ensures current.None? ==> g == Redirect(LoginPath)
    ensures current.Some? ==>
              var role := current.value.profile.role;
              (g.Admit? <==> role in allowedRoles || role == Unrecognized)
              && (g.Admit? ==> g.user == current.value)
              && (g.Redirect? ==> g.path == RedirectPath(role))
  {
    match RequireAuth(current)
    case Redirect(path) => Redirect(path)
    case Admit(u) =>
      if u.profile.role in allowedRoles then Admit(u)
      else
        match u.profile.role
        case Fan => Redirect(FanHome)
        case Creator => Redirect(CreatorHome)
        case Admin => Redirect(AdminHome)
        case Unrecognized => Admit(u)
  }

  /** `requireFan()`: fans and admins (and unrecognised roles). */
  function RequireFan(current: Option<CurrentUser>): (g: GuardOutcome)
    ensures current.Some? ==> (g.Admit? <==> current.value.profile.role != Creator)
    ensures current.Some? && g.Redirect? ==> g.path == CreatorHome
  {
    RequireRole(current, [Fan, Admin])
  }

  /** `requireCreator()`: creators and admins (and unrecognised roles). */
  function RequireCreator(current: Option<CurrentUser>): (g: GuardOutcome)
    ensures current.Some? ==> (g.Admit? <==> current.value.profile.role != Fan)
    ensures current.Some? && g.Redirect? ==> g.path == FanHome
  {
    RequireRole(current, [Creator, Admin])
  }

  /** `requireAdmin()`: admins (and unrecognised roles); others go home. */
  function RequireAdmin(current: Option<CurrentUser>): (g: GuardOutcome)
    ensures current.Some? ==>
              (g.Admit? <==> current.value.profile.role in {Admin, Unrecognized})
    ensures current.Some? && g.Redirect? ==> g.path == RedirectPath(current.value.profile.role)
  {
    RequireRole(current, [Admin])
  }

  /** No guard ever sends an admin away, nor anyone to the admin page. */
  lemma AdminNeverTurnedAway(current: Option<CurrentUser>)
    requires current.Some? && current.value.profile.role == Admin
    ensures RequireFan(current).Admit? && RequireCreator(current).Admit? && RequireAdmin(current).Admit?
  {
  }
}
