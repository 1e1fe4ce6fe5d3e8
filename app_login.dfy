// The older sign-in form at /login (app/login/page.tsx): same flow, but an
// admin is sent to "/admin" rather than to the proofs queue.

module AppLogin {
  import opened DatabaseTypes
  import Guards

  const AdminRoot := "/admin"
  const DefaultError := "Giriş yapılamadı"

  /** Where a signed-in user is sent, from `profile?.role`. */
  function LegacyLoginTarget(role: Option<UserRole>): (path: string)
    ensures role.None? ==> path == Guards.FanHome
  {
    if role == Some(Admin) then AdminRoot
    else if role == Some(Creator) then Guards.CreatorHome
    else Guards.FanHome
  }

  /** It agrees with `getRedirectPath` on every role but the admin, whose
      target it gives as "/admin" instead of "/admin/proofs". */
  lemma LegacyTargetDiffersOnlyForAdmin(role: UserRole)
    ensures LegacyLoginTarget(Some(role)) == Guards.RedirectPath(role) <==> role != Admin
    ensures role == Admin ==> LegacyLoginTarget(Some(role)) == AdminRoot
  {
    if role == Admin {
      assert |AdminRoot| != |Guards.AdminHome|;
    }
  }

  /** `error.message || "Giriş yapılamadı"`. */
  function ToastText(message: string): (shown: string)
    ensures shown != ""
    ensures message != "" ==> shown == message
    ensures message == "" ==> shown == DefaultError
  {
    if message != "" then message else DefaultError
  }

  class LegacyLoginForm {
    var loading: bool
    var profileLookups: seq<string>
    var navigation: seq<string>
    var errorToast: Option<string>

    constructor ()
      ensures !loading && profileLookups == [] && navigation == [] && errorToast == None
    {
      loading := false;
      profileLookups := [];
      navigation := [];
      errorToast := None;
    }

    /** `handleLogin`. A successful sign-in always carries a user; should it
        not, reading `data.user.id` throws, with message `nullUserMessage`. */
    method HandleLogin(signInError: Option<string>, user: Option<string>, profiles: map<string, UserRole>,
                       nullUserMessage: string)
      modifies this
      ensures !loading
      ensures signInError.Some? ==>
                errorToast == Some(ToastText(signInError.value))
                && profileLookups == old(profileLookups) && navigation == old(navigation)
      ensures signInError.None? && user.None? ==>
                errorToast == Some(ToastText(nullUserMessage))
                && profileLookups == old(profileLookups) && navigation == old(navigation)
      ensures signInError.None? && user.Some? ==>
                var role := if user.value in profiles then Some(profiles[user.value]) else None;
                profileLookups == old(profileLookups) + [user.value]
                && navigation == old(navigation) + [LegacyLoginTarget(role)]
                && errorToast == old(errorToast)
    {
      loading := true;
      if signInError.Some? {
        errorToast := Some(ToastText(signInError.value));
        loading := false;
        return;
      }
      if user.None? {
        errorToast := Some(ToastText(nullUserMessage));
        loading := false;
        return;
      }
      profileLookups := profileLookups + [user.value];
      var role := if user.value in profiles then Some(profiles[user.value]) else None;
      navigation := navigation + [LegacyLoginTarget(role)];
      loading := false;
    }
  }
}
