// The sign-in form at /auth/login (app/auth/login/page.tsx): it maps a
// sign-in error to a message, or looks up the user's role and navigates to
// that role's landing page.

module AuthLogin {
  import opened DatabaseTypes
  import Guards

  const InvalidCredentials := "Invalid login credentials"
  const InvalidCredentialsMessage := "Bilgileriniz hatalı. Lütfen kontrol edin."
  const FailurePrefix := "Giriş yapılamadı: "

  /** The message thrown for a sign-in error `message`. */
  function ErrorMessage(message: string): (shown: string)
    ensures shown == InvalidCredentialsMessage <==> message == InvalidCredentials
    ensures message != InvalidCredentials ==>
              |FailurePrefix| <= |shown| && shown[..|FailurePrefix|] == FailurePrefix
              && shown[|FailurePrefix|..] == message
  {
    if message == InvalidCredentials then InvalidCredentialsMessage
    else
      var shown := FailurePrefix + message;
      assert shown[0] != InvalidCredentialsMessage[0];
      assert shown[|FailurePrefix|..] == message;
      shown
  }

  /** Where a signed-in user is sent, from `profile?.role` (`None` when the
      lookup returned no row). */
  function LoginTarget(role: Option<UserRole>): (path: string)
    ensures role.None? ==> path == Guards.FanHome
  {
    if role == Some(Creator) then Guards.CreatorHome
    else if role == Some(Admin) then Guards.AdminHome
    else Guards.FanHome
  }

  /** This form sends every role to the page `getRedirectPath` names. */
  lemma LoginTargetAgreesWithGuards(role: UserRole)
    ensures LoginTarget(Some(role)) == Guards.RedirectPath(role)
  {
  }

  /** The form's state, and what it has asked of the outside world. */
  class LoginForm {
    var loading: bool
    /** Ids whose profile row was read, in order. */
    var profileLookups: seq<string>
    /** Paths pushed on the router, in order. */
    var navigation: seq<string>
    /** The last error toast. */
    var errorToast: Option<string>

    constructor ()
      ensures !loading && profileLookups == [] && navigation == [] && errorToast == None
    {
      loading := false;
      profileLookups := [];
      navigation := [];
      errorToast := None;
    }

    /** `handleLogin`: `signInError` is the error message, if any; `user` the
        signed-in user; `profiles` the `profiles.role` column by id. */
    method HandleLogin(signInError: Option<string>, user: Option<string>, profiles: map<string, UserRole>)
      modifies this
      ensures !loading
      // An error is shown and nothing is looked up or visited.
      ensures signInError.Some? ==>
                errorToast == Some(ErrorMessage(signInError.value))
                && profileLookups == old(profileLookups) && navigation == old(navigation)
      // Otherwise one lookup and one navigation, to the role's landing page.
      ensures signInError.None? && user.Some? ==>
                var role := if user.value in profiles then Some(profiles[user.value]) else None;
                profileLookups == old(profileLookups) + [user.value]
                && navigation == old(navigation) + [LoginTarget(role)]
                && errorToast == old(errorToast)
      ensures signInError.None? && user.None? ==>
                profileLookups == old(profileLookups) && navigation == old(navigation) && errorToast == old(errorToast)
    {
      loading := true;
      if signInError.Some? {
        errorToast := Some(ErrorMessage(signInError.value));
        loading := false;
        return;
      }
      if user.Some? {
        profileLookups := profileLookups + [user.value];
        var role := if user.value in profiles then Some(profiles[user.value]) else None;
        navigation := navigation + [LoginTarget(role)];
      }
      loading := false;
    }
  }
}
