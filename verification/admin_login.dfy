/** The admin sign-in page (app/admin/login/page.tsx): the on-load
    redirect, the admin test after a password sign-in and the error
    classification. The auth client's answers and the profile row are
    inputs. */
module AdminLogin {
  import opened Wrappers
  import opened Strings

  datatype User = User(id: string, email: Option<string>)

  /** The `user_profiles` row as read: `isAdmin` is absent when the column
      comes back missing. */
  datatype AdminProfile = AdminProfile(isAdmin: Option<bool>)

  const DefaultRedirect := "/admin"
  const AccessDenied := "Access denied. Admin credentials required."
  const TooManyAttempts := "Too many attempts. Try again later."
  const ConnectionError := "Connection error. Please try again."
  const InvalidCredentials := "Invalid email or password"

  /** The configured admin e-mail is set and is the user's. */
  predicate EmailMatchesAdmin(user: User, adminEmail: Option<string>) {
    Truthy(adminEmail) && user.email == adminEmail
  }

  /** `isAdmin`: the profile flag is exactly `true`, or the e-mail matches. */
  predicate IsAdmin(user: User, profile: Option<AdminProfile>, adminEmail: Option<string>) {
    (profile.Some? && profile.value.isAdmin == Some(true)) || EmailMatchesAdmin(user, adminEmail)
  }

  /** The on-load check: an already signed-in admin is sent on at once. */
  function AutoRedirect(user: Option<User>, adminEmail: Option<string>, param: Option<string>): (to: Option<string>)
    ensures to.Some? <==> user.Some? && EmailMatchesAdmin(user.value, adminEmail)
    ensures to.Some? ==> to.value == OrElse(param, DefaultRedirect)
  {
    if user.Some? && EmailMatchesAdmin(user.value, adminEmail) then Some(OrElse(param, DefaultRedirect)) else None
  }

  /** The on-load check looks only at the e-mail: a profile-flagged admin
      with another address still sees the form. */
  lemma AutoRedirectIgnoresProfile(user: User, adminEmail: Option<string>, param: Option<string>)
    requires !EmailMatchesAdmin(user, adminEmail)
    ensures IsAdmin(user, Some(AdminProfile(Some(true))), adminEmail)
    ensures AutoRedirect(Some(user), adminEmail, param).None?
  {
  }

  // ---------------------------------------------------------------------
  // Error classification
  // ---------------------------------------------------------------------

  /** The message shown for a thrown error's text. */
  function ClassifyError(message: string): (shown: string)
    ensures var m := ToLower(message);
      && (Contains(m, "rate") || Contains(m, "too many") <==> shown == TooManyAttempts)
      && (shown == ConnectionError <==>
            !(Contains(m, "rate") || Contains(m, "too many")) && (Contains(m, "network") || Contains(m, "fetch")))
      && (shown == TooManyAttempts || shown == ConnectionError || shown == InvalidCredentials)
  {
    var m := ToLower(message);
    if Contains(m, "rate") || Contains(m, "too many") then TooManyAttempts
    else if Contains(m, "network") || Contains(m, "fetch") then ConnectionError
    else InvalidCredentials
  }

  /** Letter case does not matter to the classification. */
  lemma ClassifyIgnoresCase(message: string)
    ensures ClassifyError(ToLower(message)) == ClassifyError(message)
  {
    ToLowerIdempotent(message);
  }

  /** A rate-limit message wins over a network one. */
  lemma RateBeforeNetwork(a: string)
    requires Contains(ToLower(a), "rate") && Contains(ToLower(a), "network")
    ensures ClassifyError(a) == TooManyAttempts
  {
  }

  /** The test is a plain substring search: any word holding `rate`, such
      as `generate`, reads as rate limiting. */
  lemma RateInsideWord(prefix: string)
    ensures ClassifyError(prefix + "RATE") == TooManyAttempts
  {
    var m := ToLower(prefix + "RATE");
    assert m[|prefix|..|prefix| + 4] == "rate";
    ContainsAt(m, "rate", |prefix|);
  }

  // ---------------------------------------------------------------------
  // Password sign-in
  // ---------------------------------------------------------------------

  /** How the `try` block ends before the admin test: a thrown error with
      or without a `message` property, or no error. */
  datatype Thrown = WithMessage(message: string) | NoMessage

  datatype LoginOutcome = LoginOutcome(
    sentEmail: string,
    sentPassword: string,
    signedOut: bool,
    error: Option<string>,
    navigateTo: Option<string>)

  /** `handleSignIn`. `failure` is the error the sign-in (or a later call)
      threw; otherwise `user` and `profile` are what the follow-up reads
      return. */
  function HandleSignIn(email: string, password: string, failure: Option<Thrown>,
                        user: Option<User>, profile: Option<AdminProfile>,
                        adminEmail: Option<string>, param: Option<string>): (o: LoginOutcome)
    // the e-mail is trimmed, the password is sent as typed
    ensures o.sentEmail == Trim(email) && o.sentPassword == password
    ensures failure.Some? ==> !o.signedOut && o.navigateTo.None?
    ensures failure.Some? ==> o.error == Some(ClassifyError(if failure.value.WithMessage? then failure.value.message else ""))
    // after a successful sign-in: admins go on, anyone else is signed out
    ensures failure.None? ==>
      (o.navigateTo.Some? <==> user.Some? && IsAdmin(user.value, profile, adminEmail))
    ensures failure.None? ==> (o.signedOut <==> o.navigateTo.None?)
    ensures o.signedOut ==> o.error == Some(AccessDenied)
    ensures o.navigateTo.Some? ==> o.navigateTo.value == OrElse(param, DefaultRedirect) && o.error.None?
  {
    var sentEmail := Trim(email);
    match failure
    case Some(t) =>
      var message := if t.WithMessage? then t.message else "";
      LoginOutcome(sentEmail, password, false, Some(ClassifyError(message)), None)
    case None =>
      if user.None? || !IsAdmin(user.value, profile, adminEmail) then
        LoginOutcome(sentEmail, password, true, Some(AccessDenied), None)
      else LoginOutcome(sentEmail, password, false, None, Some(OrElse(param, DefaultRedirect)))
  }

  /** An error without a message is shown as wrong credentials. */
  lemma NoMessageIsInvalid(email: string, password: string, user: Option<User>, profile: Option<AdminProfile>,
                           adminEmail: Option<string>, param: Option<string>)
    ensures HandleSignIn(email, password, Some(NoMessage), user, profile, adminEmail, param).error
         == Some(InvalidCredentials)
  {
    assert !Contains("", "rate") && !Contains("", "too many") by {
      ContainsShorter("", "rate");
      ContainsShorter("", "too many");
    }
    assert !Contains("", "network") && !Contains("", "fetch") by {
      ContainsShorter("", "network");
      ContainsShorter("", "fetch");
    }
  }

  /** Without a configured admin e-mail, only the profile flag admits. */
  lemma UnsetAdminEmailNeedsFlag(user: User, profile: Option<AdminProfile>)
    ensures IsAdmin(user, profile, None) <==> profile.Some? && profile.value.isAdmin == Some(true)
  {
  }
}
