/** The create-password page (app/auth/create-password/page.tsx): the
    account name shown and the submit sequence of
    checks, password update and completion call. The signed-in user and the
    outcome of each backend call are inputs. */
module CreatePasswordPage {
  import opened Wrappers
  import opened Strings
  import opened Password
  import opened PasswordForm

  const SignUpPath := "/auth/signup"
  const AccountFallback := "your account"
  const SetupFailedFallback := "Failed to complete setup"
  const SetFailedFallback := "Failed to set password"

  /** The user as `getUser` reports it. */
  datatype User = User(id: Option<string>, email: Option<string>, phone: Option<string>)

  /** `user.email || user.phone || 'your account'`. */
  function Username(user: User): (name: string)
    ensures Truthy(user.email) ==> name == user.email.value
    ensures !Truthy(user.email) && Truthy(user.phone) ==> name == user.phone.value
    ensures !Truthy(user.email) && !Truthy(user.phone) ==> name == AccountFallback
    ensures name != ""
  {
    OrElse(user.email, OrElse(user.phone, AccountFallback))
  }

  /** The load effect: no user is sent to sign up, anyone else is greeted
      by name. */
  datatype Greeting = SendToSignUp(to: string) | Greet(name: string)

  function OnLoad(user: Option<User>): (g: Greeting)
    ensures user.None? <==> g == SendToSignUp(SignUpPath)
    ensures user.Some? ==> g == Greet(Username(user.value))
  {
    if user.None? then SendToSignUp(SignUpPath) else Greet(Username(user.value))
  }

  /** The answer of `POST /api/auth/complete-password-setup`: OK, or not OK
      with the body's `error` field (absent also when the body is not
      JSON). */
  datatype SetupReply = SetupOk | SetupRejected(error: Option<string>)

  /** What a submit did: the error shown, the calls made (the completion
      call with the user id it sent) and where it navigated. */
  datatype SubmitOutcome = SubmitOutcome(
    error: string,
    updateCalled: bool,
    setupCalledFor: Option<string>,
    navigateTo: Option<string>)

  /** `handleSubmit`. `updateFailure` is the error `updateUser` threw;
      `userId` is the id `getUser` then reports; `reply` is the completion
      call's answer; `redirectAfter` is the `redirect` parameter or `/`,
      as `Strings.OrElse` picks it. */
  function HandleSubmit(password: string, confirm: string, updateFailure: Option<Caught>,
                        userId: Option<string>, reply: SetupReply, redirectAfter: string): (o: SubmitOutcome)
    // the checks come first; a failed check calls nothing
    ensures o.updateCalled <==> FormCheck(password, confirm).None?
    ensures !o.updateCalled ==> o == SubmitOutcome(FormCheck(password, confirm).value, false, None, None)
    // a failed update stops before the completion call
    ensures o.updateCalled && updateFailure.Some? ==>
      o == SubmitOutcome(CaughtText(updateFailure.value, SetFailedFallback), true, None, None)
    // the completion call is made for the user's id, when there is one
    ensures o.setupCalledFor.Some? <==> o.updateCalled && updateFailure.None? && Truthy(userId)
    ensures o.setupCalledFor.Some? ==> o.setupCalledFor == userId
    // a rejected completion shows its error, or the fallback
    ensures o.setupCalledFor.Some? && reply.SetupRejected? ==>
      o.error == OrElse(reply.error, SetupFailedFallback) && o.navigateTo.None?
    ensures o.navigateTo.Some? ==> o.navigateTo.value == redirectAfter && o.error == ""
  {
    match FormCheck(password, confirm)
    case Some(e) => SubmitOutcome(e, false, None, None)
    case None =>
      if updateFailure.Some? then
        SubmitOutcome(CaughtText(updateFailure.value, SetFailedFallback), true, None, None)
      else if !Truthy(userId) then SubmitOutcome("", true, None, Some(redirectAfter))
      else match reply
        case SetupOk => SubmitOutcome("", true, userId, Some(redirectAfter))
        case SetupRejected(error) =>
          // the page throws `new Error(...)`, so its message is shown
          SubmitOutcome(CaughtText(AnError(OrElse(error, SetupFailedFallback)), SetFailedFallback), true, userId, None)
  }

  /** The page navigates only after the update succeeded and, when the
      user has an id, after the completion call was accepted. */
  lemma NavigateOnlyAfterBothSucceed(password: string, confirm: string, updateFailure: Option<Caught>,
                                     userId: Option<string>, reply: SetupReply, redirectAfter: string)
    ensures var o := HandleSubmit(password, confirm, updateFailure, userId, reply, redirectAfter);
      o.navigateTo.Some? <==>
        FormCheck(password, confirm).None? && updateFailure.None? && (Truthy(userId) ==> reply == SetupOk)
  {
  }

  /** A user without an id is sent on without the completion call, so the
      setup flag is never cleared for them. */
  lemma NoIdSkipsSetup(password: string, confirm: string, reply: SetupReply, redirectAfter: string)
    requires FormCheck(password, confirm).None?
    ensures var o := HandleSubmit(password, confirm, None, None, reply, redirectAfter);
      o.setupCalledFor.None? && o.navigateTo == Some(redirectAfter)
  {
  }

  /** An invalid password shows its first validation error and no update
      is attempted. */
  lemma InvalidShowsFirstError(password: string, confirm: string, updateFailure: Option<Caught>,
                               userId: Option<string>, reply: SetupReply, redirectAfter: string)
    requires !ValidatePassword(password).valid
    ensures var o := HandleSubmit(password, confirm, updateFailure, userId, reply, redirectAfter);
      !o.updateCalled && o.error == ValidatePassword(password).errors[0]
  {
  }
}
