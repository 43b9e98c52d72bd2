/** The password-reset page (app/auth/reset-password/page.tsx): the OTP
    field, the two-step machine, the verify handler and the reset handler.
    The `phone` query parameter, session notices and the outcome of each
    auth call are inputs. */
module ResetPasswordPage {
  import opened Wrappers
  import opened Strings
  import opened Password
  import opened PasswordForm

  const OtpLength := 6
  const InvalidOtpFallback := "Invalid OTP"
  const ResetFailedFallback := "Failed to reset password"
  const SuccessTarget := "/?success=Password updated successfully!"

  // ---------------------------------------------------------------------
  // OTP field
  // ---------------------------------------------------------------------

  /** The field's `onChange`: the typed text with every non-digit removed,
      then cut to six characters. */
  function SanitiseOtp(typed: string): (otp: string)
    ensures AllDigits(otp) && |otp| <= OtpLength
    // a prefix of the digits typed, and all of them when there are at most six
    ensures otp <= KeepDigits(typed)
    ensures |otp| == (if |KeepDigits(typed)| < OtpLength then |KeepDigits(typed)| else OtpLength)
  {
    var digits := KeepDigits(typed);
    if |digits| <= OtpLength then digits else digits[..OtpLength]
  }

  /** Sanitising a sanitised value changes nothing. */
  lemma SanitiseIdempotent(typed: string)
    ensures SanitiseOtp(SanitiseOtp(typed)) == SanitiseOtp(typed)
  {
    KeepDigitsOfDigits(SanitiseOtp(typed));
  }

  /** A full field ignores further typing. */
  lemma FullFieldIgnoresTyping(otp: string, more: string)
    requires AllDigits(otp) && |otp| == OtpLength
    ensures SanitiseOtp(otp + more) == otp
  {
    KeepDigitsAppend(otp, more);
    KeepDigitsOfDigits(otp);
    assert (otp + KeepDigits(more))[..OtpLength] == otp;
  }

  /** The UTF-16 units of one character. */
  function Units(c: char): nat {
    if c as int < 0x10000 then 1 else 2
  }

  /** `maxLength={6}`: of text entered into the empty field the browser
      keeps the longest prefix of at most `room` UTF-16 units, before
      `onChange` sees it. */
  function MaxLengthCut(s: string, room: nat): (r: string)
    ensures r <= s && |r| <= room
    decreases |s|
  {
    if |s| == 0 || Units(s[0]) > room then "" else [s[0]] + MaxLengthCut(s[1..], room - Units(s[0]))
  }

  /** A run of digits at the front is kept up to the room. */
  lemma {:induction false} DigitsSurviveCut(s: string, room: nat)
    requires |s| >= room && AllDigits(s[..room])
    ensures MaxLengthCut(s, room) == s[..room]
    decreases room
  {
    if room > 0 {
      assert IsDigit(s[..room][0]);
      assert s[1..][..room - 1] == s[..room][1..];
      DigitsSurviveCut(s[1..], room - 1);
    }
  }

  /** The field after text is entered into it empty: cut to six units by
      the browser, then sanitised. */
  function OtpField(typed: string): (otp: string)
    ensures AllDigits(otp) && |otp| <= OtpLength
    ensures otp <= KeepDigits(typed[..|MaxLengthCut(typed, OtpLength)|])
  {
    var cut := MaxLengthCut(typed, OtpLength);
    assert cut == typed[..|cut|];
    SanitiseOtp(cut)
  }

  /** The verify button's `disabled`. */
  predicate VerifyDisabled(loading: bool, otp: string) {
    loading || Utf16Length(otp) < OtpLength
  }

  /** For whatever is entered into the field, verify is enabled exactly
      when the first six characters are digits: a separator among them
      is dropped by `onChange` only after `maxLength` has cut the text, so
      it costs a digit. */
  lemma VerifyNeedsSixDigits(typed: string)
    ensures !VerifyDisabled(false, OtpField(typed)) <==> |typed| >= OtpLength && AllDigits(typed[..OtpLength])
  {
    var cut := MaxLengthCut(typed, OtpLength);
    var otp := SanitiseOtp(cut);
    assert forall i :: 0 <= i < |otp| ==> otp[i] as int < 0x10000 by {
      forall i | 0 <= i < |otp| ensures otp[i] as int < 0x10000 {
        assert IsDigit(otp[i]);
      }
    }
    if |typed| >= OtpLength && AllDigits(typed[..OtpLength]) {
      DigitsSurviveCut(typed, OtpLength);
      KeepDigitsOfDigits(cut);
    }
    if |otp| >= OtpLength {
      KeepDigitsFull(cut);
      assert cut == typed[..OtpLength];
    }
  }

  /** Keeping the digits keeps every character only of a run of digits. */
  lemma {:induction false} KeepDigitsFull(s: string)
    requires |KeepDigits(s)| >= |s|
    ensures AllDigits(s)
    decreases |s|
  {
    if |s| > 0 {
      assert |KeepDigits(s[1..])| <= |s[1..]|;
      KeepDigitsFull(s[1..]);
      assert forall i :: 1 <= i < |s| ==> s[i] == s[1..][i - 1];
    }
  }


  // ---------------------------------------------------------------------
  // Steps
  // ---------------------------------------------------------------------

  datatype Step = OtpStep | PasswordStep

  /** The page state the handlers touch. */
  datatype PageState = PageState(step: Step, error: string)

  const Initial := PageState(OtpStep, "")

  /** Something the page reacts to: a session reported by `getSession` or
      by `onAuthStateChange`, or a submitted verify form with the phone
      parameter, the field's value and the error `verifyOtp` threw. */
  datatype PageEvent =
    | SessionNotice(present: bool)
    | VerifySubmitted(phone: Option<string>, otp: string, failure: Option<Caught>)

  /** What a verify submit sends, if anything: the phone and the code. */
  datatype VerifyCall = VerifyCall(phone: string, token: string)

  /** `handleVerifyOtp`: without a phone nothing happens; otherwise the
      code is checked and the page moves on or shows the error. */
  function HandleVerifyOtp(state: PageState, phone: Option<string>, otp: string, failure: Option<Caught>): (r: (PageState, Option<VerifyCall>))
    ensures !Truthy(phone) ==> r == (state, None)
    ensures Truthy(phone) ==> r.1 == Some(VerifyCall(phone.value, otp))
    ensures Truthy(phone) && failure.None? ==> r.0 == PageState(PasswordStep, "")
    ensures Truthy(phone) && failure.Some? ==>
      r.0 == PageState(state.step, CaughtText(failure.value, InvalidOtpFallback))
  {
    if !Truthy(phone) then (state, None)
    else
      var call := Some(VerifyCall(phone.value, otp));
      match failure
      case None => (PageState(PasswordStep, ""), call)
      case Some(c) => (PageState(state.step, CaughtText(c, InvalidOtpFallback)), call)
  }

  /** One event. */
  function Step1(state: PageState, e: PageEvent): PageState {
    match e
    case SessionNotice(present) => if present then state.(step := PasswordStep) else state
    case VerifySubmitted(phone, otp, failure) => HandleVerifyOtp(state, phone, otp, failure).0
  }

  /** A run of events from a state. */
  function Run(state: PageState, events: seq<PageEvent>): PageState
    decreases |events|
  {
    if |events| == 0 then state else Run(Step1(state, events[0]), events[1..])
  }

  /** The event moves the page to the password step. */
  predicate Unlocks(e: PageEvent) {
    (e.SessionNotice? && e.present)
    || (e.VerifySubmitted? && Truthy(e.phone) && e.failure.None?)
  }

  /** The password step is never left. */
  lemma {:induction false} PasswordStepIsFinal(state: PageState, events: seq<PageEvent>)
    requires state.step == PasswordStep
    ensures Run(state, events).step == PasswordStep
    decreases |events|
  {
    if |events| > 0 {
      PasswordStepIsFinal(Step1(state, events[0]), events[1..]);
    }
  }

  /** The page reaches the password step exactly when some event unlocks
      it: a session, or a verify that succeeds with a phone. */
  lemma {:induction false} PasswordStepNeedsUnlock(state: PageState, events: seq<PageEvent>)
    requires state.step == OtpStep
    ensures Run(state, events).step == PasswordStep <==> exists i :: 0 <= i < |events| && Unlocks(events[i])
    decreases |events|
  {
    if |events| > 0 {
      var next := Step1(state, events[0]);
      if Unlocks(events[0]) {
        PasswordStepIsFinal(next, events[1..]);
      } else {
        assert next.step == OtpStep;
        PasswordStepNeedsUnlock(next, events[1..]);
        assert forall i :: 1 <= i < |events| ==> events[i] == events[1..][i - 1];
      }
    }
  }

  /** What the page renders. */
  datatype View = CheckingLink | CodeForm | NewPasswordForm

  /** Without a phone on the OTP step the page only says it is checking
      the link; the OTP form needs a phone. */
  function Render(phone: Option<string>, step: Step): (v: View)
    ensures v == CheckingLink <==> !Truthy(phone) && step == OtpStep
    ensures v == CodeForm <==> Truthy(phone) && step == OtpStep
    ensures v == NewPasswordForm <==> step == PasswordStep
  {
    match step
    case OtpStep => if Truthy(phone) then CodeForm else CheckingLink
    case PasswordStep => NewPasswordForm
  }

  // ---------------------------------------------------------------------
  // Reset
  // ---------------------------------------------------------------------

  /** What a reset submit did. */
  datatype ResetOutcome = ResetOutcome(error: string, updateCalled: bool, navigateTo: Option<string>)

  /** `handleResetPassword`. `failure` is the error `updateUser` threw. */
  function HandleResetPassword(password: string, confirm: string, failure: Option<Caught>): (o: ResetOutcome)
    // the update happens only when both checks pass
    ensures o.updateCalled <==> FormCheck(password, confirm).None?
    ensures !o.updateCalled ==> o.error == FormCheck(password, confirm).value && o.navigateTo.None?
    // a successful update goes home with the success notice
    ensures o.navigateTo.Some? <==> o.updateCalled && failure.None?
    ensures o.navigateTo.Some? ==> o.navigateTo.value == SuccessTarget && o.error == ""
    ensures o.updateCalled && failure.Some? ==> o.error == CaughtText(failure.value, ResetFailedFallback)
  {
    match FormCheck(password, confirm)
    case Some(e) => ResetOutcome(e, false, None)
    case None =>
      match failure
      case None => ResetOutcome("", true, Some(SuccessTarget))
      case Some(c) => ResetOutcome(CaughtText(c, ResetFailedFallback), true, None)
  }

  /** An invalid password is answered with its first validation error and
      no update, whatever the confirmation. */
  lemma InvalidShowsFirstError(password: string, confirm: string, failure: Option<Caught>)
    requires !ValidatePassword(password).valid
    ensures var o := HandleResetPassword(password, confirm, failure);
      !o.updateCalled && o.error == ValidatePassword(password).errors[0]
  {
  }

  /** The mismatch is reported, without an update, exactly for a valid
      password and a different confirmation. */
  lemma MismatchOnlyWhenValid(password: string, confirm: string, failure: Option<Caught>)
    ensures var o := HandleResetPassword(password, confirm, failure);
      !o.updateCalled && o.error == MismatchMessage <==> ValidatePassword(password).valid && password != confirm
  {
    assert MismatchMessage != TooShortMessage && MismatchMessage != NoNumberMessage;
  }
}
