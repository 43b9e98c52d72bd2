/** What the two password pages (app/auth/reset-password/page.tsx and
    app/auth/create-password/page.tsx) share: the checks a submit makes
    before any backend call, the submit button's enable rule, and the text
    a `catch` block shows. */
module PasswordForm {
  import opened Wrappers
  import opened Strings
  import opened Password

  const MismatchMessage := "Passwords do not match"
  const InvalidPasswordFallback := "Invalid password"

  /** The value a `catch` block receives: an `Error` with its message, or
      anything else. */
  datatype Caught = AnError(message: string) | NotAnError

  /** `err instanceof Error ? err.message : fallback`. */
  function CaughtText(c: Caught, fallback: string): (text: string)
    ensures c.AnError? ==> text == c.message
    ensures c.NotAnError? ==> text == fallback
  {
    match c
    case AnError(message) => message
    case NotAnError => fallback
  }

  /** The checks before the update: the first validation error (or the
      fallback when there is none to show), then the mismatch. `None`
      means the page goes on to the update. */
  function FormCheck(password: string, confirm: string): (error: Option<string>)
    ensures error.None? <==> ValidatePassword(password).valid && password == confirm
    // validation is reported first, and only its first error
    ensures !ValidatePassword(password).valid ==> error == Some(ValidatePassword(password).errors[0])
    // the mismatch only once validation passes
    ensures error == Some(MismatchMessage) <==> ValidatePassword(password).valid && password != confirm
  {
    var v := ValidatePassword(password);
    if !v.valid then Some(if |v.errors| > 0 && v.errors[0] != "" then v.errors[0] else InvalidPasswordFallback)
    else if password != confirm then Some(MismatchMessage)
    else None
  }

  /** The submit button's `disabled`: loading, shorter than eight UTF-16
      units, or the two entries differ. */
  predicate SubmitDisabled(loading: bool, password: string, confirm: string) {
    loading || Utf16Length(password) < MinLength || password != confirm
  }

  /** Whatever passes the checks can be submitted with the button: the
      button is never stricter than the checks. */
  lemma PassingCheckEnablesButton(password: string, confirm: string)
    requires FormCheck(password, confirm).None?
    ensures !SubmitDisabled(false, password, confirm)
  {
  }

  /** The button does not test for a digit: eight letters, typed twice,
      enable it, and the submit then shows the digit error. */
  lemma ButtonSkipsDigitRule(letters: string)
    requires |letters| == 8 && PlainText(letters)
    ensures !SubmitDisabled(false, letters, letters)
    ensures FormCheck(letters, letters) == Some(NoNumberMessage)
  {
    assert Utf16Length(letters) == 8;
    assert !HasDigit(letters);
  }

  /** A short password is reported as too short, whatever the
      confirmation. */
  lemma ShortPasswordReportsLength(password: string, confirm: string)
    requires Utf16Length(password) < MinLength
    ensures FormCheck(password, confirm) == Some(TooShortMessage)
  {
    FirstErrorIsLength(password);
  }
}
