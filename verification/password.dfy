/** Password rules (lib/auth/password.ts) and the strength indicator's
    match test (components/auth/PasswordStrengthIndicator.tsx). */
module Password {
  import opened Wrappers
  import opened Strings

  const MinLength := 8
  const TooShortMessage := "Password must be at least 8 characters"
  const NoNumberMessage := "Password must contain at least one number"

  datatype PasswordValidation = PasswordValidation(valid: bool, errors: seq<string>)

  datatype StrengthChecks = StrengthChecks(minLength: bool, hasNumber: bool)

  /** `getPasswordStrengthChecks`; the length is counted in UTF-16 units. */
  function GetStrengthChecks(password: string): (c: StrengthChecks)
    ensures c.minLength <==> Utf16Length(password) >= MinLength
    ensures c.hasNumber <==> exists i :: 0 <= i < |password| && '0' <= password[i] <= '9'
  {
    StrengthChecks(Utf16Length(password) >= MinLength, HasDigit(password))
  }

  /** `validatePassword`: the length error, then the digit error. */
  function ValidatePassword(password: string): (v: PasswordValidation)
    ensures v.valid <==> v.errors == []
    ensures |v.errors| <= 2
    ensures TooShortMessage in v.errors <==> Utf16Length(password) < MinLength
    ensures NoNumberMessage in v.errors <==> !HasDigit(password)
    ensures forall e :: e in v.errors ==> e == TooShortMessage || e == NoNumberMessage
    ensures |v.errors| == 2 ==> v.errors == [TooShortMessage, NoNumberMessage]
  {
    var e1 := if Utf16Length(password) < MinLength then [TooShortMessage] else [];
    var e2 := if !HasDigit(password) then [NoNumberMessage] else [];
    var errors := e1 + e2;
    PasswordValidation(|errors| == 0, errors)
  }

  /** The validator accepts exactly what both strength checks accept. */
  lemma ValidIffChecks(password: string)
    ensures ValidatePassword(password).valid
      <==> GetStrengthChecks(password).minLength && GetStrengthChecks(password).hasNumber
  {
  }

  /** The first error shown is the length error whenever the password is
      too short. */
  lemma FirstErrorIsLength(password: string)
    requires Utf16Length(password) < MinLength
    ensures ValidatePassword(password).errors[0] == TooShortMessage
  {
  }

  /** Characters of the Basic Multilingual Plane that are not digits,
      such as letters: each counts one UTF-16 unit. */
  predicate PlainText(s: string) {
    forall i :: 0 <= i < |s| ==> s[i] as int < 0x10000 && !IsDigit(s[i])
  }

  /** The boundary of the rules: seven plain characters and a digit pass;
      six and a digit are too short; eight plain characters lack only the
      digit. */
  lemma LengthBoundary(text: string, digit: char)
    requires |text| == 7 && PlainText(text) && IsDigit(digit)
    ensures ValidatePassword(text + [digit]).valid
    ensures ValidatePassword(text[..6] + [digit]).errors == [TooShortMessage]
    ensures ValidatePassword(text + [text[0]]).errors == [NoNumberMessage]
  {
    var eight, seven, letters := text + [digit], text[..6] + [digit], text + [text[0]];
    assert eight[7] == digit && seven[6] == digit;
    assert Utf16Length(eight) == 8 by {
      forall i | 0 <= i < 8 ensures eight[i] as int < 0x10000 {
        if i < 7 { assert eight[i] == text[i]; }
      }
    }
    assert Utf16Length(seven) == 7 by {
      forall i | 0 <= i < 7 ensures seven[i] as int < 0x10000 {
        if i < 6 { assert seven[i] == text[i]; }
      }
    }
    assert PlainText(letters) by {
      forall i | 0 <= i < 8 ensures letters[i] as int < 0x10000 && !IsDigit(letters[i]) {
        if i < 7 { assert letters[i] == text[i]; } else { assert letters[i] == text[0]; }
      }
    }
  }

  /** The indicator's `passwordsMatch`: true while the confirmation is
      absent or empty, else plain equality. */
  function PasswordsMatch(password: string, confirm: Option<string>): (m: bool)
    ensures confirm.None? ==> m
    ensures confirm == Some("") ==> m
    ensures confirm.Some? && confirm.value != "" ==> (m <==> confirm.value == password)
  {
    confirm.None? || password == confirm.value || confirm.value == ""
  }

  /** What the indicator shows: the two checks, and the match row only when
      a confirmation field exists. */
  datatype IndicatorView = IndicatorView(checks: StrengthChecks, matchRow: Option<bool>)

  function Indicator(password: string, confirm: Option<string>): (v: IndicatorView)
    ensures v.checks == GetStrengthChecks(password)
    ensures v.matchRow.Some? <==> confirm.Some?
    ensures v.matchRow.Some? ==> v.matchRow.value == PasswordsMatch(password, confirm)
  {
    IndicatorView(
      GetStrengthChecks(password),
      if confirm.Some? then Some(PasswordsMatch(password, confirm)) else None)
  }

  /** An empty confirmation shows as matching even against a non-empty
      password. */
  lemma EmptyConfirmationMatches(password: string)
    ensures Indicator(password, Some("")).matchRow == Some(true)
  {
  }
}
