/** The sign-in page (app/auth/signin/page.tsx): its inline phone
    normalisation and the URLs it builds. The window origin is an input. */
module SignIn {
  import opened Wrappers
  import opened Strings
  import Phone
  import Url

  /** The inline normalisation in `handlePhoneSignIn`, step by step as
      written. It agrees with the shared normalisation on every input. */
  method NormalisePhone(phone: string) returns (formattedPhone: string)
    ensures formattedPhone == Phone.FormatPhone(phone)
    ensures |formattedPhone| > 0 && formattedPhone[0] == '+'
  {
    formattedPhone := Trim(phone);
    if !(|formattedPhone| > 0 && formattedPhone[0] == '+') {
      if |formattedPhone| > 0 && formattedPhone[0] == '0' {
        formattedPhone := "+94" + formattedPhone[1..];
      } else if |formattedPhone| >= 2 && formattedPhone[..2] == "94" {
        formattedPhone := "+" + formattedPhone;
      } else {
        formattedPhone := "+94" + formattedPhone;
      }
    }
    Phone.PrefixTests(Trim(phone));
    Phone.FormatPhoneShape(phone);
  }

  /** The `emailRedirectTo` of the magic link, as written: `redirect` is
      pasted in without encoding. */
  function EmailCallback(origin: string, redirect: string): string {
    origin + "/auth/callback" + "?" + "redirect" + "=" + redirect
  }

  /** The verification path, as written: the phone is encoded, `redirect`
      is not. */
  function VerifyOtpPath(formattedPhone: string, redirect: string): string {
    "/auth/verify-otp" + "?" + "phone" + "=" + Url.EncodeURIComponent(formattedPhone)
      + "&" + "redirect" + "=" + redirect
  }

  /** The phone, encoded and first, reads back intact whatever follows it
      (short of a `#`). */
  lemma VerifyCarriesPhone(formattedPhone: string, redirect: string)
    requires '#' !in redirect
    ensures var raw := Url.QueryParam(VerifyOtpPath(formattedPhone, redirect), "phone");
      raw.Some? && Url.DecodeURIComponent(raw.value) == Some(formattedPhone)
  {
    Url.FirstBeforeRawParam("/auth/verify-otp", "phone", formattedPhone, "redirect", redirect);
  }

  /** For a redirect of unreserved characters only, leaving it unencoded
      builds the very path encoding it would. */
  lemma VerifyPlainRedirect(formattedPhone: string, redirect: string)
    requires forall i :: 0 <= i < |redirect| ==> Url.Unreserved(redirect[i])
    ensures VerifyOtpPath(formattedPhone, redirect) == EncodedVerifyOtpPath(formattedPhone, redirect)
  {
    Url.EncodeUnreserved(redirect);
  }

  /** A plain path comes back intact. */
  lemma PlainRedirectSurvives(origin: string, redirect: string)
    requires '?' !in origin && '&' !in redirect && '#' !in redirect
    ensures Url.QueryParam(EmailCallback(origin, redirect), "redirect") == Some(redirect)
  {
    assert '?' !in origin + "/auth/callback";
    Url.ParamReadsBack(origin + "/auth/callback", "redirect", redirect);
  }

  /** A `redirect` holding its own query loses everything from its first
      `&`: the callback sees only the part before it. */
  lemma RedirectCutAtAmpersand(origin: string, a: string, b: string)
    requires '?' !in origin && '&' !in a && '#' !in a && '#' !in b
    ensures Url.QueryParam(EmailCallback(origin, a + "&" + b), "redirect") == Some(a)
    ensures Some(a) != Some(a + "&" + b)
  {
    assert '?' !in origin + "/auth/callback";
    assert EmailCallback(origin, a + "&" + b) == (origin + "/auth/callback") + "?" + "redirect" + "=" + a + "&" + b;
    Url.ParamCutAtAmpersand(origin + "/auth/callback", "redirect", a, b);
    assert |a + "&" + b| > |a|;
  }

  /** The magic-link callback with `redirect` encoded, as the sign-up page
      does it. */
  function EncodedEmailCallback(origin: string, redirect: string): string {
    origin + "/auth/callback" + "?" + "redirect" + "=" + Url.EncodeURIComponent(redirect)
  }

  /** Encoded, every `redirect` comes back intact. */
  lemma EncodedRedirectSurvives(origin: string, redirect: string)
    requires '?' !in origin
    ensures var raw := Url.QueryParam(EncodedEmailCallback(origin, redirect), "redirect");
      raw.Some? && Url.DecodeURIComponent(raw.value) == Some(redirect)
  {
    assert '?' !in origin + "/auth/callback";
    Url.EncodedParamReadsBack(origin + "/auth/callback", "redirect", redirect);
  }

  /** The verification path with `redirect` encoded as well. */
  function EncodedVerifyOtpPath(formattedPhone: string, redirect: string): string {
    "/auth/verify-otp" + "?" + "phone" + "=" + Url.EncodeURIComponent(formattedPhone)
      + "&" + "redirect" + "=" + Url.EncodeURIComponent(redirect)
  }

  /** Encoded, the phone reads back intact whatever `redirect` holds. */
  lemma EncodedVerifyCarriesPhone(formattedPhone: string, redirect: string)
    ensures var raw := Url.QueryParam(EncodedVerifyOtpPath(formattedPhone, redirect), "phone");
      raw.Some? && Url.DecodeURIComponent(raw.value) == Some(formattedPhone)
  {
    Url.FirstOfTwoParams("/auth/verify-otp", "phone", formattedPhone, "redirect", redirect);
  }
}
