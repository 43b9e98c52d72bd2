/** The sign-up page (app/auth/signup/page.tsx): its copy of the phone
    normalisation and the URLs it builds. The deployment URL and the
    window origin are inputs. */
module SignUp {
  import opened Wrappers
  import opened Strings
  import Phone
  import Url

  const CreatePasswordPath := "/auth/create-password"

  /** The page's own `formatPhone`, step by step as written: a mutable
      local that is trimmed and then prefixed. It agrees with the shared
      normalisation on every input. */
  method FormatPhone(value: string) returns (formatted: string)
    ensures formatted == Phone.FormatPhone(value)
    ensures |formatted| > 0 && formatted[0] == '+'
  {
    formatted := Trim(value);
    if !(|formatted| > 0 && formatted[0] == '+') {
      if |formatted| > 0 && formatted[0] == '0' {
        formatted := "+94" + formatted[1..];
      } else if |formatted| >= 2 && formatted[..2] == "94" {
        formatted := "+" + formatted;
      } else {
        formatted := "+94" + formatted;
      }
    }
    Phone.PrefixTests(Trim(value));
    Phone.FormatPhoneShape(value);
  }

  /** The base URL: the configured app URL or else the window origin, with
      one trailing slash removed. */
  function BaseUrl(appUrl: Option<string>, windowOrigin: string): (base: string)
    ensures base == StripTrailingSlash(OrElse(appUrl, windowOrigin))
    ensures Truthy(appUrl) ==> appUrl.value == base || appUrl.value == base + "/"
    ensures !Truthy(appUrl) ==> windowOrigin == base || windowOrigin == base + "/"
  {
    StripTrailingSlash(OrElse(appUrl, windowOrigin))
  }

  /** The `emailRedirectTo` of the e-mail sign-up. */
  function EmailRedirectTo(appUrl: Option<string>, windowOrigin: string): string {
    BaseUrl(appUrl, windowOrigin) + "/auth/callback" + "?" + "redirect" + "=" + Url.EncodeURIComponent(CreatePasswordPath)
  }

  /** The callback link carries the create-password page intact. */
  lemma EmailLinkReturnsToCreatePassword(appUrl: Option<string>, windowOrigin: string)
    requires '?' !in BaseUrl(appUrl, windowOrigin)
    ensures var raw := Url.QueryParam(EmailRedirectTo(appUrl, windowOrigin), "redirect");
      raw.Some? && Url.DecodeURIComponent(raw.value) == Some(CreatePasswordPath)
  {
    var head := BaseUrl(appUrl, windowOrigin) + "/auth/callback";
    assert '?' !in "/auth/callback";
    Url.EncodedParamReadsBack(head, "redirect", CreatePasswordPath);
  }

  /** Where the phone sign-up goes once the code is sent. */
  function VerifyOtpPath(formattedPhone: string): string {
    "/auth/verify-otp" + "?" + "phone" + "=" + Url.EncodeURIComponent(formattedPhone)
      + "&" + "redirect" + "=" + Url.EncodeURIComponent(CreatePasswordPath)
  }

  /** The verification page reads back the formatted phone intact. */
  lemma VerifyOtpCarriesPhone(formattedPhone: string)
    ensures var raw := Url.QueryParam(VerifyOtpPath(formattedPhone), "phone");
      raw.Some? && Url.DecodeURIComponent(raw.value) == Some(formattedPhone)
  {
    Url.FirstOfTwoParams("/auth/verify-otp", "phone", formattedPhone, "redirect", CreatePasswordPath);
  }
}
