/** The sign-in callback route (app/auth/callback/route.ts): origin
    selection and the redirect decisions around the code exchange. Request
    headers, query parameters, the environment and the exchange outcome are
    inputs; cookies are not modelled. */
module AuthCallback {
  import opened Wrappers
  import opened Strings
  import Url

  /** The request: the two forwarding headers, the query parameters as
      `searchParams.get` returns them, and the request URL's own origin. */
  datatype CallbackRequest = CallbackRequest(
    forwardedHost: Option<string>,
    forwardedProto: Option<string>,
    code: Option<string>,
    redirect: Option<string>,
    requestOrigin: string)

  /** `VERCEL_URL` and `NEXT_PUBLIC_APP_URL`. */
  datatype CallbackEnv = CallbackEnv(vercelUrl: Option<string>, appUrl: Option<string>)

  /** `NextResponse.redirect(new URL(ref, base))`, or the 500 answer the
      framework gives when `new URL` throws; both record whether the code
      exchange was attempted. */
  datatype CallbackResponse =
    | Redirect(base: string, ref: string, exchanged: bool)
    | ServerError(exchanged: bool)

  /** The URL parser, as an input: `resolves(ref, base)` holds when
      `new URL(ref, base)` does not throw. */
  type Resolver = (string, string) -> bool

  const SignInPath := "/auth/signin"

  /** `getOrigin`. */
  function GetOrigin(req: CallbackRequest, env: CallbackEnv): (origin: string)
    // both forwarding headers, or neither counts
    ensures Truthy(req.forwardedHost) && Truthy(req.forwardedProto) ==>
      origin == req.forwardedProto.value + "://" + req.forwardedHost.value
    // then the deployment URL, the configured app URL, the request
    ensures !(Truthy(req.forwardedHost) && Truthy(req.forwardedProto)) && Truthy(env.vercelUrl) ==>
      origin == "https://" + env.vercelUrl.value
    ensures !(Truthy(req.forwardedHost) && Truthy(req.forwardedProto)) && !Truthy(env.vercelUrl) && Truthy(env.appUrl) ==>
      origin == StripTrailingSlash(env.appUrl.value)
    ensures !(Truthy(req.forwardedHost) && Truthy(req.forwardedProto)) && !Truthy(env.vercelUrl) && !Truthy(env.appUrl) ==>
      origin == req.requestOrigin
  {
    if Truthy(req.forwardedHost) && Truthy(req.forwardedProto) then
      req.forwardedProto.value + "://" + req.forwardedHost.value
    else if Truthy(env.vercelUrl) then "https://" + env.vercelUrl.value
    else if Truthy(env.appUrl) then StripTrailingSlash(env.appUrl.value)
    else req.requestOrigin
  }

  /** A single forwarding header is ignored. */
  lemma OneHeaderIgnored(req: CallbackRequest, env: CallbackEnv)
    requires req.forwardedProto.None?
    ensures GetOrigin(req, env) == GetOrigin(req.(forwardedHost := None), env)
  {
  }

  /** The sign-in page with the exchange's error message. */
  function ErrorRef(message: string): string {
    SignInPath + "?error=" + Url.EncodeURIComponent(message)
  }

  /** `GET`. `exchangeError` is the exchange's error message, `None` when
      the exchange succeeds. */
  function Get(req: CallbackRequest, env: CallbackEnv, resolves: Resolver, exchangeError: Option<string>): (r: CallbackResponse)
    // every redirect is on the chosen origin, to a reference that parses there
    ensures r.Redirect? ==> r.base == GetOrigin(req, env) && resolves(r.ref, r.base)
    // the exchange runs only for a code whose redirect target parsed first
    ensures r.exchanged <==> Truthy(req.code) && resolves(OrElse(req.redirect, "/"), GetOrigin(req, env))
    // no code: back to sign-in, without an exchange
    ensures !Truthy(req.code) ==>
      (r.Redirect? <==> resolves(SignInPath, GetOrigin(req, env))) && (r.Redirect? ==> r.ref == SignInPath)
    // a failed exchange: back to sign-in with the message as a parameter
    ensures r.exchanged && exchangeError.Some? ==>
      (r.Redirect? <==> resolves(ErrorRef(exchangeError.value), GetOrigin(req, env)))
      && (r.Redirect? ==> r.ref == ErrorRef(exchangeError.value))
    // a successful one: to the requested page, by default the home page
    ensures r.exchanged && exchangeError.None? ==> r.Redirect? && r.ref == OrElse(req.redirect, "/")
  {
    var origin := GetOrigin(req, env);
    if !Truthy(req.code) then
      if resolves(SignInPath, origin) then Redirect(origin, SignInPath, false) else ServerError(false)
    else
      var target := OrElse(req.redirect, "/");
      if !resolves(target, origin) then ServerError(false)
      else if exchangeError.Some? then
        var ref := ErrorRef(exchangeError.value);
        if resolves(ref, origin) then Redirect(origin, ref, true) else ServerError(true)
      else Redirect(origin, target, true)
  }

  /** A redirect the parser rejects, such as `//` or `https://[`, is a 500
      before the code is exchanged, whatever the exchange would have
      answered. */
  lemma BadRedirectSkipsExchange(req: CallbackRequest, env: CallbackEnv, resolves: Resolver,
                                 e1: Option<string>, e2: Option<string>)
    requires Truthy(req.code) && !resolves(OrElse(req.redirect, "/"), GetOrigin(req, env))
    ensures Get(req, env, resolves, e1) == ServerError(false)
    ensures Get(req, env, resolves, e1) == Get(req, env, resolves, e2)
  {
  }

  /** The error parameter carries the message intact: it holds no query
      delimiter and decodes back to the message. */
  lemma ErrorParameterIntact(msg: string)
    ensures var e := Url.EncodeURIComponent(msg);
      '&' !in e && '#' !in e && Url.DecodeURIComponent(e) == Some(msg)
  {
    Url.NoDelimiters(msg);
    Url.DecodeEncode(msg);
  }

  // ---------------------------------------------------------------------
  // Where a redirect reference leads
  // ---------------------------------------------------------------------

  /** The URL parser's first clean-up (the URL Standard, basic URL parser):
      leading and trailing C0 controls and spaces are stripped, then every
      tab and newline is removed. */
  predicate C0OrSpace(c: char) {
    c as int <= 0x20
  }

  predicate TabOrNewline(c: char) {
    c == '\t' || c == '\n' || c == '\r'
  }

  function StripLeadingC0(s: string): (r: string)
    ensures |r| <= |s| && r == s[|s| - |r|..]
    ensures |s| > 0 && !C0OrSpace(s[0]) ==> r == s
  {
    if |s| > 0 && C0OrSpace(s[0]) then StripLeadingC0(s[1..]) else s
  }

  function StripTrailingC0(s: string): (r: string)
    ensures |r| <= |s| && r == s[..|r|]
    ensures |s| > 0 && !C0OrSpace(s[0]) ==> |r| > 0
    ensures |s| > 0 && !C0OrSpace(s[|s| - 1]) ==> r == s
  {
    if |s| > 0 && C0OrSpace(s[|s| - 1]) then StripTrailingC0(s[..|s| - 1]) else s
  }

  function RemoveTabs(s: string): (r: string)
    ensures (forall i :: 0 <= i < |s| ==> !TabOrNewline(s[i])) ==> r == s
  {
    if |s| == 0 then ""
    else (if TabOrNewline(s[0]) then "" else [s[0]]) + RemoveTabs(s[1..])
  }

  function Clean(ref: string): string {
    RemoveTabs(StripTrailingC0(StripLeadingC0(ref)))
  }

  predicate Slash(c: char) {
    c == '/' || c == '\\'
  }

  predicate AsciiAlpha(c: char) {
    ('a' <= c <= 'z') || ('A' <= c <= 'Z')
  }

  predicate SchemeChar(c: char) {
    AsciiAlpha(c) || IsDigit(c) || c == '+' || c == '-' || c == '.'
  }

  /** The length of the scheme-character run that starts the string with
      a letter, 0 if it does not start with one. */
  function SchemeRun(s: string): (n: nat)
    ensures n <= |s|
    ensures n > 0 ==> AsciiAlpha(s[0])
  {
    if |s| == 0 || !AsciiAlpha(s[0]) then 0 else 1 + SchemeTail(s[1..])
  }

  function SchemeTail(s: string): (n: nat)
    ensures n <= |s|
  {
    if |s| == 0 || !SchemeChar(s[0]) then 0 else 1 + SchemeTail(s[1..])
  }

  /** The reference names its own scheme (`x:` at the front). */
  predicate HasScheme(s: string) {
    var n := SchemeRun(s);
    0 < n < |s| && s[n] == ':'
  }

  /** The reference can name a host other than the base's: it starts with
      two slashes (either kind) or carries a scheme of its own. A
      reference without either resolves to a path on the base origin. */
  predicate MayLeaveSite(ref: string) {
    var r := Clean(ref);
    (|r| >= 2 && Slash(r[0]) && Slash(r[1])) || HasScheme(r)
  }

  /** As written, the page after sign-in is whatever `redirect` names: a
      protocol-relative reference `//host` sends the user to that host. */
  lemma OpenRedirect(req: CallbackRequest, env: CallbackEnv, resolves: Resolver, host: string)
    requires |host| > 0 && !C0OrSpace(host[|host| - 1])
    requires forall i :: 0 <= i < |host| ==> !TabOrNewline(host[i])
    requires Truthy(req.code) && req.redirect == Some("//" + host)
    requires resolves("//" + host, GetOrigin(req, env))
    ensures Get(req, env, resolves, None) == Redirect(GetOrigin(req, env), "//" + host, true)
    ensures MayLeaveSite(Get(req, env, resolves, None).ref)
  {
    var r := "//" + host;
    assert r[0] == '/' && r[1] == '/' && r[|r| - 1] == host[|host| - 1];
    assert forall i :: 2 <= i < |r| ==> r[i] == host[i - 2];
    CleanKeepsClean(r);
  }

  /** A reference with no tab or newline and printable ends is left as it
      is by the clean-up. */
  lemma CleanKeepsClean(r: string)
    requires |r| > 0 && !C0OrSpace(r[0]) && !C0OrSpace(r[|r| - 1])
    requires forall i :: 0 <= i < |r| ==> !TabOrNewline(r[i])
    ensures Clean(r) == r
  {
  }

  /** The evidently intended check: a same-site path, meaning a leading
      `/` not followed by a second slash of either kind, and no tab or
      newline for the parser to drop; anything else falls back to `/`. */
  predicate SameSitePath(r: string) {
    && |r| >= 1 && r[0] == '/'
    && (|r| == 1 || !Slash(r[1]))
    && forall i :: 0 <= i < |r| ==> !TabOrNewline(r[i])
  }

  function SafeRedirect(redirect: Option<string>): (r: string)
    ensures SameSitePath(r)
    ensures Truthy(redirect) && SameSitePath(redirect.value) ==> r == redirect.value
  {
    var r := OrElse(redirect, "/");
    if SameSitePath(r) then r else "/"
  }

  /** `GET` with the redirect checked before it is resolved. */
  function SafeGet(req: CallbackRequest, env: CallbackEnv, resolves: Resolver, exchangeError: Option<string>): (r: CallbackResponse)
    ensures r.Redirect? && r.exchanged && exchangeError.None? ==> r.ref == SafeRedirect(req.redirect)
    ensures r.exchanged <==> Truthy(req.code) && resolves(SafeRedirect(req.redirect), GetOrigin(req, env))
    ensures !Truthy(req.code) ==> r == Get(req, env, resolves, exchangeError)
  {
    Get(req.(redirect := Some(SafeRedirect(req.redirect))), env, resolves, exchangeError)
  }

  /** After a successful exchange, the checked redirect never leaves the
      site. */
  lemma SafeGetStaysOnSite(req: CallbackRequest, env: CallbackEnv, resolves: Resolver)
    requires Truthy(req.code)
    ensures SafeGet(req, env, resolves, None).Redirect? ==> !MayLeaveSite(SafeGet(req, env, resolves, None).ref)
  {
    SameSitePathStays(SafeRedirect(req.redirect));
  }

  /** A same-site path survives the parser's clean-up with its first two
      characters in place, so it names neither a host nor a scheme. */
  lemma SameSitePathStays(r: string)
    requires SameSitePath(r)
    ensures !MayLeaveSite(r)
  {
    var c := Clean(r);
    CleanPrefix(r);
    assert SchemeRun(c) == 0;
    assert |c| >= 2 ==> c[1] == r[1];
  }

  /** The clean-up of a reference with a printable first character and no
      tab or newline keeps a non-empty prefix of it. */
  lemma CleanPrefix(r: string)
    requires |r| > 0 && !C0OrSpace(r[0])
    requires forall i :: 0 <= i < |r| ==> !TabOrNewline(r[i])
    ensures 0 < |Clean(r)| <= |r| && Clean(r) == r[..|Clean(r)|]
  {
    var b := StripTrailingC0(StripLeadingC0(r));
    assert forall i :: 0 <= i < |b| ==> b[i] == r[i];
  }

  /** The check changes nothing for a plain path such as `/orders`. */
  lemma SafeRedirectKeepsPaths()
    ensures SafeRedirect(Some("/orders")) == "/orders"
    ensures SafeRedirect(None) == "/"
    ensures SafeRedirect(Some("//evil.example")) == "/"
  {
    assert SameSitePath("/orders");
    assert !SameSitePath("//evil.example");
  }
}
