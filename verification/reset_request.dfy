/** The password-reset request route
    (app/api/auth/reset-password-request/route.ts): rate limit, body check,
    then the e-mail or the phone branch. The limiter state, the clock, the
    environment and the outcome of the backend calls are parameters. */
module ResetRequest {
  import opened Wrappers
  import opened Strings
  import RateLimit
  import Phone

  const ResetLimit := 5
  const ResetWindowSeconds := 3600
  const ResetPath := "/auth/reset-password"

  /** The `identifier` field of the JSON body. */
  datatype Identifier = Missing | Text(s: string) | NotText(truthy: bool)

  /** The request: client header and body (`None` when the body is not
      JSON, which makes `request.json()` throw). */
  datatype ResetInput = ResetInput(forwardedFor: Option<string>, body: Option<Identifier>)

  /** The deployment settings. */
  datatype ResetEnv = ResetEnv(appUrl: Option<string>, requestOrigin: string)

  /** What the backend call does: report an error in its result, or throw. */
  datatype Backend = Backend(reportsError: bool, throws: bool)

  datatype ResetResponse =
    | TooManyRequests
    | IdentifierRequired
    | EmailLinkSent
    | PhoneCodeSent(phone: string)
    | SomethingWentWrong

  /** The backend request the route makes. */
  datatype ResetCall = NoCall | ResetEmail(email: string, redirectTo: string) | SendPhoneOtp(phone: string)

  datatype ResetOutcome = ResetOutcome(limiter: RateLimit.RateStore, response: ResetResponse, call: ResetCall)

  function Status(r: ResetResponse): int {
    match r
    case TooManyRequests => 429
    case IdentifierRequired => 400
    case EmailLinkSent => 200
    case PhoneCodeSent(_) => 200
    case SomethingWentWrong => 500
  }

  /** The limiter key of a client. */
  function ResetKey(forwardedFor: Option<string>): string {
    "reset:" + RateLimit.ClientIdentifier(forwardedFor)
  }

  /** The link target for the e-mail branch. */
  function ResetRedirect(env: ResetEnv): string {
    StripTrailingSlash(OrElse(env.appUrl, env.requestOrigin)) + ResetPath
  }

  /** The limiter lets the request through. */
  predicate Allowed(limiter: RateLimit.RateStore, now: int, req: ResetInput) {
    RateLimit.CheckRateLimit(limiter, ResetKey(req.forwardedFor), ResetLimit, ResetWindowSeconds, now).decision.allowed
  }

  /** `POST`. */
  function ResetPost(limiter: RateLimit.RateStore, now: int, req: ResetInput, env: ResetEnv, backend: Backend): (o: ResetOutcome)
    // the limiter is always consulted, first, on the client's key
    ensures var step := RateLimit.CheckRateLimit(limiter, ResetKey(req.forwardedFor), ResetLimit, ResetWindowSeconds, now);
      && o.limiter == step.store
      && (o.response == TooManyRequests <==> !step.decision.allowed)
    // no backend call without a string identifier that got past the limiter
    ensures o.call != NoCall ==> req.body.Some? && req.body.value.Text? && req.body.value.s != ""
    ensures o.response == IdentifierRequired <==>
      RateLimit.CheckRateLimit(limiter, ResetKey(req.forwardedFor), ResetLimit, ResetWindowSeconds, now).decision.allowed
      && req.body.Some? && !(req.body.value.Text? && req.body.value.s != "")
    // the branch is chosen by the trimmed identifier
    ensures o.call.ResetEmail? ==>
      o.call == ResetEmail(Trim(req.body.value.s), ResetRedirect(env)) && Phone.IsEmail(Trim(req.body.value.s))
    ensures o.call.SendPhoneOtp? ==>
      o.call.phone == Phone.FormatPhone(Trim(req.body.value.s)) && !Phone.IsEmail(Trim(req.body.value.s))
    ensures o.response.PhoneCodeSent? ==> o.call == SendPhoneOtp(o.response.phone)
    // an allowed request is always answered: a missing body is the generic
    // failure, a usable identifier gets its backend call and, unless the
    // backend throws, the answer of its branch
    ensures Allowed(limiter, now, req) && req.body.None? ==> o.response == SomethingWentWrong && o.call == NoCall
    ensures Allowed(limiter, now, req) && req.body.Some? && req.body.value.Text? && req.body.value.s != "" ==>
      var t := Trim(req.body.value.s);
      && o.call == (if Phone.IsEmail(t) then ResetEmail(t, ResetRedirect(env)) else SendPhoneOtp(Phone.FormatPhone(t)))
      && o.response == (if backend.throws then SomethingWentWrong
                        else if Phone.IsEmail(t) then EmailLinkSent else PhoneCodeSent(Phone.FormatPhone(t)))
    ensures o.response == EmailLinkSent ==> o.call.ResetEmail?
  {
    var step := RateLimit.CheckRateLimit(limiter, ResetKey(req.forwardedFor), ResetLimit, ResetWindowSeconds, now);
    if !step.decision.allowed then ResetOutcome(step.store, TooManyRequests, NoCall)
    else if req.body.None? then ResetOutcome(step.store, SomethingWentWrong, NoCall)
    else if !(req.body.value.Text? && req.body.value.s != "") then ResetOutcome(step.store, IdentifierRequired, NoCall)
    else
      var trimmed := Trim(req.body.value.s);
      if Phone.IsEmail(trimmed) then
        var call := ResetEmail(trimmed, ResetRedirect(env));
        ResetOutcome(step.store, if backend.throws then SomethingWentWrong else EmailLinkSent, call)
      else
        var phone := Phone.FormatPhone(trimmed);
        ResetOutcome(step.store, if backend.throws then SomethingWentWrong else PhoneCodeSent(phone), SendPhoneOtp(phone))
  }

  /** Whether an account exists is not revealed: the e-mail branch answers
      the same whether or not the backend reported an error. */
  lemma EmailAnswerHidesErrors(limiter: RateLimit.RateStore, now: int, req: ResetInput, env: ResetEnv)
    ensures ResetPost(limiter, now, req, env, Backend(true, false))
         == ResetPost(limiter, now, req, env, Backend(false, false))
  {
  }

  /** A denied request is answered 429 before the body is looked at: the
      answer is the same whatever the body holds. */
  lemma DeniedIgnoresBody(limiter: RateLimit.RateStore, now: int, forwardedFor: Option<string>,
                          b1: Option<Identifier>, b2: Option<Identifier>, env: ResetEnv, backend: Backend)
    requires !RateLimit.CheckRateLimit(limiter, ResetKey(forwardedFor), ResetLimit, ResetWindowSeconds, now).decision.allowed
    ensures ResetPost(limiter, now, ResetInput(forwardedFor, b1), env, backend).response == TooManyRequests
    ensures ResetPost(limiter, now, ResetInput(forwardedFor, b1), env, backend)
         == ResetPost(limiter, now, ResetInput(forwardedFor, b2), env, backend)
  {
  }

  /** Whitespace around the identifier does not matter: two non-empty
      identifiers that trim to the same text get the same call and the
      same answer. */
  lemma SurroundingSpaceIgnored(limiter: RateLimit.RateStore, now: int, forwardedFor: Option<string>,
                                s1: string, s2: string, env: ResetEnv, backend: Backend)
    requires s1 != "" && s2 != "" && Trim(s1) == Trim(s2)
    ensures ResetPost(limiter, now, ResetInput(forwardedFor, Some(Text(s1))), env, backend)
         == ResetPost(limiter, now, ResetInput(forwardedFor, Some(Text(s2))), env, backend)
  {
  }

  /** Runs a client's requests at the given times, counting the ones that
      got past the limiter. */
  function Served(limiter: RateLimit.RateStore, forwardedFor: Option<string>, times: seq<int>,
                  bodies: seq<Option<Identifier>>, env: ResetEnv, backend: Backend): (n: nat)
    requires |bodies| == |times|
    decreases |times|
  {
    if |times| == 0 then 0
    else
      var o := ResetPost(limiter, times[0], ResetInput(forwardedFor, bodies[0]), env, backend);
      (if o.response != TooManyRequests then 1 else 0)
        + Served(o.limiter, forwardedFor, times[1..], bodies[1..], env, backend)
  }

  /** Served requests are exactly the ones the limiter let through. */
  lemma {:induction false} ServedIsAllowed(limiter: RateLimit.RateStore, forwardedFor: Option<string>, times: seq<int>,
                          bodies: seq<Option<Identifier>>, env: ResetEnv, backend: Backend)
    requires |bodies| == |times|
    ensures Served(limiter, forwardedFor, times, bodies, env, backend)
         == RateLimit.Run(limiter, ResetKey(forwardedFor), ResetLimit, ResetWindowSeconds, times).1
    decreases |times|
  {
    if |times| > 0 {
      ServedIsAllowed(
        ResetPost(limiter, times[0], ResetInput(forwardedFor, bodies[0]), env, backend).limiter,
        forwardedFor, times[1..], bodies[1..], env, backend);
    }
  }

  /** One client gets at most five requests served in an hour. */
  lemma FivePerHour(limiter: RateLimit.RateStore, forwardedFor: Option<string>, times: seq<int>,
                    bodies: seq<Option<Identifier>>, env: ResetEnv, backend: Backend)
    requires |bodies| == |times| && |times| > 0
    requires var key := ResetKey(forwardedFor);
      key !in limiter.entries || limiter.entries[key].resetAt < times[0]
    requires forall i :: 0 <= i < |times| ==> times[i] <= times[0] + ResetWindowSeconds * 1000
    ensures Served(limiter, forwardedFor, times, bodies, env, backend) <= ResetLimit
  {
    ServedIsAllowed(limiter, forwardedFor, times, bodies, env, backend);
    RateLimit.WindowBound(limiter, ResetKey(forwardedFor), ResetLimit, ResetWindowSeconds, times);
  }

  /** A blank identifier passes the presence check (it is a non-empty
      string) and, once trimmed, is sent to the phone branch as `+94`. */
  lemma BlankIdentifierIsPhone(limiter: RateLimit.RateStore, now: int, forwardedFor: Option<string>, env: ResetEnv)
    requires RateLimit.CheckRateLimit(limiter, ResetKey(forwardedFor), ResetLimit, ResetWindowSeconds, now).decision.allowed
    ensures ResetPost(limiter, now, ResetInput(forwardedFor, Some(Text(" "))), env, Backend(false, false)).call
         == SendPhoneOtp("+94")
  {
    assert TrimStart(" ") == "";
    assert Trim(" ") == "";
    assert !Phone.IsEmail("");
    assert Phone.FormatPhone("") == "+94";
  }
}
