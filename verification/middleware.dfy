/** The request middleware (middleware.ts): sliding session refresh, the
    protected-path test and the sign-in and password-setup redirects. The
    stored session, the clock, the refresh result and the profile flag are
    inputs; cookie plumbing is not modelled. */
module Middleware {
  import opened Wrappers
  import opened Strings

  /** A session; `expiresAt` is in seconds since the epoch. */
  datatype Session = Session(userId: string, expiresAt: Option<int>)

  const OneHour := 60 * 60
  const SignInPath := "/auth/signin"
  const CreatePasswordPath := "/auth/create-password"
  const ProtectedPaths := ["/checkout", "/orders", "/admin"]

  /** `NextResponse.next()` or a redirect to `target` carrying the
      requested path as its `redirect` query parameter. */
  datatype Response = Next | Redirect(target: string, redirectParam: string)

  /** What the middleware did: the response, the session it ended with, and
      which backend calls it made. */
  datatype Outcome = Outcome(response: Response, session: Option<Session>, refreshCalled: bool, profileRead: bool)

  /** Seconds left, against `Math.floor(Date.now() / 1000)`. The divisor is
      positive, so Dafny's division is the floor. */
  function TimeLeft(expiresAt: int, nowMs: int): int {
    expiresAt - nowMs / 1000
  }

  /** The refresh window: a truthy expiry less than an hour, but more than
      nothing, away. */
  predicate InRefreshWindow(s: Session, nowMs: int) {
    s.expiresAt.Some? && s.expiresAt.value != 0
    && 0 < TimeLeft(s.expiresAt.value, nowMs) < OneHour
  }

  /** The refresh step: the new session replaces the old one only when the
      refresh returns one. */
  function Refresh(session: Option<Session>, nowMs: int, refreshed: Option<Session>): (r: (Option<Session>, bool))
    ensures r.1 <==> session.Some? && InRefreshWindow(session.value, nowMs)
    ensures r.0 == (if r.1 && refreshed.Some? then refreshed else session)
  {
    if session.Some? && InRefreshWindow(session.value, nowMs) then
      (if refreshed.Some? then refreshed else session, true)
    else (session, false)
  }

  /** `pathname.startsWith(p)` for some protected prefix. */
  predicate IsProtected(path: string) {
    exists i :: 0 <= i < |ProtectedPaths| && StartsWith(path, ProtectedPaths[i])
  }

  /** The `matcher` of the exported config: `/p` or anything below `/p/`. */
  predicate Matched(path: string) {
    exists i :: 0 <= i < |ProtectedPaths| && (path == ProtectedPaths[i] || StartsWith(path, ProtectedPaths[i] + "/"))
  }

  /** The middleware. `requiresSetup` is the profile's
      `requires_password_setup` as read for the session's user (`None` when
      no profile row comes back). */
  function Run(path: string, stored: Option<Session>, nowMs: int, refreshed: Option<Session>,
               requiresSetup: Option<bool>): (o: Outcome)
    ensures o.session == Refresh(stored, nowMs, refreshed).0
    ensures o.refreshCalled == Refresh(stored, nowMs, refreshed).1
    // unprotected paths pass straight through
    ensures !IsProtected(path) ==> o.response == Next && !o.profileRead
    // no session on a protected path: sign in first, coming back here
    ensures IsProtected(path) && o.session.None? <==> o.response == Redirect(SignInPath, path)
    // the profile is read only for a signed-in visit to a protected path
    ensures o.profileRead <==> IsProtected(path) && o.session.Some? && path != CreatePasswordPath
    ensures o.response == Redirect(CreatePasswordPath, path) <==> o.profileRead && requiresSetup == Some(true)
    ensures o.response.Redirect? ==> o.response.redirectParam == path
  {
    var (session, refreshCalled) := Refresh(stored, nowMs, refreshed);
    var protected := IsProtected(path);
    if protected && session.None? then
      Outcome(Redirect(SignInPath, path), session, refreshCalled, false)
    else if protected && session.Some? && path != CreatePasswordPath then
      if requiresSetup == Some(true) then Outcome(Redirect(CreatePasswordPath, path), session, refreshCalled, true)
      else Outcome(Next, session, refreshCalled, true)
    else Outcome(Next, session, refreshCalled, false)
  }

  /** A refresh never signs the user out: the session is kept when the
      refresh returns none. */
  lemma RefreshKeepsSignedIn(stored: Option<Session>, nowMs: int, refreshed: Option<Session>)
    ensures stored.Some? ==> Refresh(stored, nowMs, refreshed).0.Some?
    ensures stored.None? ==> Refresh(stored, nowMs, refreshed) == (None, false)
  {
  }

  /** The window's edges: exactly one hour left is not refreshed, one
      second left is, and an expired session is not. */
  lemma RefreshWindowEdges(uid: string, nowMs: int)
    requires nowMs >= 0
    ensures var now := nowMs / 1000;
      && !InRefreshWindow(Session(uid, Some(now + OneHour)), nowMs)
      && InRefreshWindow(Session(uid, Some(now + 1)), nowMs)
      && !InRefreshWindow(Session(uid, Some(now)), nowMs)
  {
  }

  /** An expired session is neither refreshed nor rejected: it still counts
      as signed in for the protected-path check. */
  lemma ExpiredSessionPasses(path: string, s: Session, nowMs: int, refreshed: Option<Session>)
    requires IsProtected(path) && s.expiresAt.Some? && TimeLeft(s.expiresAt.value, nowMs) <= 0
    ensures Run(path, Some(s), nowMs, refreshed, Some(false)) == Outcome(Next, Some(s), false, true)
  {
    assert path != CreatePasswordPath by { CreatePasswordUnprotected(); }
  }

  /** The create-password page is not protected, so the exception for it
      never applies: the middleware lets it through without a profile read. */
  lemma CreatePasswordUnprotected()
    ensures !IsProtected(CreatePasswordPath)
  {
    forall i | 0 <= i < |ProtectedPaths| ensures !StartsWith(CreatePasswordPath, ProtectedPaths[i]) {
      assert ProtectedPaths[i][2] != CreatePasswordPath[2];
    }
  }

  /** Every path the matcher sends here is protected. */
  lemma MatchedIsProtected(path: string)
    requires Matched(path)
    ensures IsProtected(path)
  {
    var i :| 0 <= i < |ProtectedPaths| && (path == ProtectedPaths[i] || StartsWith(path, ProtectedPaths[i] + "/"));
    assert ProtectedPaths[i] <= ProtectedPaths[i] + "/";
  }

  /** The prefix test is looser than the matcher: `/ordersX` is protected
      but the matcher never sends it here. */
  lemma PrefixLooserThanMatcher()
    ensures IsProtected("/ordersX")
    ensures !Matched("/ordersX")
  {
    var path := "/ordersX";
    assert StartsWith(path, ProtectedPaths[1]);
    forall i | 0 <= i < |ProtectedPaths|
      ensures path != ProtectedPaths[i] && !StartsWith(path, ProtectedPaths[i] + "/")
    {
      var p := ProtectedPaths[i] + "/";
      if i == 1 {
        assert p[7] != path[7];
      } else {
        assert p[1] != path[1];
      }
    }
  }
}
