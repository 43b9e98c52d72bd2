/** The fixed-window, in-memory rate limiter (lib/auth/rate-limit.ts). The
    module-level map and the last-cleanup time become an explicit state, and
    the clock reading `now` (milliseconds) is a parameter. */
module RateLimit {
  import opened Wrappers
  import opened Strings

  const CleanupIntervalMs := 60 * 1000

  datatype RateEntry = RateEntry(count: int, resetAt: int)

  datatype RateStore = RateStore(entries: map<string, RateEntry>, lastCleanup: int)

  datatype RateDecision = RateDecision(allowed: bool, remaining: int)

  datatype RateStep = RateStep(store: RateStore, decision: RateDecision)

  /** The state right after the module is loaded at time `loadedAt`. */
  function InitialStore(loadedAt: int): RateStore {
    RateStore(map[], loadedAt)
  }

  /** `cleanup`: at most once a minute, forget the entries whose window
      has ended. */
  function Cleanup(s: RateStore, now: int): (c: RateStore)
    ensures now - s.lastCleanup < CleanupIntervalMs ==> c == s
    ensures now - s.lastCleanup >= CleanupIntervalMs ==> c.lastCleanup == now
    ensures c.entries.Keys <= s.entries.Keys
    ensures forall k :: k in c.entries ==> c.entries[k] == s.entries[k]
    ensures forall k :: k in s.entries && k !in c.entries ==> s.entries[k].resetAt < now
    ensures now - s.lastCleanup >= CleanupIntervalMs ==>
      forall k :: k in s.entries && s.entries[k].resetAt < now ==> k !in c.entries
  {
    if now - s.lastCleanup < CleanupIntervalMs then s
    else RateStore(map k | k in s.entries && !(s.entries[k].resetAt < now) :: s.entries[k], now)
  }

  /** `checkRateLimit`. */
  function CheckRateLimit(s: RateStore, key: string, limit: int, windowSeconds: int, now: int): (r: RateStep)
    ensures key in r.store.entries
    ensures r.store.lastCleanup == Cleanup(s, now).lastCleanup
    // a fresh or expired key starts a new window with one request
    ensures var c := Cleanup(s, now).entries;
      (key !in c || c[key].resetAt < now) ==>
        && r.store.entries[key] == RateEntry(1, now + windowSeconds * 1000)
        && r.decision == RateDecision(true, limit - 1)
    // otherwise the count goes up by one and the window end stays
    ensures var c := Cleanup(s, now).entries;
      (key in c && c[key].resetAt >= now) ==>
        && r.store.entries[key] == RateEntry(c[key].count + 1, c[key].resetAt)
        && (r.decision.allowed <==> c[key].count + 1 <= limit)
        && r.decision.remaining == (if limit - (c[key].count + 1) > 0 then limit - (c[key].count + 1) else 0)
    // no other key is touched
    ensures forall k :: k != key ==>
      (k in r.store.entries <==> k in Cleanup(s, now).entries)
      && (k in r.store.entries ==> r.store.entries[k] == s.entries[k])
  {
    var c := Cleanup(s, now);
    if key !in c.entries || c.entries[key].resetAt < now then
      RateStep(
        c.(entries := c.entries[key := RateEntry(1, now + windowSeconds * 1000)]),
        RateDecision(true, limit - 1))
    else
      var e := c.entries[key];
      var count := e.count + 1;
      var remaining := if limit - count > 0 then limit - count else 0;
      RateStep(
        c.(entries := c.entries[key := RateEntry(count, e.resetAt)]),
        RateDecision(count <= limit, remaining))
  }

  /** The decision of a call that did not start a new window: allowed
      exactly while the count is within the limit, and a remaining count
      that is never negative. */
  lemma DecisionMatchesCount(s: RateStore, key: string, limit: int, windowSeconds: int, now: int)
    ensures var r := CheckRateLimit(s, key, limit, windowSeconds, now);
      var e := r.store.entries[key];
      && r.decision.remaining >= (if limit >= 1 then 0 else limit - 1)
      && (e.count > 1 ==> (r.decision.allowed <==> e.count <= limit) && r.decision.remaining >= 0)
  {
  }

  /** A window ends strictly after its reset time: at exactly `resetAt`
      the old count is still used. */
  lemma ResetIsStrict(key: string, count: int, resetAt: int, limit: int, windowSeconds: int)
    ensures var s := RateStore(map[key := RateEntry(count, resetAt)], resetAt);
      CheckRateLimit(s, key, limit, windowSeconds, resetAt).store.entries[key] == RateEntry(count + 1, resetAt)
    ensures var s := RateStore(map[key := RateEntry(count, resetAt)], resetAt);
      CheckRateLimit(s, key, limit, windowSeconds, resetAt + 1).store.entries[key]
        == RateEntry(1, resetAt + 1 + windowSeconds * 1000)
  {
  }

  /** The first request of a window is let through even when `limit` is 0. */
  lemma FirstRequestAlwaysAllowed(key: string, limit: int, windowSeconds: int, now: int)
    ensures CheckRateLimit(InitialStore(now), key, limit, windowSeconds, now).decision.allowed
  {
  }

  /** Runs `checkRateLimit` on one key at the given times, counting the
      requests that were allowed. */
  function Run(s: RateStore, key: string, limit: int, windowSeconds: int, times: seq<int>): (r: (RateStore, nat))
    decreases |times|
  {
    if |times| == 0 then (s, 0)
    else
      var step := CheckRateLimit(s, key, limit, windowSeconds, times[0]);
      var rest := Run(step.store, key, limit, windowSeconds, times[1..]);
      (rest.0, rest.1 + if step.decision.allowed then 1 else 0)
  }

  /** While the window of a key is open, at most `limit - count` more
      requests are allowed. */
  lemma {:induction false} OpenWindowBound(s: RateStore, key: string, limit: int, windowSeconds: int, times: seq<int>)
    requires key in s.entries
    requires forall i :: 0 <= i < |times| ==> times[i] <= s.entries[key].resetAt
    ensures var n := limit - s.entries[key].count;
      Run(s, key, limit, windowSeconds, times).1 <= (if n > 0 then n else 0)
    decreases |times|
  {
    if |times| > 0 {
      var step := CheckRateLimit(s, key, limit, windowSeconds, times[0]);
      assert step.store.entries[key] == s.entries[key].(count := s.entries[key].count + 1);
      OpenWindowBound(step.store, key, limit, windowSeconds, times[1..]);
    }
  }

  /** Within one window, at most `limit` requests on a key are allowed:
      the first opens the window and later ones up to its end are counted. */
  lemma WindowBound(s: RateStore, key: string, limit: int, windowSeconds: int, times: seq<int>)
    requires limit >= 1 && |times| > 0
    requires key !in s.entries || s.entries[key].resetAt < times[0]
    requires forall i :: 0 <= i < |times| ==> times[i] <= times[0] + windowSeconds * 1000
    ensures Run(s, key, limit, windowSeconds, times).1 <= limit
  {
    var step := CheckRateLimit(s, key, limit, windowSeconds, times[0]);
    assert step.store.entries[key] == RateEntry(1, times[0] + windowSeconds * 1000);
    OpenWindowBound(step.store, key, limit, windowSeconds, times[1..]);
  }

  // ---------------------------------------------------------------------
  // Client identifier
  // ---------------------------------------------------------------------

  /** `getClientIdentifier`: the first address of `x-forwarded-for`,
      trimmed, or `unknown` when the header is absent or empty. */
  function ClientIdentifier(forwardedFor: Option<string>): (r: string)
    ensures !Truthy(forwardedFor) ==> r == "unknown"
    ensures Truthy(forwardedFor) ==> ',' !in r
    ensures Truthy(forwardedFor) ==> r == Trim(BeforeFirst(forwardedFor.value, ','))
  {
    if Truthy(forwardedFor) then
      var first := BeforeFirst(forwardedFor.value, ',');
      var r := Trim(first);
      assert forall i :: 0 <= i < |r| ==> r[i] in first;
      r
    else "unknown"
  }

  /** The identifier is the trimmed first address whatever follows it, and
      `unknown` when the header is absent or empty. */
  lemma FirstAddressWins(first: string, rest: string)
    requires ',' !in first
    ensures ClientIdentifier(Some(first + "," + rest)) == Trim(first)
    ensures ClientIdentifier(None) == "unknown"
    ensures ClientIdentifier(Some("")) == "unknown"
  {
    BeforeFirstField(first, ',', rest);
  }
}
