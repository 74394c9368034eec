/**
 * The per-user cooldown limiter of `src/simbot/utils/rate_limiter.py`: the
 * time of each user's last allowed request, and a fixed cooldown between
 * allowed requests. Times are `time.time()` seconds, taken here as a `real`
 * parameter of each check.
 */
module RateLimiter {

  /** The dictionary `check_rate_limit` returns. */
  datatype Verdict = Verdict(allowed: bool, waitSeconds: int)

  /** `_last_request.get(user_id, 0)`: a user never seen counts as last seen at time 0. */
  function LastRequest(last: map<string, real>, userId: string): real {
    if userId in last then last[userId] else 0.0
  }

  /**
   * `check_rate_limit` on the last-request table: the verdict and the new
   * table. A request is allowed exactly when the cooldown has passed since
   * the user's last allowed request; then it is recorded as the user's last
   * request and the wait is 0. A denied request changes nothing. A denial
   * waits `int(cooldown - elapsed) + 1` seconds; there `cooldown - elapsed`
   * is positive, so `int` (which truncates) is the floor.
   */
  function Check(last: map<string, real>, cooldown: int, userId: string, now: real): (r: (Verdict, map<string, real>))
    ensures r.0.allowed <==> now - LastRequest(last, userId) >= cooldown as real
    ensures r.0.allowed ==> r.0.waitSeconds == 0 && r.1 == last[userId := now] && LastRequest(r.1, userId) == now
    ensures !r.0.allowed ==> r.1 == last
  {
    var elapsed := now - LastRequest(last, userId);
    if elapsed >= cooldown as real then (Verdict(true, 0), last[userId := now])
    else (Verdict(false, (cooldown as real - elapsed).Floor + 1), last)
  }

  /** No other user's entry is added, removed or changed by a check. */
  lemma CheckOthersUntouched(last: map<string, real>, cooldown: int, userId: string, now: real, other: string)
    requires other != userId
    ensures var after := Check(last, cooldown, userId, now).1;
      && (other in after <==> other in last)
      && LastRequest(after, other) == LastRequest(last, other)
  {
  }

  /**
   * A denial's wait is a whole number of seconds that covers what is left of
   * the cooldown, and overshoots it by at most one second; when the last
   * request is not in the future it lies between 1 and `cooldown + 1`.
   */
  lemma WaitBounds(last: map<string, real>, cooldown: int, userId: string, now: real)
    requires !Check(last, cooldown, userId, now).0.allowed
    ensures var w := Check(last, cooldown, userId, now).0.waitSeconds;
      var left := cooldown as real - (now - LastRequest(last, userId));
      && 1 <= w
      && left < w as real <= left + 1.0
      && (now >= LastRequest(last, userId) ==> w <= cooldown + 1)
  {
  }

  /** Asking again after the wait a denial gave is allowed. */
  lemma WaitSuffices(last: map<string, real>, cooldown: int, userId: string, now: real)
    requires !Check(last, cooldown, userId, now).0.allowed
    ensures var w := Check(last, cooldown, userId, now).0.waitSeconds;
      Check(last, cooldown, userId, now + w as real).0.allowed
  {
    WaitBounds(last, cooldown, userId, now);
  }

  /** With a positive cooldown, a user just allowed is denied until the cooldown has passed. */
  lemma AllowedThenDenied(last: map<string, real>, cooldown: int, userId: string, now: real, later: real)
    requires cooldown > 0
    requires Check(last, cooldown, userId, now).0.allowed
    requires now <= later < now + cooldown as real
    ensures !Check(Check(last, cooldown, userId, now).1, cooldown, userId, later).0.allowed
  {
  }

  /** `reset`: the user's entry goes, and nothing else changes. */
  lemma ResetForgets(last: map<string, real>, userId: string, other: string)
    ensures userId !in last - {userId}
    ensures other != userId ==> (other in last - {userId} <==> other in last)
    ensures other != userId && other in last ==> (last - {userId})[other] == last[other]
  {
  }

  /** After `reset`, a user is judged as if never seen: allowed once the clock reads at least the cooldown. */
  lemma ResetAllows(last: map<string, real>, cooldown: int, userId: string, now: real)
    requires now >= cooldown as real
    ensures Check(last - {userId}, cooldown, userId, now).0.allowed
  {
  }

  /** `RateLimiter`: the cooldown and the table `check_rate_limit` and `reset` update. */
  class RateLimiter {
    const cooldownSeconds: int
    var lastRequest: map<string, real>

    constructor(cooldownSeconds: int)
      ensures this.cooldownSeconds == cooldownSeconds
      ensures lastRequest == map[]
    {
      this.cooldownSeconds := cooldownSeconds;
      lastRequest := map[];
    }

    /** `check_rate_limit`, with `now` the clock's reading. */
    method CheckRateLimit(userId: string, now: real) returns (v: Verdict)
      modifies this
      ensures (v, lastRequest) == Check(old(lastRequest), cooldownSeconds, userId, now)
    {
      var last := if userId in lastRequest then lastRequest[userId] else 0.0;
      var elapsed := now - last;
      if elapsed >= cooldownSeconds as real {
        lastRequest := lastRequest[userId := now];
        return Verdict(true, 0);
      }
      var wait := (cooldownSeconds as real - elapsed).Floor + 1;
      return Verdict(false, wait);
    }

    /** `reset`: `pop(user_id, None)`, so an unknown user is no error. */
    method Reset(userId: string)
      modifies this
      ensures lastRequest == old(lastRequest) - {userId}
    {
      if userId in lastRequest {
        lastRequest := lastRequest - {userId};
      }
    }
  }
}
