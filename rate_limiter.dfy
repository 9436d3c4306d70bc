/**
 * The browser engine's per-domain rate limiter. Instants are whole
 * milliseconds on a monotonic clock, and the caller passes the current one.
 */
module RateLimiting {
  import opened Wrappers
  import opened Ints

  datatype BrowserError = RateLimitExceeded(domain: string)

  /** `Instant::elapsed`: never negative, even if the stored instant were later than now. */
  function Elapsed(last: int, now: int): nat {
    if now >= last then now - last else 0
  }

  /** The verdict of one access, and the access times after it. */
  function CheckAccess(lastAccess: map<string, int>, minDelay: nat, domain: string, now: int)
    : (r: (Result<(), BrowserError>, map<string, int>))
    ensures r.0.Err? <==> domain in lastAccess && Elapsed(lastAccess[domain], now) < minDelay
    ensures r.0.Err? ==> r.0 == Err(RateLimitExceeded(domain)) && r.1 == lastAccess
    ensures r.0.Ok? ==> r.1 == lastAccess[domain := now]
  {
    if domain in lastAccess && Elapsed(lastAccess[domain], now) < minDelay then
      (Err(RateLimitExceeded(domain)), lastAccess)
    else
      (Ok(()), lastAccess[domain := now])
  }

  /**
   * A domain's first access always passes; an access never changes what is
   * stored for any other domain; and after a passing access, another one at
   * least `minDelay` later passes too, while one sooner is refused.
   */
  lemma AccessRules(lastAccess: map<string, int>, minDelay: nat, domain: string, other: string, now: int, later: int)
    requires other != domain
    ensures domain !in lastAccess ==> CheckAccess(lastAccess, minDelay, domain, now).0.Ok?
    ensures var m := CheckAccess(lastAccess, minDelay, domain, now).1;
      (other in m <==> other in lastAccess) && (other in m ==> m[other] == lastAccess[other])
    ensures var after := CheckAccess(lastAccess, minDelay, domain, now);
      after.0.Ok? ==>
        (CheckAccess(after.1, minDelay, domain, later).0.Ok? <==> minDelay == 0 || (later >= now && later - now >= minDelay))
  {
  }

  /** `RateLimiter`. */
  class RateLimiter {
    var lastAccess: map<string, int>
    const minDelay: nat

    /** `RateLimiter::new`: no domain visited yet. */
    constructor (minDelayMs: uint64)
      ensures lastAccess == map[] && minDelay == minDelayMs
    {
      lastAccess := map[];
      minDelay := minDelayMs;
    }

    /** `check_and_update`: refuses an access sooner than `minDelay` after the last one, else records it. */
    method CheckAndUpdate(domain: string, now: int) returns (r: Result<(), BrowserError>)
      modifies this
      ensures (r, lastAccess) == CheckAccess(old(lastAccess), minDelay, domain, now)
    {
      if domain in lastAccess {
        var elapsed := Elapsed(lastAccess[domain], now);
        if elapsed < minDelay {
          return Err(RateLimitExceeded(domain));
        }
      }
      lastAccess := lastAccess[domain := now];
      return Ok(());
    }
  }

  /** The two rate-limiter tests: one domain at 0, 0 and 150 ms; two domains at once. */
  method LimiterScenarios() returns (first: bool, second: bool, third: bool, a: bool, b: bool)
    ensures first && !second && third && a && b
  {
    var limiter := new RateLimiter(100);
    var r := limiter.CheckAndUpdate("example.com", 0);
    first := r.Ok?;
    r := limiter.CheckAndUpdate("example.com", 0);
    second := r.Ok?;
    r := limiter.CheckAndUpdate("example.com", 150);
    third := r.Ok?;
    var other := new RateLimiter(100);
    r := other.CheckAndUpdate("example.com", 0);
    a := r.Ok?;
    r := other.CheckAndUpdate("other.com", 0);
    b := r.Ok?;
  }
}
