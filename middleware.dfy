/** The request gate that runs before the protected pages and API routes:
    rate limiting first, then authentication, then security headers. The
    identity `getUser` would resolve from the request's token cookie is
    passed in, as is the clock. */
module Middleware {
  import opened Http
  import opened RateLimit

  /** The responses the gate produces. */
  datatype Response =
    | Json(status: nat, error: string, message: Option<string>, headers: map<string, string>)
    | Redirect(pathname: string, query: seq<(string, string)>)
    | Next(headers: map<string, string>)

  /** The headers set on every request that is let through. */
  const SecurityHeaders: map<string, string> := map[
    "X-Frame-Options" := "DENY",
    "X-Content-Type-Options" := "nosniff",
    "Referrer-Policy" := "strict-origin-when-cross-origin"]

  /** `path.startsWith('/api/')`. */
  predicate IsApiPath(path: string): (b: bool)
    ensures b <==> |path| >= 5 && path[..5] == "/api/"
  {
    "/api/" <= path
  }

  /** `request.ip || 'unknown'`: the rate-limit key of a request. Requests
      without an address (or with an empty one) all share one record. */
  function ClientKey(ip: Option<string>): (key: string)
    ensures Truthy(ip) ==> key == ip.value
    ensures !Truthy(ip) ==> key == "unknown"
    ensures key != ""
  {
    if Truthy(ip) then ip.value else "unknown"
  }

  /** The gate's decision once the rate limiter has answered. */
  function Gate(limited: bool, identity: Option<Identity>, path: string): (r: Response)
    ensures (r.Json? && r.status == 429) <==> limited
    ensures limited ==>
      r.Json? && r.error == "Too many requests" && r.headers == map["Retry-After" := "60"]
    ensures r.Next? <==> !limited && identity.Some?
    ensures r.Next? ==> r.headers == SecurityHeaders
    ensures (r.Json? && r.status == 401) <==> !limited && identity.None? && IsApiPath(path)
    ensures r.Json? && r.status == 401 ==>
      r.error == "Unauthorized" && r.message == Some("Authentication required")
      && r.headers == map["WWW-Authenticate" := "Bearer"]
    ensures r.Redirect? <==> !limited && identity.None? && !IsApiPath(path)
    ensures r.Redirect? ==> r.pathname == "/login" && r.query == [("redirect", path)]
    ensures r.Json? ==> r.status in {401, 429}
  {
    if limited then
      Json(429, "Too many requests", None, map["Retry-After" := "60"])
    else if identity.None? then
      if IsApiPath(path) then
        Json(401, "Unauthorized", Some("Authentication required"), map["WWW-Authenticate" := "Bearer"])
      else
        Redirect("/login", [("redirect", path)])
    else
      Next(SecurityHeaders)
  }

  /** A rate-limited request gets the same answer whoever sends it: the
      limiter is consulted before the identity. */
  lemma LimitedIgnoresIdentity(a: Option<Identity>, b: Option<Identity>, path: string)
    ensures Gate(true, a, path) == Gate(true, b, path)
  {
  }

  /** `middleware(request)` for a request to `path`, from address `ip`,
      whose token resolves to `identity`, at clock reading `now`. The
      limiter runs with its defaults and only the requester's record
      changes. */
  method Middleware(limiter: RateLimiter, path: string, ip: Option<string>,
                    identity: Option<Identity>, now: int) returns (r: Response)
    requires limiter.Valid()
    modifies limiter
    ensures limiter.Valid()
    ensures var key := ClientKey(ip);
      var v := Check(Lookup(old(limiter.records), key), now, DefaultLimit, DefaultWindow);
      r == Gate(v.limited, identity, path)
      && limiter.records == old(limiter.records)[key := v.next]
  {
    var key := ClientKey(ip);
    var limited := limiter.IsRateLimited(key, now, DefaultLimit, DefaultWindow);
    r := Gate(limited, identity, path);
  }
}
