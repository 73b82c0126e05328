/** The fixed-window rate limiter of the request middleware: a per-client
    map of `{count, timestamp}` records, consulted and updated once per
    request. Clock readings are passed in as `now` (milliseconds). */
module RateLimit {
  import opened Http

  /** The defaults `isRateLimited` is called with: 100 requests per 60000 ms. */
  const DefaultLimit: int := 100
  const DefaultWindow: int := 60000

  /** One client's record: how many requests the current window has let
      through, and when (ms) that window started. */
  datatype Window = Window(count: int, timestamp: int)

  /** What one call decides: whether the request is refused, and the
      client's record afterwards. */
  datatype Verdict = Verdict(limited: bool, next: Window)

  function Lookup(m: map<string, Window>, key: string): Option<Window>
  {
    if key in m then Some(m[key]) else None
  }

  function Min(a: int, b: int): int { if a <= b then a else b }
  function Max(a: int, b: int): int { if a >= b then a else b }

  /** The decision `isRateLimited` takes for one client, from that
      client's record alone. A window is over only when strictly more than
      `window` ms have passed since it started. */
  function Check(rec: Option<Window>, now: int, limit: int, window: int): (v: Verdict)
    ensures v.limited <==> rec.Some? && now - rec.value.timestamp <= window && rec.value.count >= limit
    ensures v.limited ==> v.next == rec.value
    ensures !v.limited && OpensWindow(rec, now, window) ==> v.next == Window(1, now)
    ensures !v.limited && !OpensWindow(rec, now, window) ==>
      v.next == Window(rec.value.count + 1, rec.value.timestamp) && v.next.count <= limit
    ensures rec.Some? && 1 <= rec.value.count <= Max(1, limit) ==> 1 <= v.next.count <= Max(1, limit)
  {
    match rec
    case None => Verdict(false, Window(1, now))
    case Some(w) =>
      if now - w.timestamp > window then Verdict(false, Window(1, now))
      else if w.count >= limit then Verdict(true, w)
      else Verdict(false, Window(w.count + 1, w.timestamp))
  }

  /** Whether a record is absent or its window has run out at `now`: the
      call at `now` opens a fresh window. */
  predicate OpensWindow(rec: Option<Window>, now: int, window: int)
  {
    rec.None? || now - rec.value.timestamp > window
  }

  /** How many of the calls at the given times, made one after another
      starting from record `w`, are let through. */
  function Allowed(w: Window, times: seq<int>, limit: int, window: int): nat
    decreases |times|
  {
    if times == [] then 0
    else
      var v := Check(Some(w), times[0], limit, window);
      (if v.limited then 0 else 1) + Allowed(v.next, times[1..], limit, window)
  }

  /** Inside one window, calls are let through exactly until the count
      reaches the limit, and the window's start never moves. */
  lemma {:induction false} AllowedInsideWindow(w: Window, times: seq<int>, limit: int, window: int)
    requires forall i :: 0 <= i < |times| ==> times[i] - w.timestamp <= window
    ensures Allowed(w, times, limit, window) == Min(|times|, Max(0, limit - w.count))
    decreases |times|
  {
    if times != [] {
      var v := Check(Some(w), times[0], limit, window);
      assert v.next.timestamp == w.timestamp;
      assert forall i :: 0 <= i < |times[1..]| ==> times[1..][i] == times[i + 1];
      AllowedInsideWindow(v.next, times[1..], limit, window);
    }
  }

  /** Per window start, at most `limit` requests of one client are let
      through (at least one, the request that opens the window): the call
      at `start` opens a window, and every later call that falls within
      `window` ms of `start` is counted against it. */
  lemma AtMostLimitPerWindow(rec: Option<Window>, start: int, times: seq<int>, limit: int, window: int)
    requires OpensWindow(rec, start, window)
    requires forall i :: 0 <= i < |times| ==> times[i] - start <= window
    ensures !Check(rec, start, limit, window).limited
    ensures 1 + Allowed(Check(rec, start, limit, window).next, times, limit, window)
            == Min(1 + |times|, Max(1, limit))
  {
    AllowedInsideWindow(Window(1, start), times, limit, window);
  }

  /** A refused request leaves the client's record as it was, so a client
      that keeps calling inside a full window keeps being refused. */
  lemma RefusalIsStable(w: Window, now: int, later: int, limit: int, window: int)
    requires Check(Some(w), now, limit, window).limited
    requires later - w.timestamp <= window
    ensures Check(Some(w), now, limit, window).next == w
    ensures Check(Some(w), later, limit, window).limited
  {
  }

  /** The in-memory `rateLimit` map, keyed by client address. */
  class RateLimiter {
    var records: map<string, Window>

    /** Every record has let at least one request through. */
    ghost predicate Valid()
      reads this
    {
      forall key :: key in records ==> records[key].count >= 1
    }

    /** Every record's count stays within the limit (at least one). */
    ghost predicate Bounded(limit: int)
      reads this
    {
      forall key :: key in records ==> records[key].count <= Max(1, limit)
    }

    constructor ()
      ensures Valid() && records == map[]
    {
      records := map[];
    }

    /** `isRateLimited(ip, limit, window)` at clock reading `now`. Only the
        record of `ip` is read or written. */
    method IsRateLimited(ip: string, now: int, limit: int, window: int) returns (limited: bool)
      requires Valid()
      modifies this
      ensures Valid()
      ensures old(Bounded(limit)) ==> Bounded(limit)
      ensures ip !in old(records) ==>
        !limited && records == old(records)[ip := Window(1, now)]
      ensures ip in old(records) && now - old(records)[ip].timestamp > window ==>
        !limited && records == old(records)[ip := Window(1, now)]
      ensures ip in old(records) && now - old(records)[ip].timestamp <= window
              && old(records)[ip].count >= limit ==>
        limited && records == old(records)
      ensures ip in old(records) && now - old(records)[ip].timestamp <= window
              && old(records)[ip].count < limit ==>
        !limited && records == old(records)[ip := old(records)[ip].(count := old(records)[ip].count + 1)]
      ensures var v := Check(Lookup(old(records), ip), now, limit, window);
        limited == v.limited && records == old(records)[ip := v.next]
    {
      if ip !in records {
        records := records[ip := Window(1, now)];
        return false;
      }
      var record := records[ip];
      if now - record.timestamp > window {
        records := records[ip := Window(1, now)];
        return false;
      }
      if record.count >= limit {
        assert records[ip := record] == records;
        return true;
      }
      records := records[ip := record.(count := record.count + 1)];
      return false;
    }
  }
}
