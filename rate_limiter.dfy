/**
 * The per-address rate limiter (lib/rate-limiter.ts). For each client address
 * the limiter keeps the requests it let through, each stamped with its
 * endpoint and time. Within a window of 120 000 ms an address may call each
 * endpoint once, and may reach at most two distinct endpoints. The clock is
 * an input: every operation takes the current time `now` in milliseconds.
 */
module RateLimiting {
  import opened Wrappers
  import opened JsText

  const WindowMs := 120 * 1000
  const MaxRequests := 1

  /** A `RateLimitRecord`. */
  datatype Rec = Rec(count: int, firstRequest: int, endpoint: string)

  /** The records of one address still inside the window at `now`, in order. */
  function Fresh(rs: seq<Rec>, now: int): (r: seq<Rec>)
    ensures |r| <= |rs|
    ensures forall x :: x in r <==> x in rs && now - x.firstRequest < WindowMs
  {
    if |rs| == 0 then []
    else (if now - rs[0].firstRequest < WindowMs then [rs[0]] else []) + Fresh(rs[1..], now)
  }

  /** Filtering twice at the same time drops nothing more. */
  lemma {:induction false} FreshTwice(rs: seq<Rec>, now: int)
    ensures Fresh(Fresh(rs, now), now) == Fresh(rs, now)
  {
    if |rs| > 0 {
      FreshTwice(rs[1..], now);
      if now - rs[0].firstRequest < WindowMs {
        assert Fresh(rs, now) == [rs[0]] + Fresh(rs[1..], now);
        var f := Fresh(rs, now);
        assert f[0] == rs[0] && f[1..] == Fresh(rs[1..], now);
        assert Fresh(f, now) == [f[0]] + Fresh(f[1..], now);
      } else {
        assert [] + Fresh(rs[1..], now) == Fresh(rs[1..], now);
        assert Fresh(rs, now) == Fresh(rs[1..], now);
      }
    }
  }

  /** Every address with its fresh records, addresses left with none removed. */
  function Pruned(records: map<string, seq<Rec>>, now: int): (r: map<string, seq<Rec>>)
    ensures forall ip :: ip in r <==> ip in records && Fresh(records[ip], now) != []
    ensures forall ip :: ip in r ==> r[ip] == Fresh(records[ip], now)
  {
    map ip | ip in records && Fresh(records[ip], now) != [] :: Fresh(records[ip], now)
  }

  /** The endpoints an address reached. */
  function Endpoints(rs: seq<Rec>): set<string> {
    set x | x in rs :: x.endpoint
  }

  function ForEndpoint(rs: seq<Rec>, endpoint: string): (r: seq<Rec>)
    ensures forall x :: x in r <==> x in rs && x.endpoint == endpoint
  {
    if |rs| == 0 then []
    else (if rs[0].endpoint == endpoint then [rs[0]] else []) + ForEndpoint(rs[1..], endpoint)
  }

  /**
   * The admission rule: an address that already reached `endpoint`, or that
   * already reached two distinct endpoints, is refused.
   */
  predicate Refused(valid: seq<Rec>, endpoint: string) {
    endpoint in Endpoints(valid) || |Endpoints(valid)| >= 2
  }

  /** The least request time, as `Math.min(...)` computes it for a non-empty list. */
  function Oldest(rs: seq<Rec>): (m: int)
    requires rs != []
    ensures exists x :: x in rs && x.firstRequest == m
    ensures forall x :: x in rs ==> m <= x.firstRequest
  {
    if |rs| == 1 then rs[0].firstRequest
    else
      var rest := Oldest(rs[1..]);
      if rs[0].firstRequest <= rest then rs[0].firstRequest else rest
  }

  /** `Math.ceil(ms / 1000)` for a non-negative number of milliseconds. */
  function CeilSeconds(ms: nat): (s: nat)
    ensures s * 1000 >= ms && (s == 0 || (s - 1) * 1000 < ms)
  {
    (ms + 999) / 1000
  }

  class RateLimiter {
    var records: map<string, seq<Rec>>

    constructor()
      ensures records == map[]
    {
      records := map[];
    }

    /** `cleanup()`: each address keeps its fresh records; one left with none is deleted. */
    method Cleanup(now: int)
      modifies this
      ensures records == Pruned(old(records), now)
    {
      var before := records;
      var todo := records.Keys;
      while todo != {}
        invariant todo <= before.Keys
        invariant forall ip :: ip in records <==>
          (ip in todo && ip in before) || (ip in before && ip !in todo && Fresh(before[ip], now) != [])
        invariant forall ip :: ip in records && ip in todo ==> records[ip] == before[ip]
        invariant forall ip :: ip in records && ip !in todo ==> records[ip] == Fresh(before[ip], now)
        decreases todo
      {
        var ip :| ip in todo;
        var valid := Fresh(before[ip], now);
        if valid == [] {
          records := map k | k in records && k != ip :: records[k];
        } else {
          records := records[ip := valid];
        }
        todo := todo - {ip};
      }
      assert records.Keys == Pruned(before, now).Keys;
    }

    /**
     * `isRateLimited(ip, endpoint)`: prunes every address, then refuses an
     * address that reached this endpoint or two others inside the window.
     */
    method IsRateLimited(ip: string, endpoint: string, now: int) returns (limited: bool)
      modifies this
      ensures records == Pruned(old(records), now)
      ensures limited == Refused(Fresh(if ip in old(records) then old(records)[ip] else [], now), endpoint)
    {
      ghost var original := Fresh(if ip in old(records) then old(records)[ip] else [], now);
      Cleanup(now);
      var requests := if ip in records then records[ip] else [];
      var valid := Fresh(requests, now);
      assert valid == original by {
        if ip in old(records) {
          FreshTwice(old(records)[ip], now);
        }
      }
      var endpointRequests := ForEndpoint(valid, endpoint);
      if |endpointRequests| >= MaxRequests {
        assert endpointRequests[0] in valid;
        return true;
      }
      var totalEndpoints := Endpoints(valid);
      if |totalEndpoints| >= 2 && endpoint !in totalEndpoints {
        return true;
      }
      return false;
    }

    /** `recordRequest(ip, endpoint)`: one record appended for that address, nothing else changed. */
    method RecordRequest(ip: string, endpoint: string, now: int)
      modifies this
      ensures records == old(records)[ip := (if ip in old(records) then old(records)[ip] else []) + [Rec(1, now, endpoint)]]
    {
      var requests := if ip in records then records[ip] else [];
      requests := requests + [Rec(1, now, endpoint)];
      records := records[ip := requests];
    }

    /** `getTimeUntilReset(ip, endpoint)`: how long until the oldest record for the endpoint expires. */
    function TimeUntilReset(ip: string, endpoint: string, now: int): (ms: int)
      reads this
      ensures ms >= 0
      ensures ms == 0 <== (ip !in records || ForEndpoint(records[ip], endpoint) == [])
      ensures ip in records && ForEndpoint(records[ip], endpoint) != [] ==>
        exists x :: x in records[ip] && x.endpoint == endpoint && ms == Max0(x.firstRequest + WindowMs - now) &&
          forall y :: y in records[ip] && y.endpoint == endpoint ==> x.firstRequest <= y.firstRequest
    {
      var requests := if ip in records then records[ip] else [];
      var endpointRequests := ForEndpoint(requests, endpoint);
      if endpointRequests == [] then 0
      else Max0(Oldest(endpointRequests) + WindowMs - now)
    }
  }

  function Max0(x: int): nat {
    if x > 0 then x else 0
  }

  /** A request recorded at `t` shuts the same endpoint for that address until `t + WindowMs`. */
  lemma RecordedEndpointRefused(records: map<string, seq<Rec>>, ip: string, endpoint: string, t: int, now: int)
    requires t <= now < t + WindowMs
    ensures var after := records[ip := (if ip in records then records[ip] else []) + [Rec(1, t, endpoint)]];
      Refused(Fresh(after[ip], now), endpoint)
  {
    var after := records[ip := (if ip in records then records[ip] else []) + [Rec(1, t, endpoint)]];
    assert Rec(1, t, endpoint) in after[ip];
    assert Rec(1, t, endpoint) in Fresh(after[ip], now);
  }

  /** After two distinct endpoints inside the window, every endpoint is refused. */
  lemma TwoEndpointsRefuseAll(valid: seq<Rec>, a: Rec, b: Rec, endpoint: string)
    requires a in valid && b in valid && a.endpoint != b.endpoint
    ensures Refused(valid, endpoint)
  {
    assert {a.endpoint, b.endpoint} <= Endpoints(valid);
    assert |{a.endpoint, b.endpoint}| == 2;
    SubsetCard({a.endpoint, b.endpoint}, Endpoints(valid));
  }

  lemma SubsetCard(a: set<string>, b: set<string>)
    requires a <= b
    ensures |a| <= |b|
  {
    assert b == a + (b - a);
  }

  /** An address whose records have all left the window is admitted to any endpoint. */
  lemma ExpiredAdmitted(rs: seq<Rec>, endpoint: string, now: int)
    requires forall x :: x in rs ==> now - x.firstRequest >= WindowMs
    ensures Fresh(rs, now) == []
    ensures !Refused(Fresh(rs, now), endpoint)
  {
  }

  // ---------------------------------------------------------------------
  // getClientIP and withRateLimit

  /** A request header value as Node.js delivers it. */
  datatype HeaderValue = One(s: string) | Many(items: seq<string>)

  /**
   * What the middleware reads from a request; `headers` is absent when the
   * request object has none, in which case reading a header throws.
   */
  datatype Request = Request(
    headers: Option<map<string, HeaderValue>>,
    connectionAddress: Option<string>,
    socketAddress: Option<string>)

  /** `getClientIP(req)` for a request with headers. */
  function ClientIP(headers: map<string, HeaderValue>, connectionAddress: Option<string>, socketAddress: Option<string>): (ip: string)
    ensures ("x-forwarded-for" in headers && headers["x-forwarded-for"].One?) ==>
      ip == Trim(Split(headers["x-forwarded-for"].s, ',')[0])
    ensures (!("x-forwarded-for" in headers && headers["x-forwarded-for"].One?) &&
      "x-real-ip" in headers && headers["x-real-ip"].One?) ==> ip == headers["x-real-ip"].s
    ensures (!("x-forwarded-for" in headers && headers["x-forwarded-for"].One?) &&
      !("x-real-ip" in headers && headers["x-real-ip"].One?)) ==>
        ip in {"unknown"} + (if connectionAddress.Some? then {connectionAddress.value} else {})
          + (if socketAddress.Some? then {socketAddress.value} else {})
  {
    var remote :=
      if connectionAddress.Some? && connectionAddress.value != "" then connectionAddress
      else socketAddress;
    if "x-forwarded-for" in headers && headers["x-forwarded-for"].One? then
      Trim(Split(headers["x-forwarded-for"].s, ',')[0])
    else if "x-real-ip" in headers && headers["x-real-ip"].One? then headers["x-real-ip"].s
    else if remote.Some? && remote.value != "" then remote.value
    else "unknown"
  }

  /** The first address of a forwarded list wins, whatever follows it. */
  lemma ForwardedFirstWins(first: string, rest: string, others: map<string, HeaderValue>, c: Option<string>, s: Option<string>)
    requires !ContainsChar(first, ',')
    ensures ClientIP(others["x-forwarded-for" := One(first + "," + rest)], c, s) == Trim(first)
  {
    SplitPrefix(first, rest, ',');
  }

  /** What the wrapped handler does with a request. */
  datatype Decision =
    | TooManyRequests(error: string, message: string, retryAfter: nat)
    | RunHandler

  const TooFrequent := "请求过于频繁"

  function WaitMessage(seconds: nat): string {
    "同一IP每分钟只能调用每个API一次，请等待 " + NatToString(seconds) + " 秒后再试"
  }

  /**
   * `withRateLimit(endpoint)(handler)(req, res)`: a refused request gets 429
   * with the wait in whole seconds and the handler is not run; an admitted one
   * is recorded before the handler runs. A failure inside the limiter (here,
   * a request without headers) falls through to the handler.
   */
  method WithRateLimit(limiter: RateLimiter, endpoint: string, req: Request, now: int) returns (d: Decision)
    modifies limiter
    ensures req.headers.None? ==> d == RunHandler && limiter.records == old(limiter.records)
    ensures req.headers.Some? ==>
      var ip := ClientIP(req.headers.value, req.connectionAddress, req.socketAddress);
      var pruned := Pruned(old(limiter.records), now);
      if Refused(Fresh(if ip in old(limiter.records) then old(limiter.records)[ip] else [], now), endpoint) then
        limiter.records == pruned &&
        d == TooManyRequests(TooFrequent, WaitMessage(CeilSeconds(limiter.TimeUntilReset(ip, endpoint, now))),
                             CeilSeconds(limiter.TimeUntilReset(ip, endpoint, now)))
      else
        d == RunHandler &&
        limiter.records == pruned[ip := (if ip in pruned then pruned[ip] else []) + [Rec(1, now, endpoint)]]
  {
    if req.headers.None? {
      return RunHandler;
    }
    var ip := ClientIP(req.headers.value, req.connectionAddress, req.socketAddress);
    var limited := limiter.IsRateLimited(ip, endpoint, now);
    if limited {
      var ms := limiter.TimeUntilReset(ip, endpoint, now);
      var seconds := CeilSeconds(ms);
      return TooManyRequests(TooFrequent, WaitMessage(seconds), seconds);
    }
    limiter.RecordRequest(ip, endpoint, now);
    return RunHandler;
  }
}
