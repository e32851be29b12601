/** The guarded demo endpoints (`POST /demo`, `GET /demo-stream`): an origin
    allow-list, a per-IP fixed-window rate limiter, a check of the URL to
    analyse, and a relay that re-validates every upstream event as JSON before
    forwarding it as a server-sent event.

    The clock (`Date.now()`), `NODE_ENV`, the client IP, the URL parser
    (`new URL`), `JSON.parse` / `JSON.stringify` and the upstream service are
    parameters. */
module DemoSecure {

  import opened JsText
  import opened HttpResponse
  import opened Sse

  const AllowedOrigins: seq<string> :=
    ["http://localhost:2368", "https://blog.a-pro.ai", "https://a-pro.ai", "http://localhost:8888"]

  /** Five minutes, in milliseconds. */
  const RateLimitWindow: int := 5 * 60 * 1000
  const RateLimitMaxRequests: int := 10

  const LoopbackMarkers: seq<string> := ["localhost", "127.0.0.1", "0.0.0.0"]
  const BlacklistedHosts: seq<string> := ["localhost", "127.0.0.1", "0.0.0.0", "10.", "192.168.", "172."]

  /* ---------------------------------------------------------------------- */
  /* Origin gate                                                             */

  /** The `Origin` header, or the `Referer` header when it is absent or empty. */
  function RequestOrigin(originHeader: Option<string>, referer: Option<string>): Option<string>
  {
    Or(originHeader, referer)
  }

  /** `s` starts with one of `prefixes`. */
  function SomePrefix(s: string, prefixes: seq<string>): bool
  {
    if prefixes == [] then false else StartsWith(s, prefixes[0]) || SomePrefix(s, prefixes[1..])
  }

  /** `s` contains one of `needles`. */
  function SomeIncludes(s: string, needles: seq<string>): bool
  {
    if needles == [] then false else Includes(s, needles[0]) || SomeIncludes(s, needles[1..])
  }

  lemma {:induction false} SomePrefixIff(s: string, prefixes: seq<string>)
    ensures SomePrefix(s, prefixes) <==> exists i :: 0 <= i < |prefixes| && StartsWith(s, prefixes[i])
    decreases |prefixes|
  {
    if prefixes != [] {
      SomePrefixIff(s, prefixes[1..]);
      if exists i :: 0 <= i < |prefixes| && StartsWith(s, prefixes[i]) {
        var i :| 0 <= i < |prefixes| && StartsWith(s, prefixes[i]);
        if i > 0 { assert StartsWith(s, prefixes[1..][i - 1]); }
      }
      if exists i :: 0 <= i < |prefixes[1..]| && StartsWith(s, prefixes[1..][i]) {
        var i :| 0 <= i < |prefixes[1..]| && StartsWith(s, prefixes[1..][i]);
        assert StartsWith(s, prefixes[i + 1]);
      }
    }
  }

  lemma {:induction false} SomeIncludesIff(s: string, needles: seq<string>)
    ensures SomeIncludes(s, needles) <==> exists i :: 0 <= i < |needles| && Includes(s, needles[i])
    decreases |needles|
  {
    if needles != [] {
      SomeIncludesIff(s, needles[1..]);
      if exists i :: 0 <= i < |needles| && Includes(s, needles[i]) {
        var i :| 0 <= i < |needles| && Includes(s, needles[i]);
        if i > 0 { assert Includes(s, needles[1..][i - 1]); }
      }
      if exists i :: 0 <= i < |needles[1..]| && Includes(s, needles[1..][i]) {
        var i :| 0 <= i < |needles[1..]| && Includes(s, needles[1..][i]);
        assert Includes(s, needles[i + 1]);
      }
    }
  }

  /** `ALLOWED_ORIGINS.some(...)`: the origin is present and starts with an allowed origin. */
  predicate IsAllowedOrigin(origin: Option<string>)
  {
    Truthy(origin) && SomePrefix(origin.value, AllowedOrigins)
  }

  /** The origin is present and mentions a loopback host. */
  predicate IsLocalhost(origin: Option<string>)
  {
    Truthy(origin) && SomeIncludes(origin.value, LoopbackMarkers)
  }

  /** The origin gate of `securityMiddleware`: allow-listed, or a loopback
      origin while `NODE_ENV` is not `production`. */
  predicate Authorized(origin: Option<string>, production: bool)
  {
    IsAllowedOrigin(origin) || (!production && IsLocalhost(origin))
  }

  /** An origin is allow-listed iff it is present and one of the four allowed
      origins is a prefix of it. */
  lemma AllowListIff(origin: Option<string>)
    ensures IsAllowedOrigin(origin) <==>
      origin.Some? && exists i :: 0 <= i < |AllowedOrigins| && StartsWith(origin.value, AllowedOrigins[i])
  {
    if origin.Some? {
      SomePrefixIff(origin.value, AllowedOrigins);
      if origin.value == "" {
        forall i | 0 <= i < |AllowedOrigins| ensures !StartsWith(origin.value, AllowedOrigins[i]) {
          assert |AllowedOrigins[i]| > 0;
        }
      }
    }
  }

  /** In production only the allow-list counts; a request without Origin and
      Referer is never authorized. */
  lemma ProductionGate(origin: Option<string>)
    ensures Authorized(origin, true) <==> IsAllowedOrigin(origin)
    ensures !Authorized(None, true) && !Authorized(None, false)
  {
  }

  /** The prefix match also accepts a host that merely begins with an allowed origin. */
  lemma LookalikeOriginAccepted()
    ensures Authorized(Some("https://a-pro.ai.evil.com"), true)
  {
    assert StartsWith("https://a-pro.ai.evil.com", AllowedOrigins[2]);
    SomePrefixIff("https://a-pro.ai.evil.com", AllowedOrigins);
  }

  /** The main site is authorized and an unrelated origin is refused in production. */
  lemma OriginExamples()
    ensures Authorized(Some("https://a-pro.ai"), true)
    ensures !Authorized(Some("https://evil.example"), true)
  {
    assert StartsWith("https://a-pro.ai", AllowedOrigins[2]);
    SomePrefixIff("https://a-pro.ai", AllowedOrigins);
    var o := "https://evil.example";
    SomePrefixIff(o, AllowedOrigins);
    forall i | 0 <= i < |AllowedOrigins| ensures !StartsWith(o, AllowedOrigins[i]) {
      if i == 0 || i == 3 { DiffersAt(o, AllowedOrigins[i], 4); }
      else { DiffersAt(o, AllowedOrigins[i], 8); }
    }
  }

  lemma DiffersAt(s: string, p: string, k: nat)
    requires k < |s| && k < |p| && s[k] != p[k]
    ensures !StartsWith(s, p)
  {
    if |p| <= |s| { assert s[..|p|][k] != p[k]; }
  }

  /* ---------------------------------------------------------------------- */
  /* Rate limiter                                                            */

  datatype Entry = Entry(count: int, firstRequest: int)

  datatype Verdict = Allowed | TooMany(retryAfter: int)

  /** `Math.ceil(a / b)` for a positive divisor. */
  function CeilDiv(a: int, b: int): (r: int)
    requires b > 0
    ensures (r - 1) * b < a <= r * b
  {
    -((-a) / b)
  }

  predicate Expired(e: Entry, now: int)
  {
    now - e.firstRequest > RateLimitWindow
  }

  /** The verdict of `securityMiddleware`'s rate-limit step for `ip` at time `now`. */
  function Decide(store: map<string, Entry>, ip: string, now: int): Verdict
  {
    if ip !in store || Expired(store[ip], now) then Allowed
    else if store[ip].count + 1 > RateLimitMaxRequests then
      TooMany(CeilDiv(RateLimitWindow - (now - store[ip].firstRequest), 1000))
    else Allowed
  }

  /** The store after the rate-limit step: a fresh entry for an unseen or
      expired IP, otherwise the count incremented (also when refused). */
  function NextStore(store: map<string, Entry>, ip: string, now: int): map<string, Entry>
  {
    if ip !in store || Expired(store[ip], now) then store[ip := Entry(1, now)]
    else store[ip := Entry(store[ip].count + 1, store[ip].firstRequest)]
  }

  /** An unseen IP, or one whose window has passed, starts a new window and is let through. */
  lemma NewWindow(store: map<string, Entry>, ip: string, now: int)
    requires ip !in store || Expired(store[ip], now)
    ensures Decide(store, ip, now) == Allowed
    ensures NextStore(store, ip, now) == store[ip := Entry(1, now)]
  {
  }

  /** Inside the window the count is incremented first and the request is
      refused exactly when the new count exceeds ten; the retry delay then lies
      between 0 and 300 seconds when the clock has not gone backwards. */
  lemma InWindow(store: map<string, Entry>, ip: string, now: int)
    requires ip in store && !Expired(store[ip], now)
    ensures NextStore(store, ip, now)[ip] == Entry(store[ip].count + 1, store[ip].firstRequest)
    ensures Decide(store, ip, now).TooMany? <==> store[ip].count + 1 > RateLimitMaxRequests
    ensures Decide(store, ip, now).TooMany? && now >= store[ip].firstRequest ==>
      0 <= Decide(store, ip, now).retryAfter <= 300
  {
  }

  /** Other IPs' entries are never touched. */
  lemma OthersUntouched(store: map<string, Entry>, ip: string, now: int, other: string)
    requires other != ip
    ensures other in NextStore(store, ip, now) <==> other in store
    ensures other in store ==> NextStore(store, ip, now)[other] == store[other]
  {
  }

  /** The verdicts and final store of a series of requests from one IP. */
  function Replay(store: map<string, Entry>, ip: string, times: seq<int>): (r: (seq<Verdict>, map<string, Entry>))
    ensures |r.0| == |times|
    decreases |times|
  {
    if times == [] then ([], store)
    else
      var rest := Replay(NextStore(store, ip, times[0]), ip, times[1..]);
      ([Decide(store, ip, times[0])] + rest.0, rest.1)
  }

  /** From an entry with `c` requests in a window that began at `t0`, further
      requests inside that window are let through while the count stays at
      most ten, and every later one is refused. */
  lemma {:induction false} ReplayInWindow(store: map<string, Entry>, ip: string, c: int, t0: int, times: seq<int>)
    requires ip in store && store[ip] == Entry(c, t0)
    requires forall i :: 0 <= i < |times| ==> t0 <= times[i] <= t0 + RateLimitWindow
    ensures |Replay(store, ip, times).0| == |times|
    ensures forall k :: 0 <= k < |times| ==> (Replay(store, ip, times).0[k] == Allowed <==> c + k + 1 <= RateLimitMaxRequests)
    ensures ip in Replay(store, ip, times).1 && Replay(store, ip, times).1[ip] == Entry(c + |times|, t0)
    decreases |times|
  {
    if times != [] {
      var next := NextStore(store, ip, times[0]);
      ReplayInWindow(next, ip, c + 1, t0, times[1..]);
      var r := Replay(store, ip, times);
      var rest := Replay(next, ip, times[1..]);
      assert r.0 == [Decide(store, ip, times[0])] + rest.0;
      forall k | 0 <= k < |times|
        ensures r.0[k] == Allowed <==> c + k + 1 <= RateLimitMaxRequests
      {
        if k > 0 { assert r.0[k] == rest.0[k - 1]; }
      }
    }
  }

  /** Eleven requests from a new IP inside one window: the first ten pass and
      the eleventh is refused; a twelfth after the window has passed is let
      through again. */
  lemma EleventhRequestRefused(ip: string, times: seq<int>, later: int)
    requires |times| == 11
    requires forall i :: 0 <= i < |times| ==> times[0] <= times[i] <= times[0] + RateLimitWindow
    requires later - times[0] > RateLimitWindow
    ensures forall k :: 0 <= k < 10 ==> Replay(map[], ip, times).0[k] == Allowed
    ensures Replay(map[], ip, times).0[10].TooMany?
    ensures Decide(Replay(map[], ip, times).1, ip, later) == Allowed
  {
    var first := NextStore(map[], ip, times[0]);
    assert first[ip] == Entry(1, times[0]);
    ReplayInWindow(first, ip, 1, times[0], times[1..]);
    var r := Replay(map[], ip, times);
    var rest := Replay(first, ip, times[1..]);
    assert r.0 == [Allowed] + rest.0;
    forall k | 0 <= k < 10 ensures r.0[k] == Allowed {
      if k > 0 { assert r.0[k] == rest.0[k - 1]; }
    }
    assert r.0[10] == rest.0[9];
  }

  /** The store after the periodic sweep: exactly the unexpired entries. */
  function Swept(store: map<string, Entry>, now: int): map<string, Entry>
  {
    map k | k in store && !Expired(store[k], now) :: store[k]
  }

  /** Sweeping never changes a later verdict: an entry it drops would have
      been reset on its next request anyway. */
  lemma SweepTransparent(store: map<string, Entry>, now: int, ip: string, later: int)
    requires later >= now
    ensures Decide(Swept(store, now), ip, later) == Decide(store, ip, later)
  {
  }

  /** The in-memory `rateLimitStore` with the middleware's update and the
      periodic sweep. */
  class RateLimiter {
    var store: map<string, Entry>

    /** Every stored window has counted at least one request. */
    ghost predicate Valid()
      reads this
    {
      forall k :: k in store ==> store[k].count >= 1
    }

    constructor ()
      ensures store == map[] && Valid()
    {
      store := map[];
    }

    /** The rate-limit step of `securityMiddleware` for an authorized request. */
    method Check(ip: string, now: int) returns (v: Verdict)
      requires Valid()
      modifies this
      ensures Valid()
      ensures v == Decide(old(store), ip, now)
      ensures store == NextStore(old(store), ip, now)
    {
      if ip !in store {
        store := store[ip := Entry(1, now)];
        v := Allowed;
      } else {
        var userData := store[ip];
        if now - userData.firstRequest > RateLimitWindow {
          store := store[ip := Entry(1, now)];
          v := Allowed;
        } else {
          userData := userData.(count := userData.count + 1);
          store := store[ip := userData];
          if userData.count > RateLimitMaxRequests {
            v := TooMany(CeilDiv(RateLimitWindow - (now - userData.firstRequest), 1000));
          } else {
            v := Allowed;
          }
        }
      }
    }

    /** The `setInterval` cleanup: deletes exactly the expired entries and
        leaves every other entry as it was. */
    method Sweep(now: int)
      requires Valid()
      modifies this
      ensures Valid()
      ensures forall k :: k in store <==> k in old(store) && !Expired(old(store)[k], now)
      ensures forall k :: k in store ==> store[k] == old(store)[k]
      ensures store == Swept(old(store), now)
    {
      var keys := store.Keys;
      ghost var original := store;
      while keys != {}
        invariant keys <= original.Keys
        invariant forall k :: k in store <==> k in original && (k in keys || !Expired(original[k], now))
        invariant forall k :: k in store ==> store[k] == original[k]
        decreases keys
      {
        var k :| k in keys;
        if now - store[k].firstRequest > RateLimitWindow {
          store := store - {k};
        }
        keys := keys - {k};
      }
    }
  }

  /* ---------------------------------------------------------------------- */
  /* Input validation                                                        */

  /** What `new URL(url)` exposes to the check: its protocol and hostname. */
  datatype UrlParts = UrlParts(protocol: string, hostname: string)

  const MissingUrl: JsonBody := ErrorBody("URL parameter is required", "MISSING_URL", None)
  const PrivateUrl: JsonBody := ErrorBody("Internal/private URLs are not allowed", "INVALID_URL", None)
  const MalformedUrl: JsonBody := ErrorBody("Invalid URL format", "INVALID_URL", None)

  /** `validateDemoInput`: `None` when the request goes on, otherwise the 400
      body. `parse` is `new URL`, `None` where it throws. */
  function ValidateDemoInput(url: Option<string>, parse: string -> Option<UrlParts>): Option<JsonBody>
  {
    if !Truthy(url) then Some(MissingUrl)
    else match parse(url.value)
      case None => Some(MalformedUrl)
      case Some(parts) =>
        if parts.protocol != "http:" && parts.protocol != "https:" then Some(MalformedUrl)
        else if SomeIncludes(ToLower(parts.hostname), BlacklistedHosts) then Some(PrivateUrl)
        else None
  }

  /** The three outcomes of `validateDemoInput`, each with its condition. */
  lemma ValidateDemoInputCases(url: Option<string>, parse: string -> Option<UrlParts>)
    ensures ValidateDemoInput(url, parse) == Some(MissingUrl) <==> !Truthy(url)
    ensures ValidateDemoInput(url, parse) == Some(MalformedUrl) <==>
      Truthy(url) && (parse(url.value).None? || parse(url.value).value.protocol !in {"http:", "https:"})
    ensures ValidateDemoInput(url, parse) == Some(PrivateUrl) <==>
      Truthy(url) && parse(url.value).Some? && parse(url.value).value.protocol in {"http:", "https:"} &&
      exists i :: 0 <= i < |BlacklistedHosts| && Includes(ToLower(parse(url.value).value.hostname), BlacklistedHosts[i])
    ensures ValidateDemoInput(url, parse).Some? ==>
      ValidateDemoInput(url, parse).value.ErrorBody? && ValidateDemoInput(url, parse).value.retryAfter.None?
  {
    if Truthy(url) && parse(url.value).Some? {
      SomeIncludesIff(ToLower(parse(url.value).value.hostname), BlacklistedHosts);
    }
  }

  /* ---------------------------------------------------------------------- */
  /* Relay                                                                   */

  /** What the analysis service does with the forwarded request: the fetch
      fails, or it answers with a status and a body that is read chunk by chunk
      and may break off with a read error after the given chunks. */
  datatype Upstream =
    | Unreachable
    | Answered(status: int, chunks: seq<string>, readError: bool)

  predicate Ok(status: int)
  {
    200 <= status <= 299
  }

  datatype Route = PostDemo | GetDemoStream

  const ConnectedEvent: string :=
    "data: {\"status\":\"connected\"" + ",\"message\":\"Analysis starting...\",\"step\":\"init\",\"progress\":0}\n\n"
  const CompleteEvent: string :=
    "data: {\"status\":\"complete\"" + ",\"message\":\"Analysis finished successfully\"}\n\n"
  const ServiceErrorEvent: string :=
    "data: {\"error\"" + ":\"Analysis service temporarily unavailable. Please try again later.\",\"code\":\"SERVICE_ERROR\"}\n\n"

  /** The events forwarded for a list of upstream payloads: those that
      `JSON.parse` accepts, written back with `JSON.stringify`, in order.
      `reparse(p)` is `JSON.stringify(JSON.parse(p))`, or `None` when
      `JSON.parse` throws. */
  function JsonFrames(payloads: seq<string>, reparse: string -> Option<string>): seq<string>
  {
    if payloads == [] then []
    else
      (match reparse(payloads[0]) case Some(t) => [Frame(t)] case None => [])
      + JsonFrames(payloads[1..], reparse)
  }

  lemma {:induction false} JsonFramesAppend(a: seq<string>, b: seq<string>, reparse: string -> Option<string>)
    ensures JsonFrames(a + b, reparse) == JsonFrames(a, reparse) + JsonFrames(b, reparse)
    decreases |a|
  {
    if a == [] {
      assert a + b == b;
    } else {
      assert (a + b)[1..] == a[1..] + b;
      JsonFramesAppend(a[1..], b, reparse);
    }
  }

  /** Every forwarded event is the re-serialisation of an upstream payload
      that parsed as JSON, and every such payload is forwarded. */
  lemma {:induction false} JsonFramesMember(payloads: seq<string>, reparse: string -> Option<string>, f: string)
    ensures f in JsonFrames(payloads, reparse) <==>
      exists i :: 0 <= i < |payloads| && reparse(payloads[i]).Some? && f == Frame(reparse(payloads[i]).value)
    decreases |payloads|
  {
    if payloads != [] {
      JsonFramesMember(payloads[1..], reparse, f);
      var tail := payloads[1..];
      if exists i :: 0 <= i < |payloads| && reparse(payloads[i]).Some? && f == Frame(reparse(payloads[i]).value) {
        var i :| 0 <= i < |payloads| && reparse(payloads[i]).Some? && f == Frame(reparse(payloads[i]).value);
        if i > 0 { assert reparse(tail[i - 1]).Some? && f == Frame(reparse(tail[i - 1]).value); }
      }
      if exists i :: 0 <= i < |tail| && reparse(tail[i]).Some? && f == Frame(reparse(tail[i]).value) {
        var i :| 0 <= i < |tail| && reparse(tail[i]).Some? && f == Frame(reparse(tail[i]).value);
        assert payloads[i + 1] == tail[i];
      }
    }
  }

  /** The upstream call did not end normally: the fetch failed, the status
      was not ok, or reading the body broke off. */
  predicate Failed(up: Upstream)
  {
    up.Unreachable? || !Ok(up.status) || up.readError
  }

  /** The events a handler writes once it runs: `connected`, the forwarded
      events, then one terminal event (`complete` only on the POST route). */
  function StreamWrites(route: Route, up: Upstream, reparse: string -> Option<string>): seq<string>
  {
    [ConnectedEvent] +
    match up
    case Unreachable => [ServiceErrorEvent]
    case Answered(status, chunks, readError) =>
      if !Ok(status) then [ServiceErrorEvent]
      else
        JsonFrames(StreamPayloads(chunks), reparse)
        + (if readError then [ServiceErrorEvent] else if route == PostDemo then [CompleteEvent] else [])
  }

  lemma HandlerTrace(c0: seq<Call>, t: seq<Call>, route: Route, up: Upstream, reparse: string -> Option<string>, written: seq<string>)
    requires written == StreamWrites(route, up, reparse)
    requires t == c0 + [WriteHead(200)] + WriteAll(written) + [End]
    ensures t == c0 + StreamTrace(route, up, reparse)
  {
  }

  /** The writes of each path through the handler, one case at a time. */
  lemma StreamWritesCases(route: Route, up: Upstream, reparse: string -> Option<string>, written: seq<string>)
    requires up.Unreachable? ==> written == [ConnectedEvent, ServiceErrorEvent]
    requires up.Answered? && !Ok(up.status) ==> written == [ConnectedEvent, ServiceErrorEvent]
    requires up.Answered? && Ok(up.status) ==>
      written == [ConnectedEvent] + JsonFrames(StreamPayloads(up.chunks), reparse)
        + (if up.readError then [ServiceErrorEvent] else if route == PostDemo then [CompleteEvent] else [])
    ensures written == StreamWrites(route, up, reparse)
  {
  }

  /** The calls a handler makes on `res`: SSE headers, its events, and
      `res.end()` in the outer `finally`. */
  function StreamTrace(route: Route, up: Upstream, reparse: string -> Option<string>): seq<Call>
  {
    [WriteHead(200)] + WriteAll(StreamWrites(route, up, reparse)) + [End]
  }

  /** The client is told first that the analysis started; POST always ends
      with exactly the terminal event that matches how the upstream call
      ended; on any failure the last event is the service error; GET sends
      the `complete` text only if the upstream itself sent it. */
  lemma StreamEvents(route: Route, up: Upstream, reparse: string -> Option<string>)
    ensures Written(StreamTrace(route, up, reparse)) == StreamWrites(route, up, reparse)
    ensures StreamWrites(route, up, reparse)[0] == ConnectedEvent
    ensures Failed(up) ==> Last(StreamWrites(route, up, reparse)) == ServiceErrorEvent
    ensures route == PostDemo ==>
      Last(StreamWrites(route, up, reparse)) == (if Failed(up) then ServiceErrorEvent else CompleteEvent)
    ensures route == GetDemoStream && CompleteEvent in StreamWrites(route, up, reparse) ==>
      up.Answered? && CompleteEvent in JsonFrames(StreamPayloads(up.chunks), reparse)
  {
    var w := StreamWrites(route, up, reparse);
    WriteAllShape(w);
    WrittenAppend([WriteHead(200)] + WriteAll(w), [End]);
    WrittenAppend([WriteHead(200)], WriteAll(w));
    assert Written([End]) == [] && Written([WriteHead(200)]) == [];
    assert ConnectedEvent[19] != CompleteEvent[19];
    assert ServiceErrorEvent[8] != CompleteEvent[8];
  }

  function Last(s: seq<string>): string
    requires |s| > 0
  {
    s[|s| - 1]
  }

  /** A request to either route as the middleware sees it. */
  datatype DemoRequest = DemoRequest(originHeader: Option<string>, referer: Option<string>, ip: string, url: Option<string>)

  const UnauthorizedOrigin: JsonBody := ErrorBody("Access denied: Unauthorized origin", "UNAUTHORIZED_ORIGIN", None)

  function RateLimited(retryAfter: int): JsonBody
  {
    ErrorBody("Rate limit exceeded. Please try again later.", "RATE_LIMIT_EXCEEDED", Some(retryAfter))
  }

  /** The rate-limit store after the middleware: untouched for a refused
      origin, updated by the rate-limit step otherwise. */
  function GateStore(store: map<string, Entry>, req: DemoRequest, production: bool, now: int): map<string, Entry>
  {
    if Authorized(RequestOrigin(req.originHeader, req.referer), production) then NextStore(store, req.ip, now)
    else store
  }

  /** The calls made on `res` by `securityMiddleware`, `validateDemoInput` and the route handler. */
  function Pipeline(store: map<string, Entry>, route: Route, req: DemoRequest, production: bool, now: int,
                    parse: string -> Option<UrlParts>, up: Upstream,
                    reparse: string -> Option<string>): seq<Call>
  {
    if !Authorized(RequestOrigin(req.originHeader, req.referer), production) then [Json(403, UnauthorizedOrigin)]
    else match Decide(store, req.ip, now)
      case TooMany(r) => [Json(429, RateLimited(r))]
      case Allowed =>
        match ValidateDemoInput(req.url, parse)
        case Some(body) => [Json(400, body)]
        case None => StreamTrace(route, up, reparse)
  }

  /** Whatever the path, the response is finished exactly once, by the last call. */
  lemma PipelineClosesOnce(store: map<string, Entry>, route: Route, req: DemoRequest, production: bool, now: int,
                           parse: string -> Option<UrlParts>, up: Upstream,
                           reparse: string -> Option<string>)
    ensures ClosedOnce(Pipeline(store, route, req, production, now, parse, up, reparse))
  {
    var t := Pipeline(store, route, req, production, now, parse, up, reparse);
    if t == StreamTrace(route, up, reparse) {
      StreamTraceClosesOnce(route, up, reparse);
    }
  }

  lemma StreamTraceClosesOnce(route: Route, up: Upstream, reparse: string -> Option<string>)
    ensures ClosedOnce(StreamTrace(route, up, reparse))
  {
    WritesThenEnd(StreamWrites(route, up, reparse), [WriteHead(200)]);
  }

  /** A URL that fails validation is refused only after the rate-limit step
      has counted the request. */
  lemma BadUrlConsumesSlot(store: map<string, Entry>, route: Route, req: DemoRequest, production: bool, now: int,
                           parse: string -> Option<UrlParts>, up: Upstream,
                           reparse: string -> Option<string>)
    requires Authorized(RequestOrigin(req.originHeader, req.referer), production)
    requires Decide(store, req.ip, now) == Allowed
    requires ValidateDemoInput(req.url, parse).Some?
    ensures Pipeline(store, route, req, production, now, parse, up, reparse)
      == [Json(400, ValidateDemoInput(req.url, parse).value)]
    ensures req.ip in GateStore(store, req, production, now)
    ensures req.ip in store && !Expired(store[req.ip], now) ==>
      GateStore(store, req, production, now)[req.ip].count == store[req.ip].count + 1
  {
  }

  /** A refused origin gets a 403 and leaves the rate-limit store as it was. */
  lemma ForbiddenLeavesStore(store: map<string, Entry>, route: Route, req: DemoRequest, production: bool, now: int,
                             parse: string -> Option<UrlParts>, up: Upstream,
                             reparse: string -> Option<string>)
    requires !Authorized(RequestOrigin(req.originHeader, req.referer), production)
    ensures Pipeline(store, route, req, production, now, parse, up, reparse) == [Json(403, UnauthorizedOrigin)]
    ensures GateStore(store, req, production, now) == store
  {
  }

  /** The reader loop: every line of every chunk is checked and, if it
      carries a JSON payload, written to `res` re-serialised. */
  method Relay(res: Response, chunks: seq<string>, reparse: string -> Option<string>)
    modifies res
    ensures res.calls == old(res.calls) + WriteAll(JsonFrames(StreamPayloads(chunks), reparse))
  {
    var i := 0;
    while i < |chunks|
      invariant 0 <= i <= |chunks|
      invariant res.calls == old(res.calls) + WriteAll(RelayedChunks(chunks, i, reparse))
    {
      ghost var before := res.calls;
      RelayChunk(res, chunks[i], reparse);
      RelayStep(old(res.calls), before, res.calls, chunks, i, reparse);
      i := i + 1;
    }
    RelayedAllChunks(chunks, reparse);
  }

  /** One chunk: `chunk.split('\n')`, then each line in order. */
  method RelayChunk(res: Response, chunk: string, reparse: string -> Option<string>)
    modifies res
    ensures res.calls == old(res.calls) + WriteAll(JsonFrames(ChunkPayloads(chunk), reparse))
  {
    var lines := Split(chunk, '\n');
    var j := 0;
    ghost var frames: seq<string> := [];
    while j < |lines|
      invariant 0 <= j <= |lines|
      invariant res.calls == old(res.calls) + WriteAll(frames)
      invariant frames == JsonFrames(LinePayloads(lines[..j]), reparse)
    {
      ghost var step := JsonFrames(LinePayloads([lines[j]]), reparse);
      RelayLine(res, lines[j], reparse);
      WriteAllAppend(frames, step);
      LineFramesStep(lines, j, reparse);
      frames := frames + step;
      j := j + 1;
    }
    assert lines[..j] == lines;
  }

  /** One line: forwarded when it starts with `data: `, the rest is not
      blank and the rest parses as JSON; dropped otherwise. */
  method RelayLine(res: Response, line: string, reparse: string -> Option<string>)
    modifies res
    ensures res.calls == old(res.calls) + WriteAll(JsonFrames(LinePayloads([line]), reparse))
  {
    assert [line][1..] == [];
    if StartsWith(line, DataPrefix) {
      var data := line[6..];
      if !IsBlank(data) {
        var parsed := reparse(data);
        if parsed.Some? {
          res.Write(Frame(parsed.value));
        }
      }
    }
  }

  /** The frames of the first `i` chunks, chunk after chunk. */
  function RelayedChunks(chunks: seq<string>, i: nat, reparse: string -> Option<string>): seq<string>
    requires i <= |chunks|
  {
    if i == 0 then [] else RelayedChunks(chunks, i - 1, reparse) + JsonFrames(ChunkPayloads(chunks[i - 1]), reparse)
  }

  lemma {:induction false} RelayedChunksPrefix(chunks: seq<string>, i: nat, reparse: string -> Option<string>)
    requires i <= |chunks|
    ensures RelayedChunks(chunks, i, reparse) == JsonFrames(StreamPayloads(chunks[..i]), reparse)
  {
    if i > 0 {
      RelayedChunksPrefix(chunks, i - 1, reparse);
      assert chunks[..i] == chunks[..i - 1] + [chunks[i - 1]];
      StreamPayloadsAppend(chunks[..i - 1], [chunks[i - 1]]);
      assert StreamPayloads([chunks[i - 1]]) == ChunkPayloads(chunks[i - 1]) by {
        assert [chunks[i - 1]][1..] == [];
      }
      JsonFramesAppend(StreamPayloads(chunks[..i - 1]), ChunkPayloads(chunks[i - 1]), reparse);
    }
  }

  lemma RelayStep(c0: seq<Call>, c1: seq<Call>, c2: seq<Call>, chunks: seq<string>, i: nat, reparse: string -> Option<string>)
    requires i < |chunks|
    requires c1 == c0 + WriteAll(RelayedChunks(chunks, i, reparse))
    requires c2 == c1 + WriteAll(JsonFrames(ChunkPayloads(chunks[i]), reparse))
    ensures c2 == c0 + WriteAll(RelayedChunks(chunks, i + 1, reparse))
  {
    WriteAllAppend(RelayedChunks(chunks, i, reparse), JsonFrames(ChunkPayloads(chunks[i]), reparse));
  }

  lemma RelayedAllChunks(chunks: seq<string>, reparse: string -> Option<string>)
    ensures RelayedChunks(chunks, |chunks|, reparse) == JsonFrames(StreamPayloads(chunks), reparse)
  {
    RelayedChunksPrefix(chunks, |chunks|, reparse);
    assert chunks[..|chunks|] == chunks;
  }

  lemma LineFramesStep(lines: seq<string>, j: nat, reparse: string -> Option<string>)
    requires j < |lines|
    ensures JsonFrames(LinePayloads(lines[..j + 1]), reparse) ==
      JsonFrames(LinePayloads(lines[..j]), reparse) + JsonFrames(LinePayloads([lines[j]]), reparse)
  {
    assert lines[..j + 1] == lines[..j] + [lines[j]];
    LinePayloadsAppend(lines[..j], [lines[j]]);
    JsonFramesAppend(LinePayloads(lines[..j]), LinePayloads([lines[j]]), reparse);
  }

  /** The route handler shared by `POST /demo` and `GET /demo-stream`. */
  method HandleStream(res: Response, route: Route, up: Upstream, reparse: string -> Option<string>)
    modifies res
    ensures res.calls == old(res.calls) + StreamTrace(route, up, reparse)
  {
    ghost var start := old(res.calls) + [WriteHead(200)];
    res.WriteHead(200);
    res.Write(ConnectedEvent);
    ghost var written: seq<string> := [ConnectedEvent];
    assert res.calls == start + WriteAll(written);
    match up {
      case Unreachable =>
        res.Write(ServiceErrorEvent);
        ExtendWrite(start, written, ServiceErrorEvent, res.calls);
        written := written + [ServiceErrorEvent];
      case Answered(status, chunks, readError) =>
        if !Ok(status) {
          res.Write(ServiceErrorEvent);
          ExtendWrite(start, written, ServiceErrorEvent, res.calls);
          written := written + [ServiceErrorEvent];
        } else {
          ghost var fwd := JsonFrames(StreamPayloads(chunks), reparse);
          Relay(res, chunks, reparse);
          ExtendWrites(start, written, fwd, res.calls);
          written := written + fwd;
          if readError {
            res.Write(ServiceErrorEvent);
            ExtendWrite(start, written, ServiceErrorEvent, res.calls);
            written := written + [ServiceErrorEvent];
          } else if route == PostDemo {
            res.Write(CompleteEvent);
            ExtendWrite(start, written, CompleteEvent, res.calls);
            written := written + [CompleteEvent];
          }
        }
    }
    StreamWritesCases(route, up, reparse, written);
    res.End();
    HandlerTrace(old(res.calls), res.calls, route, up, reparse, written);
  }

  /** A request through `securityMiddleware`, `validateDemoInput` and the handler. */
  method Serve(limiter: RateLimiter, res: Response, route: Route, req: DemoRequest, production: bool, now: int,
               parse: string -> Option<UrlParts>, up: Upstream,
               reparse: string -> Option<string>)
    requires limiter.Valid()
    modifies limiter, res
    ensures limiter.Valid()
    ensures limiter.store == GateStore(old(limiter.store), req, production, now)
    ensures res.calls == old(res.calls) + Pipeline(old(limiter.store), route, req, production, now, parse, up, reparse)
  {
    var origin := RequestOrigin(req.originHeader, req.referer);
    if !Authorized(origin, production) {
      res.Json(403, UnauthorizedOrigin);
      return;
    }
    var verdict := limiter.Check(req.ip, now);
    if verdict.TooMany? {
      res.Json(429, RateLimited(verdict.retryAfter));
      return;
    }
    var invalid := ValidateDemoInput(req.url, parse);
    if invalid.Some? {
      res.Json(400, invalid.value);
      return;
    }
    HandleStream(res, route, up, reparse);
  }
}
