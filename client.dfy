/**
 * v1/api.go: the client, its construction, and `RoundTrip` with its two retry
 * tiers. Everything `RoundTrip` learns from the outside world (the transport, the
 * rate limiter, an OAuth token source, the context's cancellation, failed body
 * reads while tracing) is supplied as an `Environment`; waits are recorded
 * instead of slept, and durations are integers in nanoseconds.
 */
module ApiClient {
  import opened Wrappers
  import opened GoText
  import opened GoHeader
  import opened GoHttp
  import opened ApiErrors
  import opened ApiAuth
  import opened ApiConfig

  const Second := 1_000_000_000
  const Minute := 60 * Second

  /** `maxRetries`: attempts are numbered 0 to 3, so at most four requests are sent. */
  const MaxRetries := 3
  /** `backoffDefault`: three minutes. */
  const BackoffDefault := 3 * Minute

  const JSON := "application/json"
  const URLEncoded := "application/x-www-form-urlencoded"
  const Multipart := "multipart/form-data"
  const PlainText := "text/plain"

  /** `sharedClient`: the HTTP client with a 60-second timeout used by default. */
  const SharedClient := HttpClient(60 * Second)

  /** `Client`; `retry` is the set of statuses retried with backoff, `None` for a nil map. */
  datatype Client = Client(
    http: HttpClient,
    auth: Option<Authorizer>,
    limiter: Option<Limiter>,
    retry: Option<set<int>>,
    backoff: int,
    base: Option<Url>,
    header: Option<Header>,
    dctype: string,
    debug: Debug)

  /** The statuses listed in `s`, as the keys of the retry map. */
  function StatusSet(s: seq<int>): (r: set<int>)
    ensures forall x :: x in r <==> x in s
  {
    set x | x in s
  }

  /**
   * `NewWithConfig`: parses the base URL, picks the HTTP client (the configured one,
   * else a new one with the configured timeout, else the shared one), defaults the
   * content type to JSON, builds the retry set from exactly the listed statuses and
   * applies the environment to the debug settings.
   */
  /**
   * What `NewWithConfig` makes of `conf`: an invalid base URL fails first, then a bad
   * debug filter; otherwise every field of the client comes from the configuration.
   */
  ghost predicate Built(conf: Config, env: Env, lib: Library, r: Result<Client, Err>) {
    var (debug, err) := WithEnv(Debug(conf.debug, conf.verbose, None), env, lib);
    && (conf.baseUrl != "" && lib.parseUrl(conf.baseUrl).Failure? ==>
          r == Failure(Formatted("Invalid base URL: ", Text(lib.parseUrl(conf.baseUrl).error), false)))
    && ((conf.baseUrl == "" || lib.parseUrl(conf.baseUrl).Success?) && err.Some? ==> r == Failure(err.value))
    && (r.Failure? <==> (conf.baseUrl != "" && lib.parseUrl(conf.baseUrl).Failure?) || err.Some?)
    && (r.Success? ==>
          var cl := r.value;
          && cl.base == (if conf.baseUrl == "" then None else Some(lib.parseUrl(conf.baseUrl).value))
          && cl.http == (if conf.client.Some? then conf.client.value
                         else if conf.timeout > 0 then HttpClient(conf.timeout) else SharedClient)
          && cl.dctype == (if conf.contentType == "" then JSON else conf.contentType)
          && cl.retry == Some(StatusSet(conf.retryStatus))
          && cl.auth == conf.authorizer && cl.limiter == conf.rateLimiter
          && cl.backoff == conf.retryDelay && cl.header == conf.header
          && cl.debug == debug)
  }

  /**
   * `NewWithConfig`: parses the base URL, picks the HTTP client (the configured one,
   * else a new one with the configured timeout, else the shared one), defaults the
   * content type to JSON, builds the retry set from exactly the listed statuses and
   * applies the environment to the debug settings.
   */
  method NewWithConfig(conf: Config, env: Env, lib: Library) returns (r: Result<Client, Err>)
    ensures Built(conf, env, lib, r)
  {
    var base: Option<Url> := None;
    if conf.baseUrl != "" {
      match lib.parseUrl(conf.baseUrl) {
        case Failure(msg) => return Failure(Formatted("Invalid base URL: ", Text(msg), false));
        case Success(u) => base := Some(u);
      }
    }
    var client: HttpClient;
    if conf.client.Some? {
      client := conf.client.value;
    } else if conf.timeout > 0 {
      client := HttpClient(conf.timeout);
    } else {
      client := SharedClient;
    }
    var ctype := conf.contentType;
    if ctype == "" {
      ctype := JSON;
    }
    var retry: set<int> := {};
    var i := 0;
    while i < |conf.retryStatus|
      invariant 0 <= i <= |conf.retryStatus|
      invariant retry == StatusSet(conf.retryStatus[..i])
    {
      retry := retry + {conf.retryStatus[i]};
      assert conf.retryStatus[..i + 1] == conf.retryStatus[..i] + [conf.retryStatus[i]];
      i := i + 1;
    }
    assert conf.retryStatus[..i] == conf.retryStatus;
    var (debug, err) := WithEnv(Debug(conf.debug, conf.verbose, None), env, lib);
    if err.Some? {
      return Failure(err.value);
    }
    r := Success(Client(client, conf.authorizer, conf.rateLimiter, Some(retry), conf.retryDelay,
                         base, conf.header, ctype, debug));
  }

  /**
   * `New`: the options applied to a configuration holding the shared client, then
   * `NewWithConfig`; no option replaces the shared client.
   */
  method New(opts: seq<ConfigOption>, env: Env, lib: Library) returns (r: Result<Client, Err>)
    ensures Built(Fold(Zero.(client := Some(SharedClient)), opts), env, lib, r)
    ensures r.Success? ==> r.value.http == SharedClient
  {
    var conf := WithOptions(Zero.(client := Some(SharedClient)), opts);
    FoldKeepsClient(Zero.(client := Some(SharedClient)), opts);
    r := NewWithConfig(conf, env, lib);
  }

  /** No option changes the configured HTTP client. */
  lemma {:induction false} FoldKeepsClient(c: Config, opts: seq<ConfigOption>)
    ensures Fold(c, opts).client == c.client
  {
    if opts != [] {
      FoldKeepsClient(c, opts[..|opts| - 1]);
    }
  }

  /**
   * `WithBase`: a new client with the base replaced; the retry set and the backoff
   * are not copied, so the new client has none.
   */
  function WithBase(c: Client, b: Option<Url>): (r: Client)
    ensures r.base == b && r.retry.None? && r.backoff == 0
    ensures r.(base := c.base, retry := c.retry, backoff := c.backoff) == c
  {
    Client(c.http, c.auth, c.limiter, None, 0, b, c.header, c.dctype, c.debug)
  }

  /** `WithAuthorizer`: like `WithBase`, with the authorizer replaced instead. */
  function WithAuthorizer(c: Client, a: Option<Authorizer>): (r: Client)
    ensures r.auth == a && r.retry.None? && r.backoff == 0
    ensures r.(auth := c.auth, retry := c.retry, backoff := c.backoff) == c
  {
    Client(c.http, a, c.limiter, None, 0, c.base, c.header, c.dctype, c.debug)
  }

  /**
   * `after` is `before` with the defaults merged in: every name already present keeps
   * its values, every default's canonical name is present, and a new name holds the
   * values of some default with that canonical name.
   */
  ghost predicate Merged(defaults: Header, before: Header, after: Header) {
    && (forall n :: n in before ==> n in after && after[n] == before[n])
    && (forall k :: k in defaults ==> CanonicalHeaderKey(k) in after)
    && (forall n :: n in after && n !in before ==>
          exists k :: k in defaults && CanonicalHeaderKey(k) == n && after[n] == defaults[k])
  }

  /**
   * The default-header merge of `RoundTrip`: each default is copied under its
   * canonical name unless the request already has that name. Keys are visited in
   * Go's unspecified map order, so among defaults sharing a canonical name the
   * first one visited wins.
   */
  method MergeDefaultHeaders(defaults: Header, req: Request)
    modifies req
    ensures req.verb == old(req.verb) && req.url == old(req.url)
    ensures Merged(defaults, old(req.header), req.header)
  {
    var left := defaults.Keys;
    while left != {}
      invariant left <= defaults.Keys
      invariant req.verb == old(req.verb) && req.url == old(req.url)
      invariant forall n :: n in old(req.header) ==> n in req.header && req.header[n] == old(req.header)[n]
      invariant forall k :: k in defaults && k !in left ==> CanonicalHeaderKey(k) in req.header
      invariant forall n :: n in req.header && n !in old(req.header) ==>
                  exists k :: k in defaults && CanonicalHeaderKey(k) == n && req.header[n] == defaults[k]
      decreases left
    {
      var k :| k in left;
      var n := CanonicalHeaderKey(k);
      if n !in req.header {
        req.header := req.header[n := defaults[k]];
      }
      left := left - {k};
    }
  }

  /** The status-retry delay of attempt `i`: the configured backoff (or three minutes) times `i + 1`. */
  function BackoffDelay(backoff: int, i: nat): (d: int)
    ensures backoff <= 0 ==> d == BackoffDefault * (i + 1)
    ensures backoff > 0 ==> d == backoff * (i + 1) && d >= backoff
  {
    (if backoff > 0 then backoff else BackoffDefault) * (i + 1)
  }

  /** What the rate limiter's `Update` reports after a response. */
  datatype LimiterUpdate =
    | Updated                            // nil
    | RetryAfter(delay: int, err: Err)   // a ratelimit.RetryError: resend after `delay`
    | UpdateFailed(err: Err)             // any other error

  /** One attempt as the outside world answers it. */
  datatype Attempt = Attempt(
    transport: Result<Response, Err>,   // c.Client.Do(req)
    update: LimiterUpdate,              // l.Update(...), consulted only with a limiter
    canceled: bool)                     // the context ends during this attempt's retry wait

  /** The rate-limit gate: the delay until the next window (or the limiter's error), and cancellation. */
  datatype Gate = Gate(next: Result<int, Err>, canceled: bool)

  /** Everything `RoundTrip` learns from outside. */
  datatype Environment = Environment(
    token: Result<string, Err>,      // what an OAuth token source gives: the Authorization value, or an error
    gate: Gate,
    reqBody: Option<Err>,            // failure reading the request body while tracing it
    attempts: nat -> Attempt,
    rspBody: Option<Err>)            // failure reading the response body while tracing it

  /** A wait between attempts: forced by the limiter, or a status-driven backoff. */
  datatype Wait = LimiterWait(delay: int) | Backoff(delay: int)

  /** What one attempt decides: return a result, or wait and try again. */
  datatype Step = Done(result: Result<Response, Err>) | Again(wait: Wait)

  /** The result of the retry loop and the waits it went through, one per retry. */
  datatype Run = Run(result: Result<Response, Err>, waits: seq<Wait>)

  /** `%06d`: at least six digits, zero-padded. */
  function Pad6(n: nat): (s: string)
    ensures |s| == if |NatToString(n)| >= 6 then |NatToString(n)| else 6
    ensures s[|s| - |NatToString(n)|..] == NatToString(n)
    ensures forall i :: 0 <= i < |s| - |NatToString(n)| ==> s[i] == '0'
  {
    var d := NatToString(n);
    if |d| >= 6 then d else seq(6 - |d|, _ => '0') + d
  }

  /** The error for a non-retry limiter error on an otherwise good response. */
  function RateLimitError(reqid: nat, verb: string, urlText: string, err: Err): (e: Err)
    ensures Unwrap(e).None? && !Is(e, err)
  {
    Formatted("api: [" + Pad6(reqid) + "] " + verb + " " + urlText + ": rate limit error: ", err, false)
  }

  /** Whether attempt `i`'s response is retried with backoff. */
  predicate StatusRetry(c: Client, i: nat, rsp: Response) {
    c.retry.Some? && i < MaxRetries && !IsSuccess(rsp.status) && rsp.status in c.retry.value
  }

  /**
   * Whether attempt `i` wants to wait and resend: the limiter demands a retry before
   * the last attempt, or (without such a demand) the status is one retried with backoff.
   */
  predicate WantsWait(c: Client, i: nat, a: Attempt) {
    && a.transport.Success?
    && if c.limiter.Some? && a.update.RetryAfter? then i < MaxRetries else StatusRetry(c, i, a.transport.value)
  }

  /**
   * The decision attempt `i` takes (the body of the `retries` loop). It waits exactly
   * when it wants to and the context is not done during the wait; a canceled wait
   * returns `context.Canceled`. A limiter wait lasts the limiter's delay, a backoff
   * the backoff delay of attempt `i`.
   */
  function Decide(c: Client, i: nat, a: Attempt, reqid: nat, verb: string, urlText: string, lib: Library): (s: Step)
    ensures s.Again? <==> WantsWait(c, i, a) && !a.canceled
    ensures s.Again? ==> i < MaxRetries
    ensures WantsWait(c, i, a) && a.canceled ==> s == Done(Failure(Canceled))
    ensures s.Again? && s.wait.LimiterWait? ==>
              c.limiter.Some? && a.update.RetryAfter? && s.wait.delay == a.update.delay
    ensures s.Again? && s.wait.Backoff? ==>
              !(c.limiter.Some? && a.update.RetryAfter?) && StatusRetry(c, i, a.transport.value)
              && s.wait.delay == BackoffDelay(c.backoff, i)
  {
    match a.transport
    case Failure(e) => Done(Failure(e))
    case Success(rsp) =>
      var rl := if c.limiter.Some? then a.update else Updated;
      if rl.RetryAfter? && i >= MaxRetries then Done(Failure(rl.err))
      else if rl.RetryAfter? then
        if a.canceled then Done(Failure(Canceled)) else Again(LimiterWait(rl.delay))
      else if StatusRetry(c, i, rsp) then
        if a.canceled then Done(Failure(Canceled)) else Again(Backoff(BackoffDelay(c.backoff, i)))
      else if !IsSuccess(rsp.status) then Done(Failure(Api(CheckErrRecord(reqid, verb, urlText, rsp, lib))))
      else if rl.UpdateFailed? then Done(Failure(RateLimitError(reqid, verb, urlText, rl.err)))
      else Done(Success(rsp))
  }

  /**
   * The retry loop from attempt `i` on. Every retry is an attempt whose request went
   * through and whose wait was not canceled; the loop ends by attempt 3, and the
   * backoff before attempt `i + j + 1` is the backoff delay of attempt `i + j`.
   */
  function Loop(c: Client, i: nat, env: nat -> Attempt, reqid: nat, verb: string, urlText: string, lib: Library): (r: Run)
    requires i <= MaxRetries
    ensures |r.waits| <= MaxRetries - i
    ensures forall j :: i <= j < i + |r.waits| ==> env(j).transport.Success? && !env(j).canceled
    ensures forall j :: 0 <= j < |r.waits| && r.waits[j].Backoff? ==>
              r.waits[j].delay == BackoffDelay(c.backoff, i + j) && c.retry.Some?
    decreases MaxRetries - i
  {
    match Decide(c, i, env(i), reqid, verb, urlText, lib)
    case Done(res) => Run(res, [])
    case Again(w) =>
      var rest := Loop(c, i + 1, env, reqid, verb, urlText, lib);
      Run(rest.result, [w] + rest.waits)
  }

  /**
   * A run is the sequence of decisions of its attempts: attempt `i + j` waits with the
   * run's `j`-th wait, and the attempt after the last wait ends the run with its result.
   */
  lemma LoopDecisions(c: Client, i: nat, env: nat -> Attempt, reqid: nat, verb: string, urlText: string, lib: Library)
    requires i <= MaxRetries
    ensures var r := Loop(c, i, env, reqid, verb, urlText, lib);
            && (forall j :: 0 <= j < |r.waits| ==> Decide(c, i + j, env(i + j), reqid, verb, urlText, lib) == Again(r.waits[j]))
            && Decide(c, i + |r.waits|, env(i + |r.waits|), reqid, verb, urlText, lib) == Done(r.result)
  {
    LoopWaitsDecided(c, i, env, reqid, verb, urlText, lib);
    LoopEndDecided(c, i, env, reqid, verb, urlText, lib);
  }

  /** Attempt `i + j` of a run waits with the run's `j`-th wait. */
  lemma {:induction false} LoopWaitsDecided(c: Client, i: nat, env: nat -> Attempt, reqid: nat, verb: string, urlText: string, lib: Library)
    requires i <= MaxRetries
    ensures var r := Loop(c, i, env, reqid, verb, urlText, lib);
            forall j :: 0 <= j < |r.waits| ==> Decide(c, i + j, env(i + j), reqid, verb, urlText, lib) == Again(r.waits[j])
    decreases MaxRetries - i
  {
    var r := Loop(c, i, env, reqid, verb, urlText, lib);
    var d := Decide(c, i, env(i), reqid, verb, urlText, lib);
    if d.Again? {
      LoopWaitsDecided(c, i + 1, env, reqid, verb, urlText, lib);
      var rest := Loop(c, i + 1, env, reqid, verb, urlText, lib);
      WaitsShift(c, i, env, reqid, verb, urlText, lib, d.wait, rest.waits);
      assert r.waits == [d.wait] + rest.waits;
    }
  }

  /** One more wait in front: attempt `i` waits with `w`, and the attempts after it with `ws`. */
  lemma WaitsShift(c: Client, i: nat, env: nat -> Attempt, reqid: nat, verb: string, urlText: string, lib: Library, w: Wait, ws: seq<Wait>)
    requires Decide(c, i, env(i), reqid, verb, urlText, lib) == Again(w)
    requires forall j :: 0 <= j < |ws| ==> Decide(c, i + 1 + j, env(i + 1 + j), reqid, verb, urlText, lib) == Again(ws[j])
    ensures forall j :: 0 <= j < |[w] + ws| ==> Decide(c, i + j, env(i + j), reqid, verb, urlText, lib) == Again(([w] + ws)[j])
  {
    forall j | 0 <= j < |[w] + ws|
      ensures Decide(c, i + j, env(i + j), reqid, verb, urlText, lib) == Again(([w] + ws)[j])
    {
      if j > 0 {
        assert ([w] + ws)[j] == ws[j - 1];
        assert i + j == i + 1 + (j - 1);
      }
    }
  }

  /** The attempt after the last wait of a run ends it with the run's result. */
  lemma {:induction false} LoopEndDecided(c: Client, i: nat, env: nat -> Attempt, reqid: nat, verb: string, urlText: string, lib: Library)
    requires i <= MaxRetries
    ensures var r := Loop(c, i, env, reqid, verb, urlText, lib);
            Decide(c, i + |r.waits|, env(i + |r.waits|), reqid, verb, urlText, lib) == Done(r.result)
    decreases MaxRetries - i
  {
    var d := Decide(c, i, env(i), reqid, verb, urlText, lib);
    if d.Again? {
      LoopEndDecided(c, i + 1, env, reqid, verb, urlText, lib);
      var rest := Loop(c, i + 1, env, reqid, verb, urlText, lib);
      assert Loop(c, i, env, reqid, verb, urlText, lib) == Run(rest.result, [d.wait] + rest.waits);
    }
  }

  /**
   * When the context is done during a wait the attempt wanted, the run ends there with
   * `context.Canceled`: that attempt is the last one sent.
   */
  lemma CanceledWaitEndsRun(c: Client, i: nat, env: nat -> Attempt, reqid: nat, verb: string, urlText: string, lib: Library, k: nat)
    requires i <= k <= MaxRetries
    requires WantsWait(c, k, env(k)) && env(k).canceled
    requires forall j :: i <= j < k ==> WantsWait(c, j, env(j)) && !env(j).canceled
    ensures var r := Loop(c, i, env, reqid, verb, urlText, lib);
            r.result == Failure(Canceled) && i + |r.waits| == k
  {
    LoopDecisions(c, i, env, reqid, verb, urlText, lib);
  }

  /**
   * The retry loop of `RoundTrip` (attempts from 0). `calls` counts the requests sent;
   * every attempt sends exactly one.
   */
  method RetryLoop(c: Client, req: Request, reqid: nat, env: nat -> Attempt, lib: Library)
    returns (result: Result<Response, Err>, ghost waits: seq<Wait>, ghost calls: nat)
    ensures result == Loop(c, 0, env, reqid, req.verb, lib.urlString(req.url), lib).result
    ensures Run(result, waits) == Loop(c, 0, env, reqid, req.verb, lib.urlString(req.url), lib)
    ensures calls == |waits| + 1
  {
    var i := 0;
    waits := [];
    calls := 0;
    var urlText := lib.urlString(req.url);
    while true
      invariant 0 <= i <= MaxRetries && |waits| == i && calls == i
      invariant Loop(c, 0, env, reqid, req.verb, urlText, lib)
                == var rest := Loop(c, i, env, reqid, req.verb, urlText, lib); Run(rest.result, waits + rest.waits)
      decreases MaxRetries - i
    {
      calls := calls + 1;
      var step := TryOnce(c, i, env(i), reqid, req, urlText, lib);
      match step
      case Done(res) =>
        assert waits + [] == waits;
        return res, waits, calls;
      case Again(w) =>
        AppendAssociative(waits, [w], Loop(c, i + 1, env, reqid, req.verb, urlText, lib).waits);
        waits := waits + [w];
        i := i + 1;
    }
  }

  /**
   * One pass of the `retries` loop: attempt `i`, whose request had the outcome `a`,
   * either ends the loop with a result or waits and tries again.
   */
  method TryOnce(c: Client, i: nat, a: Attempt, reqid: nat, req: Request, urlText: string, lib: Library)
    returns (step: Step)
    requires urlText == lib.urlString(req.url)
    ensures step == Decide(c, i, a, reqid, req.verb, urlText, lib)
  {
    if a.transport.Failure? {
      return Done(a.transport);
    }
    var tsp := a.transport.value;
    var rlerr := Updated;
    if c.limiter.Some? {
      rlerr := a.update;
      if rlerr.RetryAfter? {
        if i >= MaxRetries {
          return Done(Failure(rlerr.err));
        }
        if a.canceled {
          return Done(Failure(Canceled));
        }
        return Again(LimiterWait(rlerr.delay));
      }
    }
    if c.retry.Some? && i < MaxRetries && !IsSuccess(tsp.status) {
      if tsp.status in c.retry.value {
        var delay := BackoffDelay(c.backoff, i);
        if a.canceled {
          return Done(Failure(Canceled));
        }
        return Again(Backoff(delay));
      }
    }
    var err := CheckErr(reqid, req, tsp, lib);
    if err.Some? {
      return Done(Failure(Api(err.value.Snapshot())));
    }
    if rlerr.UpdateFailed? {
      return Done(Failure(RateLimitError(reqid, req.verb, urlText, rlerr.err)));
    }
    return Done(Success(tsp));
  }

  /** The outcome of the rate-limit gate: an error stops the request before it is sent. */
  function GateError(c: Client, g: Gate): (e: Option<Err>)
    ensures c.limiter.None? ==> e.None?
    ensures e.Some? && g.next.Failure? ==> Unwrap(e.value) == Some(g.next.error)
    ensures e == Some(Canceled) <==> c.limiter.Some? && g.next.Success? && g.next.value > 0 && g.canceled
  {
    if c.limiter.None? then None
    else
      match g.next
      case Failure(err) => Some(Formatted("Could not compute next rate-limited request window: ", err, true))
      case Success(delay) => if delay > 0 && g.canceled then Some(Canceled) else None
  }

  /** The error returned when the authorizer fails. */
  function AuthError(e: Err): Err {
    Redacted(Formatted("Could not authorize request: ", e, false), ErrCouldNotAuthorize)
  }

  /** The authorization error `RoundTrip` meets: only an OAuth token source can fail. */
  function AuthFailure(c: Client, token: Result<string, Err>): (e: Option<Err>)
    ensures e.Some? <==> c.auth.Some? && c.auth.value.OAuthAuthorizer? && token.Failure?
  {
    if c.auth.Some? && c.auth.value.OAuthAuthorizer? && token.Failure? then Some(token.error) else None
  }

  /** Whether `RoundTrip` traces the bodies of `req`: debug and verbose, and the filter matches. */
  predicate TracesBodies(d: Debug, req: Request, lib: Library)
    reads req
  {
    d.debug && d.verbose && Matches(d, req, lib)
  }

  /**
   * The first half of `RoundTrip`: resolves the URL against the base, authorizes, and
   * adds the default headers unless authorization failed. `authorized` is the header
   * the authorizer left.
   */
  method Prepare(c: Client, req: Request, token: Result<string, Err>, lib: Library)
    returns (err: Option<Err>, ghost authorized: Header)
    modifies req
    ensures err == AuthFailure(c, token)
    ensures req.verb == old(req.verb)
    ensures var resolved := if c.base.Some? then lib.resolve(c.base.value, old(req.url)) else old(req.url);
            if c.auth.Some?
            then Authorized(c.auth.value, token, resolved, old(req.header), req.url, authorized, err)
            else req.url == resolved && authorized == old(req.header)
    ensures err.Some? ==> req.header == authorized
    ensures err.None? ==> if c.header.Some? then Merged(c.header.value, authorized, req.header) else req.header == authorized
  {
    if c.base.Some? {
      req.url := lib.resolve(c.base.value, req.url);
    }
    err := None;
    if c.auth.Some? {
      err := Authorize(c.auth.value, req, token);
    }
    authorized := req.header;
    if err.Some? {
      return;
    }
    if c.header.Some? {
      MergeDefaultHeaders(c.header.value, req);
    }
  }

  /**
   * The second half of `RoundTrip`, on the prepared request: the rate-limit gate, the
   * trace of the request body, the retry loop and the trace of the response body.
   * `sent` counts the requests handed to the transport.
   */
  method Send(c: Client, req: Request, reqid: nat, o: Environment, lib: Library)
    returns (result: Result<Response, Err>, ghost sent: nat)
    ensures GateError(c, o.gate).Some? ==> result == Failure(GateError(c, o.gate).value) && sent == 0
    ensures GateError(c, o.gate).None? && TracesBodies(c.debug, req, lib) && o.reqBody.Some? ==>
              result == Failure(o.reqBody.value) && sent == 0
    ensures GateError(c, o.gate).None? && !(TracesBodies(c.debug, req, lib) && o.reqBody.Some?) ==>
              var run := Loop(c, 0, o.attempts, reqid, req.verb, lib.urlString(req.url), lib);
              && sent == |run.waits| + 1
              && result == if run.result.Success? && TracesBodies(c.debug, req, lib) && o.rspBody.Some?
                           then Failure(o.rspBody.value) else run.result
    ensures sent <= MaxRetries + 1
    ensures result.Success? ==> sent >= 1 && IsSuccess(result.value.status)
  {
    sent := 0;
    var gate := GateError(c, o.gate);
    if gate.Some? {
      return Failure(gate.value), sent;
    }
    var matches := Matches(c.debug, req, lib);
    var isDebug := c.debug.debug && matches;
    var isVerbose := c.debug.verbose && matches;
    if isDebug && isVerbose && o.reqBody.Some? {
      return Failure(o.reqBody.value), sent;
    }
    ghost var waits;
    result, waits, sent := RetryLoop(c, req, reqid, o.attempts, lib);
    SuccessOnlyIf2xx(c, 0, o.attempts, reqid, req.verb, lib.urlString(req.url), lib);
    if result.Success? && isDebug && isVerbose && o.rspBody.Some? {
      result := Failure(o.rspBody.value);
    }
  }

  /**
   * `RoundTrip`: `Prepare`, then, unless authorization failed, `Send`. A failed
   * authorization is wrapped and nothing is sent.
   */
  method RoundTrip(c: Client, req: Request, reqid: nat, o: Environment, lib: Library)
    returns (result: Result<Response, Err>, ghost sent: nat, ghost authorized: Header)
    modifies req
    ensures req.verb == old(req.verb)
    ensures var resolved := if c.base.Some? then lib.resolve(c.base.value, old(req.url)) else old(req.url);
            if c.auth.Some?
            then Authorized(c.auth.value, o.token, resolved, old(req.header), req.url, authorized, AuthFailure(c, o.token))
            else req.url == resolved && authorized == old(req.header)
    ensures AuthFailure(c, o.token).Some? ==>
              result == Failure(AuthError(o.token.error)) && sent == 0 && req.header == authorized
    ensures AuthFailure(c, o.token).None? ==>
              if c.header.Some? then Merged(c.header.value, authorized, req.header) else req.header == authorized
    ensures AuthFailure(c, o.token).None? && GateError(c, o.gate).Some? ==>
              result == Failure(GateError(c, o.gate).value) && sent == 0
    ensures AuthFailure(c, o.token).None? && GateError(c, o.gate).None? && TracesBodies(c.debug, req, lib) && o.reqBody.Some? ==>
              result == Failure(o.reqBody.value) && sent == 0
    ensures AuthFailure(c, o.token).None? && GateError(c, o.gate).None? && !(TracesBodies(c.debug, req, lib) && o.reqBody.Some?) ==>
              var run := Loop(c, 0, o.attempts, reqid, req.verb, lib.urlString(req.url), lib);
              && sent == |run.waits| + 1
              && result == if run.result.Success? && TracesBodies(c.debug, req, lib) && o.rspBody.Some?
                           then Failure(o.rspBody.value) else run.result
    ensures sent <= MaxRetries + 1
    ensures result.Success? ==> sent >= 1 && IsSuccess(result.value.status)
  {
    var err;
    err, authorized := Prepare(c, req, o.token, lib);
    if err.Some? {
      return Failure(AuthError(err.value)), 0, authorized;
    }
    result, sent := Send(c, req, reqid, o, lib);
  }

  /** A transport error ends the loop at once: no attempt before it failed to send, and it is returned. */
  lemma TransportErrorReturned(c: Client, env: nat -> Attempt, reqid: nat, verb: string, urlText: string, lib: Library, i: nat)
    requires i <= MaxRetries && env(i).transport.Failure?
    ensures Loop(c, i, env, reqid, verb, urlText, lib) == Run(env(i).transport, [])
  {
  }

  /**
   * A response is returned only from the last attempt, only if it is 2xx, and only
   * if the limiter (when there is one) reported no error for it.
   */
  lemma SuccessOnlyIf2xx(c: Client, i: nat, env: nat -> Attempt, reqid: nat, verb: string, urlText: string, lib: Library)
    requires i <= MaxRetries
    ensures var r := Loop(c, i, env, reqid, verb, urlText, lib);
            var last := env(i + |r.waits|);
            r.result.Success? ==>
              last.transport == r.result && IsSuccess(r.result.value.status)
              && (c.limiter.Some? ==> last.update.Updated?)
  {
    LoopDecisions(c, i, env, reqid, verb, urlText, lib);
    var r := Loop(c, i, env, reqid, verb, urlText, lib);
    DoneSuccess(c, i + |r.waits|, env(i + |r.waits|), reqid, verb, urlText, lib);
  }

  /** An attempt that ends the loop with a response got that 2xx response, and no limiter error. */
  lemma DoneSuccess(c: Client, i: nat, a: Attempt, reqid: nat, verb: string, urlText: string, lib: Library)
    ensures var d := Decide(c, i, a, reqid, verb, urlText, lib);
            d.Done? && d.result.Success? ==>
              a.transport == d.result && IsSuccess(d.result.value.status)
              && (c.limiter.Some? ==> a.update.Updated?)
  {
  }

  /**
   * On a non-2xx response that is not retried, the status error is returned even
   * when the limiter also reported a (non-retry) error: status errors take precedence.
   */
  lemma StatusErrorFirst(c: Client, i: nat, a: Attempt, reqid: nat, verb: string, urlText: string, lib: Library)
    requires a.transport.Success? && !IsSuccess(a.transport.value.status)
    requires !(c.limiter.Some? && a.update.RetryAfter?) && !StatusRetry(c, i, a.transport.value)
    ensures Decide(c, i, a, reqid, verb, urlText, lib)
            == Done(Failure(Api(CheckErrRecord(reqid, verb, urlText, a.transport.value, lib))))
  {
  }

  /** A forced retry at the last attempt returns the limiter's error itself. */
  lemma RetryErrorAtLimit(c: Client, a: Attempt, reqid: nat, verb: string, urlText: string, lib: Library)
    requires c.limiter.Some? && a.transport.Success? && a.update.RetryAfter?
    ensures Decide(c, MaxRetries, a, reqid, verb, urlText, lib) == Done(Failure(a.update.err))
  {
  }

  /** Clients made by `WithBase` or `WithAuthorizer` never wait for a status-driven backoff. */
  lemma DerivedClientsNeverBackoff(c: Client, b: Option<Url>, a: Option<Authorizer>, env: nat -> Attempt,
                                   reqid: nat, verb: string, urlText: string, lib: Library)
    ensures forall w :: w in Loop(WithBase(c, b), 0, env, reqid, verb, urlText, lib).waits ==> w.LimiterWait?
    ensures forall w :: w in Loop(WithAuthorizer(c, a), 0, env, reqid, verb, urlText, lib).waits ==> w.LimiterWait?
  {
  }
}
