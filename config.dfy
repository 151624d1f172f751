/**
 * v1/config.go: the debug settings, the client configuration and the options
 * that rewrite it. An option is a value of `ConfigOption`; `Applied` says what
 * the Go closure does to a configuration, and `With` folds a list of options
 * from left to right. Environment variables are passed in as an `Env` value.
 */
module ApiConfig {
  import opened Wrappers
  import opened GoHeader
  import opened GoHttp
  import opened ApiErrors
  import opened ApiAuth
  import Events

  /** A rate limiter (`ratelimit.Limiter`); its behaviour is supplied where it is consulted. */
  datatype Limiter = Limiter(name: string)

  /** `Debug`: the tracing switches and the optional URL-path filter. */
  datatype Debug = Debug(debug: bool, verbose: bool, filterUrl: Option<Pattern>)

  /** The values of `DEBUG_API_CLIENT`, `VERBOSE_API_CLIENT` and `DEBUG_API_CLIENT_FILTER`. */
  datatype Env = Env(debug: string, verbose: string, filter: string)

  /** `Debug.Matches`: true without a filter; otherwise whether the filter matches the URL path. */
  function Matches(d: Debug, req: Request, lib: Library): (r: bool)
    reads req
    ensures d.filterUrl.None? ==> r
    ensures d.filterUrl.Some? ==> (r <==> lib.matchString(d.filterUrl.value, req.url.path))
  {
    match d.filterUrl
    case None => true
    case Some(f) => lib.matchString(f, req.url.path)
  }

  /**
   * `Debug.WithEnv`: switches debugging on when the environment asks for it, makes
   * debugging imply verbosity, and replaces the filter by the compiled environment
   * pattern when there is one. On a compile error the settings computed so far are
   * returned together with the error.
   */
  function WithEnv(d: Debug, env: Env, lib: Library): (r: (Debug, Option<Err>))
    ensures r.0.debug == (d.debug || env.debug != "")
    ensures r.0.verbose == (r.0.debug || d.verbose || env.verbose != "")
    ensures r.0.debug ==> r.0.verbose
    ensures env.filter == "" ==> r.0.filterUrl == d.filterUrl && r.1.None?
    ensures env.filter != "" ==> (r.1.None? <==> lib.compile(env.filter).Success?)
    ensures r.1.Some? ==> r.0.filterUrl == d.filterUrl && r.1.value == Text(lib.compile(env.filter).error)
    ensures env.filter != "" && r.1.None? ==> r.0.filterUrl == Some(lib.compile(env.filter).value)
  {
    var dbg := d.debug || env.debug != "";
    var e := d.(debug := dbg, verbose := dbg || d.verbose || env.verbose != "");
    if env.filter == "" then (e, None)
    else
      match lib.compile(env.filter)
      case Failure(msg) => (e, Some(Text(msg)))
      case Success(m) => (e.(filterUrl := Some(m)), None)
  }

  /** Applying the environment twice gives the settings of applying it once. */
  lemma WithEnvIdempotent(d: Debug, env: Env, lib: Library)
    requires WithEnv(d, env, lib).1.None?
    ensures WithEnv(WithEnv(d, env, lib).0, env, lib) == WithEnv(d, env, lib)
  {
  }

  /** `Config`; durations are in nanoseconds; a nil map or reference is `None` or `null`. */
  datatype Config = Config(
    baseUrl: string,
    timeout: int,
    client: Option<HttpClient>,
    authorizer: Option<Authorizer>,
    observers: Events.Observers?,
    rateLimiter: Option<Limiter>,
    retryStatus: seq<int>,
    retryDelay: int,
    header: Option<Header>,
    contentType: string,
    verbose: bool,
    debug: bool)

  /** The zero `Config{}`. */
  const Zero := Config("", 0, None, None, null, None, [], 0, None, "", false, false)

  /** The `Option` constructors of v1/config.go; a nil authorizer or limiter is `None`. */
  datatype ConfigOption =
    | WithAuthorizer(auth: Option<Authorizer>)
    | WithObservers(obs: Events.Observers?)
    | WithBaseURL(base: string)
    | WithHeader(key: string, val: string)
    | WithHeaders(hdr: Header)
    | WithDebug(on: bool)
    | WithRateLimiter(limiter: Option<Limiter>)
    | WithRetryStatus(statuses: seq<int>)
    | WithRetryDelay(delay: int)

  /** The configuration fields an option writes. */
  datatype Field = AuthorizerField | ObserversField | BaseUrlField | HeaderField | DebugFields
                 | LimiterField | RetryStatusField | RetryDelayField

  function FieldOf(o: ConfigOption): Field {
    match o
    case WithAuthorizer(_) => AuthorizerField
    case WithObservers(_) => ObserversField
    case WithBaseURL(_) => BaseUrlField
    case WithHeader(_, _) => HeaderField
    case WithHeaders(_) => HeaderField
    case WithDebug(_) => DebugFields
    case WithRateLimiter(_) => LimiterField
    case WithRetryStatus(_) => RetryStatusField
    case WithRetryDelay(_) => RetryDelayField
  }

  /** What the option's closure returns for configuration `c`. */
  function Applied(c: Config, o: ConfigOption): Config {
    match o
    case WithAuthorizer(a) => c.(authorizer := a)
    case WithObservers(obs) => c.(observers := obs)
    case WithBaseURL(b) => c.(baseUrl := b)
    case WithHeader(k, v) => c.(header := Some(Set(if c.header.None? then map[] else c.header.value, k, v)))
    case WithHeaders(h) => c.(header := Some(if c.header.None? then h else c.header.value + h))
    case WithDebug(on) => c.(debug := on, verbose := on)
    case WithRateLimiter(l) => c.(rateLimiter := l)
    case WithRetryStatus(s) => c.(retryStatus := s)
    case WithRetryDelay(d) => c.(retryDelay := d)
  }

  /**
   * The `c.Header[k] = v` loop of `WithHeaders` (and of the multiplexer's
   * `WithHeaders`): every key of `src` is overwritten, every other key of `dst` kept.
   */
  method Overwrite<V>(dst: map<string, V>, src: map<string, V>) returns (r: map<string, V>)
    ensures r == dst + src
  {
    r := dst;
    var left := src.Keys;
    while left != {}
      invariant left <= src.Keys
      invariant forall k :: k in r <==> k in dst || (k in src && k !in left)
      invariant forall k :: k in r ==> r[k] == if k in src && k !in left then src[k] else dst[k]
      decreases left
    {
      var k :| k in left;
      r := r[k := src[k]];
      left := left - {k};
    }
  }

  /** Runs one option's closure on `c`. */
  method Apply(c: Config, o: ConfigOption) returns (r: Config)
    ensures r == Applied(c, o)
  {
    match o {
      case WithHeaders(h) =>
        if c.header.None? {
          r := c.(header := Some(h));
        } else {
          var merged := Overwrite(c.header.value, h);
          r := c.(header := Some(merged));
        }
      case _ =>
        r := Applied(c, o);
    }
  }

  /** The options applied from left to right. */
  function Fold(c: Config, opts: seq<ConfigOption>): Config {
    if opts == [] then c else Applied(Fold(c, opts[..|opts| - 1]), opts[|opts| - 1])
  }

  /** `Config.With`: applies the options in order, each to the result of the previous one. */
  method With(c: Config, opts: seq<ConfigOption>) returns (r: Config)
    ensures r == Fold(c, opts)
  {
    r := c;
    var i := 0;
    while i < |opts|
      invariant 0 <= i <= |opts|
      invariant r == Fold(c, opts[..i])
    {
      assert opts[..i + 1][..i] == opts[..i];
      r := Apply(r, opts[i]);
      i := i + 1;
    }
    assert opts[..i] == opts;
  }

  /** `Config.WithOptions`: the same fold as `With`. */
  method WithOptions(c: Config, opts: seq<ConfigOption>) returns (r: Config)
    ensures r == Fold(c, opts)
  {
    r := With(c, opts);
  }

  /** Folding two lists of options is folding the first, then the second. */
  lemma {:induction false} FoldAppend(c: Config, a: seq<ConfigOption>, b: seq<ConfigOption>)
    ensures Fold(c, a + b) == Fold(Fold(c, a), b)
    decreases |b|
  {
    if b == [] {
      assert a + b == a;
    } else {
      assert (a + b)[..|a + b| - 1] == a + b[..|b| - 1];
      FoldAppend(c, a, b[..|b| - 1]);
    }
  }

  /** Options writing different fields commute: each option changes only its own fields. */
  lemma OptionsCommute(c: Config, o1: ConfigOption, o2: ConfigOption)
    requires FieldOf(o1) != FieldOf(o2)
    ensures Applied(Applied(c, o1), o2) == Applied(Applied(c, o2), o1)
  {
  }

  /**
   * A later option overrides an earlier one writing the same field; the two header
   * options are the exception, since they merge into the existing header.
   */
  lemma LaterOverrides(c: Config, opts: seq<ConfigOption>, o1: ConfigOption, o2: ConfigOption)
    requires FieldOf(o1) == FieldOf(o2) && FieldOf(o2) != HeaderField
    ensures Fold(c, opts + [o1, o2]) == Fold(c, opts + [o2])
  {
    FoldAppend(c, opts, [o1, o2]);
    FoldAppend(c, opts, [o2]);
    assert [o1, o2][..1] == [o1];
  }

  /**
   * `WithHeader(k, v)` leaves exactly `v` under the canonical name of `k` and keeps
   * every other name's values.
   */
  lemma WithHeaderSets(c: Config, k: string, v: string, n: string)
    ensures var h := Applied(c, WithHeader(k, v)).header;
            h.Some? && Values(h.value, CanonicalHeaderKey(k)) == [v] && Get(h.value, k) == v
            && (n != CanonicalHeaderKey(k) && c.header.Some? ==> Values(h.value, n) == Values(c.header.value, n))
  {
  }

  /**
   * `WithHeaders(h)` on a configuration without a header adopts `h`; otherwise every
   * key of `h` gets the values of `h` and every other key keeps its values.
   */
  lemma WithHeadersMerges(c: Config, h: Header, n: string)
    ensures var r := Applied(c, WithHeaders(h)).header;
            r.Some?
            && (c.header.None? ==> r.value == h)
            && (n in h ==> n in r.value && r.value[n] == h[n])
            && (c.header.Some? && n !in h ==> Values(r.value, n) == Values(c.header.value, n))
  {
  }
}
