/**
 * v1/multiplex/multiplex.go: the sequential parts of the multiplexer. The worker
 * pool, the result channel and the scheduler are not modelled: what the outside
 * world does (the dispatcher accepting a unit, the context ending, the order in
 * which results arrive) is supplied as values, and results may arrive in any order.
 */
module Multiplex {
  import opened Wrappers
  import opened GoHeader
  import opened GoHttp
  import opened ApiErrors
  import opened ApiAuth
  import ApiConfig
  import ApiClient

  /** A multiplexer error handler; what it does with an error is supplied as a function. */
  datatype ErrorHandler = ErrorHandler(id: nat)

  /** What a handler returns for a failed request: a replacement response, and the error left. */
  type Handle = (ErrorHandler, Err) -> (Option<Response>, Option<Err>)

  /** `Config`: a nil map is `None`. */
  datatype Config = Config(errors: Option<ErrorHandler>, headers: Option<map<string, string>>, verbose: bool, debug: bool)

  const Zero := Config(None, None, false, false)

  /** The `Option` constructors of the multiplexer. */
  datatype MuxOption = WithErrorHandler(handler: ErrorHandler) | WithHeaders(headers: map<string, string>)

  /** What the option's closure returns for configuration `c`. */
  function Applied(c: Config, o: MuxOption): Config {
    match o
    case WithErrorHandler(h) => c.(errors := Some(h))
    case WithHeaders(h) => c.(headers := Some(if c.headers.None? then h else c.headers.value + h))
  }

  /** Runs one option's closure: `WithHeaders` copies each key into the (possibly new) map. */
  method Apply(c: Config, o: MuxOption) returns (r: Config)
    ensures r == Applied(c, o)
  {
    match o {
      case WithErrorHandler(h) =>
        r := c.(errors := Some(h));
      case WithHeaders(h) =>
        var dst: map<string, string> := if c.headers.None? then map[] else c.headers.value;
        var merged := ApiConfig.Overwrite(dst, h);
        assert c.headers.None? ==> map[] + h == h;
        r := c.(headers := Some(merged));
    }
  }

  /** The options applied from left to right. */
  function Fold(c: Config, opts: seq<MuxOption>): Config {
    if opts == [] then c else Applied(Fold(c, opts[..|opts| - 1]), opts[|opts| - 1])
  }

  /** `Config.WithOptions`. */
  method WithOptions(c: Config, opts: seq<MuxOption>) returns (r: Config)
    ensures r == Fold(c, opts)
  {
    r := c;
    var i := 0;
    while i < |opts|
      invariant 0 <= i <= |opts|
      invariant r == Fold(c, opts[..i])
    {
      assert opts[..i + 1][..i] == opts[..i];
      r := Apply(r, opts[i]);
      i := i + 1;
    }
    assert opts[..i] == opts;
  }

  /**
   * Two `WithHeaders` options in a row: the result holds every key of both, and the
   * later option's value wins for a key in both.
   */
  lemma LaterHeadersOverwrite(c: Config, opts: seq<MuxOption>, h1: map<string, string>, h2: map<string, string>, k: string)
    ensures var r := Fold(c, opts + [WithHeaders(h1), WithHeaders(h2)]).headers;
            r.Some?
            && (k in h2 ==> k in r.value && r.value[k] == h2[k])
            && (k in h1 && k !in h2 ==> k in r.value && r.value[k] == h1[k])
            && (k in r.value ==> k in h1 || k in h2 || (Fold(c, opts).headers.Some? && k in Fold(c, opts).headers.value))
  {
    var s := opts + [WithHeaders(h1), WithHeaders(h2)];
    assert s[..|s| - 1] == opts + [WithHeaders(h1)];
    assert (opts + [WithHeaders(h1)])[..|opts|] == opts;
  }

  /** The last `WithErrorHandler` option decides the handler. */
  lemma {:induction false} LastHandlerWins(c: Config, opts: seq<MuxOption>, h: ErrorHandler, rest: seq<MuxOption>)
    requires forall i :: 0 <= i < |rest| ==> rest[i].WithHeaders?
    ensures Fold(c, opts + [WithErrorHandler(h)] + rest).errors == Some(h)
    decreases |rest|
  {
    var s := opts + [WithErrorHandler(h)] + rest;
    if rest == [] {
      assert s[..|s| - 1] == opts;
    } else {
      assert s[..|s| - 1] == opts + [WithErrorHandler(h)] + rest[..|rest| - 1];
      LastHandlerWins(c, opts, h, rest[..|rest| - 1]);
    }
  }

  /** The configured headers as a header map with one value per key. */
  function Lift(h: map<string, string>): (r: Header)
    ensures forall k :: k in r <==> k in h
    ensures forall k :: k in h ==> r[k] == [h[k]]
  {
    map k | k in h :: [h[k]]
  }

  /** No other key of `h` shares `k`'s canonical name. */
  predicate UniqueCanonical(h: map<string, string>, k: string) {
    forall k' :: k' in h && CanonicalHeaderKey(k') == CanonicalHeaderKey(k) ==> k' == k
  }

  /**
   * `Config.ConfigureRequest`: `req.Header.Set(k, v)` for every configured header,
   * visiting the keys in Go's unspecified map order (returned as `order`).
   */
  method ConfigureRequest(c: Config, req: Request) returns (ghost order: seq<string>)
    modifies req
    ensures req.verb == old(req.verb) && req.url == old(req.url)
    ensures c.headers.None? ==> req.header == old(req.header) && order == []
    ensures c.headers.Some? ==>
              && |order| == |c.headers.value| && (forall k :: k in c.headers.value <==> k in order)
              && (forall i :: 0 <= i < |order| ==> order[i] in Lift(c.headers.value))
              && req.header == SetFirsts(old(req.header), Lift(c.headers.value), order)
  {
    order := [];
    if c.headers.None? {
      return;
    }
    var h := c.headers.value;
    var left := h.Keys;
    while left != {}
      invariant left <= h.Keys
      invariant forall i :: 0 <= i < |order| ==> order[i] in h && order[i] !in left
      invariant forall k :: k in h ==> k in left || k in order
      invariant |order| + |left| == |h|
      invariant req.verb == old(req.verb) && req.url == old(req.url)
      invariant req.header == SetFirsts(old(req.header), Lift(h), order)
      decreases left
    {
      var k :| k in left;
      SetFirstsLifted(old(req.header), h, order, k);
      req.header := Set(req.header, k, h[k]);
      order := order + [k];
      left := left - {k};
    }
  }

  /** Setting one more configured key extends the `SetFirsts` of the keys set so far. */
  lemma SetFirstsLifted(hdr: Header, h: map<string, string>, order: seq<string>, k: string)
    requires k in h && forall i :: 0 <= i < |order| ==> order[i] in h
    ensures forall i :: 0 <= i < |order + [k]| ==> (order + [k])[i] in Lift(h)
    ensures SetFirsts(hdr, Lift(h), order + [k]) == Set(SetFirsts(hdr, Lift(h), order), k, h[k])
  {
    assert (order + [k])[..|order|] == order;
  }

  /**
   * After `ConfigureRequest`, a name that no configured key canonicalises to keeps its
   * values, and the name of a configured key holds exactly one configured value: the
   * key's own value when no other key shares its canonical name.
   */
  lemma ConfiguredValues(hdr: Header, h: map<string, string>, order: seq<string>, k: string, n: string)
    requires forall i :: 0 <= i < |order| ==> order[i] in Lift(h)
    requires forall k :: k in h ==> k in order
    requires k in h
    ensures (forall k' :: k' in h ==> CanonicalHeaderKey(k') != n) ==>
              Values(SetFirsts(hdr, Lift(h), order), n) == Values(hdr, n)
    ensures exists k' :: k' in h && CanonicalHeaderKey(k') == CanonicalHeaderKey(k)
                         && Values(SetFirsts(hdr, Lift(h), order), CanonicalHeaderKey(k)) == [h[k']]
    ensures UniqueCanonical(h, k) ==> Values(SetFirsts(hdr, Lift(h), order), CanonicalHeaderKey(k)) == [h[k]]
  {
    var l := Lift(h);
    SetFirstsValues(hdr, l, order, n);
    SetFirstsValues(hdr, l, order, CanonicalHeaderKey(k));
    LastSetterSpec(l, order, n);
    LastSetterSpec(l, order, CanonicalHeaderKey(k));
    var j :| 0 <= j < |order| && order[j] == k;
    assert Sets(l, order[j], CanonicalHeaderKey(k));
    var i := LastSetter(l, order, CanonicalHeaderKey(k));
    assert Sets(l, order[i], CanonicalHeaderKey(k));
    if forall k' :: k' in h ==> CanonicalHeaderKey(k') != n {
      assert forall j :: 0 <= j < |order| ==> !Sets(l, order[j], n);
    }
  }

  /** A request producer: a fixed list of requests, or one URL per index with a fixed method. */
  datatype Producer =
    | Static(reqs: seq<Request?>)
    | Urls(verb: string, urls: seq<string>)

  /** `NewGet`. */
  function NewGet(urls: seq<string>): (p: Producer)
    ensures p.Urls? && p.verb == "GET" && p.urls == urls
  {
    Urls("GET", urls)
  }

  /** `NewDelete`. */
  function NewDelete(urls: seq<string>): (p: Producer)
    ensures p.Urls? && p.verb == "DELETE" && p.urls == urls
  {
    Urls("DELETE", urls)
  }

  /** The number of indices a producer can answer with a request. */
  function Length(p: Producer): nat {
    match p
    case Static(reqs) => |reqs|
    case Urls(_, urls) => |urls|
  }

  /** The requests a producer already holds (and the production loop may configure). */
  function Held(p: Producer): set<Request> {
    if p.Static? then set r: Request | r in p.reqs else {}
  }

  /**
   * `Request(i)`: the producer's request for index `i`; `null` with no error means the
   * producer is exhausted, which happens exactly from index `Length(p)` on.
   */
  method Produce(p: Producer, i: nat, lib: Library) returns (r: Result<Request?, Err>)
    ensures i >= Length(p) ==> r == Success(null)
    ensures p.Static? ==> r == Success(if i < |p.reqs| then p.reqs[i] else null)
    ensures p.Urls? && i < |p.urls| ==>
              match lib.parseUrl(p.urls[i])
              case Failure(msg) => r == Failure(Text(msg))
              case Success(u) => r.Success? && r.value != null && fresh(r.value)
                                 && r.value.verb == p.verb && r.value.url == u && r.value.header == map[]
  {
    match p {
      case Static(reqs) =>
        if i < |reqs| {
          r := Success(reqs[i]);
          if reqs[i] == null {
            // A nil element ends production as if the list were exhausted.
            return;
          }
        } else {
          r := Success(null);
        }
      case Urls(verb, urls) =>
        if i >= |urls| {
          return Success(null);
        }
        match lib.parseUrl(urls[i]) {
          case Failure(msg) => r := Failure(Text(msg));
          case Success(u) =>
            var req := new Request(verb, u, map[]);
            r := Success(req);
        }
    }
  }

  /** `Mux`. */
  datatype Mux = Mux(client: ApiClient.Client, concur: int, errors: Option<ErrorHandler>, verbose: bool, debug: bool)

  /** The values of `VERBOSE_API_MUX` and `DEBUG_API_MUX`. */
  datatype MuxEnv = MuxEnv(verbose: string, debug: string)

  /** `New`: the concurrency is `max(1, n)`; no handler is set. */
  function New(c: ApiClient.Client, n: int, env: MuxEnv): (m: Mux)
    ensures m.concur >= 1 && (n >= 1 ==> m.concur == n) && (n < 1 ==> m.concur == 1)
    ensures m.client == c && m.errors.None?
    ensures m.verbose == (env.verbose != "") && m.debug == (env.debug != "")
  {
    Mux(c, if n > 1 then n else 1, None, env.verbose != "", env.debug != "")
  }

  /** `Result`: a response and the index of the request it answers. */
  datatype ResultItem = ResultItem(index: nat, response: Response)

  /** What one unit hands to the result stream, and the error it returns. */
  datatype UnitOutcome = UnitOutcome(written: Option<ResultItem>, err: Option<Err>)

  /** `ext.Coalesce`: the first handler that is set. */
  function Coalesce(a: Option<ErrorHandler>, b: Option<ErrorHandler>): (r: Option<ErrorHandler>)
    ensures a.Some? ==> r == a
    ensures a.None? ==> r == b
  {
    if a.Some? then a else b
  }

  /**
   * The unit `block` builds for index `i`: `done` is what the client returned, and
   * `writeErr` what writing to the result stream returns.
   */
  function Block(conf: Config, mux: Mux, i: nat, done: Result<Response, Err>, handle: Handle, writeErr: Option<Err>): (u: UnitOutcome)
    ensures done.Success? ==> u == UnitOutcome(Some(ResultItem(i, done.value)), writeErr)
    ensures u.written.Some? ==> u.written.value.index == i && u.err == writeErr
    ensures done.Failure? && Coalesce(conf.errors, mux.errors).None? ==>
              u == UnitOutcome(None, Some(Formatted("Could not multiplex request: ", done.error, true)))
    ensures u.written.None? && u.err.Some? ==> done.Failure? && Unwrap(u.err.value).Some?
    ensures done.Failure? && Coalesce(conf.errors, mux.errors).Some? ==>
              var (rsp, err) := handle(Coalesce(conf.errors, mux.errors).value, done.error);
              && (err.Some? ==> u == UnitOutcome(None, Some(Formatted("Could not multiplex request: ", err.value, true))))
              && (err.None? && rsp.Some? ==> u == UnitOutcome(Some(ResultItem(i, rsp.value)), writeErr))
  {
    var errh := Coalesce(conf.errors, mux.errors);
    var (rsp, err) :=
      match done
      case Success(r) => (Some(r), None)
      case Failure(e) => if errh.Some? then handle(errh.value, e) else (None, Some(e));
    if err.Some? then UnitOutcome(None, Some(Formatted("Could not multiplex request: ", err.value, true)))
    else if rsp.None? then UnitOutcome(None, None)
    else UnitOutcome(Some(ResultItem(i, rsp.value)), writeErr)
  }

  /** A per-call handler takes precedence over the multiplexer's own. */
  lemma CallHandlerFirst(conf: Config, mux: Mux, i: nat, done: Result<Response, Err>, handle: Handle, writeErr: Option<Err>)
    requires conf.errors.Some?
    ensures Block(conf, mux, i, done, handle, writeErr) == Block(conf, mux.(errors := None), i, done, handle, writeErr)
  {
  }

  /** A handler that consumes the error and the response makes the unit emit nothing and succeed. */
  lemma ConsumedEmitsNothing(conf: Config, mux: Mux, i: nat, e: Err, handle: Handle, writeErr: Option<Err>)
    requires Coalesce(conf.errors, mux.errors).Some?
    requires handle(Coalesce(conf.errors, mux.errors).value, e) == (None, None)
    ensures Block(conf, mux, i, Failure(e), handle, writeErr) == UnitOutcome(None, None)
  {
  }

  /** What the dispatcher's `Exec` returns for a unit. */
  datatype ExecOutcome = Queued | Stopped | ExecFailed(err: Err)   // nil, exec.ErrCanceled, other

  /** Why the production loop ended, and the error the result stream is canceled with. */
  datatype Stop =
    | ContextDone         // the context ended before the next index
    | Exhausted           // the producer returned no request
    | DispatcherStopped   // the dispatcher refused a unit as canceled
    | Aborted(err: Err)   // a producer or dispatcher error, handed to `Cancel`

  /**
   * `after` is `before` once `ConfigureRequest` has set every configured header, for
   * some visiting order of the configured keys.
   */
  ghost predicate Configured(c: Config, before: Header, after: Header) {
    if c.headers.None? then after == before
    else
      var h := c.headers.value;
      exists order :: && |order| == |h| && (forall k :: k in h <==> k in order)
                      && (forall i :: 0 <= i < |order| ==> order[i] in Lift(h))
                      && after == SetFirsts(before, Lift(h), order)
  }

  /**
   * The production loop of `Do`: indices 0, 1, 2, ... are requested in turn; each
   * request is configured and queued as a unit. `queued` is the requests queued, in
   * index order; `produced[j]` and `configured[j]` are the header of `queued[j]` when it
   * was produced and when it was queued. `done(i)` says whether the context has ended
   * when index `i` is reached.
   */
  method ProductionLoop(conf: Config, p: Producer, done: nat -> bool, exec: nat -> ExecOutcome, lib: Library)
    returns (stop: Stop, ghost queued: seq<Request>, ghost produced: seq<Header>, ghost configured: seq<Header>)
    modifies Held(p)
    ensures |queued| <= Length(p) && |produced| == |queued| && |configured| == |queued|
    ensures forall j :: 0 <= j < |queued| ==> !done(j) && exec(j).Queued?
    ensures forall j :: 0 <= j < |queued| ==> Configured(conf, produced[j], configured[j])
    ensures p.Static? ==> forall j :: 0 <= j < |queued| ==> p.reqs[j] == queued[j]
    ensures p.Static? ==> forall j :: 0 <= j < |queued| && (forall m :: 0 <= m < j ==> p.reqs[m] != p.reqs[j]) ==>
              produced[j] == old(queued[j].header)
    ensures p.Urls? ==> forall j :: 0 <= j < |queued| ==>
              && queued[j].verb == p.verb && lib.parseUrl(p.urls[j]) == Success(queued[j].url)
              && produced[j] == map[] && queued[j].header == configured[j]
    ensures stop == ContextDone ==> done(|queued|)
    ensures stop == Exhausted ==>
              !done(|queued|) && (|queued| == Length(p) || (p.Static? && p.reqs[|queued|] == null))
    ensures stop == DispatcherStopped ==> !done(|queued|) && exec(|queued|) == Stopped
    ensures stop.Aborted? ==>
              !done(|queued|) && |queued| < Length(p)
              && ((p.Urls? && lib.parseUrl(p.urls[|queued|]).Failure?
                   && stop.err == Text(lib.parseUrl(p.urls[|queued|]).error))
                  || exec(|queued|) == ExecFailed(stop.err))
  {
    var i := 0;
    queued, produced, configured := [], [], [];
    while true
      invariant 0 <= i <= Length(p) && |queued| == i && |produced| == i && |configured| == i
      invariant forall j :: 0 <= j < i ==> !done(j) && exec(j).Queued?
      invariant forall j :: 0 <= j < i ==> Configured(conf, produced[j], configured[j])
      invariant p.Static? ==> forall j :: 0 <= j < i ==> p.reqs[j] == queued[j]
      invariant p.Static? ==> forall j :: 0 <= j < i && (forall m :: 0 <= m < j ==> p.reqs[m] != p.reqs[j]) ==>
                  produced[j] == old(queued[j].header)
      invariant p.Static? ==> forall j :: i <= j < |p.reqs| && p.reqs[j] != null && (forall m :: 0 <= m < i ==> p.reqs[m] != p.reqs[j]) ==>
                  p.reqs[j].header == old(p.reqs[j].header)
      invariant p.Urls? ==> forall j :: 0 <= j < i ==>
                  && queued[j].verb == p.verb && lib.parseUrl(p.urls[j]) == Success(queued[j].url)
                  && produced[j] == map[] && queued[j].header == configured[j]
      decreases Length(p) - i
    {
      if done(i) {
        return ContextDone, queued, produced, configured;
      }
      var st, req, before := Enqueue(conf, p, i, exec, lib);
      if st.Some? {
        return st.value, queued, produced, configured;
      }
      queued, produced, configured := queued + [req], produced + [before], configured + [req.header];
      i := i + 1;
    }
  }

  /** The request a static producer holds for index `i`, if any: the one object `Enqueue` may change. */
  function Slot(p: Producer, i: nat): set<Request> {
    if p.Static? && i < |p.reqs| && p.reqs[i] != null then {p.reqs[i]} else {}
  }

  /**
   * One pass of the production loop at index `i` (once the context is known not to be
   * done): produce the request, configure it and hand its unit to the dispatcher.
   * `stop` is why the loop ends here, if it does; otherwise `req` was queued, and
   * `before` is its header as produced.
   */
  method Enqueue(conf: Config, p: Producer, i: nat, exec: nat -> ExecOutcome, lib: Library)
    returns (stop: Option<Stop>, req: Request?, ghost before: Header)
    modifies Slot(p, i)
    ensures stop.None? ==> i < Length(p) && req != null && exec(i).Queued? && Configured(conf, before, req.header)
    ensures stop.None? && p.Static? ==> req == p.reqs[i] && before == old(p.reqs[i].header)
    ensures stop.None? && p.Urls? ==>
              fresh(req) && req.verb == p.verb && lib.parseUrl(p.urls[i]) == Success(req.url) && before == map[]
    ensures stop != Some(ContextDone)
    ensures stop == Some(Exhausted) ==> i >= Length(p) || (p.Static? && p.reqs[i] == null)
    ensures stop == Some(DispatcherStopped) ==> exec(i) == Stopped
    ensures stop.Some? && stop.value.Aborted? ==>
              i < Length(p)
              && ((p.Urls? && lib.parseUrl(p.urls[i]).Failure? && stop.value.err == Text(lib.parseUrl(p.urls[i]).error))
                  || exec(i) == ExecFailed(stop.value.err))
  {
    before := map[];
    var r := Produce(p, i, lib);
    if r.Failure? {
      return Some(Aborted(r.error)), null, before;
    }
    req := r.value;
    if req == null {
      return Some(Exhausted), req, before;
    }
    before := req.header;
    ghost var order := ConfigureRequest(conf, req);
    assert Configured(conf, before, req.header);
    match exec(i) {
      case Stopped => return Some(DispatcherStopped), req, before;
      case ExecFailed(err) => return Some(Aborted(err)), req, before;
      case Queued => return None, req, before;
    }
  }

  /** What the iterator's `Next` returns. */
  datatype Next = Item(item: ResultItem) | Closed | Fails(err: Err)

  /** The results read before the first non-result, and what ended the reading. */
  function Drain(stream: seq<Next>): (r: (seq<ResultItem>, Next))
    requires exists j :: 0 <= j < |stream| && !stream[j].Item?
    ensures !r.1.Item? && |r.0| < |stream| && stream[|r.0|] == r.1
    ensures forall j :: 0 <= j < |r.0| ==> stream[j] == Item(r.0[j])
  {
    if !stream[0].Item? then ([], stream[0])
    else
      var rest := Drain(stream[1..]);
      ([stream[0].item] + rest.0, rest.1)
  }

  /** Non-decreasing by index. */
  predicate SortedByIndex(s: seq<ResultItem>) {
    forall p, q :: 0 <= p < q < |s| ==> s[p].index <= s[q].index
  }

  /** The responses of `s`, in order. */
  function Responses(s: seq<ResultItem>): (r: seq<Response>)
    ensures |r| == |s| && forall j :: 0 <= j < |s| ==> r[j] == s[j].response
  {
    if s == [] then [] else [s[0].response] + Responses(s[1..])
  }

  /** `resultSet.Swap`. */
  method Swap(a: array<ResultItem>, i: nat, j: nat)
    requires i < a.Length && j < a.Length
    modifies a
    ensures a[..] == old(a[..])[i := old(a[j])][j := old(a[i])]
    ensures multiset(a[..]) == multiset(old(a[..]))
  {
    a[i], a[j] := a[j], a[i];
  }

  /** `sort.Sort(resultSet(buf))`: orders the results by index, in place (by insertion). */
  method SortByIndex(a: array<ResultItem>)
    modifies a
    ensures SortedByIndex(a[..])
    ensures multiset(a[..]) == multiset(old(a[..]))
  {
    var i := 0;
    while i < a.Length
      invariant 0 <= i <= a.Length
      invariant forall p, q :: 0 <= p < q < i ==> a[p].index <= a[q].index
      invariant multiset(a[..]) == multiset(old(a[..]))
    {
      var j := i;
      while j > 0 && a[j - 1].index > a[j].index
        invariant 0 <= j <= i
        invariant forall p, q :: 0 <= p < q <= i && q != j ==> a[p].index <= a[q].index
        invariant 0 < j < i ==> a[j - 1].index <= a[j + 1].index
        invariant multiset(a[..]) == multiset(old(a[..]))
      {
        Swap(a, j - 1, j);
        j := j - 1;
      }
      i := i + 1;
    }
  }

  /**
   * `Collect`: an incoming error is returned unchanged; otherwise the stream is read
   * up to the first non-result. A closed stream yields the responses of the results
   * read, sorted by index (`sorted` is those results); any other error is returned.
   */
  method Collect(incoming: Option<Err>, stream: seq<Next>) returns (r: Result<seq<Response>, Err>, ghost sorted: seq<ResultItem>)
    requires exists j :: 0 <= j < |stream| && !stream[j].Item?
    ensures incoming.Some? ==> r == Failure(incoming.value)
    ensures incoming.None? && Drain(stream).1.Fails? ==> r == Failure(Drain(stream).1.err)
    ensures incoming.None? && Drain(stream).1.Closed? ==>
              && r.Success?
              && SortedByIndex(sorted) && multiset(sorted) == multiset(Drain(stream).0)
              && r.value == Responses(sorted)
  {
    if incoming.Some? {
      return Failure(incoming.value), [];
    }
    var buf, end := ReadAll(stream);
    if end.Fails? {
      return Failure(end.err), [];
    }
    var a := new ResultItem[|buf|](j requires 0 <= j < |buf| => buf[j]);
    assert a[..] == buf;
    SortByIndex(a);
    sorted := a[..];
    var rsp := ResponsesOf(a[..]);
    return Success(rsp), sorted;
  }

  /** The final loop of `Collect`: the responses of the sorted results, in order. */
  method ResponsesOf(items: seq<ResultItem>) returns (rsp: seq<Response>)
    ensures rsp == Responses(items)
  {
    rsp := [];
    var j := 0;
    while j < |items|
      invariant 0 <= j <= |items|
      invariant |rsp| == j && forall m :: 0 <= m < j ==> rsp[m] == items[m].response
    {
      rsp := rsp + [items[j].response];
      j := j + 1;
    }
  }

  /** The drain loop of `Collect`: reads results until the first non-result. */
  method ReadAll(stream: seq<Next>) returns (buf: seq<ResultItem>, end: Next)
    requires exists j :: 0 <= j < |stream| && !stream[j].Item?
    ensures (buf, end) == Drain(stream)
  {
    buf := [];
    var k := 0;
    assert stream[k..] == stream;
    assert buf + Drain(stream).0 == Drain(stream).0;
    while true
      invariant 0 <= k < |stream| && |buf| == k
      invariant exists j :: k <= j < |stream| && !stream[j].Item?
      invariant Drain(stream) == (buf + Drain(stream[k..]).0, Drain(stream[k..]).1)
      decreases |stream| - k
    {
      var next := stream[k];
      if !next.Item? {
        DrainHead(stream[k..]);
        assert buf + [] == buf;
        return buf, next;
      }
      DrainStep(stream[k..]);
      assert stream[k..][1..] == stream[k + 1..];
      AppendAssociative(buf, [next.item], Drain(stream[k + 1..]).0);
      buf := buf + [next.item];
      k := k + 1;
    }
  }

  /** A stream that starts with a non-result drains nothing. */
  lemma DrainHead(stream: seq<Next>)
    requires |stream| > 0 && !stream[0].Item?
    ensures Drain(stream) == ([], stream[0])
  {
  }

  /** A stream that starts with a result drains it, then the rest. */
  lemma DrainStep(stream: seq<Next>)
    requires exists j :: 0 <= j < |stream| && !stream[j].Item?
    requires stream[0].Item?
    ensures |stream| >= 2 && exists j :: 1 <= j < |stream| && !stream[j].Item?
    ensures exists j :: 0 <= j < |stream[1..]| && !stream[1..][j].Item?
    ensures Drain(stream) == ([stream[0].item] + Drain(stream[1..]).0, Drain(stream[1..]).1)
  {
    var j :| 0 <= j < |stream| && !stream[j].Item?;
    assert stream[1..][j - 1] == stream[j];
  }

  /**
   * When the results carry distinct indices below their number (every request
   * answered once), the sorted results stand exactly at their own index.
   */
  lemma {:induction false} SortedDistinctIsIdentity(s: seq<ResultItem>)
    requires SortedByIndex(s)
    requires forall p, q :: 0 <= p < q < |s| ==> s[p].index != s[q].index
    requires forall p :: 0 <= p < |s| ==> s[p].index < |s|
    ensures forall p :: 0 <= p < |s| ==> s[p].index == p
  {
    forall p | 0 <= p < |s|
      ensures s[p].index == p
    {
      StrictlyAbove(s, p);
      StrictlyBelow(s, p);
    }
  }

  lemma {:induction false} StrictlyAbove(s: seq<ResultItem>, p: nat)
    requires SortedByIndex(s) && p < |s|
    requires forall p, q :: 0 <= p < q < |s| ==> s[p].index != s[q].index
    ensures s[p].index >= p
  {
    if p > 0 {
      StrictlyAbove(s, p - 1);
    }
  }

  lemma {:induction false} StrictlyBelow(s: seq<ResultItem>, p: nat)
    requires SortedByIndex(s) && p < |s|
    requires forall p, q :: 0 <= p < q < |s| ==> s[p].index != s[q].index
    requires forall p :: 0 <= p < |s| ==> s[p].index < |s|
    ensures s[p].index <= p
    decreases |s| - p
  {
    if p < |s| - 1 {
      StrictlyBelow(s, p + 1);
    }
  }

  /** A rearrangement of results with distinct indices has distinct indices. */
  lemma DistinctPreserved(s: seq<ResultItem>, t: seq<ResultItem>)
    requires multiset(s) == multiset(t)
    requires forall p, q :: 0 <= p < q < |t| ==> t[p].index != t[q].index
    ensures forall p, q :: 0 <= p < q < |s| ==> s[p].index != s[q].index
  {
    forall p, q | 0 <= p < q < |s|
      ensures s[p].index != s[q].index
    {
      if s[p].index == s[q].index {
        assert s[p] in multiset(t) && s[q] in multiset(t);
        var a :| 0 <= a < |t| && t[a] == s[p];
        var b :| 0 <= b < |t| && t[b] == s[q];
        assert a == b;
        CountTwo(s, p, q);
        OccursOnce(t, a);
        assert false;
      }
    }
  }

  /** A rearrangement keeps the bound on the indices. */
  lemma BoundPreserved(s: seq<ResultItem>, t: seq<ResultItem>, n: nat)
    requires multiset(s) == multiset(t)
    requires forall p :: 0 <= p < |t| ==> t[p].index < n
    ensures forall p :: 0 <= p < |s| ==> s[p] in t && s[p].index < n
  {
    forall p | 0 <= p < |s|
      ensures s[p] in t && s[p].index < n
    {
      assert s[p] in multiset(t);
    }
  }

  /**
   * The collected responses come back in request order: when the stream delivers,
   * in any order, one result for each index below `n` and then closes, `Collect`
   * returns `n` responses, the `i`-th being the response to request `i`.
   */
  lemma CollectInOrder(stream: seq<Next>, sorted: seq<ResultItem>, rsp: seq<Response>, n: nat)
    requires exists j :: 0 <= j < |stream| && !stream[j].Item?
    requires Drain(stream).1.Closed? && |Drain(stream).0| == n
    requires forall p, q :: 0 <= p < q < n ==> Drain(stream).0[p].index != Drain(stream).0[q].index
    requires forall p :: 0 <= p < n ==> Drain(stream).0[p].index < n
    requires SortedByIndex(sorted) && multiset(sorted) == multiset(Drain(stream).0) && rsp == Responses(sorted)
    ensures |rsp| == n
    ensures forall i :: 0 <= i < n ==> ResultItem(i, rsp[i]) in Drain(stream).0
  {
    var items := Drain(stream).0;
    assert |sorted| == n by {
      assert |multiset(sorted)| == |multiset(items)|;
    }
    DistinctPreserved(sorted, items);
    BoundPreserved(sorted, items, n);
    SortedDistinctIsIdentity(sorted);
    forall i | 0 <= i < n
      ensures ResultItem(i, rsp[i]) in items
    {
      assert sorted[i] == ResultItem(i, rsp[i]);
    }
  }

  /** A value at two positions occurs at least twice. */
  lemma CountTwo(s: seq<ResultItem>, p: nat, q: nat)
    requires p < q < |s| && s[p] == s[q]
    ensures multiset(s)[s[p]] >= 2
  {
    assert s == s[..p] + [s[p]] + s[p + 1..q] + [s[q]] + s[q + 1..];
  }

  /** In a sequence of results with distinct indices, each result occurs once. */
  lemma OccursOnce(s: seq<ResultItem>, a: nat)
    requires a < |s|
    requires forall p, q :: 0 <= p < q < |s| ==> s[p].index != s[q].index
    ensures multiset(s)[s[a]] == 1
  {
    assert s == s[..a] + [s[a]] + s[a + 1..];
    assert s[a] !in s[..a];
    assert s[a] !in s[a + 1..];
  }

  /**
   * `Unmarshal`: collects the responses and decodes each, in order; a collection
   * error is wrapped, and the first decoding error is returned as it is.
   */
  method Unmarshal<E>(stream: seq<Next>, decode: Response -> Result<E, Err>)
    returns (r: Result<seq<E>, Err>, ghost rsps: seq<Response>)
    requires exists j :: 0 <= j < |stream| && !stream[j].Item?
    ensures Drain(stream).1.Fails? ==> r == Failure(Formatted("Could not collect responses: ", Drain(stream).1.err, true))
    ensures Drain(stream).1.Closed? ==>
              && (exists sorted :: SortedByIndex(sorted) && multiset(sorted) == multiset(Drain(stream).0)
                                   && rsps == Responses(sorted))
              && (r.Success? ==> |r.value| == |rsps| && forall j :: 0 <= j < |rsps| ==> decode(rsps[j]) == Success(r.value[j]))
              && (r.Failure? ==> exists j :: 0 <= j < |rsps| && decode(rsps[j]) == Failure(r.error)
                                             && forall m :: 0 <= m < j ==> decode(rsps[m]).Success?)
  {
    var c;
    ghost var sorted;
    c, sorted := Collect(None, stream);
    if c.Failure? {
      return Failure(Formatted("Could not collect responses: ", c.error, true)), [];
    }
    rsps := c.value;
    r := DecodeAll(c.value, decode);
  }

  /** The decoding loop of `Unmarshal`: every response decoded in order, or the first decoding error. */
  method DecodeAll<E>(list: seq<Response>, decode: Response -> Result<E, Err>) returns (r: Result<seq<E>, Err>)
    ensures r.Success? ==> |r.value| == |list| && forall j :: 0 <= j < |list| ==> decode(list[j]) == Success(r.value[j])
    ensures r.Failure? ==> exists j :: 0 <= j < |list| && decode(list[j]) == Failure(r.error)
                                       && forall m :: 0 <= m < j ==> decode(list[m]).Success?
  {
    var ents: seq<E> := [];
    var j := 0;
    while j < |list|
      invariant 0 <= j <= |list| && |ents| == j
      invariant forall m :: 0 <= m < j ==> decode(list[m]) == Success(ents[m])
    {
      var e := decode(list[j]);
      if e.Failure? {
        return Failure(e.error);
      }
      ents := ents + [e.value];
      j := j + 1;
    }
    r := Success(ents);
  }
}
