/**
 * v1/auth.go: authorizers that rewrite a request before it is sent. The header,
 * query, basic and bearer authorizers are modelled exactly; for `OAuthAuthorizer`
 * the outcome of its token source (the `Authorization` value of the token, or an
 * error) is supplied to `Authorize`.
 */
module ApiAuth {
  import opened Wrappers
  import opened GoText
  import opened GoHeader
  import opened GoHttp
  import opened ApiErrors
  import Base64

  datatype Authorizer =
    | HeaderAuthorizer(header: Header)
    | QueryAuthorizer(params: map<string, seq<string>>)
    | BasicAuthorizer(user: string, pass: string)
    | BearerAuthorizer(token: string)
    | OAuthAuthorizer(source: string)

  /**
   * The header after `Header.Set(k, v[0])` for each key `k` of `h`, in `order`,
   * skipping keys whose value list is empty.
   */
  function SetFirsts(hdr: Header, h: Header, order: seq<string>): Header
    requires forall i :: 0 <= i < |order| ==> order[i] in h
  {
    if order == [] then hdr
    else
      var k := order[|order| - 1];
      var prev := SetFirsts(hdr, h, order[..|order| - 1]);
      if |h[k]| > 0 then Set(prev, k, h[k][0]) else prev
  }

  /** `Set` changes only the values of the canonical key. */
  lemma SetValues(hdr: Header, k: string, v: string, n: string)
    ensures Values(Set(hdr, k, v), n) == if CanonicalHeaderKey(k) == n then [v] else Values(hdr, n)
  {
  }

  /** Key `k` of `h` has a value and canonicalises to `n`. */
  predicate Sets(h: Header, k: string, n: string) {
    k in h && CanonicalHeaderKey(k) == n && h[k] != []
  }

  /**
   * The position of the last key of `order` that has values and canonicalises to
   * `n`, or -1 when there is none.
   */
  function LastSetter(h: Header, order: seq<string>, n: string): (i: int)
    requires forall i :: 0 <= i < |order| ==> order[i] in h
    ensures -1 <= i < |order|
    ensures 0 <= i ==> Sets(h, order[i], n)
  {
    if order == [] then -1
    else if Sets(h, order[|order| - 1], n) then |order| - 1
    else
      var i := LastSetter(h, order[..|order| - 1], n);
      assert 0 <= i ==> order[i] == order[..|order| - 1][i];
      i
  }

  /** `LastSetter` finds a key that sets the name, and no later key does; -1 means no key does. */
  lemma {:induction false} LastSetterSpec(h: Header, order: seq<string>, n: string)
    requires forall i :: 0 <= i < |order| ==> order[i] in h
    ensures var i := LastSetter(h, order, n);
            && (i == -1 <==> forall j :: 0 <= j < |order| ==> !Sets(h, order[j], n))
            && (forall j :: i < j < |order| ==> !Sets(h, order[j], n))
  {
    if order != [] && !Sets(h, order[|order| - 1], n) {
      var init := order[..|order| - 1];
      LastSetterSpec(h, init, n);
      var i := LastSetter(h, init, n);
      forall j | i < j < |order| ensures !Sets(h, order[j], n) {
        if j < |init| {
          assert order[j] == init[j];
        }
      }
      if i < 0 {
        forall j | 0 <= j < |order| ensures !Sets(h, order[j], n) {
          if j < |init| {
            assert order[j] == init[j];
          }
        }
      }
    }
  }

  /**
   * After `SetFirsts`, a canonical name holds the first value of the last key in
   * `order` that sets it, or its old values when no key sets it.
   */
  lemma {:induction false} SetFirstsValues(hdr: Header, h: Header, order: seq<string>, n: string)
    requires forall i :: 0 <= i < |order| ==> order[i] in h
    ensures var i := LastSetter(h, order, n);
            Values(SetFirsts(hdr, h, order), n) == if i < 0 then Values(hdr, n) else [h[order[i]][0]]
  {
    if order != [] {
      var init := order[..|order| - 1];
      var k := order[|order| - 1];
      SetFirstsValues(hdr, h, init, n);
      if |h[k]| > 0 {
        SetValues(SetFirsts(hdr, h, init), k, h[k][0], n);
      }
      if !Sets(h, k, n) {
        var i := LastSetter(h, init, n);
        assert 0 <= i ==> order[i] == init[i];
      }
    }
  }

  /**
   * `HeaderAuthorizer.Authorize`: sets each header of `h` that has a value to its
   * first value, visiting the keys in Go's unspecified map order (returned as
   * `order`); it never fails.
   */
  method AuthorizeHeader(h: Header, req: Request) returns (ghost order: seq<string>)
    modifies req
    ensures req.verb == old(req.verb) && req.url == old(req.url)
    ensures |order| == |h| && (forall k :: k in h <==> k in order)
    ensures forall i :: 0 <= i < |order| ==> order[i] in h
    ensures req.header == SetFirsts(old(req.header), h, order)
  {
    var left := h.Keys;
    order := [];
    while left != {}
      invariant left <= h.Keys
      invariant forall i :: 0 <= i < |order| ==> order[i] in h && order[i] !in left
      invariant forall k :: k in h ==> k in left || k in order
      invariant |order| + |left| == |h|
      invariant req.verb == old(req.verb) && req.url == old(req.url)
      invariant req.header == SetFirsts(old(req.header), h, order)
      decreases left
    {
      var k :| k in left;
      var v := h[k];
      if |v| > 0 {
        req.header := Set(req.header, k, v[0]);
      }
      assert (order + [k])[..|order|] == order;
      order := order + [k];
      left := left - {k};
    }
  }

  /** Values under `k` in a `url.Values`, or none. */
  function QueryValues(q: map<string, seq<string>>, k: string): seq<string> {
    if k in q then q[k] else []
  }

  /** The query after `q.Add(k, v)` for every value `v` of every parameter `k` of `params`. */
  function QueryMerge(q: map<string, seq<string>>, params: map<string, seq<string>>): (r: map<string, seq<string>>)
    ensures forall k :: k in r <==> k in q || (k in params && params[k] != [])
    ensures forall k :: QueryValues(r, k) == QueryValues(q, k) + QueryValues(params, k)
  {
    map k | k in q.Keys + params.Keys && (k in q || params[k] != []) :: QueryValues(q, k) + QueryValues(params, k)
  }

  /** Two queries with the same keys and the same values under each are equal. */
  lemma QueryExt(a: map<string, seq<string>>, b: map<string, seq<string>>)
    requires forall k :: k in a <==> k in b
    requires forall k :: QueryValues(a, k) == QueryValues(b, k)
    ensures a == b
  {
    forall k | k in a ensures a[k] == b[k] {
      assert QueryValues(a, k) == QueryValues(b, k);
    }
  }

  /** `q.Add(k, v)`: appends one value under `k`. */
  function QueryAdd(q: map<string, seq<string>>, k: string, v: string): (r: map<string, seq<string>>)
    ensures forall n :: n != k ==> QueryValues(r, n) == QueryValues(q, n) && (n in r <==> n in q)
    ensures QueryValues(r, k) == QueryValues(q, k) + [v] && k in r
  {
    q[k := QueryValues(q, k) + [v]]
  }

  /** `r` is `q` with `added` appended under `k` and nothing else changed. */
  ghost predicate AppendedUnder(q: map<string, seq<string>>, r: map<string, seq<string>>, k: string, added: seq<string>) {
    && (forall n :: n != k ==> QueryValues(r, n) == QueryValues(q, n) && (n in r <==> n in q))
    && QueryValues(r, k) == QueryValues(q, k) + added
    && (k in r <==> k in q || added != [])
  }

  lemma AppendedStep(q: map<string, seq<string>>, r: map<string, seq<string>>, k: string, added: seq<string>, v: string)
    requires AppendedUnder(q, r, k, added)
    ensures AppendedUnder(q, QueryAdd(r, k, v), k, added + [v])
  {
  }

  /** `q.Add(k, v)` for each `v` of `vs`, in order. */
  method AddAll(q: map<string, seq<string>>, k: string, vs: seq<string>) returns (r: map<string, seq<string>>)
    ensures forall n :: n != k ==> QueryValues(r, n) == QueryValues(q, n) && (n in r <==> n in q)
    ensures QueryValues(r, k) == QueryValues(q, k) + vs
    ensures k in r <==> k in q || vs != []
  {
    r := q;
    var j := 0;
    while j < |vs|
      invariant 0 <= j <= |vs|
      invariant AppendedUnder(q, r, k, vs[..j])
    {
      AppendedStep(q, r, k, vs[..j], vs[j]);
      r := QueryAdd(r, k, vs[j]);
      assert vs[..j + 1] == vs[..j] + [vs[j]];
      j := j + 1;
    }
    assert vs[..j] == vs;
  }

  /**
   * `QueryAuthorizer.Authorize`: appends every configured value of every parameter
   * to the request's query and keeps the values it already had; it never fails.
   */
  method AuthorizeQuery(params: map<string, seq<string>>, req: Request)
    modifies req
    ensures req.verb == old(req.verb) && req.header == old(req.header)
    ensures req.url == old(req.url).(query := QueryMerge(old(req.url.query), params))
  {
    var q := req.url.query;
    ghost var q0 := q;
    var left := params.Keys;
    while left != {}
      invariant left <= params.Keys
      invariant req.verb == old(req.verb) && req.header == old(req.header) && req.url == old(req.url)
      invariant forall k :: k in q <==> k in q0 || (k in params && k !in left && params[k] != [])
      invariant forall k :: QueryValues(q, k) == QueryValues(q0, k) + (if k in left then [] else QueryValues(params, k))
      decreases left
    {
      var k :| k in left;
      q := AddAll(q, k, params[k]);
      left := left - {k};
    }
    QueryExt(q, QueryMerge(q0, params));
    req.url := req.url.(query := q);
  }

  /** `"Basic " + base64(user + ":" + pass)`, the credentials of section 2 of RFC 7617. */
  function BasicCredentials(user: string, pass: string): string {
    "Basic " + Base64.Encode(Utf8(user + ":" + pass))
  }

  /** The UTF-8 encoding of a string without ':' contains no ':' byte (58). */
  lemma {:induction false} Utf8NoColon(s: string)
    requires ':' !in s
    ensures 58 !in Utf8(s)
  {
    if s != [] {
      Utf8NoColon(s[1..]);
      var v := s[0] as int;
      assert 58 !in EncodeRune(s[0]) by {
        if v >= 0x80 {
          assert forall b :: b in EncodeRune(s[0]) ==> b >= 0x80;
        }
      }
    }
  }

  /** The bytes under the credentials: `user`, a ':' byte, `pass`. */
  lemma BasicBytes(user: string, pass: string)
    ensures Utf8(user + ":" + pass) == Utf8(user) + [58] + Utf8(pass)
  {
    assert user + ":" + pass == user + (":" + pass);
    Utf8Append(user, ":" + pass);
    Utf8Append(":", pass);
    assert Utf8(":") == [58];
  }

  /**
   * The credentials decode to the UTF-8 bytes of `user`, a ':' byte and those of
   * `pass`; when `user` has no ':', splitting at the first ':' byte recovers both.
   */
  lemma BasicCredentialsDecode(user: string, pass: string)
    ensures var c := BasicCredentials(user, pass);
            c[..6] == "Basic " && Base64.Decode(c[6..]) == Some(Utf8(user) + [58] + Utf8(pass))
    ensures ':' !in user ==>
              var b := Base64.Decode(BasicCredentials(user, pass)[6..]).value;
              58 !in Utf8(user) && b[..|Utf8(user)|] == Utf8(user) && b[|Utf8(user)| + 1..] == Utf8(pass)
  {
    var bytes := Utf8(user + ":" + pass);
    var c := BasicCredentials(user, pass);
    assert c[6..] == Base64.Encode(bytes);
    BasicBytes(user, pass);
    Base64.DecodeEncode(bytes);
    if ':' !in user {
      Utf8NoColon(user);
    }
  }

  /** `BasicAuthorizer.Authorize`: sets `Authorization` to the Basic credentials; it never fails. */
  method AuthorizeBasic(user: string, pass: string, req: Request)
    modifies req
    ensures req.verb == old(req.verb) && req.url == old(req.url)
    ensures req.header == Set(old(req.header), "Authorization", BasicCredentials(user, pass))
  {
    req.header := Set(req.header, "Authorization", BasicCredentials(user, pass));
  }

  /** `BearerAuthorizer.Authorize`: sets `Authorization` as in section 2.1 of RFC 6750; it never fails. */
  method AuthorizeBearer(token: string, req: Request)
    modifies req
    ensures req.verb == old(req.verb) && req.url == old(req.url)
    ensures req.header == Set(old(req.header), "Authorization", "Bearer " + token)
  {
    req.header := Set(req.header, "Authorization", "Bearer " + token);
  }

  /**
   * What `a.Authorize` does to a request with URL `u0` and header `h0`, leaving `u1`
   * and `h1` and reporting `err`. `token` is what the token source of an
   * `OAuthAuthorizer` gives: the `Authorization` value of its token, or its error
   * (the request is then unchanged).
   */
  ghost predicate Authorized(a: Authorizer, token: Result<string, Err>, u0: Url, h0: Header, u1: Url, h1: Header, err: Option<Err>) {
    && (err.Some? <==> a.OAuthAuthorizer? && token.Failure?)
    && (err.Some? ==> err.value == token.error && h1 == h0 && u1 == u0)
    && (a.QueryAuthorizer? ==> h1 == h0 && u1 == u0.(query := QueryMerge(u0.query, a.params)))
    && (a.BasicAuthorizer? ==> u1 == u0 && h1 == Set(h0, "Authorization", BasicCredentials(a.user, a.pass)))
    && (a.BearerAuthorizer? ==> u1 == u0 && h1 == Set(h0, "Authorization", "Bearer " + a.token))
    && (a.OAuthAuthorizer? && token.Success? ==> u1 == u0 && h1 == Set(h0, "Authorization", token.value))
    && (a.HeaderAuthorizer? ==> u1 == u0
                                && exists order :: (forall i :: 0 <= i < |order| ==> order[i] in a.header)
                                                   && |order| == |a.header|
                                                   && (forall k :: k in a.header <==> k in order)
                                                   && h1 == SetFirsts(h0, a.header, order))
  }

  /** `Authorizer.Authorize`: the method is never changed, URL and header change as `Authorized` says. */
  method Authorize(a: Authorizer, req: Request, token: Result<string, Err>) returns (err: Option<Err>)
    modifies req
    ensures req.verb == old(req.verb)
    ensures Authorized(a, token, old(req.url), old(req.header), req.url, req.header, err)
  {
    err := None;
    match a {
      case HeaderAuthorizer(h) =>
        ghost var order := AuthorizeHeader(h, req);
      case QueryAuthorizer(p) => AuthorizeQuery(p, req);
      case BasicAuthorizer(u, p) => AuthorizeBasic(u, p, req);
      case BearerAuthorizer(t) => AuthorizeBearer(t, req);
      case OAuthAuthorizer(_) =>
        match token {
          case Success(v) => req.header := Set(req.header, "Authorization", v);
          case Failure(e) => err := Some(e);
        }
    }
  }
}
