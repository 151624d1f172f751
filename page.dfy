/**
 * v1/httputil/page.go: the hand-written parser for `Link` headers of the form
 * `<url>; rel="next"; k=v, <url>; rel="prev"`, a simplified reading of the link
 * grammar of section 3 of RFC 8288. Links are keyed by their `rel` parameter.
 */
module LinkPage {
  import opened Wrappers
  import opened GoText
  import opened GoQuote
  import opened ApiErrors

  const ErrMalformedLinks := Text("Malformed links")
  const ErrMalformedParam := Text("Malformed params")
  /** `strconv.ErrSyntax`. */
  const ErrSyntax := Text("invalid syntax")

  /** `link`: the URL between the angle brackets, the `rel` value and every parameter. */
  datatype Link = Link(url: string, rel: string, params: map<string, string>)

  /** A parameter value in double quotes is unquoted; any other value is kept as written. */
  predicate Quoted(val: string) {
    |val| > 0 && val[0] == '"'
  }

  /**
   * `parseParam`: splits `key=value` at the first `=`. A missing `=` or an empty key is
   * malformed; a quoted value that does not unquote is a syntax error.
   */
  function ParseParam(src: string): (r: Result<(string, string), Err>)
    ensures Index(src, '=') <= 0 ==> r == Failure(ErrMalformedParam)
    ensures r.Success? ==>
              var x := Index(src, '=');
              && 0 < x && r.value.0 == src[..x] && '=' !in r.value.0
              && (!Quoted(src[x + 1..]) ==> r.value.1 == src[x + 1..])
              && (Quoted(src[x + 1..]) ==> Unquote(src[x + 1..]) == Some(r.value.1))
    ensures r.Failure? && Index(src, '=') > 0 ==>
              r.error == ErrSyntax && Quoted(src[Index(src, '=') + 1..]) && Unquote(src[Index(src, '=') + 1..]).None?
  {
    var x := Index(src, '=');
    if x < 0 then Failure(ErrMalformedParam)
    else
      var key := src[..x];
      var val := src[x + 1..];
      if |key| < 1 then Failure(ErrMalformedParam)
      else if Quoted(val) then
        match Unquote(val)
        case None => Failure(ErrSyntax)
        case Some(v) => Success((key, v))
      else Success((key, val))
  }

  /** `parseParam` reads back a parameter written as `key=value` or `key="value"`. */
  lemma ParseParamWritten(key: string, val: string, quote: bool)
    requires |key| >= 1 && '=' !in key
    requires !quote ==> !Quoted(val)
    ensures ParseParam(key + "=" + (if quote then Quote(val) else val)) == Success((key, val))
  {
    var w := if quote then Quote(val) else val;
    var src := key + "=" + w;
    assert src[|key|] == '=' && src[..|key|] == key;
    assert Index(src, '=') == |key|;
    assert src[|key| + 1..] == w;
    if quote {
      UnquoteQuote(val);
    }
  }

  /** One step of `ParseParams`: the first piece either fails the parse or is stored. */
  lemma ParseParamsUnfold(args: seq<string>, acc: map<string, string>)
    requires args != []
    ensures |args[0]| > 0 && ParseParam(args[0]).Failure? ==> ParseParams(args, acc) == Failure(ParseParam(args[0]).error)
    ensures !(|args[0]| > 0 && ParseParam(args[0]).Failure?) ==> ParseParams(args, acc) == ParseParams(args[1..], Put(Param(args[0]), acc))
  {
  }

  /** What a non-empty piece stores when it parses: its trimmed key and value. */
  function Param(a: string): (kv: Option<(string, string)>)
    ensures kv.Some? <==> |a| > 0 && ParseParam(a).Success?
  {
    if |a| == 0 then None
    else
      match ParseParam(a)
      case Failure(_) => None
      case Success(kv) => Some((TrimSpace(kv.0), TrimSpace(kv.1)))
  }

  /**
   * The parameters of one link: each non-empty piece between semicolons is parsed in
   * order, its key and value trimmed and stored (a later key overwrites an earlier
   * one); the first error ends the parse.
   */
  function ParseParams(args: seq<string>, acc: map<string, string>): (r: Result<map<string, string>, Err>)
    ensures r.Failure? ==> exists i :: 0 <= i < |args| && |args[i]| > 0 && ParseParam(args[i]) == Failure(r.error)
    ensures r.Success? ==> acc.Keys <= r.value.Keys
    ensures r.Success? ==> forall i :: 0 <= i < |args| && |args[i]| > 0 ==>
              Param(args[i]).Some? && Param(args[i]).value.0 in r.value
  {
    if args == [] then Success(acc)
    else if |args[0]| > 0 && ParseParam(args[0]).Failure? then Failure(ParseParam(args[0]).error)
    else
      var acc' := Put(Param(args[0]), acc);
      var r := ParseParams(args[1..], acc');
      if r.Failure? then
        FailureShifts(args, r.error);
        r
      else
        SuccessShifts(args, acc, r.value);
        r
  }

  /** A failing piece among the rest is a failing piece of the whole list. */
  lemma FailureShifts(args: seq<string>, e: Err)
    requires args != []
    requires exists i :: 0 <= i < |args[1..]| && |args[1..][i]| > 0 && ParseParam(args[1..][i]) == Failure(e)
    ensures exists i :: 0 <= i < |args| && |args[i]| > 0 && ParseParam(args[i]) == Failure(e)
  {
    var i :| 0 <= i < |args[1..]| && |args[1..][i]| > 0 && ParseParam(args[1..][i]) == Failure(e);
    assert args[i + 1] == args[1..][i];
  }

  /** Storing the first piece and then the rest keeps every key the whole list stores. */
  lemma SuccessShifts(args: seq<string>, acc: map<string, string>, m: map<string, string>)
    requires args != [] && (|args[0]| > 0 ==> ParseParam(args[0]).Success?)
    requires Put(Param(args[0]), acc).Keys <= m.Keys
    requires forall i :: 0 <= i < |args[1..]| && |args[1..][i]| > 0 ==> Param(args[1..][i]).Some? && Param(args[1..][i]).value.0 in m
    ensures acc.Keys <= m.Keys
    ensures forall i :: 0 <= i < |args| && |args[i]| > 0 ==> Param(args[i]).Some? && Param(args[i]).value.0 in m
  {
    var first := Put(Param(args[0]), acc);
    forall i | 0 <= i < |args| && |args[i]| > 0 ensures Param(args[i]).Some? && Param(args[i]).value.0 in m {
      if i > 0 {
        assert args[i] == args[1..][i - 1];
      } else {
        assert Param(args[0]).value.0 in first;
      }
    }
  }

  /** A failed parse reports the error of the first non-empty piece that does not parse. */
  lemma {:induction false} ParseParamsFirstError(args: seq<string>, acc: map<string, string>)
    ensures var r := ParseParams(args, acc);
            r.Failure? ==> exists i :: 0 <= i < |args| && |args[i]| > 0 && ParseParam(args[i]) == Failure(r.error)
                                       && forall j :: 0 <= j < i && |args[j]| > 0 ==> ParseParam(args[j]).Success?
  {
    if args != [] {
      ParseParamsUnfold(args, acc);
      if |args[0]| > 0 && ParseParam(args[0]).Failure? {
        assert |args[0]| > 0 && ParseParam(args[0]) == Failure(ParseParams(args, acc).error);
      } else {
        ParseParamsFirstError(args[1..], Put(Param(args[0]), acc));
        if ParseParams(args, acc).Failure? {
          FirstErrorShifts(args, ParseParams(args, acc).error);
        }
      }
    }
  }

  /** The first failing piece of the rest, after a first piece that parses, is the first failing piece of the list. */
  lemma FirstErrorShifts(args: seq<string>, e: Err)
    requires args != [] && (|args[0]| > 0 ==> ParseParam(args[0]).Success?)
    requires exists i :: 0 <= i < |args[1..]| && |args[1..][i]| > 0 && ParseParam(args[1..][i]) == Failure(e)
                         && forall j :: 0 <= j < i && |args[1..][j]| > 0 ==> ParseParam(args[1..][j]).Success?
    ensures exists i :: 0 <= i < |args| && |args[i]| > 0 && ParseParam(args[i]) == Failure(e)
                        && forall j :: 0 <= j < i && |args[j]| > 0 ==> ParseParam(args[j]).Success?
  {
    var i :| 0 <= i < |args[1..]| && |args[1..][i]| > 0 && ParseParam(args[1..][i]) == Failure(e)
             && forall j :: 0 <= j < i && |args[1..][j]| > 0 ==> ParseParam(args[1..][j]).Success?;
    assert args[i + 1] == args[1..][i];
    forall j | 0 <= j < i + 1 && |args[j]| > 0 ensures ParseParam(args[j]).Success? {
      if j > 0 {
        assert args[j] == args[1..][j - 1];
      }
    }
  }


  /** What each piece stores, in order. */
  function Pieces(args: seq<string>): (ps: seq<Option<(string, string)>>)
    ensures |ps| == |args| && forall i :: 0 <= i < |args| ==> ps[i] == Param(args[i])
  {
    seq(|args|, i requires 0 <= i < |args| => Param(args[i]))
  }

  /** `acc` with what one piece stores put in it. */
  function Put(p: Option<(string, string)>, acc: map<string, string>): (m: map<string, string>)
    ensures acc.Keys <= m.Keys
    ensures p.Some? ==> p.value.0 in m && m[p.value.0] == p.value.1
    ensures forall k :: k in acc && !(p.Some? && p.value.0 == k) ==> k in m && m[k] == acc[k]
    ensures forall k :: k in m ==> k in acc || (p.Some? && p.value.0 == k)
  {
    match p
    case None => acc
    case Some(kv) => acc[kv.0 := kv.1]
  }

  /** The pieces put in `acc` one after the other. */
  function Store(ps: seq<Option<(string, string)>>, acc: map<string, string>): map<string, string> {
    if ps == [] then acc else Store(ps[1..], Put(ps[0], acc))
  }

  /** A successful parse stores the pieces in order. */
  lemma {:induction false} ParseParamsStore(args: seq<string>, acc: map<string, string>)
    ensures ParseParams(args, acc).Success? ==> ParseParams(args, acc).value == Store(Pieces(args), acc)
  {
    if args != [] && (|args[0]| == 0 || ParseParam(args[0]).Success?) {
      ParseParamsUnfold(args, acc);
      ParseParamsStore(args[1..], Put(Param(args[0]), acc));
      PiecesTail(args);
    }
  }

  lemma PiecesTail(args: seq<string>)
    requires args != []
    ensures Pieces(args)[0] == Param(args[0]) && Pieces(args)[1..] == Pieces(args[1..])
  {
    assert forall i :: 0 <= i < |args| - 1 ==> Pieces(args)[1..][i] == Param(args[1..][i]);
  }

  /** Whether a piece stores a value under key `k`. */
  predicate Defines(p: Option<(string, string)>, k: string) {
    p.Some? && p.value.0 == k
  }

  /** `m` holds exactly the keys of `acc` and the keys some piece defines. */
  ghost predicate StoredKeys(ps: seq<Option<(string, string)>>, acc: map<string, string>, m: map<string, string>) {
    forall k :: k in m <==> (k in acc || exists i :: 0 <= i < |ps| && Defines(ps[i], k))
  }

  /** Piece `i` stores something and no later piece defines its key again. */
  predicate LastDefinition(ps: seq<Option<(string, string)>>, i: int)
    requires 0 <= i < |ps|
  {
    ps[i].Some? && forall j :: i < j < |ps| ==> !Defines(ps[j], ps[i].value.0)
  }

  /** Every key defined by a piece holds the value of the last piece defining it. */
  ghost predicate LastValues(ps: seq<Option<(string, string)>>, m: map<string, string>) {
    forall i :: 0 <= i < |ps| && LastDefinition(ps, i) ==> ps[i].value.0 in m && m[ps[i].value.0] == ps[i].value.1
  }

  /** Keys of `acc` that no piece defines keep their value in `m`. */
  ghost predicate KeptValues(ps: seq<Option<(string, string)>>, acc: map<string, string>, m: map<string, string>) {
    forall k :: k in acc && (forall i :: 0 <= i < |ps| ==> !Defines(ps[i], k)) ==> k in m && m[k] == acc[k]
  }

  /** Storing pieces keeps the starting keys no piece defines, adds the defined ones, and the last definition wins. */
  lemma {:induction false} StoreSpec(ps: seq<Option<(string, string)>>, acc: map<string, string>)
    ensures var m := Store(ps, acc);
            StoredKeys(ps, acc, m) && LastValues(ps, m) && KeptValues(ps, acc, m)
  {
    if ps != [] {
      var m := Store(ps, acc);
      StoreSpec(ps[1..], Put(ps[0], acc));
      KeysStep(ps, acc, m);
      ValuesStep(ps, acc, m);
      KeptStep(ps, acc, m);
    }
  }

  /**
   * A successful parse holds exactly the keys it started with and the keys the pieces
   * define; the value of a key is that of the last piece defining it, or the starting
   * one when no piece does.
   */
  lemma ParseParamsStored(args: seq<string>, acc: map<string, string>)
    ensures var r := ParseParams(args, acc);
            r.Success? ==> StoredKeys(Pieces(args), acc, r.value) && LastValues(Pieces(args), r.value) && KeptValues(Pieces(args), acc, r.value)
  {
    ParseParamsStore(args, acc);
    StoreSpec(Pieces(args), acc);
  }

  lemma KeysStep(ps: seq<Option<(string, string)>>, acc: map<string, string>, m: map<string, string>)
    requires ps != [] && StoredKeys(ps[1..], Put(ps[0], acc), m)
    ensures StoredKeys(ps, acc, m)
  {
    forall k ensures k in m <==> (k in acc || exists i :: 0 <= i < |ps| && Defines(ps[i], k)) {
      DefinedByRest(ps, k);
    }
  }

  /** A key is defined by some piece iff the first piece or one of the rest defines it. */
  lemma DefinedByRest(ps: seq<Option<(string, string)>>, k: string)
    requires ps != []
    ensures (exists i :: 0 <= i < |ps| && Defines(ps[i], k))
            <==> (Defines(ps[0], k) || exists i :: 0 <= i < |ps[1..]| && Defines(ps[1..][i], k))
  {
    var rest := ps[1..];
    if exists i :: 0 <= i < |rest| && Defines(rest[i], k) {
      var i :| 0 <= i < |rest| && Defines(rest[i], k);
      assert ps[i + 1] == rest[i];
    }
    if exists i :: 0 <= i < |ps| && Defines(ps[i], k) {
      var i :| 0 <= i < |ps| && Defines(ps[i], k);
      if i > 0 {
        assert rest[i - 1] == ps[i];
      }
    }
  }

  lemma ValuesStep(ps: seq<Option<(string, string)>>, acc: map<string, string>, m: map<string, string>)
    requires ps != [] && LastValues(ps[1..], m) && KeptValues(ps[1..], Put(ps[0], acc), m)
    ensures LastValues(ps, m)
  {
    var rest := ps[1..];
    forall i | 0 <= i < |ps| && LastDefinition(ps, i)
      ensures ps[i].value.0 in m && m[ps[i].value.0] == ps[i].value.1
    {
      var k := ps[i].value.0;
      if i == 0 {
        forall n | 0 <= n < |rest| ensures !Defines(rest[n], k) {
          assert rest[n] == ps[n + 1];
        }
      } else {
        assert rest[i - 1] == ps[i];
        assert LastDefinition(rest, i - 1) by {
          forall j | i - 1 < j < |rest| ensures !Defines(rest[j], k) {
            assert rest[j] == ps[j + 1];
          }
        }
      }
    }
  }

  lemma KeptStep(ps: seq<Option<(string, string)>>, acc: map<string, string>, m: map<string, string>)
    requires ps != [] && KeptValues(ps[1..], Put(ps[0], acc), m)
    ensures KeptValues(ps, acc, m)
  {
    var rest := ps[1..];
    forall k | k in acc && (forall i :: 0 <= i < |ps| ==> !Defines(ps[i], k))
      ensures k in m && m[k] == acc[k]
    {
      assert !Defines(ps[0], k);
      forall n | 0 <= n < |rest| ensures !Defines(rest[n], k) {
        assert rest[n] == ps[n + 1];
      }
    }
  }

  /** The URL and the parameter text of one comma-separated part, split at its first `;` (if not leading). */
  function SplitPart(part: string): (string, string) {
    var y := Index(part, ';');
    if y > 0 then (TrimSpace(part[..y]), TrimSpace(part[y + 1..])) else (TrimSpace(part), "")
  }

  /** The URL must be at least `<>`; the text between the brackets is kept. */
  function LinkUrl(url: string): (r: Result<string, Err>)
    ensures r.Failure? <==> |url| < 2 || url[0] != '<' || url[|url| - 1] != '>'
    ensures r.Failure? ==> r.error == ErrMalformedLinks
    ensures r.Success? ==> url == "<" + r.value + ">"
  {
    var l := |url|;
    if l < 2 || url[0] != '<' || url[l - 1] != '>' then Failure(ErrMalformedLinks)
    else
      assert url == "<" + url[1..l - 1] + ">";
      Success(url[1..l - 1])
  }

  /** One part of the header: its link when it has a `rel` parameter, none otherwise. */
  function ParsePart(part: string): (r: Result<Option<Link>, Err>)
    ensures r.Success? && r.value.Some? ==>
              var l := r.value.value;
              "rel" in l.params && l.params["rel"] == l.rel
              && SplitPart(part).0 == "<" + l.url + ">"
  {
    var (url, arg) := SplitPart(part);
    match LinkUrl(url)
    case Failure(e) => Failure(e)
    case Success(u) =>
      match ParseParams(Split(arg, ';'), map[])
      case Failure(e) => Failure(e)
      case Success(params) =>
        if "rel" in params then Success(Some(Link(u, params["rel"], params))) else Success(None)
  }

  /**
   * The outcomes of one part: a URL not in angle brackets is malformed; otherwise a
   * parameter error is returned as it is; otherwise a link with the URL, its `rel` and
   * all its parameters when `rel` is present, and no link without it.
   */
  lemma ParsePartCases(part: string)
    ensures var r := ParsePart(part);
            var (url, arg) := SplitPart(part);
            && (LinkUrl(url).Failure? ==> r == Failure(ErrMalformedLinks))
            && (LinkUrl(url).Success? && ParseParams(Split(arg, ';'), map[]).Failure? ==>
                  r == Failure(ParseParams(Split(arg, ';'), map[]).error))
            && (LinkUrl(url).Success? && ParseParams(Split(arg, ';'), map[]).Success? ==>
                  var params := ParseParams(Split(arg, ';'), map[]).value;
                  && ("rel" in params ==> r == Success(Some(Link(LinkUrl(url).value, params["rel"], params))))
                  && ("rel" !in params ==> r == Success(None)))
  {
  }

  /** The next part and the rest: the split is at the first comma, unless the text starts with one. */
  function NextPart(src: string): (r: (string, string))
    requires |src| > 0
    ensures |r.1| < |src|
    ensures ',' in src && src[0] != ',' ==> r.0 + "," + r.1 == src && r.0 != "" && ',' !in r.0
    ensures ',' !in src || src[0] == ',' ==> r == (src, "")
  {
    var x := Index(src, ',');
    if x > 0 then
      assert src[..x] + "," + src[x + 1..] == src;
      (src[..x], src[x + 1..])
    else (src, "")
  }

  /**
   * The white space skip after each part: the text from its first non-space character
   * on; a remainder made only of white space is left as it is.
   */
  function SkipSpace(s: string): (r: string)
    ensures |r| <= |s|
    ensures !AllSpace(s) ==> r == TrimLeft(s)
    ensures AllSpace(s) ==> r == s
  {
    if AllSpace(s) then s else TrimLeft(s)
  }

  /** Every link is stored under its own `rel` value, which its parameters also hold. */
  ghost predicate WellKeyed(links: map<string, Link>) {
    forall rel :: rel in links ==> links[rel].rel == rel && "rel" in links[rel].params && links[rel].params["rel"] == rel
  }

  /** `parseLinks` from the remaining text `src` with the links found so far. */
  function ParseLinksFrom(src: string, links: map<string, Link>): (r: Result<map<string, Link>, Err>)
    ensures r.Success? ==> links.Keys <= r.value.Keys
    ensures r.Success? && WellKeyed(links) ==> WellKeyed(r.value)
    decreases |src|
  {
    if |src| == 0 then Success(links)
    else
      var (part, rest) := NextPart(src);
      match ParsePart(part)
      case Failure(e) => Failure(e)
      case Success(l) =>
        var next := if l.Some? then links[l.value.rel := l.value] else links;
        assert WellKeyed(links) ==> WellKeyed(next);
        ParseLinksFrom(SkipSpace(rest), next)
  }

  /** `parseLinks`. */
  function ParseLinksSpec(src: string): (r: Result<map<string, Link>, Err>)
    ensures r.Success? ==> WellKeyed(r.value)
  {
    ParseLinksFrom(src, map[])
  }

  /** The white space skip of `parseLinks`: leaves `s` as it is when it is all white space. */
  method SkipLeadingSpace(s: string) returns (r: string)
    ensures r == SkipSpace(s)
  {
    r := s;
    var i := 0;
    while i < |s|
      invariant 0 <= i <= |s| && AllSpace(s[..i])
    {
      if !IsSpace(s[i]) {
        TrimLeftAt(s, i);
        return s[i..];
      }
      i := i + 1;
    }
    assert s[..i] == s;
  }

  /** White space up to a non-space character is what `TrimLeft` drops. */
  lemma {:induction false} TrimLeftAt(s: string, i: nat)
    requires i < |s| && AllSpace(s[..i]) && !IsSpace(s[i])
    ensures TrimLeft(s) == s[i..] && !AllSpace(s)
  {
    assert !IsSpace(s[i]);
    if i > 0 {
      assert IsSpace(s[..i][0]);
      assert s[1..][..i - 1] == s[1..i];
      assert s[1..][i - 1] == s[i];
      TrimLeftAt(s[1..], i - 1);
      assert s[1..][i - 1..] == s[i..];
    }
  }

  /**
   * `parseLinks`: consumes the header part by part, storing each link that has a
   * `rel` parameter under that value; the first malformed part ends the parse.
   */
  method ParseLinks(header: string) returns (r: Result<map<string, Link>, Err>)
    ensures r == ParseLinksSpec(header)
  {
    var links: map<string, Link> := map[];
    var src := header;
    while |src| > 0
      invariant ParseLinksFrom(header, map[]) == ParseLinksFrom(src, links)
      decreases |src|
    {
      ghost var before := src;
      var part;
      var x := Index(src, ',');
      if x > 0 {
        part, src := src[..x], src[x + 1..];
      } else {
        part, src := src, "";
      }
      assert (part, src) == NextPart(before);
      var url, arg := "", "";
      var y := Index(part, ';');
      if y > 0 {
        url, arg := TrimSpace(part[..y]), TrimSpace(part[y + 1..]);
      } else {
        url := TrimSpace(part);
      }
      assert (url, arg) == SplitPart(part);
      var u := LinkUrl(url);
      if u.Failure? {
        assert ParsePart(part) == Failure(u.error);
        return Failure(u.error);
      }
      var params, err := ParamsOf(arg);
      if err.Some? {
        assert ParsePart(part) == Failure(err.value);
        return Failure(err.value);
      }
      ghost var links0 := links;
      if "rel" in params {
        var rel := params["rel"];
        links := links[rel := Link(u.value, rel, params)];
        assert ParsePart(part) == Success(Some(Link(u.value, rel, params)));
      } else {
        assert ParsePart(part) == Success(None);
      }
      StepFrom(before, links0, src, links);
      src := SkipLeadingSpace(src);
    }
    return Success(links);
  }

  /** One turn of the `parseLinks` loop. */
  lemma StepFrom(src: string, links: map<string, Link>, rest: string, next: map<string, Link>)
    requires |src| > 0 && NextPart(src).1 == rest
    requires ParsePart(NextPart(src).0).Success?
    requires next == (var l := ParsePart(NextPart(src).0).value; if l.Some? then links[l.value.rel := l.value] else links)
    ensures ParseLinksFrom(src, links) == ParseLinksFrom(SkipSpace(rest), next)
  {
  }

  /** The parameter loop of `parseLinks`. */
  method ParamsOf(arg: string) returns (params: map<string, string>, err: Option<Err>)
    ensures err.None? <==> ParseParams(Split(arg, ';'), map[]).Success?
    ensures err.None? ==> params == ParseParams(Split(arg, ';'), map[]).value
    ensures err.Some? ==> err.value == ParseParams(Split(arg, ';'), map[]).error
  {
    params := map[];
    var args := Split(arg, ';');
    var i := 0;
    assert args[i..] == args;
    while i < |args|
      invariant 0 <= i <= |args|
      invariant ParseParams(args, map[]) == ParseParams(args[i..], params)
    {
      ParseParamsUnfold(args[i..], params);
      assert args[i..][1..] == args[i + 1..];
      var a := args[i];
      if |a| > 0 {
        var kv := ParseParam(a);
        if kv.Failure? {
          return params, Some(kv.error);
        }
        var key, val := TrimSpace(kv.value.0), TrimSpace(kv.value.1);
        params := params[key := val];
      }
      i := i + 1;
    }
    return params, None;
  }

  /** An empty header holds no links. */
  lemma EmptyHeader()
    ensures ParseLinksSpec("") == Success(map[])
  {
  }

  /** A part whose URL is not enclosed in angle brackets makes the whole header malformed. */
  lemma MalformedUrlRejected(src: string, links: map<string, Link>)
    requires |src| > 0
    requires var url := SplitPart(NextPart(src).0).0; |url| < 2 || url[0] != '<' || url[|url| - 1] != '>'
    ensures ParseLinksFrom(src, links) == Failure(ErrMalformedLinks)
  {
  }

  /**
   * A later part with the same `rel` replaces an earlier one: after a well-formed part
   * `p` and a comma, the links of the rest are stored over `p`'s.
   */
  lemma LaterRelWins(p: string, rest: string, links: map<string, Link>)
    requires |p| > 0 && ',' !in p
    requires ParsePart(p).Success? && ParsePart(p).value.Some?
    requires !AllSpace(rest)
    ensures var l := ParsePart(p).value.value;
            ParseLinksFrom(p + "," + rest, links) == ParseLinksFrom(TrimLeft(rest), links[l.rel := l])
  {
    var src := p + "," + rest;
    assert src[|p|] == ',' && src[..|p|] == p;
    assert Index(src, ',') == |p|;
    assert src[|p| + 1..] == rest;
  }

  /**
   * A trailing comma followed by white space is rejected: the remaining white space is
   * not skipped, so it is read as a part with an empty URL.
   */
  lemma TrailingSpaceRejected(p: string, ws: string, links: map<string, Link>)
    requires |p| > 0 && ',' !in p && ParsePart(p).Success?
    requires |ws| > 0 && AllSpace(ws)
    ensures ParseLinksFrom(p + "," + ws, links) == Failure(ErrMalformedLinks)
  {
    var src := p + "," + ws;
    assert src[|p|] == ',' && src[..|p|] == p;
    assert Index(src, ',') == |p|;
    assert src[|p| + 1..] == ws;
    assert NextPart(src) == (p, ws);
    var l := ParsePart(p).value;
    var next := if l.Some? then links[l.value.rel := l.value] else links;
    assert ParseLinksFrom(src, links) == ParseLinksFrom(SkipSpace(ws), next);
    AllSpaceRejected(ws, next);
  }

  /** A remainder of white space only is read as one part with an empty URL, which is malformed. */
  lemma AllSpaceRejected(ws: string, links: map<string, Link>)
    requires |ws| > 0 && AllSpace(ws)
    ensures ParseLinksFrom(SkipSpace(ws), links) == Failure(ErrMalformedLinks)
  {
    assert SkipSpace(ws) == ws;
    assert ',' !in ws by {
      assert !IsSpace(',');
    }
    assert ';' !in ws by {
      assert !IsSpace(';');
    }
    assert NextPart(ws) == (ws, "");
    TrimSpaceAllSpace(ws);
    assert SplitPart(ws) == ("", "");
  }

  /** White space trims to nothing. */
  lemma TrimSpaceAllSpace(s: string)
    requires AllSpace(s)
    ensures TrimSpace(s) == ""
  {
  }

  /** A value that opens a double quote without closing it is a syntax error. */
  lemma UnclosedQuoteFails(k: string, a: string)
    requires |k| >= 1 && '=' !in k
    requires a == [] || a[|a| - 1] != '"'
    ensures ParseParam(k + "=\"" + a) == Failure(ErrSyntax)
  {
    assert k + "=\"" + a == k + ['='] + ("\"" + a);
    IndexAfter(k, "\"" + a, '=');
  }

  /**
   * The limitation of `parseLinks` its authors document: parameters are cut at every
   * `;`, so a quoted value holding one is cut inside its quotes and the parse fails.
   */
  lemma SemicolonInQuotedValueFails(k: string, a: string, b: string)
    requires |k| >= 1 && '=' !in k && ';' !in k
    requires ';' !in a && (a == [] || a[|a| - 1] != '"')
    ensures ParseParams(Split(k + "=\"" + a + ";" + b, ';'), map[]) == Failure(ErrSyntax)
  {
    var p := k + "=\"" + a;
    assert k + "=\"" + a + ";" + b == p + [';'] + b;
    assert ';' !in p;
    SplitFirst(p, b, ';');
    UnclosedQuoteFails(k, a);
    ParseParamsUnfold(Split(p + [';'] + b, ';'), map[]);
  }

  /** The same limitation for a whole header: `<u>;k="a;b"` is rejected. */
  lemma SemicolonInQuotedLinkFails(u: string, k: string, a: string, b: string)
    requires ';' !in u && ',' !in u && ',' !in k && ',' !in a && ',' !in b
    requires |k| >= 1 && '=' !in k && ';' !in k && !IsSpace(k[0])
    requires ';' !in a && (a == [] || a[|a| - 1] != '"')
    requires b == [] || !IsSpace(b[|b| - 1])
    ensures ParseLinksSpec("<" + u + ">;" + k + "=\"" + a + ";" + b) == Failure(ErrSyntax)
  {
    var url := "<" + u + ">";
    var p := k + "=\"" + a;
    var src := "<" + u + ">;" + k + "=\"" + a + ";" + b;
    assert src == url + [';'] + (p + [';'] + b);
    assert ',' !in url && ',' !in p;
    SemicolonInQuotedPartFails(u, k, a, b);
    SinglePartFails(src, map[]);
  }

  lemma SemicolonInQuotedPartFails(u: string, k: string, a: string, b: string)
    requires ';' !in u
    requires |k| >= 1 && '=' !in k && ';' !in k && !IsSpace(k[0])
    requires ';' !in a && (a == [] || a[|a| - 1] != '"')
    requires b == [] || !IsSpace(b[|b| - 1])
    ensures ParsePart("<" + u + ">;" + k + "=\"" + a + ";" + b) == Failure(ErrSyntax)
  {
    var url := "<" + u + ">";
    var arg := k + "=\"" + a + ";" + b;
    assert "<" + u + ">;" + k + "=\"" + a + ";" + b == url + [';'] + arg;
    assert arg[0] == k[0];
    SplitPartAt(url, arg);
    assert LinkUrl(url) == Success(u);
    SemicolonInQuotedValueFails(k, a, b);
    ParsePartCases(url + [';'] + arg);
  }

  /** A part `url;arg` whose URL has no `;` and neither side has white space at its ends. */
  lemma SplitPartAt(url: string, arg: string)
    requires |url| > 0 && ';' !in url && !IsSpace(url[0]) && !IsSpace(url[|url| - 1])
    requires arg == [] || (!IsSpace(arg[0]) && !IsSpace(arg[|arg| - 1]))
    ensures SplitPart(url + [';'] + arg) == (url, arg)
  {
    IndexAfter(url, arg, ';');
    TrimSpaceKeeps(url);
    TrimSpaceKeeps(arg);
  }

  /** A header without commas is one part, and that part's error is the header's. */
  lemma SinglePartFails(src: string, links: map<string, Link>)
    requires |src| > 0 && ',' !in src && ParsePart(src).Failure?
    ensures ParseLinksFrom(src, links) == Failure(ParsePart(src).error)
  {
    assert NextPart(src) == (src, "");
  }
}
