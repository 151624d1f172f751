/**
 * v1/error.go: the client's error values. `Err` models a Go `error` as the
 * client builds them: sentinel errors made by `errors.New`, the messages of
 * `fmt.Errorf` (with `%w` wrapping or `%v` formatting), `wrappedErr`, the rich
 * `*Error` and its redacted `encodableError`. `Message` is `Error()`, `Unwrap`
 * and `Is` follow the chain like `errors.Unwrap` and `errors.Is`.
 */
module ApiErrors {
  import opened Wrappers
  import opened GoText
  import opened GoHeader
  import opened GoHttp

  datatype Err =
    | Text(text: string)                                   // errors.New(text)
    | Formatted(prefix: string, inner: Err, wraps: bool)   // fmt.Errorf(prefix + "%w" or "%v", inner)
    | Wrapped(err: Err, base: Err)                         // wrappedErr{Err, Base}
    | Api(record: ErrorRecord)                             // *Error
    | Encodable(verb: string, url: string, message: string)  // encodableError
    | Redacted(detail: Err, public: Err)                   // errutil.Redact(detail, public)

  /** The fields of an `*Error` at one moment. */
  datatype ErrorRecord = ErrorRecord(
    reqId: int, status: int, verb: string, url: string,
    entity: Option<Entity>, message: string, cause: Option<Err>)

  const ErrUnsupportedMimetype := Text("Unsupported content type")
  const ErrUnexpectedStatusCode := Text("Unexpected status code")
  const ErrCouldNotAuthorize := Text("Could not authorize request")
  const ErrCouldNotUnmarshalResponse := Text("Could not unmarshal response")

  const ErrNotFound := Text("Not found")
  const ErrBadRequest := Text("Bad request")
  const ErrUnauthorized := Text("Unauthorized")
  const ErrForbidden := Text("Forbidden")
  const ErrUnprocessableEntity := Text("Unprocessable entity")
  const ErrInternalServerError := Text("Internal server error")

  /** `context.Canceled`. */
  const Canceled := Text("context canceled")

  const RecoverableStatuses: seq<int> := [500, 502, 503, 504]

  /** `err.Error()`; `show` renders an entity (`Entity.String`). */
  function Message(e: Err, show: Entity -> string): string {
    match e
    case Text(t) => t
    case Formatted(p, inner, _) => p + Message(inner, show)
    case Wrapped(err, _) => Message(err, show)
    case Api(r) => Describe(r, show)
    case Encodable(m, u, msg) => m + " " + u + ": " + msg
    case Redacted(_, public) => Message(public, show)
  }

  /** `(*Error).Error()`. */
  function Describe(r: ErrorRecord, show: Entity -> string): string
    decreases r, 0
  {
    var head := r.verb + " " + r.url + ": " + r.message;
    var because := if r.cause.Some? then "; because: " + Message(r.cause.value, show) else "";
    var tail := if r.entity.Some? then "\n" + show(r.entity.value) else "";
    head + because + tail
  }

  /** `errors.Unwrap`: the next error of the chain, if any. */
  function Unwrap(e: Err): Option<Err> {
    match e
    case Formatted(_, inner, wraps) => if wraps then Some(inner) else None
    case Wrapped(_, base) => Some(base)
    case Api(r) => r.cause
    case _ => None
  }

  /** `errors.Is`: `target` is `e` or appears further down its unwrap chain. */
  predicate Is(e: Err, target: Err)
    decreases e
  {
    e == target
    || (match e
        case Formatted(_, inner, wraps) => wraps && Is(inner, target)
        case Wrapped(_, base) => Is(base, target)
        case Api(r) => r.cause.Some? && Is(r.cause.value, target)
        case _ => false)
  }

  /** `Is` is exactly "equal, or `Is` of what `Unwrap` returns". */
  lemma IsUnwrap(e: Err, target: Err)
    ensures Is(e, target) <==> e == target || (Unwrap(e).Some? && Is(Unwrap(e).value, target))
  {
  }

  /** `wrapErr`: reports the message of `err` but unwraps to `base`. */
  function WrapErr(err: Err, base: Err): (r: Err)
    ensures forall show :: Message(r, show) == Message(err, show)
    ensures Unwrap(r) == Some(base)
    ensures forall t :: Is(base, t) ==> Is(r, t)
  {
    Wrapped(err, base)
  }

  /** `isSuccess`: a 2xx status. */
  predicate IsSuccess(status: int) {
    200 <= status < 300
  }

  /** The sentinel `checkErr` attaches as the cause of an error for `status`, if any. */
  function StatusCause(status: int): Option<Err> {
    match status
    case 400 => Some(ErrBadRequest)
    case 401 => Some(ErrUnauthorized)
    case 403 => Some(ErrForbidden)
    case 404 => Some(ErrNotFound)
    case 422 => Some(ErrUnprocessableEntity)
    case 500 => Some(ErrInternalServerError)
    case _ => None
  }

  /** The status a sentinel stands for: the inverse of `StatusCause`. */
  function SentinelStatus(e: Err): Option<int> {
    if e == ErrBadRequest then Some(400)
    else if e == ErrUnauthorized then Some(401)
    else if e == ErrForbidden then Some(403)
    else if e == ErrNotFound then Some(404)
    else if e == ErrUnprocessableEntity then Some(422)
    else if e == ErrInternalServerError then Some(500)
    else None
  }

  /** Each status has at most one sentinel, each sentinel one status, and 2xx statuses none. */
  lemma StatusCauseInverse(status: int, e: Err)
    ensures StatusCause(status) == Some(e) <==> SentinelStatus(e) == Some(status)
    ensures IsSuccess(status) ==> StatusCause(status).None?
  {
  }

  /**
   * An error built by `checkErr` matches a sentinel under `errors.Is` exactly when
   * its status is the one that sentinel stands for.
   */
  lemma IsSentinelIffStatus(r: ErrorRecord, sentinel: Err)
    requires r.cause == StatusCause(r.status)
    requires SentinelStatus(sentinel).Some?
    ensures Is(Api(r), sentinel) <==> r.status == SentinelStatus(sentinel).value
  {
    StatusCauseInverse(r.status, sentinel);
    if r.cause.Some? {
      StatusCauseInverse(r.status, r.cause.value);
    }
  }

  /** `encodableError.Error()` is the first line of `(*Error).Error()`, without the cause and entity. */
  lemma RedactedIsPrefix(r: ErrorRecord, show: Entity -> string)
    ensures var m := Message(Encodable(r.verb, r.url, r.message), show);
            m <= Describe(r, show)
            && (m == Describe(r, show) <==> r.cause.None? && r.entity.None?)
  {
    var m := Message(Encodable(r.verb, r.url, r.message), show);
    var d := Describe(r, show);
    assert d == m + (if r.cause.Some? then "; because: " + Message(r.cause.value, show) else "")
                  + (if r.entity.Some? then "\n" + show(r.entity.value) else "");
  }

  /** An `*Error`: built by `Errorf`, filled in by setters that return the receiver. */
  class Error {
    var reqId: int
    var status: int
    var verb: string
    var url: string
    var entity: Option<Entity>
    var message: string
    var cause: Option<Err>

    /** `Errorf(s, ...)`: only the status and the formatted message are set. */
    constructor Errorf(s: int, msg: string)
      ensures status == s && message == msg
      ensures reqId == 0 && verb == "" && url == "" && entity.None? && cause.None?
    {
      reqId := 0;
      status := s;
      verb := "";
      url := "";
      entity := None;
      message := msg;
      cause := None;
    }

    /** The value of this error now, for the error chain. */
    function Snapshot(): ErrorRecord
      reads this
    {
      ErrorRecord(reqId, status, verb, url, entity, message, cause)
    }

    method SetId(id: int) returns (self: Error)
      modifies this
      ensures self == this && Snapshot() == old(Snapshot()).(reqId := id)
    {
      reqId := id;
      self := this;
    }

    /** Records the request's method and its URL's text. */
    method SetRequest(req: Request, lib: Library) returns (self: Error)
      modifies this
      ensures self == this && Snapshot() == old(Snapshot()).(verb := req.verb, url := lib.urlString(req.url))
    {
      verb := req.verb;
      url := lib.urlString(req.url);
      self := this;
    }

    method SetEntity(ent: Option<Entity>) returns (self: Error)
      modifies this
      ensures self == this && Snapshot() == old(Snapshot()).(entity := ent)
    {
      entity := ent;
      self := this;
    }

    /** Captures the response body as the entity when it can be read; otherwise changes nothing. */
    method SetEntityFromResponse(rsp: Response) returns (self: Error)
      modifies this
      ensures self == this
      ensures rsp.body.None? ==> Snapshot() == old(Snapshot())
      ensures rsp.body.Some? ==>
                Snapshot() == old(Snapshot()).(entity := Some(Entity(Get(rsp.header, "Content-Type"), rsp.body.value)))
    {
      if rsp.body.Some? {
        self := SetEntity(Some(Entity(Get(rsp.header, "Content-Type"), rsp.body.value)));
      }
      self := this;
    }

    method SetCause(err: Option<Err>) returns (self: Error)
      modifies this
      ensures self == this && Snapshot() == old(Snapshot()).(cause := err)
    {
      cause := err;
      self := this;
    }

    /** `(*Error).Unwrap`: the next link of the chain that `Api(Snapshot())` starts. */
    function UnwrapCause(): (r: Option<Err>)
      reads this
      ensures r == Unwrap(Api(Snapshot()))
      ensures r.Some? ==> forall t :: Is(r.value, t) ==> Is(Api(Snapshot()), t)
    {
      cause
    }

    /** `(*Error).Error()`: starts with the redacted text, and is exactly it without a cause or entity. */
    function ErrorText(show: Entity -> string): (s: string)
      reads this
      ensures Message(Redact(), show) <= s
      ensures s == Message(Redact(), show) <==> cause.None? && entity.None?
      ensures s == Message(Api(Snapshot()), show)
    {
      RedactedIsPrefix(Snapshot(), show);
      Describe(Snapshot(), show)
    }

    /** `(*Error).Redacted`: keeps only the method, URL and message. */
    function Redact(): (r: Err)
      reads this
      ensures r.Encodable? && r.verb == verb && r.url == url && r.message == message
      ensures forall show :: Message(r, show) == verb + " " + url + ": " + message
    {
      Encodable(verb, url, message)
    }
  }

  /**
   * `checkErr`: no error for a 2xx response; otherwise a fresh `*Error` carrying the
   * status, the request id, the request, the body if it could be read, and the
   * sentinel cause for the status.
   */
  method CheckErr(reqid: int, req: Request, rsp: Response, lib: Library) returns (err: Option<Error>)
    ensures err.None? <==> IsSuccess(rsp.status)
    ensures err.Some? ==> fresh(err.value)
    ensures err.Some? ==> err.value.Snapshot() == CheckErrRecord(reqid, req.verb, lib.urlString(req.url), rsp, lib)
  {
    if IsSuccess(rsp.status) {
      return None;
    }
    var e := new Error.Errorf(rsp.status, "Unexpected status code: " + Itoa(rsp.status) + " " + lib.statusText(rsp.status));
    e := e.SetId(reqid);
    e := e.SetRequest(req, lib);
    e := e.SetEntityFromResponse(rsp);
    match StatusCause(rsp.status) {
      case Some(c) => e := e.SetCause(Some(c));
      case None =>
    }
    err := Some(e);
  }

  /** The fields of the error `checkErr` builds for a non-2xx response. */
  function CheckErrRecord(reqid: int, verb: string, url: string, rsp: Response, lib: Library): (r: ErrorRecord)
    ensures r.status == rsp.status && r.reqId == reqid && r.verb == verb && r.url == url
    ensures r.cause == StatusCause(rsp.status)
    ensures r.entity.Some? <==> rsp.body.Some?
    ensures r.entity.Some? ==> r.entity.value.data == rsp.body.value
  {
    ErrorRecord(reqid, rsp.status, verb, url,
                if rsp.body.Some? then Some(Entity(Get(rsp.header, "Content-Type"), rsp.body.value)) else None,
                "Unexpected status code: " + Itoa(rsp.status) + " " + lib.statusText(rsp.status),
                StatusCause(rsp.status))
  }
}
