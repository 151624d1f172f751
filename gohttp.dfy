/**
 * The `net/http` and `net/url` values the client reads and rewrites, and the
 * library primitives whose definitions lie outside this model (URL formatting
 * and resolution, status texts, SHA-256, regular expressions, entity rendering).
 * Those primitives are fields of a `Library` value handed to the operations
 * that use them, so nothing is assumed about them beyond their types.
 */
module GoHttp {
  import opened Wrappers
  import opened GoText
  import opened GoHeader

  /** A parsed `*url.URL`; `query` holds the decoded query string (`URL.Query()`). */
  datatype Url = Url(scheme: string, host: string, path: string, query: map<string, seq<string>>)

  /** A captured response body with its content type (`api.Entity`). */
  datatype Entity = Entity(contentType: string, data: seq<byte>)

  /** A compiled regular expression (`*regexp.Regexp`), known by its source text. */
  datatype Pattern = Pattern(source: string)

  /**
   * An `*http.Response` as the client sees it: the status code, the header and the
   * outcome of reading the body (`None` when reading the body fails).
   */
  datatype Response = Response(status: int, header: Header, body: Option<seq<byte>>)

  /** An `*http.Client`, known by its timeout in nanoseconds (the transport itself is not modelled). */
  datatype HttpClient = HttpClient(timeout: int)

  /** The primitives of the Go libraries that are not part of this model. */
  datatype Library = Library(
    urlString: Url -> string,                    // (*url.URL).String
    resolve: (Url, Url) -> Url,                  // (*url.URL).ResolveReference
    parseUrl: string -> Result<Url, string>,     // url.Parse; the failure is the error's text
    statusText: int -> string,                   // http.StatusText
    sha256Hex: seq<byte> -> string,              // hex.EncodeToString(sha256.Sum256(b))
    compile: string -> Result<Pattern, string>,  // regexp.Compile
    matchString: (Pattern, string) -> bool,      // (*regexp.Regexp).MatchString
    entityString: Entity -> string)              // (*api.Entity).String

  /** An `*http.Request`: the client rewrites its URL and header in place. */
  class Request {
    var verb: string  // the HTTP method
    var url: Url
    var header: Header

    constructor (verb: string, url: Url, header: Header)
      ensures this.verb == verb && this.url == url && this.header == header
    {
      this.verb := verb;
      this.url := url;
      this.header := header;
    }
  }
}
