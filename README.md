# go-apiclient v1 in Dafny

This project is a Dafny model of the core of `github.com/bww/go-apiclient/v1`. That is a small
Go HTTP client library. It covers the following parts of the library:

- **The client.** Building a client from a configuration and functional options. Deriving
  clients with another base URL or authorizer. The round trip of one request:
  - resolving against the base URL;
  - authorizing the request;
  - merging default headers without overwriting explicit ones;
  - waiting for the rate limiter;
  - the retry loop with rate-limit retries and a progressive backoff on retryable statuses;
  - turning non-2xx responses into `*Error` values with a sentinel cause.
- **Errors.** The error record and its setters, the wrapping chain (`Unwrap`/`errors.Is`),
  the text of an error and its redacted form.
- **Authorizers.** Header, query, Basic, Bearer and OAuth authorizers. The OAuth token source's
  outcome is supplied to the model as a value.
- **Debugging.** The `Debug` filter and environment overrides. The header sanitiser of
  the request and response dumps, which redacts the values of sensitive headers.
- **Events.** The observer registry and its three dispatch functions, which stop at the
  first observer error.
- **The multiplexer.** Its options, request producers and per-request block. The production
  loop of `Do`. `Collect`, which sorts results back into request order, and `Unmarshal`.
- **Pagination.** The `Link` header parser (`parseLinks`, `parseParam`), plus `ParseNext`
  and `NextPage`.

The parts of the Go standard library that the core relies on are modelled in small modules
of their own, each with its own properties:

- `strings` trimming, `Index` and `Split`, decimal formatting and UTF-8 byte length (`GoText`);
- `http.CanonicalHeaderKey` and `http.Header` `Set`/`Add`/`Get` (`GoHeader`);
- standard Base64 encoding (`Base64`);
- the `strconv.Unquote` subset used by `parseParam` (`GoQuote`).

Some primitives are not modelled: URL parsing and formatting, `http.StatusText`, SHA-256,
regular expressions and the textual form of an entity. They are fields of a `Library` value
that is passed as a parameter (`GoHttp`), so every property holds whatever they compute.

Go's map iteration order is unspecified. Each loop over a map chooses its next key
nondeterministically. It returns the order it used as a ghost out-parameter, and the
contract is stated for that order. Any property that must hold for every order is proved
for an arbitrary one.

## Model

| member | source | states |
|---|---|---|
| GoText.TrimLeft | v1/httputil/page.go:80-85 | the result is a suffix of the input; what was dropped is all white space; the result does not start with white space |
| GoText.TrimRight | v1/httputil/page.go:45-47 | the result is a prefix of the input; what was dropped is all white space; the result does not end with white space |
| GoText.TrimSpace | v1/httputil/page.go:45-47 | the result neither starts nor ends with white space and is no longer than the input |
| GoText.TrimSpaceSlice | v1/httputil/page.go:45-47 | the result is a contiguous slice of the input with only white space before and after it |
| GoText.Index | v1/httputil/page.go:37 | -1 exactly when the character is absent; otherwise the position of its first occurrence |
| GoText.Split | v1/httputil/page.go:59 | at least one part; no part contains the separator; joining the parts with the separator gives back the input |
| GoText.SplitJoin | v1/httputil/page.go:59 | splitting the join of separator-free parts gives back those parts |
| GoText.NatToString | v1/debug.go:34 | a non-empty string of decimal digits |
| GoText.ParseNatToString | v1/debug.go:34 | decimal formatting is inverted by parsing the digits back |
| GoText.EncodeRune | v1/debug.go:33-34 | a character encodes to 1 to 4 bytes |
| GoText.Utf8 | v1/debug.go:33-34 | the byte length is at least the character count |
| GoText.Utf8Append | v1/auth.go:64 | the encoding of a concatenation is the concatenation of the encodings |
| GoText.Utf8Ascii | v1/auth.go:64 | ASCII text encodes to one byte per character, with the same code |
| GoHeader.CaseFold | v1/api.go:291 | length and hyphen positions are preserved; a token stays a token |
| GoHeader.CanonicalHeaderKey | v1/api.go:291 | the canonical key has the same length as the key |
| GoHeader.CanonicalToken | v1/debug.go:26 | the canonical key is a token iff the key is; a key that is not a token is returned unchanged |
| GoHeader.CaseFoldIdempotent | v1/debug.go:26 | case folding twice is case folding once |
| GoHeader.CanonicalIdempotent | v1/api.go:290-295 | canonicalising a canonical key changes nothing |
| GoHeader.CaseFoldIgnoresCase | v1/api.go:291 | keys that differ only in letter case fold to the same string |
| GoHeader.CanonicalIgnoresCase | v1/api.go:291 | token keys that differ only in letter case have the same canonical key |
| GoHeader.SetThenGet | v1/config.go:95 | `Get` after `Set` returns the value set; keys with another canonical name are unaffected |
| GoHeader.AddAppends | v1/debug.go:29 | `Add` appends one value under the canonical key and leaves every other name as it was |
| Base64.Encode | v1/auth.go:64 | the encoding has length 4 * ceil(n / 3) |
| Base64.DecodeEncode | v1/auth.go:64 | decoding the encoding of any byte string gives it back |
| GoQuote.Unquote | v1/httputil/page.go:101-106 | a string unquotes only if it starts and ends with a double quote |
| GoQuote.UnquoteQuote | v1/httputil/page.go:101-106 | unquoting the quoted form of any string gives it back |
| GoQuote.UnquotePlain | v1/httputil/page.go:101-106 | a body without quote, backslash or newline unquotes to itself |
| GoHttp.Request.constructor | v1/multiplex/multiplex.go:111 | a new request carries the given method, URL and headers |
| ApiErrors.IsUnwrap | v1/error.go:131-133 | `Is` holds iff the error is the target or its unwrapped cause satisfies `Is` |
| ApiErrors.WrapErr | v1/error.go:36-53 | the wrapper shows the wrapped error's message, unwraps to the base, and is everything the base is |
| ApiErrors.StatusCauseInverse | v1/error.go:63-76 | each sentinel belongs to exactly one status (400, 401, 403, 404, 422, 500); a 2xx status has no sentinel |
| ApiErrors.IsSentinelIffStatus | v1/error.go:59-80 | an error built for a status is a given sentinel iff its status is that sentinel's status |
| ApiErrors.RedactedIsPrefix | v1/error.go:135-162 | the redacted text is "METHOD URL: message" and begins the full error text |
| ApiErrors.Error.Errorf | v1/error.go:92-97 | a new error holds only the status and message |
| ApiErrors.Error.SetId | v1/error.go:99-102 | only the request id changes; the receiver is returned |
| ApiErrors.Error.SetRequest | v1/error.go:104-108 | only the method and the URL text change, copied from the request |
| ApiErrors.Error.SetEntity | v1/error.go:110-113 | only the entity changes |
| ApiErrors.Error.SetEntityFromResponse | v1/error.go:115-124 | a readable body becomes the entity, with the response's content type; an unreadable one changes nothing |
| ApiErrors.Error.SetCause | v1/error.go:126-129 | only the cause changes |
| ApiErrors.Error.UnwrapCause | v1/error.go:131-133 | unwrapping gives the cause; whatever the cause is, the error is |
| ApiErrors.Error.ErrorText | v1/error.go:135-144 | the text begins with the redacted text and equals it iff there is neither a cause nor an entity |
| ApiErrors.Error.Redact | v1/error.go:146-162 | the redacted error keeps method, URL and message and prints "METHOD URL: message" |
| ApiErrors.CheckErr | v1/error.go:59-80 | no error iff the status is 2xx; otherwise a fresh error built from the request and response |
| ApiErrors.CheckErrRecord | v1/error.go:59-80 | the record holds status, request id, method and URL, the status's sentinel as cause, and the body as its entity |
| ApiAuth.SetValues | v1/auth.go:27 | after `Set(k, v)` the canonical name of `k` holds exactly `[v]`; every other name is unchanged |
| ApiAuth.LastSetter | v1/auth.go:25-29 | an index in the visiting order, or -1; a found index is a key that sets the name |
| ApiAuth.LastSetterSpec | v1/auth.go:25-29 | -1 exactly when no key sets the name; no key after the found one sets it |
| ApiAuth.SetFirstsValues | v1/auth.go:24-31 | each name holds the first value of the last key that sets it, or its old values when no key does |
| ApiAuth.AuthorizeHeader | v1/auth.go:24-31 | visits every configured key once; the header becomes the result of setting each key's first value in that order |
| ApiAuth.QueryMerge | v1/auth.go:43-53 | the merged query holds the old values of each key followed by the added ones |
| ApiAuth.QueryAdd | v1/auth.go:48 | `q.Add` appends one value under the key and leaves every other key as it was |
| ApiAuth.AddAll | v1/auth.go:47-49 | `q.Add` of each value appends them under one key and leaves the others |
| ApiAuth.AuthorizeQuery | v1/auth.go:43-53 | only the URL's query changes, to the merge of the old query and the parameters |
| ApiAuth.BasicCredentialsDecode | v1/auth.go:63-66 | the credentials are "Basic " plus Base64 of "user:pass"; their payload decodes back to user and password when the user has no colon |
| ApiAuth.AuthorizeBasic | v1/auth.go:63-66 | sets `Authorization` to the Basic credentials and changes nothing else |
| ApiAuth.AuthorizeBearer | v1/auth.go:76-79 | sets `Authorization` to "Bearer " plus the token and changes nothing else |
| ApiAuth.Authorize | v1/auth.go:24-100 | fails iff the authorizer is OAuth and its token source fails, returning that error with the request unchanged; the query authorizer changes only the query (merged), the Basic, Bearer and OAuth authorizers change only `Authorization`, the header authorizer only its configured names; the method never changes |
| Events.Filter | v1/events/events.go:17-28 | the kept observers are observers of the list that implement the interface |
| Events.FilterComplete | v1/events/events.go:17-28 | every observer of the list that implements the interface is kept |
| Events.FilterAppend | v1/events/events.go:17-28 | adding an observer extends the filtered list by it exactly when it implements the interface |
| Events.Observers.constructor | v1/events/events.go:10-15 | a new registry has empty lists |
| Events.Observers.Add | v1/events/events.go:17-28 | appends to the full list and to each list whose interface the observer implements |
| Events.FirstErrorSpec | v1/events/events.go:30-67 | no error iff every observer succeeds; otherwise the error of some observer, and every observer before it succeeded |
| Events.Dispatch | v1/events/events.go:34-40 | returns the first error; observers are called in order up to and including the first one that fails |
| Events.WillSendRequest | v1/events/events.go:30-41 | a nil registry gives no error; otherwise the first error of the preflight observers |
| Events.DidReceiveResponse | v1/events/events.go:43-54 | a nil registry gives no error; otherwise the first error of the postflight observers |
| Events.RequestFailedWithError | v1/events/events.go:56-67 | a nil registry gives no error; otherwise the first error of the failure observers |
| ApiConfig.Matches | v1/config.go:19-26 | no filter matches every request; with a filter, match iff the URL path matches it |
| ApiConfig.WithEnv | v1/config.go:28-42 | the debug and verbose flags as overridden by the environment, with debug implying verbose; the filter is compiled only when set, and a compile error is returned with the filter left unchanged |
| ApiConfig.WithEnvIdempotent | v1/config.go:28-42 | applying the environment twice is applying it once |
| ApiConfig.Overwrite | v1/config.go:105-107 | every key of the source overwrites; every other key of the destination is kept |
| ApiConfig.Apply | v1/config.go:69-139 | the configuration returned by the option's closure |
| ApiConfig.With | v1/config.go:60-65 | the options applied left to right |
| ApiConfig.WithOptions | v1/config.go:141-146 | the options applied left to right |
| ApiConfig.FoldAppend | v1/config.go:141-146 | applying `a + b` is applying `a` and then `b` |
| ApiConfig.OptionsCommute | v1/config.go:69-139 | options that write different fields commute |
| ApiConfig.LaterOverrides | v1/config.go:69-139 | of two options writing the same non-header field, only the later one matters |
| ApiConfig.WithHeaderSets | v1/config.go:90-98 | the canonical name holds exactly the value given; every other name is kept |
| ApiConfig.WithHeadersMerges | v1/config.go:100-111 | without a header the given one is adopted; otherwise its keys overwrite and other keys are kept |
| ApiDebug.DefaultAllowHeaderExact | v1/debug.go:14-21 | every header name is allowed except exactly `Authorization` |
| ApiDebug.Redaction | v1/debug.go:33-34 | every notice begins with "<apiclient: redacted " |
| ApiDebug.RedactionForm | v1/debug.go:33-34 | the notice is "<apiclient: redacted ", the decimal UTF-8 byte count of the value (it parses back to that count), " bytes; SHA256=", the digest of those bytes and ">" |
| ApiDebug.RedactionAscii | v1/debug.go:33-34 | for ASCII values the count in the notice is the number of characters |
| ApiDebug.Redactions | v1/debug.go:32-35 | one notice per value, in order |
| ApiDebug.SanitizedValues | v1/debug.go:23-39 | each name holds the values of the keys with that canonical name, in visiting order, as they are when allowed and as notices otherwise |
| ApiDebug.SanitizedKeys | v1/debug.go:23-39 | every name of the result is canonical and is the canonical name of some input key |
| ApiDebug.AddValues | v1/debug.go:28-30 | `res.Add` of each value appends them all under the name |
| ApiDebug.SanitizedNames | v1/debug.go:23-39 | the same for every name of the sanitised header at once |
| ApiDebug.SanitizeHeaders | v1/debug.go:23-39 | visits every key once; the result is the sanitised header for that visiting order, and all its names are canonical names of input keys |
| ApiDebug.AuthorizationRedacted | v1/debug.go:14-39 | with `defaultAllowHeader`, the sanitised header holds one redaction notice, and no raw value, for each `Authorization` value of the input |
| ApiClient.StatusSet | v1/api.go:95-98 | the retry set holds exactly the configured statuses |
| ApiClient.NewWithConfig | v1/api.go:70-119 | a bad base URL fails first ("Invalid base URL: …"), then a debug filter that does not compile; fails iff one of them does; otherwise every field comes from the configuration, with the HTTP client, content type and retry set defaulted as in the source |
| ApiClient.New | v1/api.go:63-67 | exactly what `NewWithConfig` promises for the options folded over a configuration holding the shared HTTP client; a built client uses that shared client |
| ApiClient.WithBase | v1/api.go:125-135 | replaces the base URL, drops the retry set and the backoff, and keeps everything else |
| ApiClient.WithAuthorizer | v1/api.go:141-151 | replaces the authorizer, drops the retry set and the backoff, and keeps everything else |
| ApiClient.MergeDefaultHeaders | v1/api.go:290-295 | names already in the request keep their values; each default key's canonical name ends up set; every new name comes from a default key |
| ApiClient.BackoffDelay | v1/api.go:379-385 | the delay is the backoff, or three minutes when unset, times the attempt number |
| ApiClient.Pad6 | v1/api.go:321 | the request id is zero-padded to at least six digits |
| ApiClient.RateLimitError | v1/api.go:403-405 | a non-retry rate-limit error is reported as text only: it wraps nothing and is not the limiter's error |
| ApiClient.Decide | v1/api.go:342-409 | an attempt waits iff it had a response, is not canceled, and either the limiter asks to retry below the retry limit or the status is retryable (retry set, status in it, below the limit); a wanted wait that is canceled fails with `Canceled`; a limiter wait lasts the limiter's delay, a backoff wait the progressive delay |
| ApiClient.LoopDecisions | v1/api.go:340-410 | every wait of the loop is the decision of its attempt, and the loop's outcome is the decision of the attempt after the last wait |
| ApiClient.CanceledWaitEndsRun | v1/api.go:353-395 | when the first attempt that wants to wait is canceled, the loop ends there with `Canceled` |
| ApiClient.Loop | v1/api.go:340-410 | at most three waits; every retried attempt had a response and was not canceled; each backoff wait is the progressive delay and happens only with a retry set |
| ApiClient.TryOnce | v1/api.go:343-405 | one attempt decides exactly as the specification `Decide`: transport error, limiter retry or error, status backoff, cancellation, status error, limiter error or success |
| ApiClient.RetryLoop | v1/api.go:340-410 | the loop's outcome and waits are those of the specification, with one transport call per wait plus one |
| ApiClient.GateError | v1/api.go:297-318 | no error without a limiter; a window error is wrapped; cancellation is reported only while delaying |
| ApiClient.AuthFailure | v1/api.go:284-289 | authorization fails iff the client has an OAuth authorizer whose token source fails |
| ApiClient.Prepare | v1/api.go:274-295 | the URL is resolved against the base; the authorizer acts as `Authorize` states on the resolved request; an authorization error is returned with no default header merged; otherwise the default headers merge into the authorized header |
| ApiClient.Send | v1/api.go:297-437 | a limiter or request-trace error is returned with nothing sent; otherwise one transport call per wait of the retry loop plus one, at most four, and the loop's result, except that a failure reading the response body for the trace replaces a success |
| ApiClient.RoundTrip | v1/api.go:270-439 | an authorization error, a limiter error or a request-trace error returns before anything is sent; otherwise the request is resolved, authorized and merged as `Prepare` states and sent as `Send` states, with at least one and at most four transport calls, and a success is 2xx |
| ApiClient.TransportErrorReturned | v1/api.go:343-346 | a transport error ends the loop at once and is returned as is |
| ApiClient.SuccessOnlyIf2xx | v1/api.go:399-409 | the loop succeeds only with a 2xx response |
| ApiClient.DoneSuccess | v1/api.go:399-409 | an attempt that ends the loop with a response got exactly that 2xx response, with no limiter error |
| ApiClient.StatusErrorFirst | v1/api.go:399-402 | a non-2xx status that is not retried fails with the status error before any rate-limit error |
| ApiClient.RetryErrorAtLimit | v1/api.go:358-361 | a retry-after from the limiter at the retry limit returns the limiter's error |
| ApiClient.DerivedClientsNeverBackoff | v1/api.go:125-151 | clients from `WithBase` or `WithAuthorizer` never back off on a status; they only wait for the limiter |
| Multiplex.Apply | v1/multiplex/multiplex.go:49-66 | the configuration returned by the option's closure |
| Multiplex.WithOptions | v1/multiplex/multiplex.go:33-38 | the options applied left to right |
| Multiplex.LaterHeadersOverwrite | v1/multiplex/multiplex.go:56-66 | of two header options, the later value wins for a key in both; the earlier value stays for keys only it has |
| Multiplex.LastHandlerWins | v1/multiplex/multiplex.go:49-54 | the last error handler configured is the one used |
| Multiplex.Lift | v1/multiplex/multiplex.go:40-45 | the configured headers as a header with one value per key |
| Multiplex.ConfigureRequest | v1/multiplex/multiplex.go:40-45 | without headers nothing changes; otherwise each configured key is set, in visiting order |
| Multiplex.ConfiguredValues | v1/multiplex/multiplex.go:40-45 | names no configured key maps to are unchanged; a configured name holds the value of a key with that name; with a single such key, exactly its value |
| Multiplex.NewGet | v1/multiplex/multiplex.go:93-98 | a URL producer with method GET |
| Multiplex.NewDelete | v1/multiplex/multiplex.go:100-105 | a URL producer with method DELETE |
| Multiplex.Produce | v1/multiplex/multiplex.go:78-116 | past the end, no request; a static producer gives its own entry; a URL producer gives a parse error or a fresh request for that URL |
| Multiplex.New | v1/multiplex/multiplex.go:179-186 | concurrency is max(1, n); the flags come from the environment |
| Multiplex.Coalesce | v1/multiplex/multiplex.go:191 | the per-call handler if set, else the multiplexer's |
| Multiplex.Block | v1/multiplex/multiplex.go:189-214 | a success writes the indexed result; a failure with no handler is wrapped as "Could not multiplex request: …"; with a handler, a handler error is wrapped the same way, a handler response is written as the indexed result, and a consumed failure writes nothing |
| Multiplex.CallHandlerFirst | v1/multiplex/multiplex.go:191 | with a per-call handler, the multiplexer's handler is never consulted |
| Multiplex.ConsumedEmitsNothing | v1/multiplex/multiplex.go:198-205 | a handler that returns neither response nor error produces no result and no error |
| Multiplex.Enqueue | v1/multiplex/multiplex.go:233-253 | one step of the loop: a producer error or a configuration error aborts, no request ends the loop, otherwise the request is configured and handed to the dispatcher, whose stop or error ends the loop |
| Multiplex.ProductionLoop | v1/multiplex/multiplex.go:233-260 | requests are queued in index order until the context ends, the producer is exhausted, the dispatcher stops or an error aborts; each queued header is the produced header with the configured headers set; a static request keeps its produced header before configuration; a URL producer's request has the producer's method, the parsed URL and only the configured headers |
| Multiplex.Drain | v1/multiplex/multiplex.go:135-143 | the items read before the first non-item, and that non-item |
| Multiplex.Responses | v1/multiplex/multiplex.go:146-149 | the responses of the results, in order |
| Multiplex.SortByIndex | v1/multiplex/multiplex.go:145 | the results are sorted by index and are a permutation of the input |
| Multiplex.ResponsesOf | v1/multiplex/multiplex.go:146-149 | the i-th response is the response of the i-th sorted result |
| Multiplex.Collect | v1/multiplex/multiplex.go:129-152 | an incoming or stream error is returned; otherwise the responses of all results read, sorted by index |
| Multiplex.ReadAll | v1/multiplex/multiplex.go:135-143 | reads exactly what `Drain` specifies |
| Multiplex.CollectInOrder | v1/multiplex/multiplex.go:129-152 | when results carry distinct indexes 0..n-1, the i-th response is the one for request i |
| Multiplex.DecodeAll | v1/multiplex/multiplex.go:159-168 | every response decoded in order, or the error of the first response that does not decode |
| Multiplex.Unmarshal | v1/multiplex/multiplex.go:154-169 | a collect error is wrapped as "Could not collect responses: …"; otherwise the first decode error, or the decoded entities in order |
| LinkPage.ParseParam | v1/httputil/page.go:91-109 | no '=' or an empty key is a malformed parameter; the key is the text before the first '='; a quoted value is unquoted, and its unquote error is returned |
| LinkPage.ParseParamWritten | v1/httputil/page.go:91-109 | `key=value` and `key="quoted value"` parse back to the key and value |
| LinkPage.ParseParams | v1/httputil/page.go:58-70 | an error comes from some non-empty argument; on success every non-empty argument's trimmed key is present |
| LinkPage.ParseParamsFirstError | v1/httputil/page.go:58-70 | a failed parse reports the error of the first non-empty argument that does not parse, every earlier non-empty one parsing |
| LinkPage.ParseParamsStore | v1/httputil/page.go:58-70 | a successful parse stores the trimmed key and value of each non-empty argument, in order, into the starting map |
| LinkPage.StoreSpec | v1/httputil/page.go:66-68 | storing pieces in order gives exactly the starting keys and the stored keys; each stored key holds the value of its last piece; a starting key no piece stores keeps its value |
| LinkPage.ParseParamsStored | v1/httputil/page.go:58-70 | on success the keys are exactly the starting keys and the trimmed keys of non-empty arguments; each such key holds the trimmed value of the last argument defining it, and a starting key no argument defines keeps its value |
| LinkPage.LinkUrl | v1/httputil/page.go:50-56 | fails with malformed links iff the text is not `<…>`; otherwise the text between the brackets |
| LinkPage.ParsePart | v1/httputil/page.go:43-78 | a link is produced only with a `rel` parameter, and it carries that rel |
| LinkPage.ParsePartCases | v1/httputil/page.go:43-78 | a URL not in angle brackets fails as malformed links; a parameter error is returned; otherwise a link with the URL, the `rel` value and all parameters when `rel` is present, and no link without it |
| LinkPage.NextPart | v1/httputil/page.go:36-41 | with a comma past the first character, the part before the first comma and the rest, joined by that comma, give the input; otherwise the whole input and nothing left |
| LinkPage.SkipSpace | v1/httputil/page.go:80-85 | leading white space is dropped, except that an all-space remainder is left as it is |
| LinkPage.ParseLinksFrom | v1/httputil/page.go:35-86 | the rels found earlier stay; every link is stored under its own rel |
| LinkPage.ParseLinksSpec | v1/httputil/page.go:32-89 | every link in the result is stored under its own rel |
| LinkPage.SkipLeadingSpace | v1/httputil/page.go:80-85 | the loop computes `SkipSpace` |
| LinkPage.ParseLinks | v1/httputil/page.go:32-89 | the loop computes `ParseLinksSpec` |
| LinkPage.ParamsOf | v1/httputil/page.go:58-70 | the parameter loop succeeds iff `ParseParams` does, with the same map or error |
| LinkPage.EmptyHeader | v1/httputil/page.go:33-35 | an empty header parses to no links |
| LinkPage.MalformedUrlRejected | v1/httputil/page.go:50-53 | a part whose URL is not in angle brackets fails the whole parse |
| LinkPage.LaterRelWins | v1/httputil/page.go:72-78 | a later link with the same rel replaces an earlier one |
| LinkPage.TrailingSpaceRejected | v1/httputil/page.go:37-85 | a header ending in a comma followed only by white space is rejected as malformed |
| LinkPage.SemicolonInQuotedValueFails | v1/httputil/page.go:26-31 | a quoted parameter value holding a `;` is cut at it and fails with a syntax error |
| LinkPage.SemicolonInQuotedLinkFails | v1/httputil/page.go:26-31 | a whole header `<u>;k="a;b` with such a value is rejected with a syntax error |
| LinkPage.TrimSpaceAllSpace | v1/httputil/page.go:45-47 | trimming all-space text gives the empty string |
| LinkNext.Results | v1/httputil/link.go:12-14 | true iff there are parameters and `results` is exactly "true" |
| LinkNext.ParseNext | v1/httputil/link.go:17-37 | no link without a response or `Link` header; parse errors are returned; otherwise exactly the URL and parameters of the `next` link when present, and no link when absent |
| LinkNext.NextPage | v1/httputil/link.go:40-56 | fails iff `ParseNext` fails, with its error; "" when there is no next link |
| LinkNext.NextPageFollowsResults | v1/httputil/link.go:47-55 | the next link's URL is returned iff its `results` parameter is absent or "true" |
| LinkNext.NextPageIsNextLink | v1/httputil/link.go:40-56 | a non-empty next page is the URL of the parsed `next` link, whose `results` is "true" if present |

## Left out

- Transport, clocks and cancellation. `http.Client.Do`, the limiter's `Next` and `Update`,
  the result of reading a body, and whether the context is done at each wait are supplied per
  attempt by an environment parameter. Waiting itself is recorded as a list of waits.
- Concurrency. In the multiplexer the dispatcher, the result channel, the goroutine and the
  iterator's `Cancel` are not modelled. Execution outcomes and the stream of results are given
  as sequences, in any completion order.
- Metrics samplers and every `fmt.Printf` of the trace output are left out. The header
  sanitiser of v1/debug.go is modelled, but `dumpReq` and `dumpRsp`, its only callers
  (v1/debug.go:41-74), are never called.
- `RoundTrip`'s debug trace (v1/api.go:323-326 and 422-425) writes the request and response
  headers with `Header.Write`, unsanitised. With debug on, the `Authorization` value the
  authorizer set is printed in clear, so the redaction that the sanitiser provides does not
  reach the trace the client actually prints.
- Rate limiter internals (go-ratelimit) are not part of this model. Their results are inputs.
- v1/entity.go (`Marshal`, `Unmarshal`, `entityReader`) is not part of this model. Decoding is
  a function parameter of `Multiplex.Unmarshal`.
- `Exec`, `Get`, `Post`, `Put`, `Delete`, `unmarshal` and `URLWithParams` in v1/api.go are not
  part of this model. They are thin wrappers over `RoundTrip` and the entity code.
- `OAuthAuthorizer`: the `oauth2.TokenSource` is not modelled. Its outcome is passed to
  `Authorize` and `RoundTrip` as a value: the `Authorization` value of the token, or an error.
- Authorizers written by callers (any other implementation of the `Authorizer` interface) are
  not modelled. The model has the five authorizers of v1/auth.go.
- `RequestProducerFunc` (v1/multiplex/multiplex.go:72-76) is not modelled. It is an arbitrary
  function, on which the Go loop can run forever. The model's producers are the static list
  and the URL producers.
- The error from a failed authorization is passed through `errutil.Redact`, which is not part
  of this model. The result is an opaque wrapper of `ErrCouldNotAuthorize`.
- URL parsing, `ResolveReference` and `String`, `http.StatusText`, SHA-256 and `regexp` are
  uninterpreted fields of `Library`. `url.Values.Encode` into `RawQuery` is modelled as the
  query map itself.
- GoQuote.Unquote: numeric escapes (`\x`, `\u`, `\U`, octal) are reported as errors, although
  `strconv.Unquote` decodes them. Backquoted and single-quoted literals are not modelled,
  because `parseParam` unquotes only values that start with a double quote.
- ApiClient.BackoffDelay: does not model `time.Duration` (int64) overflow of the multiplied
  delay. Durations are unbounded integers of nanoseconds.
- ApiClient.RoundTrip: the request counter (`atomic.AddInt64`) and the multiplexer's
  `nextReq` are replaced by a request-id parameter.
- Environment variables are passed as values (`Env`, `MuxEnv`) rather than read.
- The aliasing of the caller's map when `WithHeaders` adopts it (v1/config.go:103) is not
  modelled, because maps are values here.
- Sentinel errors are compared by value (`Text`), not by reference identity.
- Strings are sequences of characters, and indices count characters where the Go code
  counts bytes. The two differ as soon as a multi-byte character comes before the position.
  For valid UTF-8, the pieces cut at an ASCII delimiter are the same either way, because
  such a byte never occurs inside a multi-byte character.
- Go strings that are not valid UTF-8 are not represented. A header value may carry raw
  bytes 0x80-0xFF. Go decodes such a byte as U+FFFD, which is not white space, whereas the
  characters U+0085 and U+00A0 are white space for `IsSpace`.
- Multiplex.SortByIndex: an insertion sort. It orders results with equal indexes stably,
  which Go's `sort.Sort` does not promise. Indexes are distinct in every run of `Do`.
- Multiplex.New: `Mux.errors` is never set by any constructor in the source. It is kept as a
  field that is `None` after `New`.
- v1/default.go, v1/events/handlers.go and the `ErrorHandlerFunc` adapter
  (v1/multiplex/errors.go) are not part of this model. They are adapters with no logic of
  their own. Handlers are a function parameter.
