/**
 * v1/httputil/link.go: picking the `rel="next"` link out of a response's `Link`
 * header, and the URL of the next page it names.
 */
module LinkNext {
  import opened Wrappers
  import opened GoHeader
  import opened GoHttp
  import opened ApiErrors
  import opened LinkPage

  /** `Link`: a URL and its parameters; `None` stands for a nil map. */
  datatype PageLink = PageLink(url: string, params: Option<map<string, string>>)

  /** A Go map lookup: the value, or "" for a missing key. */
  function Lookup(m: map<string, string>, k: string): string {
    if k in m then m[k] else ""
  }

  /** `Link.Results`: the parameters exist and `results` is exactly `true`. */
  function Results(l: PageLink): (r: bool)
    ensures r <==> l.params.Some? && "results" in l.params.value && l.params.value["results"] == "true"
  {
    l.params.Some? && Lookup(l.params.value, "results") == "true"
  }

  /** The `Link` header of a response, or "" without one. */
  function LinkHeader(rsp: Response): string {
    Get(rsp.header, "Link")
  }

  /**
   * `ParseNext`: no link for a missing response or an empty `Link` header; a parse
   * error is returned unchanged; otherwise the `rel="next"` link, if there is one.
   */
  function ParseNext(rsp: Option<Response>): (r: Result<Option<PageLink>, Err>)
    ensures rsp.None? || LinkHeader(rsp.value) == "" ==> r == Success(None)
    ensures rsp.Some? && LinkHeader(rsp.value) != "" ==>
              var links := ParseLinksSpec(LinkHeader(rsp.value));
              && (links.Failure? ==> r == Failure(links.error))
              && (links.Success? && "next" !in links.value ==> r == Success(None))
              && (links.Success? && "next" in links.value ==>
                    r == Success(Some(PageLink(links.value["next"].url, Some(links.value["next"].params)))))
    ensures r.Success? && r.value.Some? ==>
              var p := r.value.value.params;
              p.Some? && "rel" in p.value && p.value["rel"] == "next"
  {
    if rsp.None? then Success(None)
    else
      var hdr := LinkHeader(rsp.value);
      if hdr == "" then Success(None)
      else
        match ParseLinksSpec(hdr)
        case Failure(e) => Failure(e)
        case Success(links) =>
          if "next" !in links then Success(None)
          else Success(Some(PageLink(links["next"].url, Some(links["next"].params))))
  }

  /**
   * `NextPage`: the URL of the next link; "" when there is none, or when its `results`
   * parameter is present and not `true`.
   */
  function NextPage(rsp: Option<Response>): (r: Result<string, Err>)
    ensures ParseNext(rsp).Failure? <==> r.Failure?
    ensures r.Failure? ==> r.error == ParseNext(rsp).error
    ensures ParseNext(rsp) == Success(None) ==> r == Success("")
  {
    match ParseNext(rsp)
    case Failure(e) => Failure(e)
    case Success(next) =>
      if next.None? then Success("")
      else if next.value.params.Some? && "results" in next.value.params.value
              && next.value.params.value["results"] != "true" then Success("")
      else Success(next.value.url)
  }

  /**
   * A next link that carries a `results` parameter yields its URL exactly when
   * `Results` holds for it; one without the parameter always yields its URL.
   */
  lemma NextPageFollowsResults(rsp: Option<Response>)
    requires ParseNext(rsp).Success? && ParseNext(rsp).value.Some?
    ensures var l := ParseNext(rsp).value.value;
            && ("results" in l.params.value ==> (NextPage(rsp) == Success(l.url) <==> Results(l) || l.url == ""))
            && ("results" in l.params.value && Results(l) ==> NextPage(rsp) == Success(l.url))
            && ("results" !in l.params.value ==> NextPage(rsp) == Success(l.url))
  {
  }

  /** A non-empty next page is the URL of a `rel="next"` link whose `results`, if any, is `true`. */
  lemma NextPageIsNextLink(rsp: Option<Response>)
    requires NextPage(rsp).Success? && NextPage(rsp).value != ""
    ensures rsp.Some? && LinkHeader(rsp.value) != ""
    ensures var links := ParseLinksSpec(LinkHeader(rsp.value));
            links.Success? && "next" in links.value && links.value["next"].rel == "next"
            && NextPage(rsp).value == links.value["next"].url
            && ("results" in links.value["next"].params ==> links.value["next"].params["results"] == "true")
  {
  }
}
