/** The generic site search (`internal/search/engine.go`): search
    DuckDuckGo's HTML endpoint for `site:<host>` and read the result blocks.

    The HTTP exchange is a parameter `engine`: given the query it returns the
    `.result` blocks of the answer page in document order, or `None` when the
    request, the status code or the HTML parse fails. */
module Search {
  import opened Wrappers
  import opened Text
  import opened Net
  import opened Results

  /** The `.result__a` elements of one block: their combined text and the
      `href` attribute of the first of them, if it has one. */
  datatype Link = Link(text: string, href: Option<string>)

  /** One `.result` block: its links, if there are any, and the combined
      text of its `.result__snippet` elements, if there are any. */
  datatype Block = Block(link: Option<Link>, snippet: Option<string>)

  type Engine = string -> Option<seq<Block>>

  datatype Error =
    | BadSiteUrl           // unparsable, or no host
    | RequestFailed(query: string)
    | NoResults(query: string)

  /** The path DuckDuckGo's redirect links go through. */
  const RedirectPath: string := "duckduckgo.com/l/"

  /** `extractDomain`: the host of the site url. */
  function ExtractDomain(parse: Parser, siteUrl: string): (r: Result<string, Error>)
    ensures r.Success? <==> parse(siteUrl).Some? && parse(siteUrl).value.host != []
    ensures r.Success? ==> r.value == parse(siteUrl).value.host
    ensures r.Failure? ==> r.error == BadSiteUrl
  {
    match parse(siteUrl)
    case None => Failure(BadSiteUrl)
    case Some(u) => if u.host == [] then Failure(BadSiteUrl) else Success(u.host)
  }

  /** The query sent for a host. */
  function SiteQuery(host: string): (q: string)
    ensures HasPrefix(q, "site:") && q[5..] == host
  {
    "site:" + host
  }

  /** The host can be read back from the query. */
  lemma SiteQueryInjective(a: string, b: string)
    ensures SiteQuery(a) == SiteQuery(b) ==> a == b
  {
    if SiteQuery(a) == SiteQuery(b) {
      assert a == SiteQuery(a)[5..];
    }
  }

  /** `extractRealURL`: a DuckDuckGo redirect link is replaced by its
      non-empty `uddg` parameter; every other link is kept. */
  function ExtractRealUrl(parse: Parser, u: string): (r: string)
    ensures !Contains(u, RedirectPath) ==> r == u
    ensures r != u ==> Contains(u, RedirectPath) && parse(u).Some? && r == QueryGet(parse(u).value, "uddg")
    ensures Contains(u, RedirectPath) && parse(u).Some? && QueryGet(parse(u).value, "uddg") != [] ==>
              r == QueryGet(parse(u).value, "uddg")
    ensures u != [] ==> r != []
  {
    if Contains(u, RedirectPath) && parse(u).Some? && QueryGet(parse(u).value, "uddg") != []
    then QueryGet(parse(u).value, "uddg")
    else u
  }

  /** The url of a result link: absolute links and protocol-relative links
      (completed with "https:") are followed through redirects; any other
      href gives no url. */
  function ResolveHref(parse: Parser, href: string): (r: string)
    ensures r != [] <==> HasPrefix(href, "http") || HasPrefix(href, "//")
    ensures HasPrefix(href, "http") ==> r == ExtractRealUrl(parse, href)
    ensures !HasPrefix(href, "http") && HasPrefix(href, "//") ==> r == ExtractRealUrl(parse, "https:" + href)
  {
    if HasPrefix(href, "http") then ExtractRealUrl(parse, href)
    else if HasPrefix(href, "//") then ExtractRealUrl(parse, "https:" + href)
    else ""
  }

  /** What one block yields before the accept check; the snippet is trimmed
      but not cut. */
  function BlockDraft(parse: Parser, b: Block): (d: Draft)
    ensures Keeps(d) <==>
      && b.link.Some? && !AllSpace(b.link.value.text)
      && b.link.value.href.Some?
      && (HasPrefix(b.link.value.href.value, "http") || HasPrefix(b.link.value.href.value, "//"))
    ensures b.link.None? ==> d.title == [] && d.url == []
    ensures b.link.Some? ==> d.title == TrimSpace(b.link.value.text)
    ensures b.link.Some? && b.link.value.href.None? ==> d.url == []
    ensures b.link.Some? && b.link.value.href.Some? ==> d.url == ResolveHref(parse, b.link.value.href.value)
    ensures b.snippet.None? ==> d.snippet == []
    ensures b.snippet.Some? ==> d.snippet == TrimSpace(b.snippet.value)
  {
    Draft(
      if b.link.Some? then TrimSpace(b.link.value.text) else "",
      if b.link.Some? && b.link.value.href.Some? then ResolveHref(parse, b.link.value.href.value) else "",
      if b.snippet.Some? then TrimSpace(b.snippet.value) else "")
  }

  function BlockDrafts(parse: Parser, bs: seq<Block>): (ds: seq<Draft>)
    ensures |ds| == |bs|
    ensures forall i :: 0 <= i < |ds| ==> ds[i] == BlockDraft(parse, bs[i])
  {
    seq(|bs|, i requires 0 <= i < |bs| => BlockDraft(parse, bs[i]))
  }

  /** `Engine.Search`. */
  function Search(parse: Parser, engine: Engine, siteUrl: string): (r: Result<seq<SearchResult>, Error>)
    ensures ExtractDomain(parse, siteUrl).Failure? ==> r == Failure(BadSiteUrl)
    ensures r.Success? ==> |r.value| > 0 && WellIndexed(r.value)
    ensures r.Success? ==> forall i :: 0 <= i < |r.value| ==> r.value[i].title != [] && r.value[i].url != []
    ensures r.Success? ==>
      var q := SiteQuery(ExtractDomain(parse, siteUrl).value);
      && engine(q).Some?
      && r.value == Extract(BlockDrafts(parse, engine(q).value))
    ensures r.Failure? && ExtractDomain(parse, siteUrl).Success? ==>
      var q := SiteQuery(ExtractDomain(parse, siteUrl).value);
      || (engine(q).None? && r.error == RequestFailed(q))
      || (engine(q).Some? && r.error == NoResults(q)
          && forall i :: 0 <= i < |engine(q).value| ==> !Keeps(BlockDraft(parse, engine(q).value[i])))
  {
    var host :- ExtractDomain(parse, siteUrl);
    var query := SiteQuery(host);
    match engine(query)
    case None => Failure(RequestFailed(query))
    case Some(blocks) =>
      var rs := Extract(BlockDrafts(parse, blocks));
      if |rs| == 0 then Failure(NoResults(query)) else Success(rs)
  }
}
