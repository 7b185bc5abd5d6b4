/** The InfoQ hotlist scraper (`internal/official/infoq_fetcher.go`).

    The parsed HTML document is abstracted to what the scraper asks of it:
    the text under `#app` (if that element exists), for each list selector
    the elements it matches in document order, and every `a` element. An
    element matched by a list selector is reduced to the text of its first
    title-like descendant, the `href` of its first `a`, and the text of its
    first summary-like descendant. */
module InfoQ {
  import opened Wrappers
  import opened Text
  import opened Results

  const Origin: string := "https://www.infoq.cn"
  const HotlistUrl: string := "https://www.infoq.cn/hotlist"

  /** The list selectors, tried in this order. */
  const ListSelectors: seq<string> := [
    ".article-list .article-item",
    ".hot-list .hot-item",
    ".list-item",
    "article",
    ".content-list > div"
  ]

  /** One element matched by a list selector. `title` is the text of its
      first `h2, h3, h4, .title, .article-title, a` descendant, `href` the
      `href` attribute of its first `a` descendant (None when there is no
      `a` or it has no `href`), `summary` the text of its first
      `.summary, .description, .excerpt, p` descendant. */
  datatype Entry = Entry(title: Option<string>, href: Option<string>, summary: Option<string>)

  datatype Anchor = Anchor(text: string, href: Option<string>)

  datatype Page = Page(app: Option<string>, lists: map<string, seq<Entry>>, anchors: seq<Anchor>)

  datatype Error =
    | LayoutChanged      // no list selector and no article link matched
    | NoContent(url: string)

  predicate IsAbsolute(u: string) {
    HasPrefix(u, "http://") || HasPrefix(u, "https://")
  }

  /** `normalizeURL`: resolve an `href` against the InfoQ origin. The result
      is always absolute and always ends with the `href` itself; an `href`
      that is already absolute is the only one left as it is, and every
      other one lands on a page of the origin. */
  function NormalizeUrl(href: string): (r: string)
    ensures IsAbsolute(r)
    ensures |href| <= |r| && r[|r| - |href|..] == href
    ensures r == href <==> IsAbsolute(href)
    ensures !IsAbsolute(href) ==> HasPrefix(r, Origin + "/")
    ensures HasPrefix(href, "/") ==> r == Origin + href
    ensures !HasPrefix(href, "/") && !IsAbsolute(href) ==> r == Origin + "/" + href
  {
    if HasPrefix(href, "/") then
      assert href[0] == href[..1][0] == '/';
      NotAbsolute(href);
      assert (Origin + href)[..8] == "https://";
      Origin + href
    else if IsAbsolute(href) then href
    else Origin + "/" + href
  }

  lemma NotAbsolute(u: string)
    requires |u| > 0 && u[0] != 'h'
    ensures !IsAbsolute(u)
  {
    if |u| >= 7 { assert u[..7][0] == u[0]; }
    if |u| >= 8 { assert u[..8][0] == u[0]; }
  }

  /** Resolving twice is resolving once. */
  lemma NormalizeUrlIdempotent(href: string)
    ensures NormalizeUrl(NormalizeUrl(href)) == NormalizeUrl(href)
  {
  }

  /** The page is a single-page-app shell: `#app` exists and holds only
      whitespace. */
  function IsShell(page: Page): (b: bool)
    ensures b <==> page.app.Some? && AllSpace(page.app.value)
  {
    page.app.Some? && TrimSpace(page.app.value) == []
  }

  /** The elements a selector matches. */
  function Found(page: Page, selector: string): seq<Entry> {
    if selector in page.lists then page.lists[selector] else []
  }

  /** The first list selector, in `ListSelectors` order, that matches
      anything. */
  function ChooseList(page: Page, from: nat): (r: Option<nat>)
    requires from <= |ListSelectors|
    ensures r.Some? ==> from <= r.value < |ListSelectors| && Found(page, ListSelectors[r.value]) != []
    ensures r.Some? ==> forall j :: from <= j < r.value ==> Found(page, ListSelectors[j]) == []
    ensures r.None? <==> forall j :: from <= j < |ListSelectors| ==> Found(page, ListSelectors[j]) == []
    decreases |ListSelectors| - from
  {
    if from == |ListSelectors| then None
    else if Found(page, ListSelectors[from]) != [] then Some(from)
    else ChooseList(page, from + 1)
  }

  /** The fallback selector `a[href*='/article/'], a[href*='/news/']`. */
  predicate ArticleLink(a: Anchor) {
    a.href.Some? && (Contains(a.href.value, "/article/") || Contains(a.href.value, "/news/"))
  }

  /** The anchors the fallback selector matches, in document order. */
  function ArticleLinks(anchors: seq<Anchor>): (r: seq<Anchor>)
    ensures |r| <= |anchors|
    ensures forall i :: 0 <= i < |r| ==> ArticleLink(r[i])
    ensures forall a :: a in r <==> a in anchors && ArticleLink(a)
    decreases |anchors|
  {
    if |anchors| == 0 then []
    else if ArticleLink(anchors[0]) then [anchors[0]] + ArticleLinks(anchors[1..])
    else ArticleLinks(anchors[1..])
  }

  /** The fallback keeps document order: the matches of a concatenation are
      the matches of its first part followed by those of its second. */
  lemma {:induction false} ArticleLinksAppend(a: seq<Anchor>, b: seq<Anchor>)
    ensures ArticleLinks(a + b) == ArticleLinks(a) + ArticleLinks(b)
    decreases |a|
  {
    if |a| > 0 {
      assert (a + b)[0] == a[0] && (a + b)[1..] == a[1..] + b;
      ArticleLinksAppend(a[1..], b);
    } else {
      assert a + b == b;
    }
  }

  /** A single anchor is matched exactly when it is an article link. */
  lemma ArticleLinksOne(a: Anchor)
    ensures ArticleLinks([a]) == if ArticleLink(a) then [a] else []
  {
  }

  /** A draft in the shape this scraper produces: a title with no whitespace
      at either end and an absolute url, each possibly empty. */
  predicate Trimmed(d: Draft) {
    && (d.title == [] || (!IsSpace(d.title[0]) && !IsSpace(d.title[|d.title| - 1])))
    && (d.url == [] || IsAbsolute(d.url))
  }

  /** Structured mode: the title and link are read only when a title-like
      element exists; the summary is read regardless. */
  function EntryDraft(e: Entry): (d: Draft)
    ensures Trimmed(d)
    ensures Keeps(d) <==> e.title.Some? && !AllSpace(e.title.value) && e.href.Some?
    ensures e.title.None? ==> d.title == [] && d.url == []
    ensures e.title.Some? ==> d.title == TrimSpace(e.title.value)
    ensures e.title.Some? && e.href.Some? ==> d.url == NormalizeUrl(e.href.value)
    ensures e.href.None? ==> d.url == []
    ensures e.summary.None? ==> d.snippet == []
    ensures e.summary.Some? ==> d.snippet == TrimSpace(e.summary.value)
  {
    Draft(
      if e.title.Some? then TrimSpace(e.title.value) else "",
      if e.title.Some? && e.href.Some? then NormalizeUrl(e.href.value) else "",
      if e.summary.Some? then TrimSpace(e.summary.value) else "")
  }

  /** Link mode: the anchor's own text and `href`, no summary. */
  function AnchorDraft(a: Anchor): (d: Draft)
    ensures Trimmed(d)
    ensures Keeps(d) <==> !AllSpace(a.text) && a.href.Some?
    ensures d.title == TrimSpace(a.text)
    ensures a.href.Some? ==> d.url == NormalizeUrl(a.href.value)
    ensures a.href.None? ==> d.url == []
    ensures d.snippet == []
  {
    Draft(TrimSpace(a.text), if a.href.Some? then NormalizeUrl(a.href.value) else "", "")
  }

  function EntryDrafts(es: seq<Entry>): (ds: seq<Draft>)
    ensures |ds| == |es|
    ensures forall i :: 0 <= i < |ds| ==> ds[i] == EntryDraft(es[i])
  {
    seq(|es|, i requires 0 <= i < |es| => EntryDraft(es[i]))
  }

  function AnchorDrafts(anchors: seq<Anchor>): (ds: seq<Draft>)
    ensures |ds| == |anchors|
    ensures forall i :: 0 <= i < |ds| ==> ds[i] == AnchorDraft(anchors[i])
  {
    seq(|anchors|, i requires 0 <= i < |anchors| => AnchorDraft(anchors[i]))
  }

  /** What an accepted result goes through before it is stored: runs of
      whitespace in the title become one space, the snippet is clipped. */
  function Polish(r: SearchResult): (p: SearchResult)
    ensures p.index == r.index && p.url == r.url && p.publishedDate == r.publishedDate
    ensures Fields(p.title) == Fields(r.title) && SingleSpaced(p.title)
    ensures p.title == [] <==> AllSpace(r.title)
    ensures p.snippet == ClipSnippet(r.snippet)
  {
    r.(title := CollapseSpaces(r.title), snippet := ClipSnippet(r.snippet))
  }

  /** Results as the scraper emits them. */
  predicate Scraped(rs: seq<SearchResult>) {
    && WellIndexed(rs)
    && forall i :: 0 <= i < |rs| ==>
         && rs[i].title != [] && SingleSpaced(rs[i].title)
         && IsAbsolute(rs[i].url)
         && |rs[i].snippet| <= SnippetLimit + 3
         && rs[i].publishedDate == []
  }

  /** An accepted trimmed draft comes out of the clean-up in scraped shape. */
  lemma PolishedShape(d: Draft, index: int)
    requires Keeps(d) && Trimmed(d)
    ensures Polish(Stamp(d, index)).index == index
    ensures Polish(Stamp(d, index)).title != [] && SingleSpaced(Polish(Stamp(d, index)).title)
    ensures IsAbsolute(Polish(Stamp(d, index)).url)
    ensures |Polish(Stamp(d, index)).snippet| <= SnippetLimit + 3
    ensures Polish(Stamp(d, index)).publishedDate == []
  {
    assert !IsSpace(d.title[0]);
  }

  function Tidy(ex: seq<SearchResult>): (rs: seq<SearchResult>)
    ensures |rs| == |ex|
    ensures forall i :: 0 <= i < |rs| ==> rs[i] == Polish(ex[i])
  {
    seq(|ex|, i requires 0 <= i < |ex| => Polish(ex[i]))
  }

  /** The accept/index loop followed by the clean-up of each accepted result. */
  function Scrape(drafts: seq<Draft>): (rs: seq<SearchResult>)
    requires forall i :: 0 <= i < |drafts| ==> Trimmed(drafts[i])
    ensures Scraped(rs)
    ensures |rs| == Min(|Kept(drafts)|, MaxResults)
    ensures rs == [] <==> forall i :: 0 <= i < |drafts| ==> !Keeps(drafts[i])
    ensures forall i :: 0 <= i < |rs| ==> rs[i].url == Kept(drafts)[i].url
    ensures forall i :: 0 <= i < |rs| ==> rs[i] == Polish(Stamp(Kept(drafts)[i], i + 1))
  {
    var ex := Extract(drafts);
    var rs := Tidy(ex);
    forall i | 0 <= i < |rs|
      ensures rs[i] == Polish(Stamp(Kept(drafts)[i], i + 1))
      ensures Keeps(Kept(drafts)[i]) && Trimmed(Kept(drafts)[i])
    {
      KeptFrom(drafts, i);
    }
    assert Scraped(rs) by {
      forall i | 0 <= i < |rs|
        ensures rs[i].index == i + 1
        ensures rs[i].title != [] && SingleSpaced(rs[i].title)
        ensures IsAbsolute(rs[i].url)
        ensures |rs[i].snippet| <= SnippetLimit + 3
        ensures rs[i].publishedDate == []
      {
        PolishedShape(Kept(drafts)[i], i + 1);
      }
    }
    rs
  }

  /** `generateDemoResults`: the fixed stand-in list, every item pointing at
      the hotlist page. */
  function DemoResults(): (rs: seq<SearchResult>)
    ensures |rs| == MaxResults
    ensures WellIndexed(rs)
    ensures forall i :: 0 <= i < |rs| ==> rs[i].url == HotlistUrl && rs[i].title != [] && rs[i].publishedDate == []
  {
    [
      SearchResult(1, "2025年技术趋势：AI原生应用的崛起", HotlistUrl,
        "随着大语言模型的不断进化，AI原生应用正在改变软件开发的范式。本文探讨2025年AI技术的发展趋势和最佳实践。", ""),
      SearchResult(2, "Kubernetes 1.30 新特性深度解析", HotlistUrl,
        "Kubernetes 最新版本带来了更强大的容器编排能力和安全性增强，包括改进的资源管理和新的调度策略。", ""),
      SearchResult(3, "Go 1.24 泛型最佳实践", HotlistUrl,
        "深入探讨 Go 语言泛型的使用场景和最佳实践，帮助开发者写出更优雅、更高效的代码。", ""),
      SearchResult(4, "微服务架构下的可观测性实践", HotlistUrl,
        "在复杂的微服务架构中，如何构建完善的可观测性体系？本文分享一线大厂的实践经验。", ""),
      SearchResult(5, "前端性能优化：从60fps到120fps", HotlistUrl,
        "随着高刷新率屏幕的普及，前端性能优化面临新挑战。本文介绍如何实现流畅的120fps体验。", ""),
      SearchResult(6, "Rust 在云原生领域的应用", HotlistUrl,
        "Rust 凭借其内存安全和高性能特性，正在云原生领域崭露头角。探索 Rust 在容器运行时和服务网格中的应用。", ""),
      SearchResult(7, "数据库选型指南：2025版", HotlistUrl,
        "面对众多数据库产品，如何根据业务场景做出正确选择？本文提供全面的数据库选型指南。", ""),
      SearchResult(8, "大规模分布式系统的一致性保证", HotlistUrl,
        "深入分析分布式系统中的一致性问题，介绍 Paxos、Raft 等共识算法的实际应用。", ""),
      SearchResult(9, "eBPF：Linux内核可编程的未来", HotlistUrl,
        "eBPF 技术正在改变我们与 Linux 内核的交互方式，为性能监控、安全和网络带来革命性变化。", ""),
      SearchResult(10, "DevOps 2025：平台工程的崛起", HotlistUrl,
        "平台工程正在成为 DevOps 演进的下一个阶段，了解如何构建开发者友好的内部平台。", "")
    ]
  }

  /** `parseResults`: a shell page yields the demo list; otherwise the first
      list selector that matches is scraped in structured mode, and when none
      matches the article links are scraped in link mode. */
  function ParseResults(page: Page): (r: Result<seq<SearchResult>, Error>)
    ensures IsShell(page) ==> r == Success(DemoResults())
    ensures r.Failure? <==> !IsShell(page) && ChooseList(page, 0).None? && ArticleLinks(page.anchors) == []
    ensures r.Failure? ==> r.error == LayoutChanged
    ensures r.Success? && !IsShell(page) ==> Scraped(r.value)
    ensures !IsShell(page) && ChooseList(page, 0).Some? ==>
              r == Success(Scrape(EntryDrafts(Found(page, ListSelectors[ChooseList(page, 0).value]))))
    ensures !IsShell(page) && ChooseList(page, 0).None? && ArticleLinks(page.anchors) != [] ==>
              r == Success(Scrape(AnchorDrafts(ArticleLinks(page.anchors))))
  {
    if IsShell(page) then Success(DemoResults())
    else match ChooseList(page, 0)
      case Some(k) => Success(Scrape(EntryDrafts(Found(page, ListSelectors[k]))))
      case None =>
        var links := ArticleLinks(page.anchors);
        if links == [] then Failure(LayoutChanged)
        else Success(Scrape(AnchorDrafts(links)))
  }

  /** `InfoQFetcher.Fetch` after the download: an empty list is an error. */
  function Fetch(url: string, page: Page): (r: Result<seq<SearchResult>, Error>)
    ensures r.Success? ==> |r.value| > 0 && WellIndexed(r.value)
    ensures r.Success? ==> r == ParseResults(page)
    ensures r.Failure? ==> r.error == LayoutChanged || r.error == NoContent(url)
    ensures r.Success? ==> r.value == DemoResults() || Scraped(r.value)
    ensures IsShell(page) ==> r == Success(DemoResults())
    ensures r == Failure(NoContent(url)) <==> ParseResults(page).Success? && |ParseResults(page).value| == 0
    ensures r == Failure(LayoutChanged) <==>
              !IsShell(page) && ChooseList(page, 0).None? && ArticleLinks(page.anchors) == []
  {
    match ParseResults(page)
    case Failure(e) => Failure(e)
    case Success(rs) => if |rs| == 0 then Failure(NoContent(url)) else Success(rs)
  }

  /** The fetch succeeds exactly when the parse found something, and then
      returns what the parse found. */
  lemma FetchSucceeds(url: string, page: Page)
    ensures Fetch(url, page).Success? <==> ParseResults(page).Success? && |ParseResults(page).value| > 0
    ensures ParseResults(page).Success? && |ParseResults(page).value| > 0 ==> Fetch(url, page) == ParseResults(page)
  {
  }
}
