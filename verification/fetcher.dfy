/** The fetcher factory (`internal/official/fetcher.go`): a closed tag
    dispatch from a source's `fetcherType` to a fetch strategy. */
module Fetchers {
  import opened Wrappers
  import opened Registry
  import opened Results
  import InfoQ

  /** The strategies there are; each carries the page it reads. */
  datatype Fetcher = InfoQFetcher(url: string)

  datatype Error = UnsupportedFetcher(fetcherType: string)

  /** `FetcherFactory.Create`. */
  function Create(src: Source): (r: Result<Fetcher, Error>)
    ensures r.Success? <==> src.fetcherType == "infoq"
    ensures r.Success? ==> r.value == InfoQFetcher(src.url)
    ensures r.Failure? ==> r.error == UnsupportedFetcher(src.fetcherType)
  {
    match src.fetcherType
    case "infoq" => Success(InfoQFetcher(src.url))
    case _ => Failure(UnsupportedFetcher(src.fetcherType))
  }

  /** `Create` reads nothing but the tag and the url. */
  lemma CreateReadsTagAndUrl(a: Source, b: Source)
    requires a.fetcherType == b.fetcherType && a.url == b.url
    ensures Create(a) == Create(b)
  {
  }

  /** Every seeded source has a strategy. */
  lemma CreateSucceedsOnRegistry(alias: string)
    requires alias in GetRegistry()
    ensures Create(GetRegistry()[alias]).Success?
    ensures Create(GetRegistry()[alias]).value.url == GetRegistry()[alias].url
  {
  }

  /** `Fetcher.Fetch`, dispatched on the strategy. The page is the document
      served at the fetcher's url. */
  function Fetch(f: Fetcher, page: InfoQ.Page): (r: Result<seq<SearchResult>, InfoQ.Error>)
    ensures r.Success? ==> |r.value| > 0 && WellIndexed(r.value)
    ensures r.Failure? ==> r.error == InfoQ.LayoutChanged || r.error == InfoQ.NoContent(f.url)
  {
    match f
    case InfoQFetcher(url) => InfoQ.Fetch(url, page)
  }

  /** A fetcher made for a source fetches that source's url with the
      strategy its tag names. */
  lemma FetchOfCreated(src: Source, page: InfoQ.Page)
    requires Create(src).Success?
    ensures src.fetcherType == "infoq"
    ensures Fetch(Create(src).value, page) == InfoQ.Fetch(src.url, page)
  {
  }
}
