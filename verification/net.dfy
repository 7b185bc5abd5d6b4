/** What the program reads from Go's `net/url` parser. The parser itself is
    not modelled: every operation that parses a URL takes the parser as a
    parameter `parse`, which yields `None` where `url.Parse` reports an error. */
module Net {
  import opened Wrappers

  /** A parsed URL: its scheme, its host (`u.Host`) and its query
      parameters, each mapped to its first value. */
  datatype Url = Url(scheme: string, host: string, query: map<string, string>)

  type Parser = string -> Option<Url>

  /** `u.Query().Get(key)`: the first value of `key`, or "" when absent. */
  function QueryGet(u: Url, key: string): (v: string)
    ensures key !in u.query ==> v == ""
    ensures key in u.query ==> v == u.query[key]
  {
    if key in u.query then u.query[key] else ""
  }
}
