# news4coder core, modelled in Dafny

news4coder is a command-line tool. It keeps a list of subscribed web sites and
fetches "what is new" on each one. There are two ways to fetch:

- **Official sources.** A fixed registry of sites the tool knows how to scrape.
  Today that is the InfoQ hotlist page, scraped with CSS selectors.
- **Generic search.** A DuckDuckGo `site:<host>` search, read off DuckDuckGo's
  HTML result page.

Both strategies run the same accept/index loop over candidate blocks. A block
needs a non-empty title and url. Results are numbered from 1 and capped at 10.

This project models the decision logic of that core as pure Dafny functions,
plus one loop method. It proves what each piece promises:

- the validation order and duplicate rules of the subscription manager;
- the registry lookups;
- the fetcher factory;
- selector choice, link resolution and result clean-up in the InfoQ scraper;
- redirect unwrapping and result extraction in the search engine;
- the terminal helpers: hyperlinks, greedy word wrapping, byte truncation.

How the modules map to the source:

- `Wrappers`: `Option` and `Result`, standing for Go's `(T, error)`.
- `Text`: the parts of Go's `strings` package the core uses. These are
  `TrimSpace`, `Fields`, `Join`, `Contains` and `HasPrefix`. Strings are byte
  strings and whitespace is ASCII whitespace.
- `Net`: what the core reads from `net/url`. The parser is a parameter.
- `Results`: `search.SearchResult`, the shared accept/index loop, and the
  200-byte snippet cut.
- `Subscriptions`: `internal/subscription/manager.go`.
- `Registry`: `internal/official/registry.go`, with the source model.
- `Fetchers`: `internal/official/fetcher.go`.
- `InfoQ`: `internal/official/infoq_fetcher.go`.
- `Search`: `internal/search/engine.go`.
- `FetchCmd`: `makeClickableURL`, `wrapText` and `generateDemoResults` from
  `cmd/fetch.go`.
- `ListCmd`: `truncateString` from `cmd/list.go`.

The outside world becomes parameters:

- `url.Parse` is a function `parse: string -> Option<Url>`. `None` stands for
  a parse error.
- `time.Now()` is an integer `now`.
- A downloaded HTML document is reduced to what the selectors ask of it:
  - An InfoQ page is three things. First, the text under `#app`. Second, for
    each list selector, the matched elements. Third, every `a` element.
  - A DuckDuckGo answer is the sequence of its `.result` blocks.
- The DuckDuckGo round trip is a function `engine` from query to blocks.
  `None` means the request failed.

Three details of the code shape the model:

- `Add` rejects an alias only when it contains the space byte
  (`strings.Contains(alias, " ")`). An alias holding a tab or a newline is
  accepted.
- `engine.go` reads one selector, `.result`, and does not cut snippets. Only
  the InfoQ scraper and the terminal display cut them to 200 bytes.
- The InfoQ scraper has two ways to find nothing. "Layout changed" means no
  list selector and no article link matched. "No content" means something
  matched but no block was accepted.

## Model

| member | source | states |
|---|---|---|
| Text.TrimSpace | internal/subscription/manager.go:28 | the result is a slice of the input with only whitespace before and after it; it is empty exactly when the input is all whitespace, and otherwise neither starts nor ends with whitespace |
| Text.ContainsByte | internal/subscription/manager.go:38 | `strings.Contains(alias, " ")` holds exactly when the space byte occurs in the alias |
| Text.CollapseSpaces | internal/official/infoq_fetcher.go:168 | joining the fields with one space keeps exactly the same words, leaves every whitespace byte a single ' ' between two words, and is empty exactly when the input is all whitespace |
| Text.TrimSpaceKeepsFields | internal/official/infoq_fetcher.go:166-168 | trimming a title before the accept check never changes the words it is later collapsed to |
| Text.FieldsOfJoin | cmd/fetch.go:228 | the words of parts joined by a whitespace byte are the words of each part, in order |
| Net.QueryGet | internal/search/engine.go:50 | a present query parameter reads as its first value; an absent one reads as the empty string |
| Results.Collect | internal/search/engine.go:104-136 | the loop emits at most one result per block; the results carry consecutive indices from the start index, never past 10, each with a non-empty title and url and no date |
| Results.CollectIsNumberedKept | internal/official/infoq_fetcher.go:129-178 | the loop equals an independent description: keep the blocks with title and url, take as many as indices remain, and number them consecutively |
| Results.Extract | internal/search/engine.go:104-136 | from index 1 the results are numbered 1..n with n = min(kept blocks, 10); each is the i-th kept block; the list is empty exactly when no block has both a title and a url |
| Results.NoneKept | internal/search/engine.go:132 | no block is kept exactly when every block lacks a title or a url |
| Results.ClipSnippet | internal/official/infoq_fetcher.go:170-173 | a snippet of at most 200 bytes is unchanged; a longer one becomes its first 200 bytes followed by "...", 203 bytes in all |
| Results.ClipSnippetIdempotent | cmd/fetch.go:147-151 | cutting an already cut snippet again changes nothing, so a scraped snippet is shown as stored |
| Subscriptions.CheckFields | internal/subscription/manager.go:28-54 | the field checks pass exactly when the name is not blank and at most 50 bytes, a non-empty alias has no space and at most 20 bytes, and the url parses with scheme http or https |
| Subscriptions.FirstClash | internal/subscription/manager.go:57-64 | the result is the first position whose entry has the new name as its name or the non-empty new alias as its alias, or none when no entry clashes |
| Subscriptions.FindClash | internal/subscription/manager.go:57-64 | the scan passes exactly when no entry has the new name as its name and none has the non-empty new alias as its alias; otherwise the first clashing entry decides, reporting the name if that entry has it and the alias if not |
| Subscriptions.Add | internal/subscription/manager.go:26-76 | Add succeeds exactly when all field checks pass and the name and alias are free; success appends one entry with the current time; each failed check (blank name, long name, space in alias, long alias, bad url, bad scheme, taken name, taken alias) yields its own error, in the source's order; when both keys are taken, the duplicate reported is the one the scan meets first |
| Subscriptions.FirstMatch | internal/subscription/manager.go:107-111 | the result is the first position whose name or alias equals the key, or none when no entry matches |
| Subscriptions.Get | internal/subscription/manager.go:106-113 | Get returns the first entry whose name or alias is the key; not-found happens exactly when no entry matches |
| Subscriptions.Remove | internal/subscription/manager.go:79-88 | Remove deletes exactly the first matching entry and keeps the order of the rest; not-found happens exactly when no entry matches |
| Subscriptions.RemoveByIndex | internal/subscription/manager.go:91-98 | an index outside 1..n is an error; otherwise the list shrinks by one, entries before the index stay, and those after it shift down by one |
| Subscriptions.AddKeepsUnique | internal/subscription/manager.go:57-74 | if names are pairwise distinct and so are non-empty aliases, a successful Add keeps it so |
| Subscriptions.GetAfterAdd | internal/subscription/manager.go:106-113 | after a successful Add, Get by the new name returns the new entry, provided no older entry uses that name as its alias |
| Subscriptions.GetAfterAddShadowed | internal/subscription/manager.go:57-64 | as written, if an older entry's alias equals the new name, Add still succeeds and Get by that name returns the older entry |
| Subscriptions.ShadowedExample | internal/subscription/manager.go:57-64 | a concrete case: with "Hacker News"/"hn" stored, adding a subscription named "hn" succeeds and Get("hn") returns "Hacker News" |
| Subscriptions.FindClashStrict | internal/subscription/manager.go:57-64 | the corrected scan passes exactly when neither the new name nor the non-empty new alias equals any existing name or alias |
| Subscriptions.AddStrict | internal/subscription/manager.go:26-76 | Add with the corrected scan: it succeeds exactly when the field checks and the corrected scan pass, and then appends the new entry |
| Subscriptions.GetAfterAddStrict | internal/subscription/manager.go:106-113 | with the corrected scan, Get by the new name and Get by the new non-empty alias both return the new entry |
| Subscriptions.AddStrictKeepsKeysDistinct | internal/subscription/manager.go:57-74 | with the corrected scan, no two entries ever answer to the same non-empty key |
| Subscriptions.GetAfterRemove | internal/subscription/manager.go:79-88 | if keys are distinct, removing by a non-empty key removes one entry, and Get by that key then fails |
| Subscriptions.RemoveIsRemoveByIndex | internal/subscription/manager.go:79-98 | removing by key equals removing by the 1-based position of the entry Get returns |
| Registry.GetRegistry | internal/official/registry.go:16-38 | the seeded registry has exactly the key "infoq", and every source is stored under its own alias |
| Registry.Get | internal/official/registry.go:41-47 | a source is returned exactly when its alias is present and the source is enabled |
| Registry.List | internal/official/registry.go:50-58 | List holds only enabled sources and holds every enabled source |
| Registry.ListIsWhatGetFinds | internal/official/registry.go:41-58 | a source is listed exactly when Get returns it for some alias |
| Registry.SeededLookup | internal/official/registry.go:28-47 | "infoq" resolves to the hotlist page with fetcher type "infoq"; every other alias resolves to nothing |
| Fetchers.Create | internal/official/fetcher.go:23-30 | creation succeeds exactly for the type "infoq", giving an InfoQ fetcher bound to the source's url; any other type is an unsupported-type error naming it |
| Fetchers.CreateReadsTagAndUrl | internal/official/fetcher.go:23-30 | two sources with the same fetcher type and url get the same outcome |
| Fetchers.CreateSucceedsOnRegistry | internal/official/fetcher.go:24-26 | every seeded source yields a fetcher for its own url |
| Fetchers.Fetch | internal/official/fetcher.go:9-12 | a successful fetch returns a non-empty list numbered 1..n with n at most 10; a failure is "layout changed" or "no content" for the fetcher's own url |
| Fetchers.FetchOfCreated | internal/official/fetcher.go:23-30 | a fetcher the factory made for a source runs the InfoQ scraper on that source's url |
| InfoQ.NormalizeUrl | internal/official/infoq_fetcher.go:252-263 | the result is always an http or https url ending in the href; an already absolute href is the only one left unchanged; an href starting with "/" gets the origin "https://www.infoq.cn" in front, and any other gets the origin and a "/" |
| InfoQ.NormalizeUrlIdempotent | internal/official/infoq_fetcher.go:252-263 | resolving a resolved url changes nothing |
| InfoQ.IsShell | internal/official/infoq_fetcher.go:85-86 | the page is a script shell exactly when `#app` exists and its text is all whitespace |
| InfoQ.ChooseList | internal/official/infoq_fetcher.go:98-116 | the chosen selector is the first in the fixed order that matches anything; there is none exactly when no selector matches |
| InfoQ.ArticleLinks | internal/official/infoq_fetcher.go:118-122 | the fallback keeps exactly the anchors with an href containing "/article/" or "/news/" |
| InfoQ.ArticleLinksAppend | internal/official/infoq_fetcher.go:118-122 | the fallback keeps document order: the matches of two runs of anchors are the matches of the first run followed by those of the second |
| InfoQ.EntryDraft | internal/official/infoq_fetcher.go:143-163 | a list item is accepted exactly when it has a title element with non-blank text and a link with an href; the title is the trimmed title text, the url is the resolved href and is read only when a title element exists, the snippet is the trimmed summary text; absent parts are empty |
| InfoQ.AnchorDraft | internal/official/infoq_fetcher.go:137-142 | a fallback anchor is accepted exactly when its text is not blank and it has an href; the title is the trimmed anchor text, the url the resolved href (empty without one), and there is never a snippet |
| InfoQ.Polish | internal/official/infoq_fetcher.go:166-173 | an accepted result keeps its index, url and date; its title keeps its words and becomes single-spaced; its snippet is cut to 200 bytes plus "..." |
| InfoQ.PolishedShape | internal/official/infoq_fetcher.go:165-177 | an accepted block comes out single-spaced and non-empty in title, with an absolute url and a snippet of at most 203 bytes |
| InfoQ.Scrape | internal/official/infoq_fetcher.go:129-178 | a scrape yields min(accepted, 10) results; the i-th is the i-th accepted block numbered i and cleaned up; all are in scraped shape, and there are none exactly when no block is accepted |
| InfoQ.DemoResults | internal/official/infoq_fetcher.go:184-248 | the stand-in list has ten items numbered 1..10, each titled and linking to the hotlist page |
| InfoQ.ParseResults | internal/official/infoq_fetcher.go:79-181 | a page whose `#app` is blank gives the demo list; otherwise the elements of the first matching list selector are scraped in structured mode, or, when none matches, the article links in link mode; the parse fails with "layout changed" exactly when neither matches |
| InfoQ.Fetch | internal/official/infoq_fetcher.go:60-75 | a successful fetch is exactly the parse result, non-empty and numbered, the demo list or in scraped shape; "no content" happens exactly when the parse succeeded with no results, "layout changed" exactly when a page that is not a shell matches no list selector and no article link, and no other error occurs |
| InfoQ.FetchSucceeds | internal/official/infoq_fetcher.go:60-75 | the fetch succeeds exactly when the parse succeeds with at least one result, and then returns that parse result |
| Search.ExtractDomain | internal/search/engine.go:29-42 | the domain is the parsed host; the call fails exactly when the url does not parse or has no host |
| Search.SiteQuery | internal/search/engine.go:68 | the query is "site:" followed by the host |
| Search.SiteQueryInjective | internal/search/engine.go:68 | different hosts give different queries |
| Search.ExtractRealUrl | internal/search/engine.go:45-57 | a link without "duckduckgo.com/l/" is kept; a parsable redirect link with a non-empty "uddg" parameter becomes that parameter; a link is only ever replaced that way; a non-empty link never becomes empty |
| Search.ResolveHref | internal/search/engine.go:115-122 | an href yields a url exactly when it starts with "http" or "//"; protocol-relative hrefs are completed with "https:" before redirects are unwrapped |
| Search.BlockDraft | internal/search/engine.go:112-129 | a block is accepted exactly when it has a link with non-blank text and an href starting "http" or "//"; the title is the trimmed link text, the url the resolved href, the snippet the trimmed snippet text, not cut; absent parts are empty |
| Search.Search | internal/search/engine.go:60-149 | a bad site url fails first; success is the accept loop over the answer for "site:" + host, non-empty and numbered 1..n; "no results" happens exactly when the answer has no acceptable block |
| FetchCmd.Clickable | cmd/fetch.go:193-197 | the OSC 8 hyperlink is the opening sequence with the url as target, the string terminator, the url as visible text, and the closing sequence; 14 bytes longer than twice the url |
| FetchCmd.ClickableRoundTrip | cmd/fetch.go:193-197 | an independent reader of OSC 8 hyperlinks gets the url back from the hyperlink, and only a hyperlink built from that url reads back to it |
| FetchCmd.FoldSound | cmd/fetch.go:209-222 | after any prefix of the words, the loop state holds those words once each, in order; every line of two or more words fits; no closed line could have taken the next line's first word |
| FetchCmd.WrapSound | cmd/fetch.go:200-229 | the wrapped lines hold every word exactly once, in order; a line of two or more words fits the width; no line could have taken the first word of the next one; there are no lines exactly when there are no words |
| FetchCmd.WrapLines | cmd/fetch.go:205-226 | the loop's lines are the indent plus the space-joined words of each greedy group |
| FetchCmd.WrapText | cmd/fetch.go:200-229 | text without words comes back unchanged; otherwise the result is the greedy lines joined by newlines, and with a whitespace indent it has exactly the words of the input |
| FetchCmd.DemoResults | cmd/fetch.go:232-296 | the offline list has ten items numbered 1..10, each titled, with a snippet and linking to the given site url |
| ListCmd.TruncateString | cmd/list.go:68-73 | a string of at most maxLen bytes is unchanged; a longer one becomes exactly maxLen bytes: a prefix of the string followed by "..." |
| ListCmd.TruncateIdempotent | cmd/list.go:68-73 | a truncated string fits and is not changed by truncating again |
| ListCmd.CellsFitColumns | cmd/list.go:53-57 | the name and url cells of the subscription table never exceed 20 and 40 bytes |

## Left out

- HTTP requests, headers, status codes and timeouts are left out. They are I/O; a failed request is one error value (`Search.RequestFailed`) or is outside the model (InfoQ).
- HTML parsing and goquery selector matching are left out. The page is given already reduced to what each selector matches.
- `url.Parse` and `url.QueryEscape` are left out. The parser is a parameter, and escaping only affects the request text and the error message.
- Configuration storage and JSON are left out. `internal/storage` is not part of this model.
- The environment switches (`DEMO_MODE`, `DEBUG_OFFICIAL`, `DEBUG_SEARCH`) and the debug HTML dump are left out.
- The unreachable error at `internal/official/infoq_fetcher.go:93` is left out. It sits behind `|| true`, so a blank `#app` always gives the demo list.
- The process-wide `sync.Once` registry is a constant value.
- Printing, colours, the command-line flags and the table layout are left out. They are display only; `cmd/root.go`, `add.go`, `remove.go`, `sources.go` and `infoq.go` are not part of this model.
- Error messages are left out. The error datatypes keep only which error occurred and the key, query or index it names.
- Subscriptions.List: no contract, because it returns the stored list itself.
- Slice aliasing is left out. Go's `List` returns the live slice (`internal/subscription/manager.go:101-103`), and `Remove` and `RemoveByIndex` shift that slice in place (lines 83 and 96), so a list read before a removal changes under its holder. The model's lists are values and cannot show this. `cmd/remove.go` reads the name it prints before it removes.
- Text.TrimSpace: whitespace is the ASCII set only. Go also trims Unicode spaces such as U+0085 and U+00A0.
- Text.CollapseSpaces: the same ASCII-only whitespace restriction applies.
- Results.ClipSnippet: strings are modelled as sequences of units. A cut in the middle of a multi-byte UTF-8 character is not visible in the model.
- ListCmd.TruncateString: the same restriction applies to its byte cut.
- InfoQ.DemoResults and FetchCmd.DemoResults: the text literals are sequences of characters, not UTF-8 bytes. Their byte lengths are not modelled.
- Fetchers.Fetch: its own contract states only what every strategy shares. Which strategy runs, and on which url, is stated by Fetchers.FetchOfCreated, and the InfoQ result by InfoQ.Fetch.
- `Registry.List` returns a set. Go's map iteration order is unspecified, so the order of the list is not modelled.

## Findings

| source | as written | input that shows it | evidently intended | confidence | as-written member | corrected member |
|---|---|---|---|---|---|---|
| internal/subscription/manager.go:57-64 | the duplicate scan compares the new name only with names, and the new alias only with aliases | store "Hacker News" with alias "hn", then add a subscription named "hn": it is accepted, and `Get("hn")` and `Remove("hn")` reach "Hacker News", never the new entry | no two subscriptions answer to the same name or alias, so `Get` by the new name finds the new entry | medium, not executed | Subscriptions.GetAfterAddShadowed | Subscriptions.GetAfterAddStrict |
