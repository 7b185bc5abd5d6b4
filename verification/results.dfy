/** The result model shared by both fetch strategies (`search.SearchResult`)
    and the accept/index loop both of them run over candidate blocks. */
module Results {

  /** One fetched item. `index` is its 1-based position in the list. The
      published date is never extracted, so it is always "". */
  datatype SearchResult = SearchResult(index: int, title: string, url: string, snippet: string, publishedDate: string)

  /** What a fetcher reads off one candidate block before it decides
      whether to keep the block. */
  datatype Draft = Draft(title: string, url: string, snippet: string)

  /** At most this many results per fetch. */
  const MaxResults: int := 10

  /** Snippets longer than this are cut and marked with "...". */
  const SnippetLimit: int := 200

  /** A block is kept only when both its title and its url are non-empty. */
  predicate Keeps(d: Draft) {
    d.title != [] && d.url != []
  }

  function Stamp(d: Draft, index: int): SearchResult {
    SearchResult(index, d.title, d.url, d.snippet, "")
  }

  function Min(a: int, b: int): int {
    if a <= b then a else b
  }

  /** The loop both fetchers run: visit the blocks in document order with a
      running index starting at `next`; a block that is not kept does not use
      up an index, and once the index passes `MaxResults` nothing more is
      added. */
  function Collect(drafts: seq<Draft>, next: int): (rs: seq<SearchResult>)
    ensures |rs| <= |drafts|
    ensures forall i :: 0 <= i < |rs| ==> rs[i].index == next + i && rs[i].index <= MaxResults
    ensures forall i :: 0 <= i < |rs| ==> rs[i].title != [] && rs[i].url != [] && rs[i].publishedDate == []
    decreases |drafts|
  {
    if |drafts| == 0 || next > MaxResults then []
    else if Keeps(drafts[0]) then [Stamp(drafts[0], next)] + Collect(drafts[1..], next + 1)
    else Collect(drafts[1..], next)
  }

  // ---------------------------------------------------------------------
  // An independent description of the same loop: keep, cut, number.

  /** The kept blocks, in document order. */
  function Kept(drafts: seq<Draft>): (ks: seq<Draft>)
    ensures |ks| <= |drafts|
    decreases |drafts|
  {
    if |drafts| == 0 then []
    else if Keeps(drafts[0]) then [drafts[0]] + Kept(drafts[1..])
    else Kept(drafts[1..])
  }

  /** Every kept block is one of the blocks, and is one worth keeping. */
  lemma {:induction false} KeptFrom(drafts: seq<Draft>, i: int)
    requires 0 <= i < |Kept(drafts)|
    ensures Kept(drafts)[i] in drafts && Keeps(Kept(drafts)[i])
    decreases |drafts|
  {
    if Keeps(drafts[0]) {
      if i > 0 {
        KeptFrom(drafts[1..], i - 1);
      }
    } else {
      KeptFrom(drafts[1..], i);
    }
  }

  function Numbered(ds: seq<Draft>, from: int): (rs: seq<SearchResult>) {
    seq(|ds|, i requires 0 <= i < |ds| => Stamp(ds[i], from + i))
  }

  /** `Collect` numbers the first kept blocks, as many as there are indices
      left between `next` and `MaxResults`. */
  lemma {:induction false} CollectIsNumberedKept(drafts: seq<Draft>, next: int)
    requires 1 <= next <= MaxResults + 1
    ensures Collect(drafts, next) == Numbered(Kept(drafts)[..Min(|Kept(drafts)|, MaxResults + 1 - next)], next)
    decreases |drafts|
  {
    if |drafts| == 0 || next > MaxResults {
    } else if Keeps(drafts[0]) {
      var ks := Kept(drafts[1..]);
      var n := Min(|ks|, MaxResults - next);
      CollectIsNumberedKept(drafts[1..], next + 1);
      assert Collect(drafts[1..], next + 1) == Numbered(ks[..n], next + 1);
      assert Kept(drafts) == [drafts[0]] + ks;
      assert Min(|Kept(drafts)|, MaxResults + 1 - next) == n + 1;
      assert ([drafts[0]] + ks)[..n + 1] == [drafts[0]] + ks[..n];
      NumberedCons(drafts[0], ks[..n], next);
    } else {
      CollectIsNumberedKept(drafts[1..], next);
    }
  }

  lemma NumberedCons(d: Draft, ds: seq<Draft>, from: int)
    ensures Numbered([d] + ds, from) == [Stamp(d, from)] + Numbered(ds, from + 1)
  {
  }

  /** Results numbered 1, 2, ... in list order, at most `MaxResults` of them. */
  predicate WellIndexed(rs: seq<SearchResult>) {
    && |rs| <= MaxResults
    && forall i :: 0 <= i < |rs| ==> rs[i].index == i + 1
  }

  /** The accept/index loop as both fetchers start it, from index 1. */
  function Extract(drafts: seq<Draft>): (rs: seq<SearchResult>)
    ensures WellIndexed(rs)
    ensures forall i :: 0 <= i < |rs| ==> rs[i].title != [] && rs[i].url != []
    ensures |rs| == Min(|Kept(drafts)|, MaxResults)
    ensures rs == [] <==> forall i :: 0 <= i < |drafts| ==> !Keeps(drafts[i])
    ensures forall i :: 0 <= i < |rs| ==> rs[i] == Stamp(Kept(drafts)[i], i + 1)
  {
    CollectIsNumberedKept(drafts, 1);
    NoneKept(drafts);
    Collect(drafts, 1)
  }

  lemma {:induction false} NoneKept(drafts: seq<Draft>)
    ensures Kept(drafts) == [] <==> forall i :: 0 <= i < |drafts| ==> !Keeps(drafts[i])
    decreases |drafts|
  {
    if |drafts| > 0 {
      NoneKept(drafts[1..]);
      assert forall i :: 1 <= i < |drafts| ==> drafts[i] == drafts[1..][i - 1];
    }
  }

  /** The display cut shared by the scraper and the terminal output: keep
      the first `SnippetLimit` bytes and mark the cut with "...". */
  function ClipSnippet(s: string): (r: string)
    ensures |r| <= SnippetLimit + 3
    ensures |s| <= SnippetLimit ==> r == s
    ensures |s| > SnippetLimit ==> |r| == SnippetLimit + 3 && r[..SnippetLimit] == s[..SnippetLimit] && r[SnippetLimit..] == "..."
  {
    if |s| > SnippetLimit then s[..SnippetLimit] + "..." else s
  }

  /** Clipping a clipped snippet changes nothing, so a snippet the scraper
      already cut is shown exactly as stored. */
  lemma ClipSnippetIdempotent(s: string)
    ensures ClipSnippet(ClipSnippet(s)) == ClipSnippet(s)
  {
    if |s| > SnippetLimit {
      var r := ClipSnippet(s);
      assert r[..SnippetLimit] + "..." == r;
    }
  }
}
