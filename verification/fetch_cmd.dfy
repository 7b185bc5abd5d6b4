/** The text helpers of the `fetch` command (`cmd/fetch.go`): terminal
    hyperlinks, word wrapping of snippets, and the offline demo list. */
module FetchCmd {
  import opened Wrappers
  import opened Text
  import opened Results

  // ---------------------------------------------------------------------
  // Terminal hyperlinks

  const Esc: char := '\U{1B}'

  /** `makeClickableURL`: an OSC 8 hyperlink whose target and visible text
      are both `u`. */
  function Clickable(u: string): (r: string)
    ensures |r| == 2 * |u| + 14
    ensures HasPrefix(r, [Esc] + "]8;;" + u + [Esc, '\\'])
    ensures r[7 + |u|..7 + 2 * |u|] == u
    ensures r[7 + 2 * |u|..] == [Esc] + "]8;;" + [Esc, '\\']
  {
    [Esc] + "]8;;" + u + [Esc, '\\'] + u + [Esc] + "]8;;" + [Esc, '\\']
  }

  /** The target of an OSC 8 hyperlink whose visible text is its target:
      the opening sequence, the target, the string terminator, the same text
      again, and the closing sequence. */
  function LinkTarget(s: string): (t: Option<string>)
  {
    if |s| < 14 || (|s| - 14) % 2 != 0 then None
    else
      var n := (|s| - 14) / 2;
      if && s[..5] == [Esc] + "]8;;"
         && s[5 + n..7 + n] == [Esc, '\\']
         && s[7 + n..7 + 2 * n] == s[5..5 + n]
         && s[7 + 2 * n..] == [Esc] + "]8;;" + [Esc, '\\']
      then Some(s[5..5 + n])
      else None
  }

  /** The target can always be read back, and only hyperlinks built by
      `Clickable` have one. */
  lemma ClickableRoundTrip(u: string, s: string)
    ensures LinkTarget(Clickable(u)) == Some(u)
    ensures LinkTarget(s) == Some(u) ==> s == Clickable(u)
  {
    ClickableParses(u);
    if LinkTarget(s) == Some(u) {
      OnlyClickableParses(u, s);
    }
  }

  lemma ClickableParses(u: string)
    ensures LinkTarget(Clickable(u)) == Some(u)
  {
    var c := Clickable(u);
    var n := |u|;
    assert (|c| - 14) / 2 == n;
    assert c[..5] == [Esc] + "]8;;";
    assert c[5..5 + n] == u;
    assert c[5 + n..7 + n] == [Esc, '\\'];
  }

  lemma OnlyClickableParses(u: string, s: string)
    requires LinkTarget(s) == Some(u)
    ensures s == Clickable(u)
  {
    var n := (|s| - 14) / 2;
    assert s[5..5 + n] == u;
    assert s == s[..5] + s[5..5 + n] + s[5 + n..7 + n] + s[7 + n..7 + 2 * n] + s[7 + 2 * n..];
  }

  // ---------------------------------------------------------------------
  // Word wrapping

  /** The groups concatenated in order. */
  function Concat(groups: seq<seq<string>>): seq<string>
    decreases |groups|
  {
    if |groups| == 0 then [] else groups[0] + Concat(groups[1..])
  }

  lemma {:induction false} ConcatSnoc(groups: seq<seq<string>>, g: seq<string>)
    ensures Concat(groups + [g]) == Concat(groups) + g
    decreases |groups|
  {
    if |groups| > 0 {
      assert (groups + [g])[1..] == groups[1..] + [g];
      ConcatSnoc(groups[1..], g);
    }
  }

  /** Non-empty groups hold at least one word each. */
  lemma {:induction false} ConcatLength(groups: seq<seq<string>>)
    requires forall k :: 0 <= k < |groups| ==> groups[k] != []
    ensures |Concat(groups)| >= |groups|
    decreases |groups|
  {
    if |groups| > 0 {
      ConcatLength(groups[1..]);
    }
  }

  lemma {:induction false} JoinSnoc(ws: seq<string>, w: string, sep: string)
    requires |ws| > 0
    ensures Join(ws + [w], sep) == Join(ws, sep) + sep + w
    decreases |ws|
  {
    if |ws| > 1 {
      assert (ws + [w])[1..] == ws[1..] + [w];
      JoinSnoc(ws[1..], w, sep);
    }
  }

  /** One wrapped line: the indent followed by its words, space separated. */
  function Line(indent: string, group: seq<string>): string {
    indent + Join(group, " ")
  }

  lemma LineLonger(indent: string, group: seq<string>)
    requires group != [] && group[0] != []
    ensures |Line(indent, group)| > |indent|
  {
  }

  lemma {:induction false} LineSnoc(indent: string, group: seq<string>, w: string)
    requires group != []
    ensures Line(indent, group + [w]) == Line(indent, group) + " " + w
  {
    JoinSnoc(group, w, " ");
  }

  /** The wrapping state after some words: the closed lines' words and the
      words of the line being filled. */
  datatype Wrapping = Wrapping(closed: seq<seq<string>>, open: seq<string>)

  /** One iteration of the `wrapText` loop, on the words of the lines. The
      word joins the open line when the line, a space and the word fit in
      `maxWidth`; otherwise the open line (if it has words) is closed and the
      word opens the next one. */
  function Step(st: Wrapping, w: string, indent: string, maxWidth: int): Wrapping {
    if |Line(indent, st.open)| + |w| + 1 <= maxWidth then
      if st.open == [] then Wrapping(st.closed, [w]) else Wrapping(st.closed, st.open + [w])
    else if st.open != [] then Wrapping(st.closed + [st.open], [w])
    else Wrapping(st.closed, [w])
  }

  function Fold(words: seq<string>, indent: string, maxWidth: int): Wrapping
    decreases |words|
  {
    if words == [] then Wrapping([], [])
    else Step(Fold(words[..|words| - 1], indent, maxWidth), words[|words| - 1], indent, maxWidth)
  }

  /** The words of every line, after the open line is closed. */
  function Wrap(words: seq<string>, indent: string, maxWidth: int): seq<seq<string>> {
    var st := Fold(words, indent, maxWidth);
    if st.open != [] then st.closed + [st.open] else st.closed
  }

  /** Every group is non-empty, and a group of more than one word fits. */
  predicate Fits(groups: seq<seq<string>>, indent: string, maxWidth: int) {
    forall k :: 0 <= k < |groups| ==>
      groups[k] != [] && (|groups[k]| > 1 ==> |Line(indent, groups[k])| <= maxWidth)
  }

  /** No line could have taken the first word of the next one. */
  predicate Greedy(groups: seq<seq<string>>, indent: string, maxWidth: int) {
    forall k :: 0 <= k < |groups| - 1 && groups[k + 1] != [] ==>
      |Line(indent, groups[k])| + 1 + |groups[k + 1][0]| > maxWidth
  }

  predicate NonEmptyWords(words: seq<string>) {
    forall i :: 0 <= i < |words| ==> words[i] != []
  }

  /** What the loop keeps true of its state. */
  predicate Sound(st: Wrapping, words: seq<string>, indent: string, maxWidth: int) {
    && Concat(st.closed) + st.open == words
    && (st.open == [] <==> words == [])
    && (st.open != [] ==> st.open[0] != [])
    && (|st.open| > 1 ==> |Line(indent, st.open)| <= maxWidth)
    && Fits(st.closed, indent, maxWidth)
    && Greedy(st.closed + [st.open], indent, maxWidth)
  }

  lemma StepAppends(st: Wrapping, words: seq<string>, w: string, indent: string, maxWidth: int)
    requires Sound(st, words, indent, maxWidth) && w != []
    requires |Line(indent, st.open)| + |w| + 1 <= maxWidth && st.open != []
    ensures Sound(Step(st, w, indent, maxWidth), words + [w], indent, maxWidth)
  {
    var gs := st.closed + [st.open];
    var gs' := st.closed + [st.open + [w]];
    LineSnoc(indent, st.open, w);
    assert forall k :: 0 <= k < |gs| - 1 ==> gs'[k] == gs[k];
    assert gs'[|gs| - 1][0] == gs[|gs| - 1][0];
  }

  lemma StepOpens(st: Wrapping, words: seq<string>, w: string, indent: string, maxWidth: int)
    requires Sound(st, words, indent, maxWidth) && w != []
    requires st.open == []
    ensures Sound(Step(st, w, indent, maxWidth), words + [w], indent, maxWidth)
  {
    ConcatLength(st.closed);
  }

  lemma StepCloses(st: Wrapping, words: seq<string>, w: string, indent: string, maxWidth: int)
    requires Sound(st, words, indent, maxWidth) && w != []
    requires |Line(indent, st.open)| + |w| + 1 > maxWidth && st.open != []
    ensures Sound(Step(st, w, indent, maxWidth), words + [w], indent, maxWidth)
  {
    ConcatSnoc(st.closed, st.open);
    var gs := st.closed + [st.open];
    var gs' := gs + [[w]];
    assert forall k :: 0 <= k < |gs| ==> gs'[k] == gs[k];
  }

  lemma {:induction false} FoldSound(words: seq<string>, indent: string, maxWidth: int)
    requires NonEmptyWords(words)
    ensures Sound(Fold(words, indent, maxWidth), words, indent, maxWidth)
    decreases |words|
  {
    if words != [] {
      var init := words[..|words| - 1];
      var w := words[|words| - 1];
      assert words == init + [w];
      FoldSound(init, indent, maxWidth);
      var st := Fold(init, indent, maxWidth);
      if st.open == [] {
        StepOpens(st, init, w, indent, maxWidth);
      } else if |Line(indent, st.open)| + |w| + 1 <= maxWidth {
        StepAppends(st, init, w, indent, maxWidth);
      } else {
        StepCloses(st, init, w, indent, maxWidth);
      }
    }
  }

  /** The lines `wrapText` forms hold every word once, in order; each line
      of more than one word fits; and no line could have taken the next
      line's first word. */
  lemma WrapSound(words: seq<string>, indent: string, maxWidth: int)
    requires NonEmptyWords(words)
    ensures Concat(Wrap(words, indent, maxWidth)) == words
    ensures Fits(Wrap(words, indent, maxWidth), indent, maxWidth)
    ensures Greedy(Wrap(words, indent, maxWidth), indent, maxWidth)
    ensures Wrap(words, indent, maxWidth) == [] <==> words == []
  {
    FoldSound(words, indent, maxWidth);
    var st := Fold(words, indent, maxWidth);
    if st.open != [] {
      ConcatSnoc(st.closed, st.open);
    } else {
      ConcatLength(st.closed);
    }
  }

  function Lines(indent: string, groups: seq<seq<string>>): (ls: seq<string>)
    ensures |ls| == |groups|
    ensures forall k :: 0 <= k < |ls| ==> ls[k] == Line(indent, groups[k])
  {
    seq(|groups|, k requires 0 <= k < |groups| => Line(indent, groups[k]))
  }

  /** What one loop iteration needs to know about the state before it. */
  lemma Advance(words: seq<string>, i: int, indent: string, maxWidth: int)
    requires NonEmptyWords(words) && 0 <= i < |words|
    ensures Fold(words[..i + 1], indent, maxWidth) == Step(Fold(words[..i], indent, maxWidth), words[i], indent, maxWidth)
    ensures Fold(words[..i], indent, maxWidth).open == [] <==> Line(indent, Fold(words[..i], indent, maxWidth).open) == indent
    ensures Fold(words[..i], indent, maxWidth).open != [] ==>
      Line(indent, Fold(words[..i], indent, maxWidth).open + [words[i]]) == Line(indent, Fold(words[..i], indent, maxWidth).open) + " " + words[i]
  {
    assert words[..i + 1][..i] == words[..i];
    assert NonEmptyWords(words[..i]);
    FoldSound(words[..i], indent, maxWidth);
    var st := Fold(words[..i], indent, maxWidth);
    if st.open != [] {
      LineLonger(indent, st.open);
      LineSnoc(indent, st.open, words[i]);
    }
  }

  /** The line loop of `wrapText`, building the strings as it goes. */
  method WrapLines(words: seq<string>, maxWidth: int, indent: string) returns (lines: seq<string>)
    requires NonEmptyWords(words)
    ensures lines == Lines(indent, Wrap(words, indent, maxWidth))
  {
    lines := [];
    var current := indent;
    var i := 0;
    while i < |words|
      invariant 0 <= i <= |words|
      invariant lines == Lines(indent, Fold(words[..i], indent, maxWidth).closed)
      invariant current == Line(indent, Fold(words[..i], indent, maxWidth).open)
    {
      Advance(words, i, indent, maxWidth);
      var w := words[i];
      if |current| + |w| + 1 <= maxWidth {
        if current == indent {
          current := current + w;
        } else {
          current := current + " " + w;
        }
      } else {
        if current != indent {
          lines := lines + [current];
        }
        current := indent + w;
      }
      i := i + 1;
    }
    assert words[..i] == words;
    if current != indent {
      lines := lines + [current];
    }
  }

  predicate AllGroupsWords(groups: seq<seq<string>>) {
    forall k :: 0 <= k < |groups| ==> AllWords(groups[k])
  }

  /** Words split into groups are still words. */
  lemma {:induction false} GroupsOfWords(groups: seq<seq<string>>)
    requires AllWords(Concat(groups))
    ensures AllGroupsWords(groups)
    decreases |groups|
  {
    if |groups| > 0 {
      var c := Concat(groups);
      assert forall i :: 0 <= i < |groups[0]| ==> groups[0][i] == c[i];
      assert forall i :: 0 <= i < |Concat(groups[1..])| ==> Concat(groups[1..])[i] == c[|groups[0]| + i];
      GroupsOfWords(groups[1..]);
      assert forall k :: 1 <= k < |groups| ==> groups[k] == groups[1..][k - 1];
    }
  }

  /** The words of the indented lines are the words of the groups, when the
      indent is whitespace. */
  lemma {:induction false} FieldsOfLines(indent: string, groups: seq<seq<string>>)
    requires AllSpace(indent)
    requires AllGroupsWords(groups)
    ensures FieldsOfEach(Lines(indent, groups)) == Concat(groups)
    decreases |groups|
  {
    if |groups| > 0 {
      FieldsAfterSpaces(indent, Join(groups[0], " "));
      FieldsOfJoin(groups[0], ' ');
      FieldsOfWords(groups[0]);
      assert Lines(indent, groups)[1..] == Lines(indent, groups[1..]);
      FieldsOfLines(indent, groups[1..]);
    }
  }

  /** `wrapText`: text without words is returned unchanged; otherwise the
      greedy lines of its words joined by newlines. With a whitespace indent
      the words come out exactly as they went in. */
  method WrapText(text: string, maxWidth: int, indent: string) returns (r: string)
    ensures Fields(text) == [] ==> r == text
    ensures Fields(text) != [] ==> r == Join(Lines(indent, Wrap(Fields(text), indent, maxWidth)), "\n")
    ensures Fields(text) != [] && AllSpace(indent) ==> Fields(r) == Fields(text)
  {
    var words := Fields(text);
    if |words| == 0 {
      return text;
    }
    assert NonEmptyWords(words) by {
      forall i | 0 <= i < |words|
        ensures words[i] != []
      {
        assert IsWord(words[i]);
      }
    }
    var lines := WrapLines(words, maxWidth, indent);
    r := Join(lines, "\n");
    if AllSpace(indent) {
      ghost var groups := Wrap(words, indent, maxWidth);
      WrapSound(words, indent, maxWidth);
      GroupsOfWords(groups);
      FieldsOfJoin(lines, '\n');
      FieldsOfLines(indent, groups);
    }
  }

  // ---------------------------------------------------------------------
  // Demo data

  /** `generateDemoResults` of the fetch command: ten fixed items, each
      linking to the subscribed site itself. The name is not used. */
  function DemoResults(sourceName: string, sourceUrl: string): (rs: seq<SearchResult>)
    ensures |rs| == MaxResults
    ensures WellIndexed(rs)
    ensures forall i :: 0 <= i < |rs| ==> rs[i].url == sourceUrl && rs[i].title != [] && rs[i].snippet != [] && rs[i].publishedDate == []
  {
    [
      SearchResult(1, "Go 1.23 版本新特性详解", sourceUrl,
        "本文详细介绍了 Go 1.23 的新特性，包括泛型改进、性能优化等内容。新版本带来了更好的开发体验和更高的运行效率。", ""),
      SearchResult(2, "微服务架构下的分布式事务实践", sourceUrl,
        "探讨在微服务架构中如何处理分布式事务的一致性问题，分享了多种解决方案和最佳实践。", ""),
      SearchResult(3, "Kubernetes 1.29 新功能一览", sourceUrl,
        "Kubernetes 最新版本 1.29 发布，带来了更强大的容器编排功能和更好的安全性。", ""),
      SearchResult(4, "Rust 在系统编程中的应用", sourceUrl,
        "介绍 Rust 语言在系统级编程中的优势，包括内存安全、并发处理等方面。", ""),
      SearchResult(5, "前端性能优化最佳实践", sourceUrl,
        "分享前端性能优化的各种技巧，包括资源加载、渲染优化、代码分割等方法。", ""),
      SearchResult(6, "深入理解 Docker 容器技术", sourceUrl,
        "从底层原理到实际应用，全面解析 Docker 容器技术，帮助开发者更好地使用容器化技术。", ""),
      SearchResult(7, "AI 大模型应用开发指南", sourceUrl,
        "介绍如何利用大语言模型开发实际应用，包括 API 调用、提示工程等内容。", ""),
      SearchResult(8, "PostgreSQL 高级特性与优化", sourceUrl,
        "深入探讨 PostgreSQL 数据库的高级特性，包括查询优化、索引设计等。", ""),
      SearchResult(9, "GraphQL 与 RESTful API 的选择", sourceUrl,
        "对比 GraphQL 和 RESTful API 的优缺点，帮助开发者选择适合的 API 设计方案。", ""),
      SearchResult(10, "代码质量保障与自动化测试", sourceUrl,
        "讲解如何通过自动化测试和代码审查来提高代码质量，建立可靠的软件交付流程。", "")
    ]
  }
}
