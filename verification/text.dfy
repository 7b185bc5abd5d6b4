/** The byte-string helpers of Go's `strings` package that the program
    relies on: `HasPrefix`, `Contains`, `TrimSpace`, `Fields` and `Join`.
    A `string` here stands for a Go byte string, so `|s|` is Go's `len(s)`. */
module Text {

  /** Whitespace as `TrimSpace` and `Fields` see it on ASCII bytes. */
  predicate IsSpace(c: char) {
    c == ' ' || c == '\t' || c == '\n' || c == '\r' || c == '\U{0B}' || c == '\U{0C}'
  }

  predicate AllSpace(s: string) {
    forall i :: 0 <= i < |s| ==> IsSpace(s[i])
  }

  /** A field of `Fields`: a non-empty run of non-space bytes. */
  predicate IsWord(w: string) {
    |w| > 0 && forall i :: 0 <= i < |w| ==> !IsSpace(w[i])
  }

  predicate AllWords(ws: seq<string>) {
    forall i :: 0 <= i < |ws| ==> IsWord(ws[i])
  }

  predicate HasPrefix(s: string, prefix: string) {
    |prefix| <= |s| && s[..|prefix|] == prefix
  }

  /** `strings.Contains`: `sub` occurs somewhere in `s`. */
  predicate Contains(s: string, sub: string)
    decreases |s|
  {
    HasPrefix(s, sub) || (|s| > 0 && Contains(s[1..], sub))
  }

  /** Looking for a one-byte string is looking for that byte. */
  lemma {:induction false} ContainsByte(s: string, c: char)
    ensures Contains(s, [c]) <==> c in s
    decreases |s|
  {
    if |s| > 0 {
      ContainsByte(s[1..], c);
      assert c in s <==> s[0] == c || c in s[1..];
    }
  }

  function TrimLeft(s: string): (r: string)
    ensures |r| <= |s|
    ensures r == [] || !IsSpace(r[0])
  {
    if |s| > 0 && IsSpace(s[0]) then TrimLeft(s[1..]) else s
  }

  function TrimRight(s: string): (r: string)
    ensures |r| <= |s|
    ensures r == [] || !IsSpace(r[|r| - 1])
  {
    if |s| > 0 && IsSpace(s[|s| - 1]) then TrimRight(s[..|s| - 1]) else s
  }

  /** `strings.TrimSpace`: drops leading and trailing whitespace. */
  function TrimSpace(s: string): (r: string)
    ensures r == [] <==> AllSpace(s)
    ensures r != [] ==> !IsSpace(r[0]) && !IsSpace(r[|r| - 1])
    ensures |r| <= |s|
    ensures exists i, j :: 0 <= i <= j <= |s| && r == s[i..j] && AllSpace(s[..i]) && AllSpace(s[j..])
  {
    var t := TrimLeft(s);
    TrimLeftSplit(s);
    TrimRightSplit(t);
    var i := |s| - |t|;
    var j := i + |TrimRight(t)|;
    assert s[i..] == t;
    assert s[i..j] == TrimRight(t) && s[j..] == t[|TrimRight(t)|..];
    TrimRight(t)
  }

  /** The longest prefix of `s` free of whitespace. */
  function LeadingWord(s: string): (w: string)
    ensures |w| <= |s|
    ensures forall i :: 0 <= i < |w| ==> !IsSpace(w[i])
    ensures |w| == |s| || IsSpace(s[|w|])
  {
    if |s| == 0 || IsSpace(s[0]) then [] else [s[0]] + LeadingWord(s[1..])
  }

  /** `strings.Fields`: the maximal runs of non-space bytes, in order. */
  function Fields(s: string): (ws: seq<string>)
    ensures AllWords(ws)
    decreases |s|
  {
    var t := TrimLeft(s);
    if t == [] then []
    else
      var w := LeadingWord(t);
      [w] + Fields(t[|w|..])
  }

  /** `strings.Join`. */
  function Join(parts: seq<string>, sep: string): string
    decreases |parts|
  {
    if |parts| == 0 then []
    else if |parts| == 1 then parts[0]
    else parts[0] + sep + Join(parts[1..], sep)
  }

  /** The words of every part, concatenated in order. */
  function FieldsOfEach(parts: seq<string>): seq<string>
    decreases |parts|
  {
    if |parts| == 0 then [] else Fields(parts[0]) + FieldsOfEach(parts[1..])
  }

  /** Every whitespace byte is a single ' ' between two words. */
  predicate SingleSpaced(s: string) {
    && (|s| > 0 ==> !IsSpace(s[0]) && !IsSpace(s[|s| - 1]))
    && forall i :: 0 <= i < |s| && IsSpace(s[i]) ==> s[i] == ' ' && i + 1 < |s| && !IsSpace(s[i + 1])
  }

  /** `strings.Join(strings.Fields(s), " ")`: whitespace runs collapsed to
      one space, leading and trailing whitespace removed. */
  function CollapseSpaces(s: string): (r: string)
    ensures Fields(r) == Fields(s)
    ensures SingleSpaced(r)
    ensures r == [] <==> AllSpace(s)
  {
    var ws := Fields(s);
    FieldsEmpty(s);
    FieldsOfJoin(ws, ' ');
    FieldsOfWords(ws);
    JoinWordsSingleSpaced(ws);
    Join(ws, " ")
  }

  // ---------------------------------------------------------------------
  // Sequence bookkeeping

  lemma DropAppend<T>(x: seq<T>, y: seq<T>, k: nat)
    requires k <= |x|
    ensures (x + y)[k..] == x[k..] + y
  {
  }

  lemma {:induction false} TrimLeftSplit(s: string)
    ensures s == s[..|s| - |TrimLeft(s)|] + TrimLeft(s)
    ensures AllSpace(s[..|s| - |TrimLeft(s)|])
    decreases |s|
  {
    if |s| > 0 && IsSpace(s[0]) {
      TrimLeftSplit(s[1..]);
      var k := |s| - |TrimLeft(s)|;
      assert s[..k] == [s[0]] + s[1..][..k - 1];
    }
  }

  lemma {:induction false} TrimRightSplit(s: string)
    ensures s == TrimRight(s) + s[|TrimRight(s)|..]
    ensures AllSpace(s[|TrimRight(s)|..])
    decreases |s|
  {
    if |s| > 0 && IsSpace(s[|s| - 1]) {
      var s' := s[..|s| - 1];
      TrimRightSplit(s');
      var k := |TrimRight(s)|;
      assert s[k..] == s'[k..] + [s[|s| - 1]];
    }
  }

  // ---------------------------------------------------------------------
  // Lemmas relating Fields, TrimSpace and Join

  lemma {:induction false} TrimLeftSpacePrefix(a: string, b: string)
    requires AllSpace(a)
    ensures TrimLeft(a + b) == TrimLeft(b)
    decreases |a|
  {
    if |a| > 0 {
      assert (a + b)[1..] == a[1..] + b;
      TrimLeftSpacePrefix(a[1..], b);
    } else {
      assert a + b == b;
    }
  }

  lemma {:induction false} TrimLeftAppend(a: string, b: string)
    requires TrimLeft(a) != []
    ensures TrimLeft(a + b) == TrimLeft(a) + b
    decreases |a|
  {
    if IsSpace(a[0]) {
      assert (a + b)[1..] == a[1..] + b;
      TrimLeftAppend(a[1..], b);
    }
  }

  lemma {:induction false} LeadingWordBeforeSpace(t: string, c: char, b: string)
    requires IsSpace(c)
    ensures LeadingWord(t + [c] + b) == LeadingWord(t)
    decreases |t|
  {
    if |t| > 0 && !IsSpace(t[0]) {
      assert (t + [c] + b)[1..] == t[1..] + [c] + b;
      LeadingWordBeforeSpace(t[1..], c, b);
    }
  }

  /** Words never straddle a whitespace byte. */
  lemma {:induction false} FieldsSplit(a: string, c: char, b: string)
    requires IsSpace(c)
    ensures Fields(a + [c] + b) == Fields(a) + Fields(b)
    decreases |a|, 1
  {
    if TrimLeft(a) == [] {
      FieldsEmpty(a);
      assert AllSpace(a + [c]) by {
        forall i | 0 <= i < |a| + 1
          ensures IsSpace((a + [c])[i])
        {
          if i < |a| {
            assert (a + [c])[i] == a[i];
          }
        }
      }
      TrimLeftSpacePrefix(a + [c], b);
    } else {
      FieldsSplitAfterWord(a, c, b);
    }
  }

  lemma {:induction false} FieldsSplitAfterWord(a: string, c: char, b: string)
    requires IsSpace(c)
    requires TrimLeft(a) != []
    ensures Fields(a + [c] + b) == Fields(a) + Fields(b)
    decreases |a|, 0
  {
    var ta := TrimLeft(a);
    var w := LeadingWord(ta);
    var t := ta + [c] + b;
    var u := ta[|w|..];
    TrimLeftBeforeSpace(a, c, b);
    LeadingWordBeforeSpace(ta, c, b);
    DropAppend(ta, [c] + b, |w|);
    assert t[|w|..] == u + [c] + b;
    FieldsSplit(u, c, b);
    assert Fields(t[|w|..]) == Fields(u) + Fields(b);
    FieldsStep(a + [c] + b);
    FieldsStep(a);
    assert [w] + (Fields(u) + Fields(b)) == ([w] + Fields(u)) + Fields(b);
  }

  /** One unfolding of `Fields` on a string holding a word. */
  lemma FieldsStep(s: string)
    requires TrimLeft(s) != []
    ensures Fields(s) == [LeadingWord(TrimLeft(s))] + Fields(TrimLeft(s)[|LeadingWord(TrimLeft(s))|..])
  {
  }

  lemma TrimLeftBeforeSpace(a: string, c: char, b: string)
    requires TrimLeft(a) != []
    ensures TrimLeft(a + [c] + b) == TrimLeft(a) + [c] + b
  {
    TrimLeftAppend(a, [c] + b);
    assert a + [c] + b == a + ([c] + b);
    assert TrimLeft(a) + ([c] + b) == TrimLeft(a) + [c] + b;
  }

  lemma FieldsEmpty(s: string)
    ensures Fields(s) == [] <==> AllSpace(s)
  {
    TrimLeftSplit(s);
    if TrimLeft(s) == [] {
      assert s[..|s|] == s;
    } else {
      assert s[|s| - |TrimLeft(s)|] == TrimLeft(s)[0];
    }
  }

  lemma FieldsAfterSpaces(a: string, b: string)
    requires AllSpace(a)
    ensures Fields(a + b) == Fields(b)
  {
    TrimLeftSpacePrefix(a, b);
  }

  lemma FieldsOfWord(w: string)
    requires IsWord(w)
    ensures Fields(w) == [w]
  {
    assert TrimLeft(w) == w;
    WordIsLeadingWord(w);
    assert w[|w|..] == [];
  }

  lemma {:induction false} WordIsLeadingWord(w: string)
    requires forall i :: 0 <= i < |w| ==> !IsSpace(w[i])
    ensures LeadingWord(w) == w
    decreases |w|
  {
    if |w| > 0 {
      WordIsLeadingWord(w[1..]);
    }
  }

  /** Joining with a whitespace byte keeps the words of every part. */
  lemma {:induction false} FieldsOfJoin(parts: seq<string>, c: char)
    requires IsSpace(c)
    ensures Fields(Join(parts, [c])) == FieldsOfEach(parts)
    decreases |parts|
  {
    if |parts| == 1 {
      assert FieldsOfEach(parts[1..]) == [];
    } else if |parts| > 1 {
      FieldsOfJoin(parts[1..], c);
      FieldsSplit(parts[0], c, Join(parts[1..], [c]));
    }
  }

  lemma {:induction false} FieldsOfWords(ws: seq<string>)
    requires AllWords(ws)
    ensures FieldsOfEach(ws) == ws
    decreases |ws|
  {
    if |ws| > 0 {
      FieldsOfWord(ws[0]);
      FieldsOfWords(ws[1..]);
    }
  }

  lemma {:induction false} JoinWordsSingleSpaced(ws: seq<string>)
    requires AllWords(ws)
    ensures SingleSpaced(Join(ws, " "))
    ensures Join(ws, " ") == [] <==> ws == []
    decreases |ws|
  {
    if |ws| > 1 {
      var rest := Join(ws[1..], " ");
      JoinWordsSingleSpaced(ws[1..]);
      var r := ws[0] + " " + rest;
      assert r == Join(ws, " ");
      assert rest[0] == ws[1][0];
      forall i | 0 <= i < |r| && IsSpace(r[i])
        ensures r[i] == ' ' && i + 1 < |r| && !IsSpace(r[i + 1])
      {
        if i > |ws[0]| {
          assert r[i] == rest[i - |ws[0]| - 1];
          assert r[i + 1] == rest[i - |ws[0]|];
        }
      }
    }
  }

  lemma FieldsBeforeSpaces(a: string, b: string)
    requires AllSpace(b)
    ensures Fields(a + b) == Fields(a)
  {
    if |b| > 0 {
      assert a + b == a + [b[0]] + b[1..];
      FieldsSplit(a, b[0], b[1..]);
      assert AllSpace(b[1..]);
      FieldsEmpty(b[1..]);
    } else {
      assert a + b == a;
    }
  }

  lemma TrimSpaceKeepsFields(s: string)
    ensures Fields(TrimSpace(s)) == Fields(s)
  {
    var t := TrimLeft(s);
    TrimLeftSplit(s);
    FieldsAfterSpaces(s[..|s| - |t|], t);
    var r := TrimRight(t);
    TrimRightSplit(t);
    FieldsBeforeSpaces(r, t[|r|..]);
  }
}
