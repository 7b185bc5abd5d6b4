/** The subscription manager (`internal/subscription`): an ordered list of
    subscriptions with validated insertion, removal by name, alias or
    1-based position, and lookup. Each operation returns the new list (or
    the entry found) or an error; a failed operation has no new list, so the
    caller's list is left as it was. */
module Subscriptions {
  import opened Wrappers
  import opened Text
  import opened Net

  /** `createdAt` is the clock reading taken when the entry was added. */
  datatype Subscription = Subscription(name: string, alias: string, url: string, createdAt: int)

  datatype Error =
    | EmptyName
    | NameTooLong
    | AliasHasSpace
    | AliasTooLong
    | MalformedUrl
    | UnsupportedScheme
    | DuplicateName(name: string)
    | DuplicateAlias(alias: string)
    | NotFound(key: string)
    | InvalidIndex(index: int)

  const MaxNameLen: int := 50
  const MaxAliasLen: int := 20

  // ---------------------------------------------------------------------
  // What a new entry must satisfy

  /** The name has a non-space byte and is at most 50 bytes long. */
  predicate ValidName(name: string) {
    !AllSpace(name) && |name| <= MaxNameLen
  }

  /** An empty alias means "no alias"; otherwise it has no ' ' byte and is
      at most 20 bytes long. */
  predicate ValidAlias(alias: string) {
    alias == [] || (' ' !in alias && |alias| <= MaxAliasLen)
  }

  predicate WebUrl(parse: Parser, url: string) {
    parse(url).Some? && parse(url).value.scheme in {"http", "https"}
  }

  predicate NameFree(subs: seq<Subscription>, name: string) {
    forall j :: 0 <= j < |subs| ==> subs[j].name != name
  }

  predicate AliasFree(subs: seq<Subscription>, alias: string) {
    alias == [] || forall j :: 0 <= j < |subs| ==> subs[j].alias != alias
  }

  /** The checks on the new entry's own fields, in the order `Add` makes
      them; the first that fails names the error. */
  function CheckFields(name: string, alias: string, url: string, parse: Parser): (e: Option<Error>)
    ensures e.None? <==> ValidName(name) && ValidAlias(alias) && WebUrl(parse, url)
  {
    ContainsByte(alias, ' ');
    if TrimSpace(name) == [] then Some(EmptyName)
    else if |name| > MaxNameLen then Some(NameTooLong)
    else if alias != [] && Contains(alias, " ") then Some(AliasHasSpace)
    else if alias != [] && |alias| > MaxAliasLen then Some(AliasTooLong)
    else match parse(url)
      case None => Some(MalformedUrl)
      case Some(u) => if u.scheme != "http" && u.scheme != "https" then Some(UnsupportedScheme) else None
  }

  /** The entry has the new name as its name, or the new non-empty alias as
      its alias. */
  predicate Clashes(s: Subscription, name: string, alias: string) {
    s.name == name || (alias != [] && s.alias == alias)
  }

  /** The position of the first entry that clashes with the new keys. */
  function FirstClash(subs: seq<Subscription>, name: string, alias: string): (r: Option<nat>)
    ensures r.Some? ==> r.value < |subs| && Clashes(subs[r.value], name, alias)
    ensures r.Some? ==> forall j :: 0 <= j < r.value ==> !Clashes(subs[j], name, alias)
    ensures r.None? <==> forall j :: 0 <= j < |subs| ==> !Clashes(subs[j], name, alias)
    decreases |subs|
  {
    if |subs| == 0 then None
    else if Clashes(subs[0], name, alias) then Some(0)
    else
      assert forall j :: 1 <= j < |subs| ==> subs[j] == subs[1..][j - 1];
      match FirstClash(subs[1..], name, alias)
      case None => None
      case Some(i) => Some(i + 1)
  }

  /** The duplicate scan: the first existing entry that has the new name,
      or the new non-empty alias, decides which duplicate is reported; within
      that entry the name is checked first. */
  function FindClash(subs: seq<Subscription>, name: string, alias: string): (e: Option<Error>)
    ensures e.None? <==> NameFree(subs, name) && AliasFree(subs, alias)
    ensures e.Some? ==> e.value == DuplicateName(name) || e.value == DuplicateAlias(alias)
    ensures e.Some? && NameFree(subs, name) ==> e.value == DuplicateAlias(alias)
    ensures e.Some? && AliasFree(subs, alias) ==> e.value == DuplicateName(name)
    ensures FirstClash(subs, name, alias).Some? ==>
              var k := FirstClash(subs, name, alias).value;
              e == Some(if subs[k].name == name then DuplicateName(name) else DuplicateAlias(alias))
    decreases |subs|
  {
    if |subs| == 0 then None
    else if subs[0].name == name then Some(DuplicateName(name))
    else if alias != [] && subs[0].alias == alias then Some(DuplicateAlias(alias))
    else
      assert forall j :: 1 <= j < |subs| ==> subs[j] == subs[1..][j - 1];
      FindClash(subs[1..], name, alias)
  }

  /** `Manager.Add`, as written. */
  function Add(subs: seq<Subscription>, name: string, alias: string, url: string, now: int, parse: Parser)
    : (r: Result<seq<Subscription>, Error>)
    ensures r.Success? <==>
              ValidName(name) && ValidAlias(alias) && WebUrl(parse, url) && NameFree(subs, name) && AliasFree(subs, alias)
    ensures r.Success? ==> r.value == subs + [Subscription(name, alias, url, now)]
    ensures AllSpace(name) ==> r == Failure(EmptyName)
    ensures !AllSpace(name) && |name| > MaxNameLen ==> r == Failure(NameTooLong)
    ensures ValidName(name) && alias != [] && ' ' in alias ==> r == Failure(AliasHasSpace)
    ensures ValidName(name) && alias != [] && ' ' !in alias && |alias| > MaxAliasLen ==> r == Failure(AliasTooLong)
    ensures ValidName(name) && ValidAlias(alias) && parse(url).None? ==> r == Failure(MalformedUrl)
    ensures ValidName(name) && ValidAlias(alias) && parse(url).Some? && !WebUrl(parse, url) ==> r == Failure(UnsupportedScheme)
    ensures ValidName(name) && ValidAlias(alias) && WebUrl(parse, url) ==>
              && (!NameFree(subs, name) && AliasFree(subs, alias) ==> r == Failure(DuplicateName(name)))
              && (NameFree(subs, name) && !AliasFree(subs, alias) ==> r == Failure(DuplicateAlias(alias)))
              && (r.Failure? ==> r.error == DuplicateName(name) || r.error == DuplicateAlias(alias))
              && (r.Failure? ==> Some(r.error) == FindClash(subs, name, alias))
  {
    ContainsByte(alias, ' ');
    match CheckFields(name, alias, url, parse)
    case Some(e) => Failure(e)
    case None =>
      match FindClash(subs, name, alias)
      case Some(e) => Failure(e)
      case None => Success(subs + [Subscription(name, alias, url, now)])
  }

  // ---------------------------------------------------------------------
  // Lookup and removal

  predicate Matches(s: Subscription, key: string) {
    s.name == key || s.alias == key
  }

  /** The position of the first entry whose name or alias is `key`. */
  function FirstMatch(subs: seq<Subscription>, key: string): (r: Option<nat>)
    ensures r.Some? ==> r.value < |subs| && Matches(subs[r.value], key)
    ensures r.Some? ==> forall j :: 0 <= j < r.value ==> !Matches(subs[j], key)
    ensures r.None? <==> forall j :: 0 <= j < |subs| ==> !Matches(subs[j], key)
    decreases |subs|
  {
    if |subs| == 0 then None
    else if Matches(subs[0], key) then Some(0)
    else
      assert forall j :: 1 <= j < |subs| ==> subs[j] == subs[1..][j - 1];
      match FirstMatch(subs[1..], key)
      case None => None
      case Some(i) => Some(i + 1)
  }

  /** `Manager.Get`: the first entry whose name or alias is `key`. */
  function Get(subs: seq<Subscription>, key: string): (r: Result<Subscription, Error>)
    ensures r.Failure? <==> forall j :: 0 <= j < |subs| ==> !Matches(subs[j], key)
    ensures r.Failure? ==> r.error == NotFound(key)
    ensures r.Success? ==> exists i :: 0 <= i < |subs| && subs[i] == r.value && Matches(subs[i], key)
                                    && forall j :: 0 <= j < i ==> !Matches(subs[j], key)
  {
    match FirstMatch(subs, key)
    case None => Failure(NotFound(key))
    case Some(i) => Success(subs[i])
  }

  /** `Manager.Remove`: drops the first entry whose name or alias is `key`. */
  function Remove(subs: seq<Subscription>, key: string): (r: Result<seq<Subscription>, Error>)
    ensures r.Failure? <==> forall j :: 0 <= j < |subs| ==> !Matches(subs[j], key)
    ensures r.Failure? ==> r.error == NotFound(key)
    ensures r.Success? ==> exists i :: 0 <= i < |subs| && Matches(subs[i], key)
                                    && (forall j :: 0 <= j < i ==> !Matches(subs[j], key))
                                    && r.value == subs[..i] + subs[i + 1..]
  {
    match FirstMatch(subs, key)
    case None => Failure(NotFound(key))
    case Some(i) => Success(subs[..i] + subs[i + 1..])
  }

  /** `Manager.RemoveByIndex`: drops the entry at 1-based `index`. */
  function RemoveByIndex(subs: seq<Subscription>, index: int): (r: Result<seq<Subscription>, Error>)
    ensures r.Failure? <==> index < 1 || index > |subs|
    ensures r.Failure? ==> r.error == InvalidIndex(index)
    ensures r.Success? ==> |r.value| == |subs| - 1
    ensures r.Success? ==> forall j :: 0 <= j < index - 1 ==> r.value[j] == subs[j]
    ensures r.Success? ==> forall j :: index - 1 <= j < |r.value| ==> r.value[j] == subs[j + 1]
  {
    if index < 1 || index > |subs| then Failure(InvalidIndex(index))
    else Success(subs[..index - 1] + subs[index..])
  }

  /** `Manager.List`: the list itself, in insertion order. */
  function List(subs: seq<Subscription>): seq<Subscription> {
    subs
  }

  // ---------------------------------------------------------------------
  // Properties of the manager

  /** Names are pairwise distinct, and so are the non-empty aliases. */
  predicate Unique(subs: seq<Subscription>) {
    && (forall i, j :: 0 <= i < j < |subs| ==> subs[i].name != subs[j].name)
    && (forall i, j :: 0 <= i < j < |subs| && subs[i].alias != [] ==> subs[i].alias != subs[j].alias)
  }

  lemma AddKeepsUnique(subs: seq<Subscription>, name: string, alias: string, url: string, now: int, parse: Parser)
    requires Unique(subs)
    requires Add(subs, name, alias, url, now, parse).Success?
    ensures Unique(Add(subs, name, alias, url, now, parse).value)
  {
    var r := Add(subs, name, alias, url, now, parse).value;
    assert forall j :: 0 <= j < |subs| ==> r[j] == subs[j];
    assert r[|subs|].name == name && r[|subs|].alias == alias;
  }

  /** After a successful `Add`, `Get` by the new name finds the new entry,
      provided no older entry carries that name as its alias. */
  lemma GetAfterAdd(subs: seq<Subscription>, name: string, alias: string, url: string, now: int, parse: Parser)
    requires Add(subs, name, alias, url, now, parse).Success?
    requires forall j :: 0 <= j < |subs| ==> subs[j].alias != name
    ensures Get(Add(subs, name, alias, url, now, parse).value, name) == Success(Subscription(name, alias, url, now))
  {
    var r := Add(subs, name, alias, url, now, parse).value;
    assert forall j :: 0 <= j < |subs| ==> r[j] == subs[j];
    assert forall j :: 0 <= j < |subs| ==> !Matches(r[j], name);
    assert Matches(r[|subs|], name);
    assert FirstMatch(r, name) == Some(|subs|);
  }

  /** The gap in `Add`'s duplicate scan: a new name equal to an older
      entry's alias is accepted, and `Get` by that name then returns the
      older entry, never the one just added. */
  lemma GetAfterAddShadowed(subs: seq<Subscription>, name: string, alias: string, url: string, now: int, parse: Parser, k: nat)
    requires Add(subs, name, alias, url, now, parse).Success?
    requires k < |subs| && subs[k].alias == name
    ensures Get(Add(subs, name, alias, url, now, parse).value, name).Success?
    ensures Get(Add(subs, name, alias, url, now, parse).value, name).value != Subscription(name, alias, url, now)
  {
    var r := Add(subs, name, alias, url, now, parse).value;
    assert r[k] == subs[k];
    assert Matches(r[k], name);
    var i :| 0 <= i < |r| && r[i] == Get(r, name).value && Matches(r[i], name) && forall j :: 0 <= j < i ==> !Matches(r[j], name);
    assert i <= k;
    assert r[i] == subs[i];
  }

  /** A concrete instance: "Hacker News" with alias "hn" is stored; adding
      a subscription named "hn" succeeds, and `Get("hn")` still returns
      "Hacker News". */
  lemma ShadowedExample()
    ensures var parse: Parser := u => Some(Url("https", "example.org", map[]));
            var subs := [Subscription("Hacker News", "hn", "https://news.ycombinator.com", 0)];
            var r := Add(subs, "hn", "", "https://hn.example.org", 1, parse);
            r.Success? && Get(r.value, "hn") == Success(subs[0])
  {
    var parse: Parser := u => Some(Url("https", "example.org", map[]));
    var subs := [Subscription("Hacker News", "hn", "https://news.ycombinator.com", 0)];
    assert !AllSpace("hn") by {
      assert !IsSpace("hn"[0]);
    }
    assert WebUrl(parse, "https://hn.example.org");
    var r := Add(subs, "hn", "", "https://hn.example.org", 1, parse);
    assert r.Success?;
    assert r.value[0] == subs[0];
  }

  // ---------------------------------------------------------------------
  // The corrected duplicate scan

  /** Every non-empty name or alias an entry answers to. */
  function Keys(s: Subscription): set<string> {
    {s.name, s.alias} - {[]}
  }

  /** No two entries answer to the same non-empty key. */
  predicate KeysDistinct(subs: seq<Subscription>) {
    forall i, j :: 0 <= i < j < |subs| ==> Keys(subs[i]) !! Keys(subs[j])
  }

  /** The duplicate scan with names and aliases checked against both kinds
      of key. */
  function FindClashStrict(subs: seq<Subscription>, name: string, alias: string): (e: Option<Error>)
    ensures e.None? <==> forall j :: 0 <= j < |subs| ==> !Matches(subs[j], name) && (alias == [] || !Matches(subs[j], alias))
    decreases |subs|
  {
    if |subs| == 0 then None
    else if Matches(subs[0], name) then Some(DuplicateName(name))
    else if alias != [] && Matches(subs[0], alias) then Some(DuplicateAlias(alias))
    else
      assert forall j :: 1 <= j < |subs| ==> subs[j] == subs[1..][j - 1];
      FindClashStrict(subs[1..], name, alias)
  }

  /** `Add` with the corrected duplicate scan. */
  function AddStrict(subs: seq<Subscription>, name: string, alias: string, url: string, now: int, parse: Parser)
    : (r: Result<seq<Subscription>, Error>)
    ensures r.Success? ==> r.value == subs + [Subscription(name, alias, url, now)]
    ensures r.Success? <==> CheckFields(name, alias, url, parse).None? && FindClashStrict(subs, name, alias).None?
  {
    match CheckFields(name, alias, url, parse)
    case Some(e) => Failure(e)
    case None =>
      match FindClashStrict(subs, name, alias)
      case Some(e) => Failure(e)
      case None => Success(subs + [Subscription(name, alias, url, now)])
  }

  /** With the corrected scan, the new entry is what `Get` finds by its
      name and by its alias. */
  lemma GetAfterAddStrict(subs: seq<Subscription>, name: string, alias: string, url: string, now: int, parse: Parser)
    requires AddStrict(subs, name, alias, url, now, parse).Success?
    ensures Get(AddStrict(subs, name, alias, url, now, parse).value, name) == Success(Subscription(name, alias, url, now))
    ensures alias != [] ==> Get(AddStrict(subs, name, alias, url, now, parse).value, alias) == Success(Subscription(name, alias, url, now))
  {
    var r := AddStrict(subs, name, alias, url, now, parse).value;
    assert forall j :: 0 <= j < |subs| ==> r[j] == subs[j];
    assert forall j :: 0 <= j < |subs| ==> !Matches(r[j], name);
    assert Matches(r[|subs|], name);
    assert FirstMatch(r, name) == Some(|subs|);
    if alias != [] {
      assert forall j :: 0 <= j < |subs| ==> !Matches(r[j], alias);
      assert Matches(r[|subs|], alias);
      assert FirstMatch(r, alias) == Some(|subs|);
    }
  }

  lemma AddStrictKeepsKeysDistinct(subs: seq<Subscription>, name: string, alias: string, url: string, now: int, parse: Parser)
    requires KeysDistinct(subs)
    requires AddStrict(subs, name, alias, url, now, parse).Success?
    ensures KeysDistinct(AddStrict(subs, name, alias, url, now, parse).value)
  {
    var r := AddStrict(subs, name, alias, url, now, parse).value;
    var e := Subscription(name, alias, url, now);
    assert forall j :: 0 <= j < |subs| ==> r[j] == subs[j];
    assert r[|subs|] == e;
    forall j | 0 <= j < |subs|
      ensures Keys(subs[j]) !! Keys(e)
    {
      assert !Matches(subs[j], name);
      assert alias == [] || !Matches(subs[j], alias);
    }
  }

  /** Where every key is unique, removing by a non-empty key leaves no
      entry that `Get` finds by it. */
  lemma GetAfterRemove(subs: seq<Subscription>, key: string)
    requires KeysDistinct(subs)
    requires key != []
    requires Remove(subs, key).Success?
    ensures Get(Remove(subs, key).value, key) == Failure(NotFound(key))
    ensures |Remove(subs, key).value| == |subs| - 1
  {
    var i := FirstMatch(subs, key).value;
    var r := Remove(subs, key).value;
    assert r == subs[..i] + subs[i + 1..];
    forall j | 0 <= j < |r|
      ensures !Matches(r[j], key)
    {
      var j' := if j < i then j else j + 1;
      assert r[j] == subs[j'];
      assert key in Keys(subs[i]);
      if j' < i {
        assert Keys(subs[j']) !! Keys(subs[i]);
      } else {
        assert Keys(subs[i]) !! Keys(subs[j']);
      }
      assert key !in Keys(subs[j']);
    }
  }

  /** `Remove`, `Get` and `RemoveByIndex` agree: removing by key removes
      the entry `Get` returns, at the position `RemoveByIndex` would. */
  lemma RemoveIsRemoveByIndex(subs: seq<Subscription>, key: string)
    requires Get(subs, key).Success?
    ensures Remove(subs, key).Success?
    ensures exists i :: 1 <= i <= |subs| && subs[i - 1] == Get(subs, key).value
                     && Remove(subs, key) == RemoveByIndex(subs, i)
  {
    var i := FirstMatch(subs, key).value;
    assert subs[(i + 1) - 1] == subs[i];
    assert Remove(subs, key) == RemoveByIndex(subs, i + 1);
  }
}
