/** The official-source registry (`internal/official/registry.go`): a
    read-only table of specially supported sites keyed by alias. The
    process-wide, once-initialised singleton is a constant value here. */
module Registry {
  import opened Wrappers

  /** One official source; `fetcherType` selects its fetch strategy. */
  datatype Source = Source(alias: string, name: string, url: string, fetcherType: string, description: string, enabled: bool)

  type Sources = map<string, Source>

  const InfoQHotlist: Source := Source(
    "infoq",
    "InfoQ 中文站热点清单",
    "https://www.infoq.cn/hotlist",
    "infoq",
    "InfoQ 中文站的热点文章列表",
    true)

  /** Every source is stored under its own alias. */
  predicate KeyedByAlias(reg: Sources) {
    forall a :: a in reg ==> reg[a].alias == a
  }

  /** `GetRegistry`: the registry with its default sources. */
  function GetRegistry(): (reg: Sources)
    ensures reg.Keys == {"infoq"}
    ensures KeyedByAlias(reg)
  {
    map["infoq" := InfoQHotlist]
  }

  /** `Registry.Get`: a source is found only if it is present and enabled. */
  function Get(reg: Sources, alias: string): (r: Option<Source>)
    ensures r.Some? <==> alias in reg && reg[alias].enabled
    ensures r.Some? ==> r.value == reg[alias]
  {
    if alias in reg && reg[alias].enabled then Some(reg[alias]) else None
  }

  /** `Registry.List`: the enabled sources, in no particular order. */
  function List(reg: Sources): (r: set<Source>)
    ensures forall s :: s in r ==> s.enabled
    ensures forall a :: a in reg && reg[a].enabled ==> reg[a] in r
  {
    set a | a in reg && reg[a].enabled :: reg[a]
  }

  /** `List` holds exactly the sources `Get` can return. */
  lemma ListIsWhatGetFinds(reg: Sources, s: Source)
    ensures s in List(reg) <==> exists a :: Get(reg, a) == Some(s)
  {
    if s in List(reg) {
      var a :| a in reg && reg[a].enabled && reg[a] == s;
      assert Get(reg, a) == Some(s);
    }
  }

  /** The seeded registry answers "infoq" with the InfoQ hotlist page and
      nothing else. */
  lemma SeededLookup(alias: string)
    ensures alias == "infoq" ==> Get(GetRegistry(), alias).Some?
    ensures alias == "infoq" ==> Get(GetRegistry(), alias).value.url == "https://www.infoq.cn/hotlist"
    ensures alias == "infoq" ==> Get(GetRegistry(), alias).value.fetcherType == "infoq"
    ensures alias != "infoq" ==> Get(GetRegistry(), alias) == None
  {
  }
}
