/** `buildProxies` and `main` of convert.js: gather the proxies, drop the
    noise entries, build the groups and the rules, and assemble the output. */
module Convert {
  import opened Seqs
  import opened Patterns
  import opened Groups
  import opened Catalog
  import Rules

  /** What reading and parsing one provider's YAML file produced. Reading the
      file is outside the model; its outcome is an input. */
  datatype ProviderFile =
    | Unreadable                           // missing file or parse error: logged and skipped
    | Parsed(proxies: Option<seq<Proxy>>)  // the document, with or without a `proxies` list

  /** An entry of `proxy-providers`: its `path` (empty when absent) and what
      the file at that path yields. */
  datatype Provider = Provider(path: string, file: ProviderFile)

  /** The part of the input configuration the converter reads; `None` is a
      missing key. */
  datatype Config = Config(proxies: Option<seq<Proxy>>, proxyProviders: Option<seq<Provider>>)

  /** The keys of the returned object that the model covers. */
  datatype Output = Output(proxies: seq<Proxy>, proxyGroups: seq<ProxyGroup>,
                           ruleProviders: seq<Rules.RuleProvider>, rules: seq<string>)

  /** The proxies one provider adds: none without a path, none when its file
      cannot be read or parsed, none when the document has no `proxies`. */
  function Contribution(provider: Provider): (r: seq<Proxy>)
    ensures r == [] || (provider.path != "" && provider.file == Parsed(Some(r)))
    ensures provider.path != "" && provider.file.Parsed? && provider.file.proxies.Some? ==>
      r == provider.file.proxies.value
  {
    if provider.path == "" then []
    else match provider.file
      case Unreadable => []
      case Parsed(None) => []
      case Parsed(Some(proxies)) => proxies
  }

  /** The providers' proxies, provider by provider in declaration order. */
  function ProviderProxies(providers: seq<Provider>): seq<Proxy>
  {
    if providers == [] then [] else Contribution(providers[0]) + ProviderProxies(providers[1..])
  }

  function InlineProxies(config: Config): seq<Proxy>
  {
    if config.proxies.Some? then config.proxies.value else []
  }

  /** Specification of `buildProxies`: the inline proxies followed by those of
      every provider. */
  function LoadedProxies(config: Config): seq<Proxy>
  {
    match config.proxyProviders
    case None => InlineProxies(config)
    case Some(providers) => InlineProxies(config) + ProviderProxies(providers)
  }

  lemma {:induction false} ProviderProxiesAppend(providers: seq<Provider>, last: Provider)
    ensures ProviderProxies(providers + [last]) == ProviderProxies(providers) + Contribution(last)
  {
    if providers != [] {
      assert (providers + [last])[1..] == providers[1..] + [last];
      ProviderProxiesAppend(providers[1..], last);
    }
  }

  lemma ProviderProxiesStep(providers: seq<Provider>, i: int)
    requires 0 <= i < |providers|
    ensures ProviderProxies(providers[..i + 1]) == ProviderProxies(providers[..i]) + Contribution(providers[i])
  {
    assert providers[..i + 1] == providers[..i] + [providers[i]];
    ProviderProxiesAppend(providers[..i], providers[i]);
  }

  /** A proxy is loaded exactly when it is listed in the parsed file
      of a provider that has a path; failing providers add nothing. */
  lemma {:induction false} ProviderProxiesMembers(providers: seq<Provider>, p: Proxy)
    ensures p in ProviderProxies(providers) <==>
      exists k :: 0 <= k < |providers| && providers[k].path != "" &&
        providers[k].file.Parsed? && providers[k].file.proxies.Some? && p in providers[k].file.proxies.value
  {
    if providers != [] {
      ProviderProxiesMembers(providers[1..], p);
      if p in ProviderProxies(providers[1..]) {
        var k :| 0 <= k < |providers[1..]| && providers[1..][k].path != "" &&
          providers[1..][k].file.Parsed? && providers[1..][k].file.proxies.Some? &&
          p in providers[1..][k].file.proxies.value;
        assert providers[k + 1] == providers[1..][k];
      }
      if k :| (0 <= k < |providers| && providers[k].path != "" &&
               providers[k].file.Parsed? && providers[k].file.proxies.Some? && p in providers[k].file.proxies.value) {
        if k > 0 {
          assert providers[1..][k - 1] == providers[k];
        }
      }
    }
  }

  /** A proxy is loaded exactly when it is inline or listed in the parsed file
      of a provider that has a path. */
  lemma LoadedProxiesMembers(config: Config, p: Proxy)
    ensures p in LoadedProxies(config) <==>
      || (config.proxies.Some? && p in config.proxies.value)
      || (config.proxyProviders.Some? &&
          exists k :: 0 <= k < |config.proxyProviders.value| &&
            var provider := config.proxyProviders.value[k];
            provider.path != "" && provider.file.Parsed? && provider.file.proxies.Some? &&
            p in provider.file.proxies.value)
  {
    if config.proxyProviders.Some? {
      ProviderProxiesMembers(config.proxyProviders.value, p);
    }
  }

  /** `buildProxies`: starts from the inline list and appends each provider's
      proxies in turn. */
  method BuildProxies(config: Config) returns (proxies: seq<Proxy>)
    ensures proxies == LoadedProxies(config)
  {
    proxies := InlineProxies(config);
    if config.proxyProviders.None? {
      return;
    }
    var providers := config.proxyProviders.value;
    var i := 0;
    while i < |providers|
      invariant 0 <= i <= |providers|
      invariant proxies == InlineProxies(config) + ProviderProxies(providers[..i])
    {
      var provider := providers[i];
      ghost var before := proxies;
      if provider.path != "" {
        match provider.file {
          case Unreadable =>
          case Parsed(data) =>
            if data.Some? {
              proxies := proxies + data.value;
            }
        }
      }
      assert proxies == before + Contribution(provider);
      ProviderProxiesStep(providers, i);
      i := i + 1;
    }
    assert providers[..i] == providers;
  }

  /** Groups are well formed: the group named `mainGroupName` comes first and
      holds `DIRECT`, every member of every group is `DIRECT`, a region
      group's name or the name of an emitted proxy, and group names are
      unique. */
  ghost predicate GroupsWellFormed(mainGroupName: string, proxies: seq<Proxy>, groups: seq<ProxyGroup>)
  {
    && |groups| > 0
    && groups[0].name == mainGroupName && Direct in groups[0].members
    && (forall k, j :: 0 <= k < |groups| && 0 <= j < |groups[k].members| ==>
          Resolves(groups[k].members[j], groups, proxies))
    && Distinct(Map(groups, GroupName))
  }

  /** Rules are well formed: every entry of the chain goes to `DIRECT`,
      `REJECT` or the first group, and the last rule is the catch-all to the
      first group. */
  ghost predicate RulesWellFormed(mainGroupName: string, groups: seq<ProxyGroup>, rules: seq<string>)
  {
    && |groups| > 0
    && |rules| == 14
    && (forall i :: 0 <= i < 14 ==>
          Rules.RuleChain(mainGroupName)[i].target in {Direct, Rules.Reject, groups[0].name})
    && rules[13] == "MATCH," + groups[0].name
  }

  /** What the returned object guarantees. */
  ghost predicate WellFormed(out: Output)
  {
    && GroupsWellFormed(MainGroupName, out.proxies, out.proxyGroups)
    && RulesWellFormed(MainGroupName, out.proxyGroups, out.rules)
  }

  /** Whatever proxies are given, the groups built from a catalog whose
      region names are unique and differ from the main group's are well
      formed. */
  lemma BuiltGroupsWellFormed(proxies: seq<Proxy>, regions: seq<Region>, mainGroupName: string, includeAll: bool)
    requires forall i, j :: 0 <= i < j < |regions| ==> regions[i].name != regions[j].name
    requires forall i :: 0 <= i < |regions| ==> regions[i].name != mainGroupName
    ensures GroupsWellFormed(mainGroupName, proxies, BuildProxyGroups(proxies, regions, mainGroupName, includeAll))
  {
    MainGroupFirst(proxies, regions, mainGroupName, includeAll);
    MembersResolve(proxies, regions, mainGroupName, includeAll);
    GroupNamesDistinct(proxies, regions, mainGroupName, includeAll);
  }

  /** The rules route to the first group whenever that group is the main
      group. */
  lemma RulesRouteToFirstGroup(mainGroupName: string, groups: seq<ProxyGroup>)
    requires |groups| > 0 && groups[0].name == mainGroupName
    ensures RulesWellFormed(mainGroupName, groups, Rules.BuildRules(mainGroupName))
  {
    var chain := Rules.RuleChain(mainGroupName);
    forall i | 0 <= i < 14
      ensures chain[i].target in {Direct, Rules.Reject, groups[0].name}
    {
      if i != 0 && i != 7 && i != 13 {
        assert chain[i].target == (if i == 6 then Rules.Reject else Direct);
      }
    }
  }

  /** Any output whose groups and rules are built from the catalog is well
      formed, whichever proxies it carries. */
  lemma CatalogOutputWellFormed(out: Output)
    requires out.proxyGroups == BuildProxyGroups(out.proxies, Regions, MainGroupName, IncludeAllProxiesInMainGroup)
    requires out.rules == Rules.BuildRules(MainGroupName)
    ensures WellFormed(out)
  {
    CatalogNamesDistinct();
    BuiltGroupsWellFormed(out.proxies, Regions, MainGroupName, IncludeAllProxiesInMainGroup);
    RulesRouteToFirstGroup(MainGroupName, out.proxyGroups);
  }

  /** `main`: the proxies that pass the noise filter, the groups built from
      them, the rule providers and the rules; the result is well formed. */
  method Convert(config: Config) returns (out: Output)
    ensures out.proxies == FilterProxies(LoadedProxies(config), FilterRegex)
    ensures forall p :: p in out.proxies <==> p in LoadedProxies(config) && Test(FilterRegex, p.name)
    ensures out.proxyGroups == BuildProxyGroups(out.proxies, Regions, MainGroupName, IncludeAllProxiesInMainGroup)
    ensures out.ruleProviders == Rules.RuleProviders
    ensures out.rules == Rules.BuildRules(MainGroupName)
    ensures WellFormed(out)
  {
    var proxies := BuildProxies(config);
    var filtered := FilterProxies(proxies, FilterRegex);
    var proxyGroups := BuildProxyGroups(filtered, Regions, MainGroupName, IncludeAllProxiesInMainGroup);
    var rules := Rules.BuildRules(MainGroupName);
    out := Output(filtered, proxyGroups, Rules.RuleProviders, rules);
    CatalogOutputWellFormed(out);
  }
}
