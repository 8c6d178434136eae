/** Name filtering and proxy-group synthesis: `filterProxies` and
    `buildProxyGroups` of convert.js. */
module Groups {
  import opened Seqs
  import opened Patterns

  /** A proxy record. Only `name` is looked at; every other field of the
      record is carried along untouched. */
  datatype Proxy = Proxy(name: string, settings: map<string, string>)

  /** An entry of the region catalog: the code names the icon, the name
      becomes the group's name, the regex picks the region's proxies. */
  datatype Region = Region(code: string, name: string, regex: Regex)

  datatype GroupType = Select | UrlTest

  /** An emitted proxy group. The main group has no icon; a region group's
      `members` are proxy names, the main group's are group names, the
      `DIRECT` sentinel and possibly proxy names. */
  datatype ProxyGroup = ProxyGroup(name: string, groupType: GroupType, icon: Option<string>, members: seq<string>)

  const Direct := "DIRECT"

  function ProxyName(p: Proxy): string { p.name }

  function GroupName(g: ProxyGroup): string { g.name }

  function RegionName(region: Region): string { region.name }

  /** `filterProxies(proxies, regex)`: the proxies whose name the regex accepts. */
  function FilterProxies(proxies: seq<Proxy>, regex: Regex): (r: seq<Proxy>)
    ensures forall i :: 0 <= i < |r| ==> Test(regex, r[i].name)
    ensures forall p :: p in r <==> p in proxies && Test(regex, p.name)
    ensures forall p: Proxy :: Test(regex, p.name) ==> multiset(r)[p] == multiset(proxies)[p]
    ensures Subsequence(r, proxies)
  {
    Filter(proxies, (p: Proxy) => Test(regex, p.name))
  }

  /** The filter's result is pinned down by the list-level contract: any
      order-preserving selection of accepted proxies that keeps every accepted
      proxy (as often as it occurs) is exactly the filter's result. */
  lemma FilterProxiesUnique(proxies: seq<Proxy>, regex: Regex, t: seq<Proxy>)
    requires Subsequence(t, proxies)
    requires forall i :: 0 <= i < |t| ==> Test(regex, t[i].name)
    requires forall p: Proxy :: Test(regex, p.name) ==> multiset(t)[p] == multiset(proxies)[p]
    ensures t == FilterProxies(proxies, regex)
  {
    FilterUnique(proxies, (p: Proxy) => Test(regex, p.name), t);
  }

  /** Filtering the filter's own output with the same regex changes nothing. */
  lemma FilterProxiesIdempotent(proxies: seq<Proxy>, regex: Regex)
    ensures FilterProxies(FilterProxies(proxies, regex), regex) == FilterProxies(proxies, regex)
  {
    FilterIdempotent(proxies, (p: Proxy) => Test(regex, p.name));
  }

  const IconBase := "https://cdn.jsdelivr.net/gh/Orz-3/mini@master/Color/"

  /** The icon of a region group: a PNG named by the region's code. */
  function IconUrl(code: string): string
  {
    IconBase + code + ".png"
  }

  /** Regions with different codes get different icons: the code can be read
      back from the URL. */
  lemma IconUrlInjective(a: string, b: string)
    ensures IconUrl(a) == IconUrl(b) <==> a == b
  {
    if IconUrl(a) == IconUrl(b) {
      var n := |IconBase|;
      assert |a| == |b|;
      assert a == IconUrl(a)[n..n + |a|];
      assert b == IconUrl(b)[n..n + |b|];
    }
  }

  /** The region's proxies are those whose name its regex accepts; the source
      tests that list for emptiness. */
  function HasMatch(proxies: seq<Proxy>, region: Region): (b: bool)
    ensures b <==> exists p :: p in proxies && Test(region.regex, p.name)
  {
    |FilterProxies(proxies, region.regex)| != 0
  }

  /** The `url-test` group a region gets, its members the names of the region's
      proxies in input order. */
  function RegionGroup(proxies: seq<Proxy>, region: Region): ProxyGroup
  {
    ProxyGroup(region.name, UrlTest, Some(IconUrl(region.code)),
               Map(FilterProxies(proxies, region.regex), ProxyName))
  }

  /** One element of `regions.map(...)`: `null` for a region none of the
      proxies matches. */
  function RegionGroupOrNull(proxies: seq<Proxy>, region: Region): (r: Option<ProxyGroup>)
    ensures r == None <==> forall p :: p in proxies ==> !Test(region.regex, p.name)
    ensures r.Some? ==> r.value.name == region.name && |r.value.members| > 0
    ensures r.Some? ==> r.value.groupType == UrlTest && r.value.icon == Some(IconUrl(region.code))
    ensures r.Some? ==> r.value.members == Map(FilterProxies(proxies, region.regex), ProxyName)
  {
    if !HasMatch(proxies, region) then None else Some(RegionGroup(proxies, region))
  }

  /** Reference description of the region groups: the catalog entries that
      match at least one proxy, in catalog order, each turned into its group. */
  function MatchedRegions(proxies: seq<Proxy>, regions: seq<Region>): seq<Region>
  {
    Filter(regions, (region: Region) => HasMatch(proxies, region))
  }

  function RegionGroups(proxies: seq<Proxy>, regions: seq<Region>): seq<ProxyGroup>
  {
    Map(MatchedRegions(proxies, regions), (region: Region) => RegionGroup(proxies, region))
  }

  /** `buildProxyGroups`: the main `select` group first, then one group per
      region that matches at least one proxy. */
  function BuildProxyGroups(proxies: seq<Proxy>, regions: seq<Region>, mainGroupName: string,
                            includeAllProxiesInMainGroup: bool): (groups: seq<ProxyGroup>)
    ensures |groups| == 1 + |MatchedRegions(proxies, regions)| <= 1 + |regions|
    ensures groups[1..] == RegionGroups(proxies, regions)
    ensures groups[0] == ProxyGroup(mainGroupName, Select, None,
                                    Map(groups[1..], GroupName) + [Direct] +
                                    (if includeAllProxiesInMainGroup then Map(proxies, ProxyName) else []))
  {
    var regionGroups := Map(regions, (region: Region) => RegionGroupOrNull(proxies, region));
    var validRegionGroups := Present(regionGroups);
    var mainGroup := ProxyGroup(mainGroupName, Select, None,
                                Map(validRegionGroups, GroupName) + [Direct] +
                                (if includeAllProxiesInMainGroup then Map(proxies, ProxyName) else []));
    PresentOfMap(regions, (region: Region) => RegionGroupOrNull(proxies, region),
                 (region: Region) => HasMatch(proxies, region), (region: Region) => RegionGroup(proxies, region));
    [mainGroup] + validRegionGroups
  }

  /** The main group always comes first and is a `select` group holding at
      least `DIRECT`; with no proxies it is the only group and holds exactly
      `DIRECT`. */
  lemma MainGroupFirst(proxies: seq<Proxy>, regions: seq<Region>, mainGroupName: string, includeAll: bool)
    ensures var groups := BuildProxyGroups(proxies, regions, mainGroupName, includeAll);
      && groups[0].name == mainGroupName && groups[0].groupType == Select
      && Direct in groups[0].members
      && (proxies == [] ==> groups == [ProxyGroup(mainGroupName, Select, None, [Direct])])
  {
    var groups := BuildProxyGroups(proxies, regions, mainGroupName, includeAll);
    var k := |groups| - 1;
    assert groups[0].members[k] == Direct;
    if proxies == [] {
      var matched := MatchedRegions(proxies, regions);
      if matched != [] {
        assert false;
      }
      assert groups[1..] == [];
      assert Map(groups[1..], GroupName) == [];
      assert Map(proxies, ProxyName) == [];
      assert groups[0].members == [Direct];
      assert groups == [groups[0]];
    }
  }

  /** The main group's members, in order: the names of the matched regions in
      catalog order, then `DIRECT`, then every proxy name in input order if and
      only if the flag is set. */
  lemma MainGroupMembers(proxies: seq<Proxy>, regions: seq<Region>, mainGroupName: string, includeAll: bool)
    ensures var members := BuildProxyGroups(proxies, regions, mainGroupName, includeAll)[0].members;
      var matched := MatchedRegions(proxies, regions);
      && |members| == |matched| + 1 + (if includeAll then |proxies| else 0)
      && members[..|matched|] == Map(matched, RegionName)
      && members[|matched|] == Direct
      && members[|matched| + 1..] == (if includeAll then Map(proxies, ProxyName) else [])
  {
    var groups := BuildProxyGroups(proxies, regions, mainGroupName, includeAll);
    var matched := MatchedRegions(proxies, regions);
    var names := Map(groups[1..], GroupName);
    assert names == Map(matched, RegionName);
    var tail := if includeAll then Map(proxies, ProxyName) else [];
    assert groups[0].members == names + [Direct] + tail;
    assert groups[0].members[..|matched|] == names;
    assert groups[0].members[|matched| + 1..] == tail;
  }

  /** A region's group has members exactly when the region matches a proxy. */
  lemma RegionGroupNonEmptyIff(proxies: seq<Proxy>, region: Region)
    ensures |RegionGroup(proxies, region).members| > 0 <==> HasMatch(proxies, region)
  {
  }

  /** The region group at position `i + 1` is the group of the `i`-th matched
      region, a catalog region that matches. */
  lemma RegionGroupAt(proxies: seq<Proxy>, regions: seq<Region>, mainGroupName: string,
                      includeAll: bool, i: int)
    requires 0 <= i < |MatchedRegions(proxies, regions)|
    ensures var region := MatchedRegions(proxies, regions)[i];
      && BuildProxyGroups(proxies, regions, mainGroupName, includeAll)[i + 1] == RegionGroup(proxies, region)
      && region in regions && HasMatch(proxies, region)
  {
    var groups := BuildProxyGroups(proxies, regions, mainGroupName, includeAll);
    assert groups[i + 1] == RegionGroups(proxies, regions)[i];
  }

  /** A catalog region gets a group exactly when at least one proxy name
      matches its regex. */
  lemma RegionGroupEmittedIff(proxies: seq<Proxy>, regions: seq<Region>, mainGroupName: string,
                              includeAll: bool, region: Region)
    requires region in regions
    ensures RegionGroup(proxies, region) in BuildProxyGroups(proxies, regions, mainGroupName, includeAll)[1..]
            <==> exists p :: p in proxies && Test(region.regex, p.name)
  {
    if RegionGroup(proxies, region) in BuildProxyGroups(proxies, regions, mainGroupName, includeAll)[1..] {
      EmittedRegionMatches(proxies, regions, mainGroupName, includeAll, region);
    }
    if HasMatch(proxies, region) {
      MatchingRegionEmitted(proxies, regions, mainGroupName, includeAll, region);
    }
  }

  lemma EmittedRegionMatches(proxies: seq<Proxy>, regions: seq<Region>, mainGroupName: string,
                             includeAll: bool, region: Region)
    requires RegionGroup(proxies, region) in BuildProxyGroups(proxies, regions, mainGroupName, includeAll)[1..]
    ensures HasMatch(proxies, region)
  {
    var groups := BuildProxyGroups(proxies, regions, mainGroupName, includeAll);
    var i :| 0 <= i < |groups[1..]| && groups[1..][i] == RegionGroup(proxies, region);
    RegionGroupAt(proxies, regions, mainGroupName, includeAll, i);
    RegionGroupNonEmptyIff(proxies, MatchedRegions(proxies, regions)[i]);
    RegionGroupNonEmptyIff(proxies, region);
  }

  lemma MatchingRegionEmitted(proxies: seq<Proxy>, regions: seq<Region>, mainGroupName: string,
                              includeAll: bool, region: Region)
    requires region in regions && HasMatch(proxies, region)
    ensures RegionGroup(proxies, region) in BuildProxyGroups(proxies, regions, mainGroupName, includeAll)[1..]
  {
    var matched := MatchedRegions(proxies, regions);
    assert region in matched;
    var i :| 0 <= i < |matched| && matched[i] == region;
    RegionGroupAt(proxies, regions, mainGroupName, includeAll, i);
    assert BuildProxyGroups(proxies, regions, mainGroupName, includeAll)[1..][i] == RegionGroup(proxies, region);
  }

  /** Every emitted region group is the `url-test` group of some catalog
      region and has at least one member. */
  lemma RegionGroupsNonEmpty(proxies: seq<Proxy>, regions: seq<Region>, mainGroupName: string, includeAll: bool)
    ensures var groups := BuildProxyGroups(proxies, regions, mainGroupName, includeAll);
      forall i :: 1 <= i < |groups| ==>
        && groups[i].groupType == UrlTest
        && |groups[i].members| > 0
        && exists region :: region in regions && groups[i] == RegionGroup(proxies, region)
  {
    var groups := BuildProxyGroups(proxies, regions, mainGroupName, includeAll);
    var matched := MatchedRegions(proxies, regions);
    forall i | 1 <= i < |groups|
      ensures |groups[i].members| > 0
      ensures exists region :: region in regions && groups[i] == RegionGroup(proxies, region)
    {
      var region := matched[i - 1];
      assert groups[i] == groups[1..][i - 1] == RegionGroup(proxies, region);
      assert HasMatch(proxies, region);
      assert region in regions;
    }
  }

  /** A region group's members are exactly the names of the proxies whose
      name matches the region's regex, in input order. */
  lemma RegionMembersExact(proxies: seq<Proxy>, region: Region)
    ensures var members := RegionGroup(proxies, region).members;
      && (forall n :: n in members <==> exists p :: p in proxies && p.name == n && Test(region.regex, n))
      && members == Map(FilterProxies(proxies, region.regex), ProxyName)
      && Subsequence(FilterProxies(proxies, region.regex), proxies)
  {
    var members := RegionGroup(proxies, region).members;
    forall n ensures n in members <==> exists p :: p in proxies && p.name == n && Test(region.regex, n) {
      if n in members {
        MemberIsMatchingProxy(proxies, region, n);
      }
      if p :| p in proxies && p.name == n && Test(region.regex, n) {
        MatchingProxyIsMember(proxies, region, p);
      }
    }
  }

  lemma MemberIsMatchingProxy(proxies: seq<Proxy>, region: Region, n: string)
    requires n in RegionGroup(proxies, region).members
    ensures exists p :: p in proxies && p.name == n && Test(region.regex, n)
  {
    var picked := FilterProxies(proxies, region.regex);
    var members := Map(picked, ProxyName);
    var i :| 0 <= i < |members| && members[i] == n;
    var p := picked[i];
    assert p in picked;
    assert p in proxies && p.name == n && Test(region.regex, n);
  }

  lemma MatchingProxyIsMember(proxies: seq<Proxy>, region: Region, p: Proxy)
    requires p in proxies && Test(region.regex, p.name)
    ensures p.name in RegionGroup(proxies, region).members
  {
    var picked := FilterProxies(proxies, region.regex);
    var members := Map(picked, ProxyName);
    assert p in picked;
    var i :| 0 <= i < |picked| && picked[i] == p;
    assert members[i] == p.name;
  }

  /** Regions are matched independently over the same proxy list: a proxy
      lands in the group of every region whose regex accepts its name, so
      region groups may overlap. */
  lemma MatchingIsIndependent(proxies: seq<Proxy>, regions: seq<Region>, mainGroupName: string,
                              includeAll: bool, p: Proxy)
    requires p in proxies
    ensures var groups := BuildProxyGroups(proxies, regions, mainGroupName, includeAll);
      forall region :: region in regions && Test(region.regex, p.name) ==>
        exists i :: 1 <= i < |groups| && groups[i].name == region.name && p.name in groups[i].members
  {
    forall region | region in regions && Test(region.regex, p.name)
      ensures var groups := BuildProxyGroups(proxies, regions, mainGroupName, includeAll);
        exists i :: 1 <= i < |groups| && groups[i].name == region.name && p.name in groups[i].members
    {
      ProxyInRegionGroup(proxies, regions, mainGroupName, includeAll, p, region);
    }
  }

  lemma ProxyInRegionGroup(proxies: seq<Proxy>, regions: seq<Region>, mainGroupName: string,
                           includeAll: bool, p: Proxy, region: Region)
    requires p in proxies && region in regions && Test(region.regex, p.name)
    ensures var groups := BuildProxyGroups(proxies, regions, mainGroupName, includeAll);
      exists i :: 1 <= i < |groups| && groups[i].name == region.name && p.name in groups[i].members
  {
    var groups := BuildProxyGroups(proxies, regions, mainGroupName, includeAll);
    MatchingRegionEmitted(proxies, regions, mainGroupName, includeAll, region);
    var g := RegionGroup(proxies, region);
    var picked := FilterProxies(proxies, region.regex);
    assert p in picked;
    var i :| 0 <= i < |picked| && picked[i] == p;
    assert g.members[i] == p.name;
    var j :| 0 <= j < |groups[1..]| && groups[1..][j] == g;
    var h := groups[1..][j];
    assert h.name == region.name && p.name in h.members;
    assert h == groups[j + 1];
  }

  /** Membership closure: every member of every emitted group is `DIRECT`, the
      name of an emitted region group, or the name of an input proxy. */
  lemma MembersResolve(proxies: seq<Proxy>, regions: seq<Region>, mainGroupName: string, includeAll: bool)
    ensures var groups := BuildProxyGroups(proxies, regions, mainGroupName, includeAll);
      forall k, j :: 0 <= k < |groups| && 0 <= j < |groups[k].members| ==>
        Resolves(groups[k].members[j], groups, proxies)
  {
    var groups := BuildProxyGroups(proxies, regions, mainGroupName, includeAll);
    forall k, j | 0 <= k < |groups| && 0 <= j < |groups[k].members|
      ensures Resolves(groups[k].members[j], groups, proxies)
    {
      if k == 0 {
        MainMemberResolves(proxies, regions, mainGroupName, includeAll, j);
      } else {
        RegionMemberResolves(proxies, regions, mainGroupName, includeAll, k, j);
      }
    }
  }

  /** `m` is `DIRECT`, a region group's name or a proxy's name. */
  ghost predicate Resolves(m: string, groups: seq<ProxyGroup>, proxies: seq<Proxy>)
  {
    || m == Direct
    || (exists i :: 1 <= i < |groups| && groups[i].name == m)
    || (exists p :: p in proxies && p.name == m)
  }

  lemma MainMemberResolves(proxies: seq<Proxy>, regions: seq<Region>, mainGroupName: string,
                           includeAll: bool, j: int)
    requires 0 <= j < |BuildProxyGroups(proxies, regions, mainGroupName, includeAll)[0].members|
    ensures var groups := BuildProxyGroups(proxies, regions, mainGroupName, includeAll);
      Resolves(groups[0].members[j], groups, proxies)
  {
    var groups := BuildProxyGroups(proxies, regions, mainGroupName, includeAll);
    var names := Map(groups[1..], GroupName);
    var tail := if includeAll then Map(proxies, ProxyName) else [];
    var members := groups[0].members;
    assert members == names + [Direct] + tail;
    if j < |names| {
      assert members[j] == names[j] == groups[j + 1].name;
    } else if j > |names| {
      var n := j - |names| - 1;
      assert members[j] == tail[n];
      assert includeAll;
      assert tail[n] == proxies[n].name;
      assert proxies[n] in proxies;
    } else {
      assert members[j] == Direct;
    }
  }

  lemma RegionMemberResolves(proxies: seq<Proxy>, regions: seq<Region>, mainGroupName: string,
                             includeAll: bool, k: int, j: int)
    requires 1 <= k < |BuildProxyGroups(proxies, regions, mainGroupName, includeAll)|
    requires 0 <= j < |BuildProxyGroups(proxies, regions, mainGroupName, includeAll)[k].members|
    ensures var groups := BuildProxyGroups(proxies, regions, mainGroupName, includeAll);
      Resolves(groups[k].members[j], groups, proxies)
  {
    var groups := BuildProxyGroups(proxies, regions, mainGroupName, includeAll);
    RegionGroupAt(proxies, regions, mainGroupName, includeAll, k - 1);
    var region := MatchedRegions(proxies, regions)[k - 1];
    var picked := FilterProxies(proxies, region.regex);
    var members := groups[k].members;
    assert members == Map(picked, ProxyName);
    var p := picked[j];
    assert p in proxies && members[j] == p.name;
  }

  /** The matched regions keep the catalog's distinct names, none of which is
      the main group's. */
  lemma MatchedNamesDistinct(proxies: seq<Proxy>, regions: seq<Region>, mainGroupName: string)
    requires forall i, j :: 0 <= i < j < |regions| ==> regions[i].name != regions[j].name
    requires forall i :: 0 <= i < |regions| ==> regions[i].name != mainGroupName
    ensures var matched := MatchedRegions(proxies, regions);
      && (forall i, j :: 0 <= i < j < |matched| ==> matched[i].name != matched[j].name)
      && (forall i :: 0 <= i < |matched| ==> matched[i].name != mainGroupName)
  {
    var matched := MatchedRegions(proxies, regions);
    assert Distinct(Map(regions, RegionName));
    FilterKeepsDistinctImages(regions, (region: Region) => HasMatch(proxies, region), RegionName);
    var names := Map(matched, RegionName);
    forall i, j | 0 <= i < j < |matched| ensures matched[i].name != matched[j].name {
      assert names[i] != names[j];
    }
    forall i | 0 <= i < |matched| ensures matched[i].name != mainGroupName {
      assert matched[i] in regions;
    }
  }

  /** The groups after the first carry the matched regions' names, in order. */
  lemma RegionGroupNames(proxies: seq<Proxy>, regions: seq<Region>, mainGroupName: string, includeAll: bool)
    ensures var groups := BuildProxyGroups(proxies, regions, mainGroupName, includeAll);
      forall i :: 1 <= i < |groups| ==> groups[i].name == MatchedRegions(proxies, regions)[i - 1].name
  {
    var groups := BuildProxyGroups(proxies, regions, mainGroupName, includeAll);
    forall i | 1 <= i < |groups| ensures groups[i].name == MatchedRegions(proxies, regions)[i - 1].name {
      RegionGroupAt(proxies, regions, mainGroupName, includeAll, i - 1);
    }
  }

  /** Group names are unique whenever the catalog's region names are and the
      main group's name is none of them. */
  lemma GroupNamesDistinct(proxies: seq<Proxy>, regions: seq<Region>, mainGroupName: string, includeAll: bool)
    requires forall i, j :: 0 <= i < j < |regions| ==> regions[i].name != regions[j].name
    requires forall i :: 0 <= i < |regions| ==> regions[i].name != mainGroupName
    ensures Distinct(Map(BuildProxyGroups(proxies, regions, mainGroupName, includeAll), GroupName))
  {
    var groups := BuildProxyGroups(proxies, regions, mainGroupName, includeAll);
    var matched := MatchedRegions(proxies, regions);
    MatchedNamesDistinct(proxies, regions, mainGroupName);
    RegionGroupNames(proxies, regions, mainGroupName, includeAll);
    MainGroupFirst(proxies, regions, mainGroupName, includeAll);
    NamesFollowRegions(groups, matched, mainGroupName);
  }

  lemma NamesFollowRegions(groups: seq<ProxyGroup>, matched: seq<Region>, mainGroupName: string)
    requires |groups| == |matched| + 1 && groups[0].name == mainGroupName
    requires forall i :: 1 <= i < |groups| ==> groups[i].name == matched[i - 1].name
    requires forall i, j :: 0 <= i < j < |matched| ==> matched[i].name != matched[j].name
    requires forall i :: 0 <= i < |matched| ==> matched[i].name != mainGroupName
    ensures Distinct(Map(groups, GroupName))
  {
    var names := Map(groups, GroupName);
    forall i, j | 0 <= i < j < |names| ensures names[i] != names[j] {
      assert names[j] == matched[j - 1].name;
      if i > 0 {
        assert names[i] == matched[i - 1].name;
      }
    }
  }
}
