# clash-override `convert.js`, modelled in Dafny

`convert.js` is an override script for a Clash-style proxy client. It takes the
client's configuration and does five things:

1. It gathers the proxies: the inline `proxies` list, then every proxy found in
   the local files named by `proxy-providers`.
2. It drops the entries whose names are subscription notices rather than
   proxies. Examples are "剩余流量" (remaining traffic) and "到期" (expiry).
   The test is one anchored, case-insensitive regular expression (`FILTER_REGEX`).
3. It builds the proxy groups. Each of twelve catalog regions (`REGIONS`) gets a
   `url-test` group holding the proxies whose names match that region's regex,
   but only if at least one proxy matches. In front of these comes the main
   `select` group, "节点选择". It lists the region groups, then `DIRECT`, then
   optionally every proxy.
4. It emits a fixed catalog of remote rule sets (`rule-providers`) and a fixed,
   ordered chain of fourteen routing rules. The chain sends the proxy lists and
   the catch-all to the main group.
5. It assembles these into the object the client loads.

The model follows the script's own structure:

- `seqs.dfy` (`Seqs`): `filter`, `map` and the `null` filter on arrays, with
  their characterising lemmas.
- `patterns.dfy` (`Patterns`): the two regex shapes the script uses and what
  `regex.test` means for them.
- `groups.dfy` (`Groups`): `filterProxies` and `buildProxyGroups`, with the
  properties of the groups.
- `catalog.dfy` (`Catalog`): the constants: the feature flag, the main group's
  name, the region catalog and the noise keywords.
- `rules.dfy` (`Rules`): `buildRules`. It holds the rule-provider catalog, the
  rule chain as structured entries, and their rendering as strings.
- `convert.dfy` (`Convert`): `buildProxies` (a loop over the providers) and
  `main`.

The central results:

- **Filter.** `filterProxies` returns the order-preserving subsequence that
  keeps exactly the matching proxies, with their multiplicity. No other
  subsequence has these properties, and applying the filter twice changes
  nothing.
- **Region groups.** A region gets a group if and only if some proxy matches
  it, so no group is empty. A group's members are the names of the matching
  proxies, in input order. Groups may overlap: a name starting with
  "Australia" lands in both the US and the AU group.
- **Main group.** It is first, is of type `select`, and has the main group's
  name. Its members are the region-group names in catalog order, then
  `DIRECT`, then the proxy names if and only if the flag is set. With no
  proxies it is the only group and holds exactly `DIRECT`.
- **Resolution.** Every member of every group is `DIRECT`, an emitted region
  group's name, or a proxy name.
- **Unique names.** Group names are unique.
- **Rules.** Every rule goes to `DIRECT`, `REJECT` or the main group, and the
  last rule is `MATCH,<main group>`. The rule sets the chain uses are exactly
  the declared rule providers.
- **Noise filter.** A proxy name passes the filter if and only if it is a
  single line and contains no noise keyword, ignoring case.

Some behaviour of `convert.js` differs from the repository's other override
script, `订阅转换.js`. The model follows `convert.js`:

- Region groups are always of type `url-test` (`convert.js:128`). There is no
  parameter that overrides the group type (`订阅转换.js:8`).
- There is no minimum group size (`订阅转换.js:6`) and no group for proxies
  that match no region.
- An empty proxy list is not short-circuited (unlike `订阅转换.js:250`). The
  script still emits the main group, holding only `DIRECT`, and the full rule
  chain.
- `main` returns a new object built from the DNS block, `proxies`,
  `proxy-groups`, `rule-providers` and `rules` (`convert.js:51-56`). Other keys
  of the input configuration are not carried over.

## Model

| member | source | states |
|---|---|---|
| Seqs.Filter | convert.js:89 | `Array.prototype.filter`: the result is a subsequence of the input. Every kept element passes the test. An element is in the result if and only if it is in the input and passes. Each passing element keeps its multiplicity. |
| Seqs.Map | convert.js:130 | `Array.prototype.map`: same length, and each position holds the function applied to the input at that position. |
| Seqs.Present | convert.js:136 | `filter(group => group !== null)`: a value survives if and only if it was present (non-`null`) in the input. The survivors, re-wrapped, are exactly the non-`null` entries in input order with their multiplicity. |
| Seqs.SubsequenceMultiset | convert.js:89 | An order-preserving selection never holds an element more often than the input does. |
| Seqs.FilterUnique | convert.js:89 | The filter is the only subsequence that keeps exactly the passing elements, with their multiplicity. |
| Seqs.FilterIdempotent | convert.js:89 | Filtering a filtered sequence with the same test changes nothing. |
| Seqs.PresentOfMap | convert.js:123-136 | Mapping each region to `null` or a group and then dropping `null` equals selecting the matching regions first and mapping them. |
| Seqs.FilterKeepsDistinctImages | convert.js:123-136 | Selecting from a list whose names are unique leaves names that are unique. |
| Patterns.Occurs | convert.js:14-32 | The substring search finds the needle if and only if it occurs at some position. |
| Patterns.ContainsAny | convert.js:14-30 | An alternation of literals matches if and only if some alternative occurs, ignoring case. |
| Patterns.FoldedOccurrence | convert.js:14-32 | Comparing case-folded strings is the same as comparing character by character up to case. |
| Patterns.AnyOfMeaning | convert.js:14-30 | A region regex accepts a name if and only if some alternative lines up with a stretch of the name, up to case. |
| Patterns.NoneOfMeaning | convert.js:31-32 | `FILTER_REGEX`'s shape accepts a name if and only if the name has no line terminator and no keyword lines up with any stretch of it, up to case. |
| Patterns.TestIgnoresCase | convert.js:14-32 | Both regex shapes give the same answer for two names that agree up to case. |
| Patterns.Test | convert.js:89 | `regex.test(name)` for the two shapes. It has no contract of its own: `AnyOfMeaning` and `NoneOfMeaning` characterise it. |
| Groups.FilterProxies | convert.js:88-90 | `filterProxies` keeps a proxy if and only if it is in the input and its name passes the regex. The result is in input order, with the multiplicity of the input. |
| Groups.FilterProxiesUnique | convert.js:88-90 | Any order-preserving selection of passing proxies that keeps every passing proxy as often as it occurs is exactly `filterProxies`'s result. |
| Groups.FilterProxiesIdempotent | convert.js:88-90 | Filtering the filtered proxies with the same regex changes nothing. |
| Groups.HasMatch | convert.js:124-125 | The emptiness test on a region's proxies is false if and only if some proxy's name matches the region's regex. |
| Groups.IconUrl | convert.js:129 | The icon URL of a region's code. It has no contract of its own: `IconUrlInjective` characterises it. |
| Groups.IconUrlInjective | convert.js:129 | The icon URL, built from the fixed CDN prefix, the region code and `.png`, determines the code: two codes give the same URL if and only if they are equal. |
| Groups.RegionGroup | convert.js:126-131 | The region callback's group: `url-test`, named by the region, with the icon of its code. It has no contract of its own: `RegionMembersExact` and `RegionGroupNonEmptyIff` characterise its members. |
| Groups.RegionGroupOrNull | convert.js:123-133 | The callback returns `null` if and only if no proxy's name matches the region's regex. Otherwise it returns the region's `url-test` group: named by the region, with the icon of its code, and holding the names of the matching proxies in input order, at least one of them. |
| Groups.BuildProxyGroups | convert.js:116-152 | There are 1 + (number of matching regions) groups, at most 1 + the number of regions. After the first come the groups of the matching regions, in catalog order. The first is the `select` group named by the main group name. Its members are the region-group names, then `DIRECT`, then every proxy name if the flag is set. |
| Groups.MainGroupFirst | convert.js:139-151 | The main group is first, is of type `select`, carries the main group's name and holds `DIRECT`. With no proxies, the group list is exactly the main group holding `["DIRECT"]`. |
| Groups.MainGroupMembers | convert.js:139-149 | The main group's members, in order: the matched regions' names, then `DIRECT`, then the proxy names if and only if the flag is set. |
| Groups.RegionGroupNonEmptyIff | convert.js:124-131 | A region's group has members if and only if the region matches some proxy. |
| Groups.RegionGroupAt | convert.js:123-136 | The group at position i+1 is the group of the i-th matched region. That region is in the catalog and matches a proxy. |
| Groups.RegionGroupEmittedIff | convert.js:123-136 | A catalog region's group is emitted if and only if some proxy's name matches the region's regex. |
| Groups.RegionGroupsNonEmpty | convert.js:123-136 | Every group after the first is the `url-test` group of a catalog region and has at least one member. |
| Groups.RegionMembersExact | convert.js:124-130 | A name is a member of a region group if and only if it is the name of a proxy that the region's regex accepts. The members are those proxies' names in input order. |
| Groups.MatchingIsIndependent | convert.js:123-130 | A proxy is listed in the group of every catalog region whose regex accepts its name, so region groups may overlap. |
| Groups.MembersResolve | convert.js:123-151 | Every member of every group is `DIRECT`, the name of an emitted region group, or the name of an input proxy. |
| Groups.MatchedNamesDistinct | convert.js:123-136 | The matched regions keep the catalog's unique names, none of which is the main group's name. |
| Groups.RegionGroupNames | convert.js:127 | The groups after the first carry the matched regions' names, in catalog order. |
| Groups.GroupNamesDistinct | convert.js:116-152 | If region names are unique and differ from the main group's name, then group names are unique. |
| Catalog.CatalogNamesDistinct | convert.js:12-30 | The twelve region names are unique and none of them is "节点选择". |
| Catalog.AustraliaMatchesUsAndAu | convert.js:17-27 | A name starting with "Australia" is accepted by both the US regex (it contains "us") and the AU regex. |
| Catalog.NoticeIsNoise | convert.js:31-32 | "机场到期提醒" does not pass the noise filter. |
| Catalog.MultiLineNameIsNoise | convert.js:31-32 | A name with a line break never passes the noise filter, whatever it says. |
| Rules.RuleChain | convert.js:212-227 | The chain has fourteen entries. Only the last is `MATCH`, and it goes to the main group. The custom proxy list (first) and the proxy list (eighth) also go to the main group. The reject list goes to `REJECT`, and every other entry goes to `DIRECT`. |
| Rules.Render | convert.js:213-226 | The template strings `RULE-SET,<provider>,<target>`, `DOMAIN,<domain>,<target>`, `GEOIP,<code>,<target>` and `MATCH,<target>`. It has no contract of its own: `RenderEndsWithTarget` and `MainGroupRules` characterise it. |
| Rules.RenderEndsWithTarget | convert.js:213-226 | Every rendered rule ends with a comma followed by its target. |
| Rules.BuildRules | convert.js:211-228 | `rules` has fourteen strings, each the rendering of the chain entry at its position. `MainGroupRules` gives the three strings that name the main group, `RuleChain` states every entry's target, `RenderEndsWithTarget` shows each string ends with that target, and `RulesRouteToFirstGroup` shows every target is `DIRECT`, `REJECT` or the main group. |
| Rules.MainGroupRules | convert.js:213-226 | The first, eighth and last strings are `RULE-SET,customProxy,<main>`, `RULE-SET,proxy,<main>` and `MATCH,<main>`. |
| Rules.OnlyMainEntriesVary | convert.js:212-227 | Only those three strings depend on the main group's name. |
| Rules.ProvidersMatchChain | convert.js:155-227 | A name is a declared rule provider if and only if some `RULE-SET` entry of the chain uses it. |
| Convert.ProviderProxiesAppend | convert.js:101-111 | Processing one more provider appends exactly that provider's contribution. |
| Convert.ProviderProxiesStep | convert.js:101-111 | The same step, stated for the i-th provider of the list. |
| Convert.ProviderProxiesMembers | convert.js:101-111 | A proxy is loaded from the providers if and only if it is listed in the parsed file of a provider that has a path and whose document has `proxies`. Failing providers add nothing. |
| Convert.Contribution | convert.js:102-107 | One provider adds nothing, or exactly the `proxies` list of its parsed document when it has a path. When it has a path and a parsed list, it adds exactly that list. |
| Convert.LoadedProxiesMembers | convert.js:92-114 | A proxy is loaded if and only if it is inline or listed in the parsed file of a provider that has a path. |
| Convert.LoadedProxies | convert.js:92-114 | The reference definition of `buildProxies`: the inline proxies, then each provider's contribution in order. It has no contract of its own: `BuildProxies` computes it and `LoadedProxiesMembers` characterises it. |
| Convert.BuildProxies | convert.js:92-114 | `buildProxies` returns the inline proxies (none when the key is missing) followed by each provider's proxies in order. |
| Convert.BuiltGroupsWellFormed | convert.js:116-152 | For a catalog with unique region names that differ from the main group's, the groups are well formed. The main group comes first and holds `DIRECT`, every member resolves, and names are unique. |
| Convert.RulesRouteToFirstGroup | convert.js:154-229 | Every rule goes to `DIRECT`, `REJECT` or the first group, and the last rule is `MATCH` to the first group. |
| Convert.CatalogOutputWellFormed | convert.js:38-60 | An output whose groups and rules are built from the catalog constants is well formed. |
| Convert.Convert | convert.js:38-60 | `main`: the output's proxies are exactly the loaded proxies that pass `FILTER_REGEX`, in order. Its groups are `buildProxyGroups` of them with the catalog constants, its rule providers are the fixed catalog, and its rules are `buildRules` of the main group's name. The whole output is well formed. |

## Left out

- The DNS block (`buildDns`, `convert.js:66-86`) and the `FEATURE.DNS` switch are left out. The block is fixed data spread into the output, so `Output` has no DNS keys.
- Each rule provider's `type`, `url` and `path` are fixed data and are not modelled. Only its name and behaviour are kept.
- `DEBUG` logging and the `console.error` on a failing provider have no effect on the result.
- Reading a provider's file (`path.resolve`, `fs.readFileSync`, `yaml.parse`) is not modelled. Its outcome is an input (`ProviderFile`): unreadable or unparsable, parsed without `proxies`, or parsed with a list of proxies.
- A `proxies` value in a provider's document that is not a list is not modelled.
- The providers are given in the order `Object.values` yields them: integer-like names first in ascending numeric order, then the rest in insertion order.
- The regex engine is not modelled in general. Only the two shapes used here are: an alternation of literals, and the anchored negative lookahead over literal keywords.
- Case folding of the non-unicode `i` flag is modelled on ASCII letters only. It is exact for this catalog, whose only cased characters are ASCII.
- Strings are sequences of Unicode scalar values rather than UTF-16 code units. For substring search with these literals the two give the same answers.
- Rules.BuildRules: the eleven strings that do not name the main group are given by `RuleChain` and `Render`. They are not proved equal to their literal text.
- The repository's other scripts (`订阅转换.js`, `私有代理.js`) are not part of this model. These include the minimum bucket size, the group for unmatched proxies and the group-type override.
