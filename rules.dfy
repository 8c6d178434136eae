/** `buildRules` of convert.js: the rule-provider catalog and the fixed,
    ordered rule chain whose catch-all routes to the main group. */
module Rules {
  import opened Seqs
  import opened Groups

  datatype Behavior = DomainBehavior | IpCidrBehavior | ClassicalBehavior

  /** A remote rule set declared under `rule-providers`. Every provider is of
      type `http`; its download URL and cache path are fixed data and not
      part of this model. */
  datatype RuleProvider = RuleProvider(name: string, behavior: Behavior)

  const RuleProviders: seq<RuleProvider> := [
    RuleProvider("reject", DomainBehavior),
    RuleProvider("proxy", DomainBehavior),
    RuleProvider("direct", DomainBehavior),
    RuleProvider("private", DomainBehavior),
    RuleProvider("cncidr", IpCidrBehavior),
    RuleProvider("lancidr", IpCidrBehavior),
    RuleProvider("applications", ClassicalBehavior),
    RuleProvider("customProxy", DomainBehavior),
    RuleProvider("customDirect", DomainBehavior)
  ]

  /** `rule-providers` has an entry called `name`. */
  predicate Declared(name: string)
  {
    exists k :: 0 <= k < |RuleProviders| && RuleProviders[k].name == name
  }

  /** The target that drops a connection; `DIRECT` is `Groups.Direct`. */
  const Reject := "REJECT"

  /** One entry of the rule chain; the runtime tries them in order and the
      first that matches a connection decides where it goes. */
  datatype Rule =
    | RuleSet(provider: string, target: string)
    | Domain(domain: string, target: string)
    | GeoIp(code: string, target: string)
    | Match(target: string)

  /** The textual form written into the `rules` list. */
  function Render(rule: Rule): string
  {
    match rule
    case RuleSet(provider, target) => "RULE-SET," + provider + "," + target
    case Domain(domain, target) => "DOMAIN," + domain + "," + target
    case GeoIp(code, target) => "GEOIP," + code + "," + target
    case Match(target) => "MATCH," + target
  }

  /** Every rendered rule ends with a comma and its target, which is how the
      client reads where a matching connection goes. */
  lemma RenderEndsWithTarget(rule: Rule)
    ensures var text := Render(rule);
      |text| > |rule.target| && text[|text| - |rule.target| - 1..] == "," + rule.target
  {
    var text := Render(rule);
    var tail := "," + rule.target;
    match rule
    case RuleSet(provider, target) =>
      assert text == ("RULE-SET," + provider) + tail;
    case Domain(domain, target) =>
      assert text == ("DOMAIN," + domain) + tail;
    case GeoIp(code, target) =>
      assert text == ("GEOIP," + code) + tail;
    case Match(target) =>
      assert text == "MATCH" + tail;
  }

  /** The chain in priority order. The main group is the target of the custom
      proxy list (first entry), of the proxy list (eighth) and of the
      catch-all (last); every other entry goes `DIRECT`, except the reject
      list, which goes `REJECT`. The catch-all is the only `MATCH` entry. */
  function RuleChain(mainGroupName: string): (chain: seq<Rule>)
    ensures |chain| == 14
    ensures chain[13] == Match(mainGroupName)
    ensures forall i :: 0 <= i < 13 ==> !chain[i].Match?
    ensures forall i :: 0 <= i < |chain| && i != 0 && i != 7 && i != 13 ==>
      chain[i].target == (if i == 6 then Reject else Direct)
    ensures chain[0].target == chain[7].target == mainGroupName
  {
    [
      RuleSet("customProxy", mainGroupName),
      RuleSet("customDirect", Direct),
      RuleSet("applications", Direct),
      Domain("clash.razord.top", Direct),
      Domain("yacd.haishan.me", Direct),
      RuleSet("private", Direct),
      RuleSet("reject", Reject),
      RuleSet("proxy", mainGroupName),
      RuleSet("direct", Direct),
      RuleSet("lancidr", Direct),
      RuleSet("cncidr", Direct),
      GeoIp("LAN", Direct),
      GeoIp("CN", Direct),
      Match(mainGroupName)
    ]
  }

  /** The `rules` list `buildRules` returns: the chain, rendered entry by
      entry. */
  function BuildRules(mainGroupName: string): (rules: seq<string>)
    ensures |rules| == 14
    ensures forall i :: 0 <= i < 14 ==> rules[i] == Render(RuleChain(mainGroupName)[i])
  {
    var chain := RuleChain(mainGroupName);
    seq(|chain|, i requires 0 <= i < |chain| => Render(chain[i]))
  }

  /** The three strings that carry the main group's name: the custom proxy
      list, the proxy list and the catch-all. */
  lemma MainGroupRules(mainGroupName: string)
    ensures BuildRules(mainGroupName)[0] == "RULE-SET,customProxy," + mainGroupName
    ensures BuildRules(mainGroupName)[7] == "RULE-SET,proxy," + mainGroupName
    ensures BuildRules(mainGroupName)[13] == "MATCH," + mainGroupName
  {
    var chain := RuleChain(mainGroupName);
    assert chain[0] == RuleSet("customProxy", mainGroupName);
    assert chain[7] == RuleSet("proxy", mainGroupName);
  }

  /** Only the three entries that name the main group depend on it. */
  lemma OnlyMainEntriesVary(a: string, b: string)
    ensures forall i :: 0 <= i < 14 && i != 0 && i != 7 && i != 13 ==>
      BuildRules(a)[i] == BuildRules(b)[i]
  {
    var ca, cb := RuleChain(a), RuleChain(b);
    forall i | 0 <= i < 14 && i != 0 && i != 7 && i != 13 ensures ca[i] == cb[i] {
    }
  }

  /** Every declared rule provider is used by the chain, and every rule set
      the chain uses is declared. */
  lemma ProvidersMatchChain(mainGroupName: string)
    ensures forall name :: Declared(name) <==>
      exists i :: 0 <= i < 14 && RuleChain(mainGroupName)[i].RuleSet? && RuleChain(mainGroupName)[i].provider == name
  {
    var chain := RuleChain(mainGroupName);
    forall name | Declared(name)
      ensures exists i :: 0 <= i < 14 && chain[i].RuleSet? && chain[i].provider == name
    {
      var k :| 0 <= k < |RuleProviders| && RuleProviders[k].name == name;
      var i := [6, 7, 8, 5, 10, 9, 2, 0, 1][k];
      assert chain[i].RuleSet? && chain[i].provider == name;
    }
    forall i | 0 <= i < 14 && chain[i].RuleSet?
      ensures Declared(chain[i].provider)
    {
      var k := if i == 0 then 7 else if i == 1 then 8 else if i == 2 then 6 else if i == 5 then 3
        else if i == 6 then 0 else if i == 7 then 1 else if i == 8 then 2 else if i == 9 then 5 else 4;
      assert RuleProviders[k].name == chain[i].provider;
    }
  }
}
