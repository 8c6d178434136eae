/** The constants at the top of convert.js: the feature switches, the main
    group's name, the region catalog and the noise filter. */
module Catalog {
  import opened Patterns
  import opened Groups

  /** `FEATURE.INCLUDE_ALL_PROXIES_IN_MAIN_GROUP` */
  const IncludeAllProxiesInMainGroup := false

  const MainGroupName := "节点选择"

  const Regions: seq<Region> := [
    Region("HK", "香港", AnyOf(["香港", "HK", "Hong Kong", "🇭🇰"])),
    Region("TW", "台湾", AnyOf(["台湾", "台灣", "TW", "Taiwan", "🇹🇼"])),
    Region("SG", "新加坡", AnyOf(["新加坡", "狮城", "SG", "Singapore", "🇸🇬"])),
    Region("JP", "日本", AnyOf(["日本", "JP", "Japan", "东京", "🇯🇵"])),
    Region("US", "美国", AnyOf(["美国", "美國", "US", "USA", "United States", "America", "🇺🇸"])),
    Region("DE", "德国", AnyOf(["德国", "DE", "Germany", "🇩🇪"])),
    Region("KR", "韩国", AnyOf(["韩国", "韓國", "KR", "Korea", "South Korea", "🇰🇷"])),
    Region("UK", "英国", AnyOf(["英国", "UK", "United Kingdom", "🇬🇧"])),
    Region("CA", "加拿大", AnyOf(["加拿大", "CA", "Canada", "🇨🇦"])),
    Region("AU", "澳大利亚", AnyOf(["澳大利亚", "AU", "Australia", "🇦🇺"])),
    Region("FR", "法国", AnyOf(["法国", "FR", "France", "🇫🇷"])),
    Region("NL", "荷兰", AnyOf(["荷兰", "NL", "Netherlands", "🇳🇱"]))
  ]

  /** Names containing any of these are subscription notices, not proxies. */
  const NoiseKeywords: seq<string> := [
    "官网", "套餐", "流量", "expiring", "剩余", "时间", "重置", "URL", "到期", "过期",
    "机场", "group", "sub", "订阅", "查询", "续费", "观看", "频道", "客服", "M3U",
    "车费", "车友", "上车", "通知", "公告", "严禁", "未知", "Channel"
  ]

  const FilterRegex := NoneOf(NoiseKeywords)

  /** The catalog's region names are all different and differ from the main
      group's name, so the emitted group names are unique. */
  lemma CatalogNamesDistinct()
    ensures forall i, j :: 0 <= i < j < |Regions| ==> Regions[i].name != Regions[j].name
    ensures forall i :: 0 <= i < |Regions| ==> Regions[i].name != MainGroupName
  {
  }

  /** Matching is by substring, so a name containing "Australia" also
      contains "us" and is picked by the US pattern as well as the AU one. */
  lemma AustraliaMatchesUsAndAu(name: string)
    requires |name| >= 9 && name[..9] == "Australia"
    ensures Regions[4].code == "US" && Test(Regions[4].regex, name)
    ensures Regions[9].code == "AU" && Test(Regions[9].regex, name)
  {
    var us := Regions[4].regex.alternatives;
    var au := Regions[9].regex.alternatives;
    assert name[1] == 'u' && name[2] == 's';
    assert AlignsAt(us[2], name, 1);
    AnyOfMeaning(us, name);
    assert name[0] == 'A' && name[1] == 'u';
    assert AlignsAt(au[1], name, 0);
    AnyOfMeaning(au, name);
  }

  /** A subscription notice such as "机场到期提醒" is filtered out. */
  lemma NoticeIsNoise()
    ensures !Test(FilterRegex, "机场到期提醒")
  {
    var name := "机场到期提醒";
    assert AlignsAt(NoiseKeywords[10], name, 0);
    NoneOfMeaning(NoiseKeywords, name);
  }

  /** The noise filter is anchored at both ends without the multiline flag, so
      a name spanning two lines is filtered out whatever it says. */
  lemma MultiLineNameIsNoise(first: string, second: string)
    ensures !Test(FilterRegex, first + "\n" + second)
  {
    var name := first + "\n" + second;
    assert IsLineTerminator(name[|first|]);
    NoneOfMeaning(NoiseKeywords, name);
  }
}
