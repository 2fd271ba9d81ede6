/** The rewrite of a core config: an API inbound and rule, statistics, and the optional rule that
    sends BitTorrent traffic to a blackhole. */
module ApiConfig {
  import opened JsonValues
  import opened Wrappers

  const API_TAG := "REMNAWAVE_API"
  const API_INBOUND_TAG := "REMNAWAVE_API_INBOUND"
  const BLOCK_TAG := "RW_TB_OUTBOUND_BLOCK"

  /** A float64; the finite ones as numbers. */
  datatype Float = NaN | Infinite | Finite(value: real)

  datatype TorrentOptions = TorrentOptions(
    enabled: bool, includeRuleTags: seq<string>, rulePlacement: Float, socketPath: string)

  // ---------------------------------------------------------------- the pieces

  const API_RULE := JObj(map["inboundTag" := JArr([JStr(API_INBOUND_TAG)]), "outboundTag" := JStr(API_TAG)])

  const BLOCK_OUTBOUND := JObj(map["tag" := JStr(BLOCK_TAG), "protocol" := JStr("blackhole")])

  function WebhookURL(socketPath: string): string {
    "/" + socketPath + ":/internal/webhook"
  }

  function Webhook(socketPath: string): Json {
    JObj(map["url" := JStr(WebhookURL(socketPath)), "deduplication" := JNum(5.0)])
  }

  function BlockRule(socketPath: string): Json {
    JObj(map["protocol" := JArr([JStr("bittorrent")]), "outboundTag" := JStr(BLOCK_TAG),
             "webhook" := Webhook(socketPath)])
  }

  function ApiInbound(socketName: string): Json {
    JObj(map["tag" := JStr(API_INBOUND_TAG), "listen" := JStr("@" + socketName), "protocol" := JStr("tunnel")])
  }

  function ApiSection(): Json {
    JObj(map["services" := JArr([JStr("HandlerService"), JStr("StatsService"), JStr("RoutingService")]),
             "tag" := JStr(API_TAG)])
  }

  predicate ToApi(rule: Json) {
    StringField(rule, "outboundTag") == API_TAG
  }

  /** The rules of a list that do not go to the API. */
  function UserRules(rules: seq<Json>): seq<Json> {
    if rules == [] then []
    else UserRules(rules[..|rules| - 1]) + if ToApi(rules[|rules| - 1]) then [] else [rules[|rules| - 1]]
  }

  function RoutingOf(existing: Json): Fields {
    var fields := FieldsFrom(existing);
    fields["rules" := JArr([API_RULE] + UserRules(ArrayFrom(Get(fields, "rules"))))]
  }

  /** How many user rules come before the torrent rule: as many as asked for, if that is a whole
      positive number, and at most all. */
  function Placement(position: Float, userRules: nat): (k: nat)
    ensures k <= userRules
  {
    if position.Finite? && 0.0 < position.value && position.value.Floor as real == position.value
    then if position.value.Floor < userRules then position.value.Floor else userRules
    else 0
  }

  function Hooked(rule: Json, tags: seq<string>, socketPath: string): Json {
    if rule.JObj? && StringField(rule, "ruleTag") in tags
    then JObj(rule.fields["webhook" := Webhook(socketPath)])
    else rule
  }

  function HookedAll(rules: seq<Json>, tags: seq<string>, socketPath: string): seq<Json> {
    seq(|rules|, i requires 0 <= i < |rules| => Hooked(rules[i], tags, socketPath))
  }

  /** The rules of the rewritten config, for the user rules of the given one. */
  function RulesOf(user: seq<Json>, torrent: TorrentOptions): seq<Json> {
    if !torrent.enabled then [API_RULE] + user else
    var k := Placement(torrent.rulePlacement, |user|);
    HookedAll([API_RULE] + user[..k] + [BlockRule(torrent.socketPath)] + user[k..],
              torrent.includeRuleTags, torrent.socketPath)
  }

  // ---------------------------------------------------------------- the rewrite

  /** `int` of a float64 is the number only in this range; the schema allows 0 to 1000. */
  predicate FitsInt(position: Float) {
    position.Finite? ==> position.value < 9223372036854775808.0
  }

  /** `int` of a whole number; out of range the result is up to the implementation. */
  method IntOf(value: real) returns (n: int)
    requires value > 0.0
    ensures -0x8000_0000_0000_0000 <= n < 0x8000_0000_0000_0000
    ensures value < 9223372036854775808.0 ==> n == value.Floor
  {
    if value < 9223372036854775808.0 {
      return value.Floor;
    }
    n := *;
    n := if -0x8000_0000_0000_0000 <= n < 0x8000_0000_0000_0000 then n else -0x8000_0000_0000_0000;
  }

  method ResolveTorrentRuleIndex(position: Float, rulesLength: nat) returns (index: int)
    ensures index <= rulesLength
    ensures FitsInt(position) && rulesLength > 0 ==> index == 1 + Placement(position, rulesLength - 1)
    ensures rulesLength == 0 ==> index == 0
  {
    if rulesLength <= 0 {
      return 0;
    }
    if position.NaN? || position.Infinite? || position.value.Floor as real != position.value || position.value <= 0.0 {
      return 1;
    }
    var userRulesCount := rulesLength - 1;
    var requested := IntOf(position.value);
    if requested > userRulesCount {
      requested := userRulesCount;
    }
    return 1 + requested;
  }

  /** Copies every field of an object, in any order. */
  method CopyFields(existing: Fields) returns (copy: Fields)
    ensures copy == existing
  {
    copy := map[];
    var left := existing.Keys;
    while left != {}
      invariant left <= existing.Keys && copy == existing - left
      decreases left
    {
      var key :| key in left;
      left := left - {key};
      copy := copy[key := existing[key]];
    }
  }

  method RoutingFrom(existing: Json) returns (routing: Fields)
    ensures routing == RoutingOf(existing)
  {
    routing := map[];
    if existing.JObj? {
      routing := CopyFields(existing.fields);
    }
    var rules := [API_RULE];
    var items := ArrayFrom(Get(routing, "rules"));
    for i := 0 to |items|
      invariant rules == [API_RULE] + UserRules(items[..i])
    {
      assert items[..i + 1][..i] == items[..i];
      var item := items[i];
      if item.JObj? {
        if StringField(item, "outboundTag") == API_TAG {
          continue;
        }
      }
      rules := rules + [item];
    }
    assert items[..|items|] == items;
    routing := routing["rules" := JArr(rules)];
  }

  /** The fields of level 0 of a policy. */
  function LevelZero(policy: Json): Fields {
    FieldsFrom(Get(FieldsFrom(Get(FieldsFrom(policy), "levels")), "0"))
  }

  function PolicyOf(existing: Json, statsUserOnline: bool): Json {
    JObj(map[
      "levels" := JObj(map["0" := JObj(LevelZero(existing)
        ["statsUserUplink" := JBool(true)]["statsUserDownlink" := JBool(true)]
        ["statsUserOnline" := JBool(statsUserOnline)])]),
      "system" := JObj(map[
        "statsInboundDownlink" := JBool(true), "statsInboundUplink" := JBool(true),
        "statsOutboundDownlink" := JBool(true), "statsOutboundUplink" := JBool(true)])])
  }

  const COUNTERS: set<string> := {"statsUserUplink", "statsUserDownlink", "statsUserOnline"}

  /** Level 0 counts its users and keeps all its other fields; every other level, and every policy
      key but the counting of traffic, is gone. */
  ghost predicate CountsAndKeeps(existing: Json, policy: Json, statsUserOnline: bool) {
    && FieldsFrom(policy).Keys == {"levels", "system"}
    && FieldsFrom(policy)["system"] == JObj(map[
         "statsInboundDownlink" := JBool(true), "statsInboundUplink" := JBool(true),
         "statsOutboundDownlink" := JBool(true), "statsOutboundUplink" := JBool(true)])
    && FieldsFrom(Get(FieldsFrom(policy), "levels")).Keys == {"0"}
    && LevelZero(policy).Keys == LevelZero(existing).Keys + COUNTERS
    && (forall key :: key !in COUNTERS ==> Get(LevelZero(policy), key) == Get(LevelZero(existing), key))
    && Flag(LevelZero(policy), "statsUserUplink") && Flag(LevelZero(policy), "statsUserDownlink")
    && Get(LevelZero(policy), "statsUserOnline") == JBool(statsUserOnline)
  }

  lemma PolicyMeans(existing: Json, statsUserOnline: bool)
    ensures CountsAndKeeps(existing, PolicyOf(existing, statsUserOnline), statsUserOnline)
  {
    var policy := PolicyOf(existing, statsUserOnline);
    var zero := LevelZero(existing)["statsUserUplink" := JBool(true)]["statsUserDownlink" := JBool(true)]
      ["statsUserOnline" := JBool(statsUserOnline)];
    var levels := map["0" := JObj(zero)];
    assert Get(FieldsFrom(policy), "levels") == JObj(levels);
    assert Get(levels, "0") == JObj(zero);
    assert LevelZero(policy) == zero;
  }

  method PolicyFrom(existing: Json, statsUserOnline: bool) returns (policy: Json)
    ensures policy == PolicyOf(existing, statsUserOnline)
    ensures CountsAndKeeps(existing, policy, statsUserOnline)
  {
    var levelZero: Fields := map[];
    if existing.JObj? {
      var levels := Get(existing.fields, "levels");
      if levels.JObj? {
        var zero := Get(levels.fields, "0");
        if zero.JObj? {
          levelZero := CopyFields(zero.fields);
        }
      }
    }
    levelZero := levelZero["statsUserUplink" := JBool(true)];
    levelZero := levelZero["statsUserDownlink" := JBool(true)];
    levelZero := levelZero["statsUserOnline" := JBool(statsUserOnline)];
    var system := JObj(map[
      "statsInboundDownlink" := JBool(true), "statsInboundUplink" := JBool(true),
      "statsOutboundDownlink" := JBool(true), "statsOutboundUplink" := JBool(true)]);
    policy := JObj(map["levels" := JObj(map["0" := JObj(levelZero)]), "system" := system]);
    PolicyMeans(existing, statsUserOnline);
  }

  /** Puts a webhook on every rule with one of the tags. */
  method HookRules(rules: seq<Json>, tags: seq<string>, socketPath: string) returns (hooked: seq<Json>)
    ensures hooked == HookedAll(rules, tags, socketPath)
  {
    hooked := rules;
    for i := 0 to |rules|
      invariant |hooked| == |rules|
      invariant forall j | 0 <= j < |rules| ::
                  hooked[j] == if j < i then Hooked(rules[j], tags, socketPath) else rules[j]
    {
      var item := hooked[i];
      if !item.JObj? {
        continue;
      }
      if StringField(item, "ruleTag") in tags {
        hooked := hooked[i := JObj(item.fields["webhook" := Webhook(socketPath)])];
      }
    }
  }

  lemma NoTagsHookNothing(rules: seq<Json>, socketPath: string)
    ensures HookedAll(rules, [], socketPath) == rules
  {
  }

  lemma SlicesAround<T>(s: seq<T>, i: nat)
    requires 1 <= i <= |s|
    ensures s[..i] == [s[0]] + s[1..][..i - 1] && s[i..] == s[1..][i - 1..]
  {
  }

  /** Puts the torrent rule among the user rules, and webhooks on the wanted rules.  Nothing stands
      for a slice index out of range. */
  method InsertTorrentRule(rules: seq<Json>, torrent: TorrentOptions) returns (inserted: Option<seq<Json>>)
    requires torrent.enabled && rules != [] && rules[0] == API_RULE
    ensures FitsInt(torrent.rulePlacement) ==> inserted == Some(RulesOf(rules[1..], torrent))
  {
    hide HookedAll, Placement;
    var index := ResolveTorrentRuleIndex(torrent.rulePlacement, |rules|);
    if index < 0 {
      return None;
    }
    var all := rules[..index] + [BlockRule(torrent.socketPath)] + rules[index..];
    if FitsInt(torrent.rulePlacement) {
      SlicesAround(rules, index);
    }
    NoTagsHookNothing(all, torrent.socketPath);
    if |torrent.includeRuleTags| > 0 {
      all := HookRules(all, torrent.includeRuleTags, torrent.socketPath);
    }
    inserted := Some(all);
  }

  function RuleList(routing: Fields): seq<Json> {
    ArrayFrom(Get(routing, "rules"))
  }

  function RoutingIn(config: Fields): Fields {
    FieldsFrom(Get(config, "routing"))
  }

  const REWRITTEN: set<string> := {"stats", "api", "inbounds", "outbounds", "policy", "routing"}

  /** What a rewrite leaves in place, and what it puts where. */
  ghost predicate Rewrites(input: Fields, config: Fields, xtlsSocket: string, torrent: TorrentOptions,
                           capNetAdmin: bool)
  {
    && config.Keys == input.Keys + REWRITTEN
    && (forall key :: key in input && key !in REWRITTEN ==> config[key] == input[key])
    && Get(config, "stats") == JObj(map[])
    && Get(config, "api") == ApiSection()
    && Get(config, "inbounds") == JArr([ApiInbound(xtlsSocket)] + ArrayFrom(Get(input, "inbounds")))
    && Get(config, "outbounds") == JArr(ArrayFrom(Get(input, "outbounds")) +
                                        if torrent.enabled then [BLOCK_OUTBOUND] else [])
    && Get(config, "policy") == PolicyOf(Get(input, "policy"), capNetAdmin)
    && RewritesRouting(input, config, torrent)
  }

  ghost predicate RewritesRouting(input: Fields, config: Fields, torrent: TorrentOptions) {
    && Get(config, "routing").JObj?
    && RoutingIn(config).Keys == RoutingIn(input).Keys + {"rules"}
    && (forall key :: key in RoutingIn(input) && key != "rules" ==> RoutingIn(config)[key] == RoutingIn(input)[key])
    && Get(RoutingIn(config), "rules") == JArr(RulesOf(UserRules(RuleList(RoutingIn(input))), torrent))
  }

  lemma PlainRouting(input: Fields, config: Fields, torrent: TorrentOptions)
    requires !torrent.enabled && Get(config, "routing") == JObj(RoutingOf(Get(input, "routing")))
    ensures RewritesRouting(input, config, torrent)
  {
    hide UserRules;
  }

  lemma BlockingRouting(input: Fields, plain: Fields, rules: seq<Json>, config: Fields, torrent: TorrentOptions)
    requires RewritesRouting(input, plain, torrent.(enabled := false))
    requires rules == RulesOf(UserRules(RuleList(RoutingIn(input))), torrent)
    requires Get(config, "routing") == JObj(RoutingIn(plain)["rules" := JArr(rules)])
    ensures RewritesRouting(input, config, torrent)
  {
    hide UserRules, RulesOf;
  }

  /** The part of the rewrite that every config gets. */
  method InjectAPI(input: Fields, xtlsSocket: string, ghost torrent: TorrentOptions, capNetAdmin: bool)
    returns (result: Fields)
    requires !torrent.enabled
    ensures Rewrites(input, result, xtlsSocket, torrent, capNetAdmin)
  {
    hide PolicyOf, CountsAndKeeps, ApiSection, ApiInbound, RewritesRouting, RoutingOf, ArrayFrom;
    assert ArrayFrom(Get(input, "outbounds")) + [] == ArrayFrom(Get(input, "outbounds"));
    result := input;
    result := result["stats" := JObj(map[])];
    result := result["api" := ApiSection()];
    result := result["inbounds" := JArr([ApiInbound(xtlsSocket)] + ArrayFrom(Get(result, "inbounds")))];
    result := result["outbounds" := JArr(ArrayFrom(Get(result, "outbounds")))];
    var policy := PolicyFrom(Get(result, "policy"), capNetAdmin);
    result := result["policy" := policy];
    var routing := RoutingFrom(Get(result, "routing"));
    result := result["routing" := JObj(routing)];
    PlainRouting(input, result, torrent);
  }

  /** Nothing stands for a slice index out of range, which takes a placement no int64 holds. */
  method GenerateAPIConfig(input: Fields, xtlsSocket: string, torrent: TorrentOptions, capNetAdmin: bool)
    returns (result: Option<Fields>)
    ensures result.None? ==> torrent.enabled && !FitsInt(torrent.rulePlacement)
    ensures !torrent.enabled || FitsInt(torrent.rulePlacement) ==>
              Rewrites(input, result.value, xtlsSocket, torrent, capNetAdmin)
  {
    hide UserRules, PolicyOf, RulesOf, ApiInbound, RewritesRouting;
    var config := InjectAPI(input, xtlsSocket, torrent.(enabled := false), capNetAdmin);
    if torrent.enabled {
      ghost var plain := config;
      var outbounds := ArrayFrom(config["outbounds"]);
      outbounds := outbounds + [BLOCK_OUTBOUND];
      config := config["outbounds" := JArr(outbounds)];

      var routing := FieldsFrom(config["routing"]);
      var rules := ArrayFrom(Get(routing, "rules"));
      PlainRules(input, plain, torrent);
      var inserted := InsertTorrentRule(rules, torrent);
      if inserted.None? {
        return None;
      }
      routing := routing["rules" := JArr(inserted.value)];
      config := config["routing" := JObj(routing)];
      if FitsInt(torrent.rulePlacement) {
        BlockingRouting(input, plain, inserted.value, config, torrent);
      }
    }
    result := Some(config);
  }

  lemma PlainRules(input: Fields, plain: Fields, torrent: TorrentOptions)
    requires RewritesRouting(input, plain, torrent.(enabled := false))
    ensures var rules := RuleList(RoutingIn(plain));
            rules != [] && rules[0] == API_RULE && rules[1..] == UserRules(RuleList(RoutingIn(input)))
  {
    hide UserRules;
  }

  // ---------------------------------------------------------------- first-match routing

  /** The keys of a rule that say where matching traffic goes, or only name or report the rule. */
  const NOT_CONDITIONS: set<string> := {"outboundTag", "balancerTag", "ruleTag", "webhook"}

  function Conditions(rule: Json): Fields {
    FieldsFrom(rule) - NOT_CONDITIONS
  }

  /** Where a rule sends its traffic. */
  datatype Target = Target(outbound: Json, balancer: Json)

  function TargetOf(rule: Json): Target {
    Target(Get(FieldsFrom(rule), "outboundTag"), Get(FieldsFrom(rule), "balancerTag"))
  }

  function Outbound(tag: string): Target {
    Target(JStr(tag), JNull)
  }

  datatype Verdict = Unrouted | Routed(target: Target)

  /** How the core reads the conditions of a rule; nothing is assumed about it. */
  type Reading<!T> = (Fields, T) -> bool

  predicate Applies<T>(reading: Reading<T>, rule: Json, t: T) {
    rule.JObj? && reading(Conditions(rule), t)
  }

  predicate SomeApplies<T>(reading: Reading<T>, rules: seq<Json>, t: T) {
    exists i :: 0 <= i < |rules| && Applies(reading, rules[i], t)
  }

  /** The first rule that applies decides. */
  function Route<T>(reading: Reading<T>, rules: seq<Json>, t: T): Verdict {
    if rules == [] then Unrouted
    else if Applies(reading, rules[0], t) then Routed(TargetOf(rules[0]))
    else Route(reading, rules[1..], t)
  }

  predicate FromApiInbound<T>(reading: Reading<T>, t: T) {
    reading(map["inboundTag" := JArr([JStr(API_INBOUND_TAG)])], t)
  }

  predicate IsBittorrent<T>(reading: Reading<T>, t: T) {
    reading(map["protocol" := JArr([JStr("bittorrent")])], t)
  }

  lemma {:induction false} RouteConcat<T>(reading: Reading<T>, a: seq<Json>, b: seq<Json>, t: T)
    ensures Route(reading, a + b, t)
         == if SomeApplies(reading, a, t) then Route(reading, a, t) else Route(reading, b, t)
  {
    if a == [] {
      assert a + b == b;
    } else {
      assert (a + b)[1..] == a[1..] + b;
      RouteConcat(reading, a[1..], b, t);
      if Applies(reading, a[0], t) {
      } else if SomeApplies(reading, a, t) {
        var i :| 0 <= i < |a| && Applies(reading, a[i], t);
        assert a[1..][i - 1] == a[i];
      } else {
        forall i | 0 <= i < |a[1..]| ensures !Applies(reading, a[1..][i], t) { assert a[1..][i] == a[i + 1]; }
      }
    }
  }

  /** A webhook changes neither when a rule applies nor where it sends. */
  lemma HookedReadsTheSame<T>(reading: Reading<T>, rule: Json, tags: seq<string>, path: string, t: T)
    ensures var h := Hooked(rule, tags, path);
            Applies(reading, h, t) == Applies(reading, rule, t) && TargetOf(h) == TargetOf(rule)
  {
    if rule.JObj? {
      assert rule.fields["webhook" := Webhook(path)] - NOT_CONDITIONS == rule.fields - NOT_CONDITIONS;
    }
  }

  lemma {:induction false} HookedRoutesTheSame<T>(reading: Reading<T>, rules: seq<Json>, tags: seq<string>,
                                                  path: string, t: T)
    ensures Route(reading, HookedAll(rules, tags, path), t) == Route(reading, rules, t)
  {
    if rules != [] {
      HookedReadsTheSame(reading, rules[0], tags, path, t);
      assert HookedAll(rules, tags, path)[1..] == HookedAll(rules[1..], tags, path);
      HookedRoutesTheSame(reading, rules[1..], tags, path, t);
    }
  }

  lemma ApiRuleReads<T>(reading: Reading<T>, t: T)
    ensures Applies(reading, API_RULE, t) == FromApiInbound(reading, t) && TargetOf(API_RULE) == Outbound(API_TAG)
  {
    assert Conditions(API_RULE) == map["inboundTag" := JArr([JStr(API_INBOUND_TAG)])];
  }

  lemma BlockRuleReads<T>(reading: Reading<T>, path: string, t: T)
    ensures Applies(reading, BlockRule(path), t) == IsBittorrent(reading, t)
    ensures TargetOf(BlockRule(path)) == Outbound(BLOCK_TAG)
  {
    assert Conditions(BlockRule(path)) == map["protocol" := JArr([JStr("bittorrent")])];
  }

  /** A single rule in front. */
  lemma RouteFirst<T>(reading: Reading<T>, rule: Json, rest: seq<Json>, t: T)
    ensures Route(reading, [rule] + rest, t)
         == if Applies(reading, rule, t) then Routed(TargetOf(rule)) else Route(reading, rest, t)
  {
    assert ([rule] + rest)[1..] == rest;
  }

  /** The rewrite preserves routing: API traffic goes to the API; BitTorrent traffic to the
      blackhole unless one of the first `k` user rules takes it; all other traffic where the user
      rules send it. */
  lemma RewriteRoutes<T>(reading: Reading<T>, input: Fields, config: Fields, xtlsSocket: string,
                         torrent: TorrentOptions, capNetAdmin: bool, t: T)
    requires Rewrites(input, config, xtlsSocket, torrent, capNetAdmin)
    ensures var user := UserRules(RuleList(RoutingIn(input)));
            var k := Placement(torrent.rulePlacement, |user|);
            Route(reading, RuleList(RoutingIn(config)), t)
            == if FromApiInbound(reading, t) then Routed(Outbound(API_TAG))
               else if torrent.enabled && IsBittorrent(reading, t) && !SomeApplies(reading, user[..k], t)
               then Routed(Outbound(BLOCK_TAG))
               else Route(reading, user, t)
  {
    hide Route, Applies, SomeApplies, FromApiInbound, IsBittorrent, HookedAll, UserRules, PolicyOf, Placement, TargetOf;
    var user := UserRules(RuleList(RoutingIn(input)));
    var k, block := Placement(torrent.rulePlacement, |user|), BlockRule(torrent.socketPath);
    ApiRuleReads(reading, t);
    if torrent.enabled {
      var rules := [API_RULE] + user[..k] + [block] + user[k..];
      HookedRoutesTheSame(reading, rules, torrent.includeRuleTags, torrent.socketPath, t);
      assert rules == [API_RULE] + (user[..k] + ([block] + user[k..]));
      RouteFirst(reading, API_RULE, user[..k] + ([block] + user[k..]), t);
      RouteConcat(reading, user[..k], [block] + user[k..], t);
      RouteFirst(reading, block, user[k..], t);
      BlockRuleReads(reading, torrent.socketPath, t);
      RouteConcat(reading, user[..k], user[k..], t);
      assert user[..k] + user[k..] == user;
    } else {
      RouteFirst(reading, API_RULE, user, t);
    }
  }

  /** Traffic that no rule takes goes to the first outbound, if there is one. */
  function FirstOutbound(config: Fields): Option<Json> {
    var outbounds := ArrayFrom(Get(config, "outbounds"));
    if outbounds == [] then None else Some(outbounds[0])
  }

  /** Where traffic goes: to the target of a rule, or to an outbound, or nowhere. */
  datatype Delivery = ToTarget(target: Target) | ToOutbound(outbound: Json) | Nowhere

  function Deliver(verdict: Verdict, config: Fields): Delivery {
    match verdict
    case Routed(target) => ToTarget(target)
    case Unrouted => if FirstOutbound(config).Some? then ToOutbound(FirstOutbound(config).value) else Nowhere
  }

  /** The first outbound stays, except that the blackhole becomes the first of a config without any. */
  lemma FirstOutboundKeptIff(input: Fields, config: Fields, xtlsSocket: string, torrent: TorrentOptions,
                             capNetAdmin: bool)
    requires Rewrites(input, config, xtlsSocket, torrent, capNetAdmin)
    ensures FirstOutbound(config) == FirstOutbound(input) <==> !torrent.enabled || FirstOutbound(input).Some?
    ensures torrent.enabled && FirstOutbound(input).None? ==> FirstOutbound(config) == Some(BLOCK_OUTBOUND)
  {
    hide UserRules, PolicyOf, HookedAll, RulesOf;
    var before, after := ArrayFrom(Get(input, "outbounds")), ArrayFrom(Get(config, "outbounds"));
    if before != [] {
      assert after[0] == before[0];
    }
  }

  /** Traffic that is neither the API's nor BitTorrent is delivered as the user rules and outbounds
      of the config deliver it; only what had nowhere to go ends in the blackhole. */
  lemma RewriteDelivers<T>(reading: Reading<T>, input: Fields, config: Fields, xtlsSocket: string,
                           torrent: TorrentOptions, capNetAdmin: bool, t: T)
    requires Rewrites(input, config, xtlsSocket, torrent, capNetAdmin)
    requires !FromApiInbound(reading, t) && (torrent.enabled ==> !IsBittorrent(reading, t))
    ensures var before := Deliver(Route(reading, UserRules(RuleList(RoutingIn(input))), t), input);
            Deliver(Route(reading, RuleList(RoutingIn(config)), t), config)
            == if torrent.enabled && before.Nowhere? then ToOutbound(BLOCK_OUTBOUND) else before
  {
    hide Route, FromApiInbound, IsBittorrent, UserRules, PolicyOf, RulesOf, Rewrites, FirstOutbound;
    RewriteRoutes(reading, input, config, xtlsSocket, torrent, capNetAdmin, t);
    FirstOutboundKeptIff(input, config, xtlsSocket, torrent, capNetAdmin);
  }

  lemma {:induction false} UserRulesConcat(a: seq<Json>, b: seq<Json>)
    ensures UserRules(a + b) == UserRules(a) + UserRules(b)
  {
    if b == [] {
      assert a + b == a;
    } else {
      assert (a + b)[..|a + b| - 1] == a + b[..|b| - 1];
      UserRulesConcat(a, b[..|b| - 1]);
    }
  }

  lemma {:induction false} UserRulesAreUsers(rules: seq<Json>)
    ensures forall rule <- UserRules(rules) :: !ToApi(rule)
    ensures UserRules(UserRules(rules)) == UserRules(rules)
  {
    if rules != [] {
      var init, last := rules[..|rules| - 1], rules[|rules| - 1];
      UserRulesAreUsers(init);
      UserRulesConcat(UserRules(init), if ToApi(last) then [] else [last]);
      assert [last][..0] == [];
      assert UserRules([last]) == UserRules([]) + if ToApi(last) then [] else [last];
    }
  }

  /** Rewriting a routing section twice adds no second API rule. */
  lemma RoutingIdempotent(existing: Json)
    ensures RoutingOf(JObj(RoutingOf(existing))) == RoutingOf(existing)
  {
    hide UserRules;
    var user := UserRules(ArrayFrom(Get(FieldsFrom(existing), "rules")));
    UserRulesAreUsers(ArrayFrom(Get(FieldsFrom(existing), "rules")));
    UserRulesConcat([API_RULE], user);
    ApiRuleIsDropped();
    assert UserRules([API_RULE] + user) == user;
    assert RoutingOf(existing)["rules" := JArr([API_RULE] + user)] == RoutingOf(existing);
  }

  lemma ApiRuleIsDropped()
    ensures UserRules([API_RULE]) == []
  {
    assert ToApi(API_RULE);
    assert [API_RULE][..0] == [];
  }
}
