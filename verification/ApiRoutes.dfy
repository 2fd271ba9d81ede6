/** What the rewrite of a config does, said of the given rules and the rewritten ones themselves. */
module ApiRoutes {
  import opened ApiConfig
  import opened JsonValues
  import opened Wrappers

  // ---------------------------------------------------------------- rules and traffic

  /** The rules of a config. */
  function RulesIn(config: Fields): seq<Json> {
    ArrayFrom(Get(FieldsFrom(Get(config, "routing")), "rules"))
  }

  /** A rule applies to traffic if the core reads its conditions so: all keys that do not name, direct or
      report. */
  predicate Takes<T>(reading: Reading<T>, rule: Json, t: T) {
    rule.JObj? && reading(rule.fields - {"outboundTag", "balancerTag", "ruleTag", "webhook"}, t)
  }

  predicate Sends(rule: Json, outbound: Json, balancer: Json) {
    Get(FieldsFrom(rule), "outboundTag") == outbound && Get(FieldsFrom(rule), "balancerTag") == balancer
  }

  /** The rule is the first that applies. */
  predicate First<T>(reading: Reading<T>, rules: seq<Json>, t: T, i: int) {
    0 <= i < |rules| && Takes(reading, rules[i], t) && forall j | 0 <= j < i :: !Takes(reading, rules[j], t)
  }

  /** A rule that does not go to the API. */
  predicate IsUser(rule: Json) {
    Get(FieldsFrom(rule), "outboundTag") != JStr("REMNAWAVE_API")
  }

  /** The rule is the first of those that do not go to the API and apply. */
  predicate FirstUser<T>(reading: Reading<T>, rules: seq<Json>, t: T, i: int) {
    && 0 <= i < |rules| && IsUser(rules[i]) && Takes(reading, rules[i], t)
    && forall j | 0 <= j < i :: !(IsUser(rules[j]) && Takes(reading, rules[j], t))
  }

  /** How many rules before a place do not go to the API. */
  function UsersBefore(rules: seq<Json>, i: nat): nat
    requires i <= |rules|
  {
    if i == 0 then 0 else UsersBefore(rules, i - 1) + if IsUser(rules[i - 1]) then 1 else 0
  }

  /** What the placement asks for: a whole positive number counts, anything else is zero. */
  function AskedPlacement(position: Float): nat {
    match position
    case Finite(v) => if v > 0.0 && v.Floor as real == v then v.Floor else 0
    case _ => 0
  }

  /** One of the first `k` rules that do not go to the API applies. */
  predicate TakenByFirst<T>(reading: Reading<T>, rules: seq<Json>, t: T, k: nat) {
    exists i :: 0 <= i < |rules| && UsersBefore(rules, i) < k && IsUser(rules[i]) && Takes(reading, rules[i], t)
  }

  predicate ForApi<T>(reading: Reading<T>, t: T) {
    reading(map["inboundTag" := JArr([JStr("REMNAWAVE_API_INBOUND")])], t)
  }

  predicate Bittorrent<T>(reading: Reading<T>, t: T) {
    reading(map["protocol" := JArr([JStr("bittorrent")])], t)
  }

  // ---------------------------------------------------------------- where traffic goes

  /** The first rule of the rewritten config that applies sends traffic there. */
  ghost predicate GoesTo<T>(reading: Reading<T>, config: Fields, t: T, outbound: Json, balancer: Json) {
    exists i :: First(reading, RulesIn(config), t, i) && Sends(RulesIn(config)[i], outbound, balancer)
  }

  /** The rewrite, rule for rule: traffic of the API inbound goes to the API; BitTorrent goes to the
      blackhole, unless one of the first rules of the given config, as many as the placement says and not
      counting those to the API, applies to it; all other traffic goes where the first rule of the given
      config that applies and is not to the API sends it, and is unrouted if there is none. */
  lemma TrafficGoes<T>(reading: Reading<T>, input: Fields, config: Fields, xtlsSocket: string,
                       torrent: TorrentOptions, capNetAdmin: bool, t: T)
    requires Rewrites(input, config, xtlsSocket, torrent, capNetAdmin)
    ensures ForApi(reading, t) ==> GoesTo(reading, config, t, JStr("REMNAWAVE_API"), JNull)
    ensures !ForApi(reading, t) && Blocked(reading, input, torrent, t) ==>
              GoesTo(reading, config, t, JStr("RW_TB_OUTBOUND_BLOCK"), JNull)
    ensures !ForApi(reading, t) && !Blocked(reading, input, torrent, t) ==>
              && (forall i :: FirstUser(reading, RulesIn(input), t, i) ==>
                    GoesTo(reading, config, t, Get(FieldsFrom(RulesIn(input)[i]), "outboundTag"),
                           Get(FieldsFrom(RulesIn(input)[i]), "balancerTag")))
              && ((forall i :: !FirstUser(reading, RulesIn(input), t, i)) ==>
                    forall rule <- RulesIn(config) :: !Takes(reading, rule, t))
  {
    hide Rewrites, Route, UserRules, SomeApplies, Placement;
    var rules, user := RulesIn(input), UserRules(RulesIn(input));
    RewriteRoutes(reading, input, config, xtlsSocket, torrent, capNetAdmin, t);
    RouteIsFirst(reading, RulesIn(config), t);
    RouteIsFirstUser(reading, rules, t);
    TakenIff(reading, rules, t, AskedPlacement(torrent.rulePlacement));
    assert Placement(torrent.rulePlacement, |user|) == Least(AskedPlacement(torrent.rulePlacement), |user|) by {
      PlacementIs(torrent.rulePlacement, |user|);
    }
  }

  /** BitTorrent traffic that is to be blocked. */
  predicate Blocked<T>(reading: Reading<T>, input: Fields, torrent: TorrentOptions, t: T) {
    torrent.enabled && Bittorrent(reading, t)
    && !TakenByFirst(reading, RulesIn(input), t, AskedPlacement(torrent.rulePlacement))
  }

  function Least(a: nat, b: nat): nat {
    if a < b then a else b
  }

  lemma PlacementIs(position: Float, n: nat)
    ensures Placement(position, n) == Least(AskedPlacement(position), n)
  {
  }

  /** The verdict is the first rule's that applies. */
  lemma {:induction false} RouteIsFirst<T>(reading: Reading<T>, rules: seq<Json>, t: T)
    ensures Route(reading, rules, t).Unrouted? <==> forall rule <- rules :: !Takes(reading, rule, t)
    ensures Route(reading, rules, t).Routed? ==>
              var target := Route(reading, rules, t).target;
              exists i :: First(reading, rules, t, i) && Sends(rules[i], target.outbound, target.balancer)
  {
    if rules != [] {
      RouteIsFirst(reading, rules[1..], t);
      if Takes(reading, rules[0], t) {
        assert First(reading, rules, t, 0);
      } else if Route(reading, rules, t).Routed? {
        var target := Route(reading, rules, t).target;
        var i :| First(reading, rules[1..], t, i) && Sends(rules[1..][i], target.outbound, target.balancer);
        forall j | 0 <= j < i + 1 ensures !Takes(reading, rules[j], t) {
          if j > 0 { assert rules[1..][j - 1] == rules[j]; }
        }
        assert First(reading, rules, t, i + 1);
      }
    }
  }

  lemma {:induction false} RouteSome<T>(reading: Reading<T>, rules: seq<Json>, t: T)
    ensures Route(reading, rules, t).Routed? <==> SomeApplies(reading, rules, t)
  {
    if rules != [] {
      RouteSome(reading, rules[1..], t);
      if Applies(reading, rules[0], t) {
      } else if SomeApplies(reading, rules, t) {
        var i :| 0 <= i < |rules| && Applies(reading, rules[i], t);
        assert rules[1..][i - 1] == rules[i];
      } else {
        forall i | 0 <= i < |rules[1..]| ensures !Applies(reading, rules[1..][i], t) {
          assert rules[1..][i] == rules[i + 1];
        }
      }
    }
  }

  /** And among the rules that are kept it is the first one's that does not go to the API. */
  lemma {:induction false} RouteIsFirstUser<T>(reading: Reading<T>, rules: seq<Json>, t: T)
    ensures forall i :: FirstUser(reading, rules, t, i) ==>
              Route(reading, UserRules(rules), t) == Routed(TargetOf(rules[i]))
    ensures (forall i :: !FirstUser(reading, rules, t, i)) ==> Route(reading, UserRules(rules), t).Unrouted?
  {
    if rules != [] {
      var n := |rules| - 1;
      var init, last := rules[..n], rules[n];
      var kept: seq<Json> := if ToApi(last) then [] else [last];
      assert UserRules(rules) == UserRules(init) + kept;
      hide UserRules;
      RouteIsFirstUser(reading, init, t);
      RouteConcat(reading, UserRules(init), kept, t);
      RouteSome(reading, UserRules(init), t);
      FirstUserNext(reading, rules, t);
      if kept != [] { RouteFirst(reading, last, [], t); assert [last] + [] == [last]; }
    }
  }

  lemma FirstUserNext<T>(reading: Reading<T>, rules: seq<Json>, t: T)
    requires rules != []
    ensures var n := |rules| - 1;
            && (forall i :: i != n ==> (FirstUser(reading, rules, t, i) <==> FirstUser(reading, rules[..n], t, i)))
            && (FirstUser(reading, rules, t, n)
                <==> IsUser(rules[n]) && Takes(reading, rules[n], t)
                     && forall i :: !FirstUser(reading, rules[..n], t, i))
  {
    var n := |rules| - 1;
    var init := rules[..n];
    if exists i :: 0 <= i < n && IsUser(init[i]) && Takes(reading, init[i], t) {
      SomeFirstUser(reading, init, t);
    }
    forall i | FirstUser(reading, init, t, i) ensures IsUser(rules[i]) && Takes(reading, rules[i], t) && i < n {
      assert init[i] == rules[i];
    }
  }

  lemma {:induction false} SomeFirstUser<T>(reading: Reading<T>, rules: seq<Json>, t: T)
    requires exists i :: 0 <= i < |rules| && IsUser(rules[i]) && Takes(reading, rules[i], t)
    ensures exists i :: FirstUser(reading, rules, t, i)
  {
    var n := |rules| - 1;
    var init := rules[..n];
    if exists i :: 0 <= i < n && IsUser(init[i]) && Takes(reading, init[i], t) {
      SomeFirstUser(reading, init, t);
      var i :| FirstUser(reading, init, t, i);
      assert forall j | 0 <= j < i :: init[j] == rules[j];
      assert FirstUser(reading, rules, t, i);
    } else {
      forall j | 0 <= j < n ensures !(IsUser(rules[j]) && Takes(reading, rules[j], t)) { assert init[j] == rules[j]; }
      assert FirstUser(reading, rules, t, n);
    }
  }

  // ---------------------------------------------------------------- the user rules

  /** Exactly the rules that do not go to the API, each as often as it is there. */
  lemma {:induction false} UserRulesAre(rules: seq<Json>, rule: Json)
    ensures multiset(UserRules(rules))[rule] == if IsUser(rule) then multiset(rules)[rule] else 0
  {
    if rules != [] {
      var n := |rules| - 1;
      UserRulesAre(rules[..n], rule);
      assert rules == rules[..n] + [rules[n]];
    }
  }

  lemma {:induction false} UsersBeforePrefix(rules: seq<Json>, n: nat, i: nat)
    requires i <= n <= |rules|
    ensures UsersBefore(rules[..n], i) == UsersBefore(rules, i)
  {
    if i > 0 { UsersBeforePrefix(rules, n, i - 1); }
  }

  lemma {:induction false} UsersBeforeGrow(rules: seq<Json>, i: nat, j: nat)
    requires i <= j <= |rules|
    ensures UsersBefore(rules, i) <= UsersBefore(rules, j)
  {
    if i < j { UsersBeforeGrow(rules, i, j - 1); }
  }

  /** In their order: a rule that is kept comes after as many as were kept before it. */
  lemma {:induction false} UserRuleAt(rules: seq<Json>, i: nat)
    requires i < |rules| && IsUser(rules[i])
    ensures UsersBefore(rules, i) < |UserRules(rules)| && UserRules(rules)[UsersBefore(rules, i)] == rules[i]
  {
    var n := |rules| - 1;
    UsersBeforePrefix(rules, n, i);
    UserRulesCount(rules[..n]);
    if i < n { UserRuleAt(rules[..n], i); }
  }

  lemma {:induction false} UserRulesCount(rules: seq<Json>)
    ensures |UserRules(rules)| == UsersBefore(rules, |rules|)
  {
    if rules != [] {
      var n := |rules| - 1;
      UserRulesCount(rules[..n]);
      UsersBeforePrefix(rules, n, n);
    }
  }

  lemma {:induction false} UserRuleFrom(rules: seq<Json>, m: nat) returns (i: nat)
    requires m < |UserRules(rules)|
    ensures i < |rules| && IsUser(rules[i]) && UsersBefore(rules, i) == m && rules[i] == UserRules(rules)[m]
  {
    var n := |rules| - 1;
    if m < |UserRules(rules[..n])| {
      i := UserRuleFrom(rules[..n], m);
    } else {
      i := n;
      UserRulesCount(rules[..n]);
    }
    UsersBeforePrefix(rules, n, i);
  }

  lemma TakenIff<T>(reading: Reading<T>, rules: seq<Json>, t: T, k: nat)
    ensures var user := UserRules(rules);
            SomeApplies(reading, user[..Least(k, |user|)], t) <==> TakenByFirst(reading, rules, t, k)
  {
    var user := UserRules(rules);
    var first := user[..Least(k, |user|)];
    if SomeApplies(reading, first, t) {
      var m :| 0 <= m < |first| && Applies(reading, first[m], t);
      var i := UserRuleFrom(rules, m);
    }
    if TakenByFirst(reading, rules, t, k) {
      var i :| 0 <= i < |rules| && UsersBefore(rules, i) < k && IsUser(rules[i]) && Takes(reading, rules[i], t);
      UserRuleAt(rules, i);
      assert first[UsersBefore(rules, i)] == rules[i];
    }
  }

  // ---------------------------------------------------------------- the pieces

  /** The webhook of the torrent blocker. */
  function Report(socketPath: string): Json {
    JObj(map["url" := JStr("/" + socketPath + ":/internal/webhook"), "deduplication" := JNum(5.0)])
  }

  /** What is put into a config, word for word: an inbound whose tag the first rule reads, an API section and
      an outbound with the tags that rules send to, and, where the placement says, the torrent rule. */
  lemma PiecesAre(input: Fields, config: Fields, xtlsSocket: string, torrent: TorrentOptions, capNetAdmin: bool)
    requires Rewrites(input, config, xtlsSocket, torrent, capNetAdmin)
    ensures Get(config, "inbounds") == JArr([
              JObj(map["tag" := JStr("REMNAWAVE_API_INBOUND"), "listen" := JStr("@" + xtlsSocket),
                       "protocol" := JStr("tunnel")])] + ArrayFrom(Get(input, "inbounds")))
    ensures Get(config, "outbounds") == JArr(ArrayFrom(Get(input, "outbounds")) + if !torrent.enabled then [] else [
              JObj(map["tag" := JStr("RW_TB_OUTBOUND_BLOCK"), "protocol" := JStr("blackhole")])])
    ensures Get(config, "api") == JObj(map[
              "services" := JArr([JStr("HandlerService"), JStr("StatsService"), JStr("RoutingService")]),
              "tag" := JStr("REMNAWAVE_API")])
    ensures Get(config, "stats") == JObj(map[])
    ensures forall key :: key in input && key !in ["stats", "api", "inbounds", "outbounds", "policy", "routing"] ==>
              key in config && config[key] == input[key]
    ensures forall key :: key in config ==>
              key in input || key in ["stats", "api", "inbounds", "outbounds", "policy", "routing"]
    ensures forall key :: key != "rules" ==>
              Get(FieldsFrom(Get(config, "routing")), key) == Get(FieldsFrom(Get(input, "routing")), key)
  {
    hide PolicyOf, UserRules, RulesOf;
  }

  /** The rules of the rewritten config, one by one: the API rule, the kept rules in their order, the torrent
      rule among them, each with the webhook if its tag asks for it. */
  lemma RulesAre(input: Fields, config: Fields, xtlsSocket: string, torrent: TorrentOptions, capNetAdmin: bool)
    requires Rewrites(input, config, xtlsSocket, torrent, capNetAdmin) && torrent.enabled
    ensures var user := UserRules(RulesIn(input));
            var k := Least(AskedPlacement(torrent.rulePlacement), |user|);
            var api := JObj(map["inboundTag" := JArr([JStr("REMNAWAVE_API_INBOUND")]),
                                "outboundTag" := JStr("REMNAWAVE_API")]);
            var block := JObj(map["protocol" := JArr([JStr("bittorrent")]),
                                  "outboundTag" := JStr("RW_TB_OUTBOUND_BLOCK"),
                                  "webhook" := Report(torrent.socketPath)]);
            var plain := [api] + user[..k] + [block] + user[k..];
            && |RulesIn(config)| == |plain|
            && forall i | 0 <= i < |plain| :: Reported(plain[i], RulesIn(config)[i], torrent)
  {
    hide UserRules, Placement;
    var user := UserRules(RulesIn(input));
    PlacementIs(torrent.rulePlacement, |user|);
  }

  /** A rule with one of the tags gets the webhook, and changes in nothing else; others stay. */
  predicate Reported(before: Json, after: Json, torrent: TorrentOptions) {
    if before.JObj? && StringField(before, "ruleTag") in torrent.includeRuleTags
    then after == JObj(before.fields["webhook" := Report(torrent.socketPath)])
    else after == before
  }
}
