/** Plugin settings, the nftables sets that go with them, and the requests that change both, with
    nft failing at any step. */
module PluginSync {
  import opened JsonValues
  import opened PluginLists
  import opened Strings
  import opened TagKeys
  import opened Wrappers

  type Prefix = string

  datatype Torrent = Torrent(enabled: bool, blockDuration: int, includeRuleTags: seq<string>, rulePlacement: real,
                             ignoredIPs: set<string>, ignoredUsers: set<int>, webhookURL: string)

  datatype PreStart = PreStart(enabled: bool, cleanupEnabled: bool, files: seq<string>)

  /** A sync request's plugin: `hash` is the hash of its config's text, empty if that cannot be read. */
  datatype SyncPlugin = SyncPlugin(uuid: string, name: string, hash: string, config: Option<Fields>)

  /** The settings of a state: all but the collected reports and the ASN resolver. */
  datatype Settings = Settings(configHash: string, pluginUUID: string, pluginName: string, hasActive: bool,
                               whitelistIPs: set<string>, torrent: Torrent, preStart: PreStart)

  const NO_TORRENT := Torrent(false, 0, [], 0.0, {}, {}, "")

  const NO_PRE_START := PreStart(false, false, [])

  /** What a new state has. */
  const FRESH := Settings("", "", "", false, {}, NO_TORRENT, NO_PRE_START)

  // ---------------------------------------------------------------- what a config asks for

  function Section(cfg: Fields, key: string): Fields {
    FieldsFrom(Get(cfg, key))
  }

  function List(cfg: Fields, key: string): seq<string> {
    TextItems(ArrayFrom(Get(cfg, key)))
  }

  function SharedOf(cfg: Fields, asn: Resolver): map<string, seq<string>> {
    Shared(ArrayFrom(Get(cfg, "sharedLists")), asn)
  }

  function Addresses(cfg: Fields, section: string, list: string, asn: Resolver): seq<string> {
    Resolve(List(Section(cfg, section), list), SharedOf(cfg, asn))
  }

  function WhitelistOf(cfg: Fields, asn: Resolver): set<string> {
    if Flag(Section(cfg, "connectionDrop"), "enabled")
    then set ip | ip in Addresses(cfg, "connectionDrop", "whitelistIps", asn)
    else {}
  }

  function NumberOf(v: Json): real {
    if v.JNum? then v.n else 0.0
  }

  function IntegerOf(v: Json): int {
    if AsInt(v).Some? then AsInt(v).value else 0
  }

  function TorrentOf(cfg: Fields, asn: Resolver): Torrent {
    var b := Section(cfg, "torrentBlocker");
    if !Flag(b, "enabled") then NO_TORRENT else
    var ignore := Section(b, "ignoreLists");
    Torrent(true, IntegerOf(Get(b, "blockDuration")), List(b, "includeRuleTags"), NumberOf(Get(b, "rulePlacement")),
            (set ip | ip in Resolve(List(ignore, "ip"), SharedOf(cfg, asn))),
            (set user | user in Integers(ArrayFrom(Get(ignore, "userId")))),
            StringField(JObj(b), "webhookUrl"))
  }

  function Trimmed(files: seq<string>): seq<string> {
    if files == [] then []
    else
      var last := TrimSpace(files[|files| - 1]);
      Trimmed(files[..|files| - 1]) + if last != "" then [last] else []
  }

  function PreStartOf(cfg: Fields): PreStart {
    var section := Section(cfg, "preStart");
    var cleanup := Section(section, "cleanupSockets");
    PreStart(Flag(section, "enabled"), Flag(cleanup, "enabled"), Trimmed(List(cleanup, "files")))
  }

  /** A switched-on blocker's options in terms of the config: who is ignored, and that tags are not
      empty; all is zero when it is off. */
  lemma TorrentMeans(cfg: Fields, asn: Resolver, address: string, user: int)
    ensures var t, b := TorrentOf(cfg, asn), Section(cfg, "torrentBlocker");
            var ignore := Section(b, "ignoreLists");
            if !Flag(b, "enabled") then t == NO_TORRENT else
              && t.enabled
              && (address in t.ignoredIPs <==> Listed(ArrayFrom(Get(ignore, "ip")), SharedOf(cfg, asn), address))
              && (user in t.ignoredUsers <==> -MAX_SAFE_INTEGER <= user <= MAX_SAFE_INTEGER
                                              && JNum(user as real) in ArrayFrom(Get(ignore, "userId")))
              && (address in t.includeRuleTags
                  <==> address != "" && JStr(address) in ArrayFrom(Get(b, "includeRuleTags")))
  {
    var b := Section(cfg, "torrentBlocker");
    var ignore := Section(b, "ignoreLists");
    ListedIff(ArrayFrom(Get(ignore, "ip")), SharedOf(cfg, asn), address);
    IntegersAre(ArrayFrom(Get(ignore, "userId")));
    TextItemsAre(ArrayFrom(Get(b, "includeRuleTags")), address);
  }

  lemma WhitelistMeans(cfg: Fields, asn: Resolver, address: string)
    ensures address in WhitelistOf(cfg, asn)
       <==> Flag(Section(cfg, "connectionDrop"), "enabled")
            && Listed(ArrayFrom(Get(Section(cfg, "connectionDrop"), "whitelistIps")), SharedOf(cfg, asn), address)
  {
    ListedIff(ArrayFrom(Get(Section(cfg, "connectionDrop"), "whitelistIps")), SharedOf(cfg, asn), address);
  }

  /** The files to clean up are the listed ones without white space around them. */
  lemma PreStartMeans(cfg: Fields, file: string)
    ensures var items := ArrayFrom(Get(Section(Section(cfg, "preStart"), "cleanupSockets"), "files"));
            file in PreStartOf(cfg).files <==> file != "" && exists raw :: JStr(raw) in items && TrimSpace(raw) == file
  {
    var items := ArrayFrom(Get(Section(Section(cfg, "preStart"), "cleanupSockets"), "files"));
    TrimmedIs(TextItems(items), file);
    forall raw ensures raw in TextItems(items) <==> raw != "" && JStr(raw) in items { TextItemsAre(items, raw); }
  }

  lemma {:induction false} TrimmedIs(files: seq<string>, file: string)
    ensures file in Trimmed(files) <==> file != "" && exists raw :: raw in files && TrimSpace(raw) == file
  {
    if files != [] {
      hide TrimSpace;
      var init, last := files[..|files| - 1], files[|files| - 1];
      TrimmedIs(init, file);
      assert files == init + [last];
      if TrimSpace(last) == file { assert last in files; }
      if exists raw :: raw in init && TrimSpace(raw) == file {
        var raw :| raw in init && TrimSpace(raw) == file;
        assert raw in files;
      }
    }
  }

  /** A config that cannot be read counts as an empty one. */
  function ConfigOf(p: SyncPlugin): Fields {
    if p.config.Some? then p.config.value else map[]
  }

  function SettingsOf(p: SyncPlugin, asn: Resolver): Settings {
    var cfg := ConfigOf(p);
    Settings(p.hash, p.uuid, p.name, true, WhitelistOf(cfg, asn), TorrentOf(cfg, asn), PreStartOf(cfg))
  }

  /** The filter sets: addresses by family, and ports, which are in both families' tables. */
  datatype Filters = Filters(ingress4: set<Prefix>, ingress6: set<Prefix>, egress4: set<Prefix>, egress6: set<Prefix>,
                             ports4: set<int>, ports6: set<int>)

  const NO_FILTERS := Filters({}, {}, {}, {}, {}, {})

  type Normalizer = seq<string> -> (set<Prefix>, set<Prefix>)

  function PortsOf(cfg: Fields): set<int> {
    set port | port in Numbers(ArrayFrom(Get(Section(cfg, "egressFilter"), "blockedPorts")))
  }

  /** The filter sets a config asks for. */
  function FiltersOf(cfg: Fields, asn: Resolver, normalize: Normalizer): Filters {
    var inOn, outOn := Flag(Section(cfg, "ingressFilter"), "enabled"), Flag(Section(cfg, "egressFilter"), "enabled");
    var i := normalize(Addresses(cfg, "ingressFilter", "blockedIps", asn));
    var e := normalize(Addresses(cfg, "egressFilter", "blockedIps", asn));
    var ports := PortsOf(cfg);
    Filters(
      if inOn then i.0 else {}, if inOn then i.1 else {},
      if outOn then e.0 else {}, if outOn then e.1 else {},
      if outOn then ports else {}, if outOn then ports else {})
  }

  // ---------------------------------------------------------------- the plugin state

  class State {
    var configHash: string
    var pluginUUID: string
    var pluginName: string
    var hasActive: bool
    var whitelistIPs: set<string>
    var reports: nat
    var torrent: Torrent
    var preStart: PreStart
    const asn: Resolver
    /** The config the settings were made from. */
    ghost var active: Fields

    function Current(): Settings
      reads this
    {
      Settings(configHash, pluginUUID, pluginName, hasActive, whitelistIPs, torrent, preStart)
    }

    constructor (asn: Resolver)
      ensures Current() == FRESH && reports == 0 && this.asn == asn
    {
      configHash, pluginUUID, pluginName, hasActive := "", "", "", false;
      whitelistIPs, reports, torrent, preStart := {}, 0, NO_TORRENT, NO_PRE_START;
      this.asn := asn;
      active := map[];
    }

    method Reset()
      modifies this
      ensures Current() == FRESH && reports == 0
      ensures configHash == "" && pluginUUID == "" && pluginName == "" && !hasActive && whitelistIPs == {}
      ensures torrent == Torrent(false, 0, [], 0.0, {}, {}, "") && preStart == PreStart(false, false, [])
    {
      configHash := "";
      pluginUUID := "";
      pluginName := "";
      hasActive := false;
      whitelistIPs := {};
      reports := 0;
      torrent := NO_TORRENT;
      preStart := NO_PRE_START;
    }

    method UpdateFromSync(plugin: Option<SyncPlugin>) returns (changed: bool, accepted: bool)
      modifies this
      ensures plugin.Some? ==> accepted
      ensures plugin.Some? ==> changed == !(plugin.value.hash == old(configHash) && old(hasActive))
      ensures plugin.None? ==> changed == old(hasActive) && accepted == old(hasActive)
      ensures changed ==> Current() == if plugin.Some? then SettingsOf(plugin.value, asn) else FRESH
      ensures changed && plugin.Some? ==> active == ConfigOf(plugin.value) && reports == old(reports)
      ensures changed && plugin.Some? ==>
                && configHash == plugin.value.hash && pluginUUID == plugin.value.uuid
                && pluginName == plugin.value.name && hasActive
      ensures !changed ==> Current() == old(Current()) && active == old(active) && reports == old(reports)
    {
      hide SettingsOf, TorrentOf, PreStartOf, WhitelistOf, Shared;
      if plugin.None? {
        if !hasActive {
          return false, false;
        }
        Reset();
        return true, true;
      }
      var p := plugin.value;
      if p.hash == configHash && hasActive {
        return false, true;
      }
      configHash := p.hash;
      hasActive := true;
      pluginUUID := p.uuid;
      pluginName := p.name;
      var rawConfig := ConfigOf(p);
      active := rawConfig;
      var shared := BuildSharedIPMap(rawConfig, asn);
      ConfigureConnectionDrop(rawConfig, shared);
      ConfigureTorrentBlocker(rawConfig, shared);
      ConfigurePreStart(rawConfig);
      assert Current() == SettingsOf(p, asn) by { SettingsAre(p, asn); }
      return true, true;
    }

    method ConfigureConnectionDrop(rawConfig: Fields, shared: map<string, seq<string>>)
      requires shared == SharedOf(rawConfig, asn)
      modifies this`whitelistIPs
      ensures whitelistIPs == WhitelistOf(rawConfig, asn)
    {
      hide TextItems, Shared, Resolve;
      whitelistIPs := {};
      var connectionDrop := Section(rawConfig, "connectionDrop");
      if Flag(connectionDrop, "enabled") {
        var items := ToStringSlice(Get(connectionDrop, "whitelistIps"));
        var ips := ResolveIPList(items, shared);
        whitelistIPs := set ip | ip in ips;
      }
    }

    lemma SettingsAre(p: SyncPlugin, asn: Resolver)
      ensures SettingsOf(p, asn) == Settings(p.hash, p.uuid, p.name, true, WhitelistOf(ConfigOf(p), asn),
                                             TorrentOf(ConfigOf(p), asn), PreStartOf(ConfigOf(p)))
    {
    }

    method ConfigureTorrentBlocker(rawConfig: Fields, shared: map<string, seq<string>>)
      requires shared == SharedOf(rawConfig, asn)
      modifies this`torrent
      ensures torrent == TorrentOf(rawConfig, asn)
    {
      hide TextItems, Shared, Resolve, Integers;
      torrent := NO_TORRENT;
      var blocker := Section(rawConfig, "torrentBlocker");
      if !Flag(blocker, "enabled") {
        return;
      }
      var tags := ToStringSlice(Get(blocker, "includeRuleTags"));
      torrent := torrent.(enabled := true, blockDuration := IntegerOf(Get(blocker, "blockDuration")),
        includeRuleTags := tags, rulePlacement := NumberOf(Get(blocker, "rulePlacement")),
        webhookURL := StringField(JObj(blocker), "webhookUrl"));
      var ignoreLists := Section(blocker, "ignoreLists");
      var items := ToStringSlice(Get(ignoreLists, "ip"));
      var ips := ResolveIPList(items, shared);
      var users := ToIntegerSlice(Get(ignoreLists, "userId"));
      torrent := torrent.(ignoredIPs := (set ip | ip in ips), ignoredUsers := (set user | user in users));
    }

    method ConfigurePreStart(rawConfig: Fields)
      modifies this`preStart
      ensures preStart == PreStartOf(rawConfig)
    {
      hide TextItems, TrimSpace;
      preStart := NO_PRE_START;
      var section := Section(rawConfig, "preStart");
      var cleanup := Section(section, "cleanupSockets");
      var files := ToStringSlice(Get(cleanup, "files"));
      var kept: seq<string> := [];
      for i := 0 to |files|
        invariant kept == Trimmed(files[..i])
      {
        assert files[..i + 1][..i] == files[..i];
        var trimmed := TrimSpace(files[i]);
        if trimmed != "" {
          kept := kept + [trimmed];
        }
      }
      assert files[..|files|] == files;
      preStart := PreStart(Flag(section, "enabled"), Flag(cleanup, "enabled"), kept);
    }
  }

  // ---------------------------------------------------------------- the nftables tables

  /** Single addresses that are blocked, by family. */
  datatype Blocked = Blocked(v4: set<string>, v6: set<string>)

  const NONE_BLOCKED := Blocked({}, {})

  /** Which family an address is of, if it is one, and which element of an interval set it is. */
  datatype Addressing = Addressing(isV4: string -> Option<bool>, element: string -> Prefix)

  /** Whether scripts work, may fail, or fail. */
  datatype Health = Works | Flaky | Broken

  function WithBlocked(b: Blocked, ip: string, v4: bool): Blocked {
    if v4 then b.(v4 := b.v4 + {ip}) else b.(v6 := b.v6 + {ip})
  }

  function WithoutBlocked(b: Blocked, ip: string, v4: bool): Blocked {
    if v4 then b.(v4 := b.v4 - {ip}) else b.(v6 := b.v6 - {ip})
  }

  function WithoutIngress(f: Filters, element: Prefix, v4: bool): Filters {
    if v4 then f.(ingress4 := f.ingress4 - {element}) else f.(ingress6 := f.ingress6 - {element})
  }

  /** The filters after some addresses were unblocked. */
  function Unblocked(f: Filters, ips: seq<string>, how: Addressing): Filters {
    if ips == [] then f else
    var before, ip := Unblocked(f, ips[..|ips| - 1], how), ips[|ips| - 1];
    if how.isV4(ip).None? then before else WithoutIngress(before, how.element(ip), how.isV4(ip).value)
  }

  /** The elements of a family that addresses stand for. */
  function Elements(ips: seq<string>, how: Addressing, v4: bool): set<Prefix> {
    set ip | ip in ips && how.isV4(ip) == Some(v4) :: how.element(ip)
  }

  /** Unblocking takes exactly the addresses' own elements out of the ingress sets. */
  lemma {:induction false} UnblockedIs(f: Filters, ips: seq<string>, how: Addressing)
    ensures Unblocked(f, ips, how) == f.(ingress4 := f.ingress4 - Elements(ips, how, true),
                                         ingress6 := f.ingress6 - Elements(ips, how, false))
  {
    if ips == [] {
      assert f.ingress4 - {} == f.ingress4 && f.ingress6 - {} == f.ingress6;
    } else {
      var init, ip := ips[..|ips| - 1], ips[|ips| - 1];
      UnblockedIs(f, init, how);
      assert ips == init + [ip];
      ElementsNext(init, ip, how, true);
      ElementsNext(init, ip, how, false);
      assert forall a: set<Prefix>, b: set<Prefix>, c: set<Prefix> :: a - b - c == a - (b + c);
    }
  }

  lemma ElementsNext(ips: seq<string>, ip: string, how: Addressing, v4: bool)
    ensures Elements(ips + [ip], how, v4)
         == Elements(ips, how, v4) + if how.isV4(ip) == Some(v4) then {how.element(ip)} else {}
  {
  }

  class NftManager {
    const available: bool
    const normalize: Normalizer
    const how: Addressing
    var filters: Filters
    var blocked: Blocked
    var health: Health
    /** How many scripts have failed. */
    ghost var failures: nat

    constructor (available: bool, normalize: Normalizer, how: Addressing)
      ensures this.available == available && this.normalize == normalize && this.how == how
      ensures filters == NO_FILTERS && blocked == NONE_BLOCKED && health == Flaky
    {
      this.available := available;
      this.normalize := normalize;
      this.how := how;
      filters, blocked, health, failures := NO_FILTERS, NONE_BLOCKED, Flaky, 0;
    }

    /** A script runs as one transaction or fails. */
    method RunScript(next: Filters, nextBlocked: Blocked) returns (failed: bool)
      modifies this`filters, this`blocked, this`failures
      ensures filters == (if failed then old(filters) else next)
      ensures blocked == (if failed then old(blocked) else nextBlocked)
      ensures failures == old(failures) + if failed then 1 else 0
      ensures (health.Works? ==> !failed) && (health.Broken? ==> failed)
    {
      failed := *;
      failed := health.Broken? || (health.Flaky? && failed);
      if failed {
        failures := failures + 1;
      } else {
        filters, blocked := next, nextBlocked;
      }
    }

    method RecreateTables() returns (failed: bool)
      modifies this`filters, this`blocked, this`failures
      ensures filters == (if failed then old(filters) else NO_FILTERS)
      ensures blocked == (if failed then old(blocked) else NONE_BLOCKED)
      ensures !available ==> failed
      ensures failures == old(failures) + if failed && available then 1 else 0
      ensures available ==> (health.Works? ==> !failed) && (health.Broken? ==> failed)
    {
      if !available {
        return true;
      }
      failed := RunScript(NO_FILTERS, NONE_BLOCKED);
    }

    method SyncIngressFilter(ips: seq<string>) returns (failed: bool)
      requires available
      modifies this`filters, this`blocked, this`failures
      ensures failures == old(failures) + if failed then 1 else 0
      ensures (health.Works? ==> !failed) && blocked == old(blocked)
      ensures !failed ==> filters == old(filters).(ingress4 := old(filters).ingress4 + normalize(ips).0,
                                                   ingress6 := old(filters).ingress6 + normalize(ips).1)
    {
      var sets := normalize(ips);
      if |sets.0| > 0 {
        failed := RunScript(filters.(ingress4 := filters.ingress4 + sets.0), blocked);
        if failed { return true; }
      }
      if |sets.1| > 0 {
        failed := RunScript(filters.(ingress6 := filters.ingress6 + sets.1), blocked);
        if failed { return true; }
      }
      NothingAdded(old(filters).ingress4, sets.0);
      NothingAdded(old(filters).ingress6, sets.1);
      return false;
    }

    method SyncEgressFilter(ips: seq<string>, ports: seq<int>) returns (failed: bool)
      requires available
      modifies this`filters, this`blocked, this`failures
      ensures failures == old(failures) + if failed then 1 else 0
      ensures (health.Works? ==> !failed) && blocked == old(blocked)
      ensures !failed ==> filters == old(filters).(
                egress4 := old(filters).egress4 + normalize(ips).0,
                egress6 := old(filters).egress6 + normalize(ips).1,
                ports4 := old(filters).ports4 + (set port | port in ports),
                ports6 := old(filters).ports6 + (set port | port in ports))
    {
      var sets := normalize(ips);
      if |sets.0| > 0 {
        failed := RunScript(filters.(egress4 := filters.egress4 + sets.0), blocked);
        if failed { return true; }
      }
      if |sets.1| > 0 {
        failed := RunScript(filters.(egress6 := filters.egress6 + sets.1), blocked);
        if failed { return true; }
      }
      NothingAdded(old(filters).egress4, sets.0);
      NothingAdded(old(filters).egress6, sets.1);
      var portItems := set port | port in ports;
      if |ports| == 0 {
        NothingAdded(filters.ports4, portItems);
        NothingAdded(filters.ports6, portItems);
        return false;
      }
      failed := RunScript(filters.(ports4 := filters.ports4 + portItems), blocked);
      if failed { return true; }
      failed := RunScript(filters.(ports6 := filters.ports6 + portItems), blocked);
    }

    lemma NothingAdded<T>(a: set<T>, b: set<T>)
      ensures |b| == 0 ==> a + b == a
    {
    }

    method BlockIP(ip: string, timeoutSeconds: int) returns (failed: bool)
      modifies this`filters, this`blocked, this`failures
      ensures filters == old(filters)
      ensures blocked == if failed then old(blocked)
                         else if how.isV4(ip) == Some(true) then Blocked(old(blocked).v4 + {ip}, old(blocked).v6)
                         else Blocked(old(blocked).v4, old(blocked).v6 + {ip})
      ensures !available || timeoutSeconds < 0 || how.isV4(ip).None? ==> failed
      ensures available && timeoutSeconds >= 0 && how.isV4(ip).Some? && health.Works? ==> !failed
    {
      if !available || timeoutSeconds < 0 {
        return true;
      }
      var family := how.isV4(ip);
      if family.None? {
        return true;
      }
      failed := RunScript(filters, WithBlocked(blocked, ip, family.value));
    }

    /** Deletes an address from the torrent set, then its own element from the ingress set.  An
        element that is absent is no failure as long as its set can be listed. */
    method UnblockIP(ip: string) returns (failed: bool)
      modifies this`filters, this`blocked, this`failures
      ensures !available || how.isV4(ip).None? ==> failed
      ensures available && how.isV4(ip).Some? && health.Works? ==> !failed
      ensures filters == if failed then old(filters)
                         else WithoutIngress(old(filters), how.element(ip), how.isV4(ip) == Some(true))
      ensures (failed && blocked == old(blocked))
              || blocked == if how.isV4(ip) == Some(true) then Blocked(old(blocked).v4 - {ip}, old(blocked).v6)
                            else Blocked(old(blocked).v4, old(blocked).v6 - {ip})
    {
      if !available {
        return true;
      }
      var family := how.isV4(ip);
      if family.None? {
        return true;
      }
      failed := RunScript(filters, WithoutBlocked(blocked, ip, family.value));
      if failed {
        return true;
      }
      failed := RunScript(WithoutIngress(filters, how.element(ip), family.value), blocked);
    }
  }

  // ---------------------------------------------------------------- restarts of the core

  /** What a sync does to the core. */
  datatype CoreAction = LeaveCore | RemoveRule | StopCore

  /** The key of a list of rule tags. */
  function TagKey(hash: string -> string, tags: seq<string>): string {
    if tags == [] then "" else hash(Join(Sort(tags)))
  }

  /** What the options of the torrent blocker before and after a sync call for. */
  function ActionFor(hash: string -> string, was: Torrent, now: Torrent): CoreAction {
    if was.enabled && !now.enabled && |now.includeRuleTags| == 0 then RemoveRule
    else if (was.enabled && !now.enabled) || (!was.enabled && now.enabled)
            || (was.enabled && now.enabled && TagKey(hash, was.includeRuleTags) != TagKey(hash, now.includeRuleTags))
            || (was.enabled && now.enabled && was.rulePlacement != now.rulePlacement)
    then StopCore
    else LeaveCore
  }

  /** With tags without commas, the core is left alone exactly when the blocker stays off, or stays on
      with the same tags and the same placement. */
  lemma LeftAloneIff(hash: string -> string, was: Torrent, now: Torrent)
    requires AllPlain(was.includeRuleTags) && AllPlain(now.includeRuleTags)
    requires forall x, y :: hash(x) == hash(y) ==> x == y
    requires forall x :: hash(x) != ""
    ensures ActionFor(hash, was, now) == LeaveCore
       <==> was.enabled == now.enabled
            && (was.enabled ==> multiset(was.includeRuleTags) == multiset(now.includeRuleTags)
                                && was.rulePlacement == now.rulePlacement)
  {
    SameJoinedIff(was.includeRuleTags, now.includeRuleTags);
    assert was.includeRuleTags == [] <==> |multiset(was.includeRuleTags)| == 0;
    assert now.includeRuleTags == [] <==> |multiset(now.includeRuleTags)| == 0;
  }

  // ---------------------------------------------------------------- the requests

  class Service {
    const state: State
    const nft: NftManager
    /** Whether there is a core to restart. */
    const hasCore: bool
    const valid: Fields -> bool
    const hash: string -> string

    constructor (state: State, nft: NftManager, hasCore: bool, valid: Fields -> bool, hash: string -> string)
      requires state.Current() == FRESH
      ensures Settled() && InPlace() && this.state == state && this.nft == nft
      ensures this.hasCore == hasCore && this.valid == valid && this.hash == hash
    {
      this.state := state;
      this.nft := nft;
      this.hasCore := hasCore;
      this.valid := valid;
      this.hash := hash;
    }

    /** The filter sets the active config asks for. */
    ghost function Asked(): Filters
      reads state
    {
      FiltersOf(state.active, state.asn, nft.normalize)
    }

    /** Without an active plugin the settings are those of a new state; with one they are made from
        its config. */
    ghost predicate Settled()
      reads state
    {
      if !state.hasActive then state.Current() == FRESH else
        && state.whitelistIPs == WhitelistOf(state.active, state.asn)
        && state.torrent == TorrentOf(state.active, state.asn)
        && state.preStart == PreStartOf(state.active)
    }

    /** An active plugin's filter sets are those its config asks for. */
    ghost predicate InPlace()
      reads state, nft
    {
      state.hasActive && nft.available ==> nft.filters == Asked()
    }

    predicate Unchanged(p: SyncPlugin)
      reads state
    {
      p.hash != "" && p.hash == state.configHash && state.hasActive
    }

    /** A config with the hash of the active one changes nothing, whether or not it was looked at. */
    predicate SameHash(p: SyncPlugin)
      reads state
    {
      p.hash == state.configHash && state.hasActive
    }

    predicate Valid(p: SyncPlugin)
    {
      p.config.Some? && valid(p.config.value)
    }

    method ResetPlugins() returns (failed: bool)
      modifies state, nft`filters, nft`blocked, nft`failures
      ensures Settled() && state.Current() == FRESH
      ensures nft.filters == (if nft.available && !failed then NO_FILTERS else old(nft.filters))
      ensures nft.failures == old(nft.failures) + if failed then 1 else 0
      ensures failed ==> nft.available && !nft.health.Works?
      ensures nft.available && nft.health.Broken? ==> failed
    {
      state.Reset();
      failed := false;
      if nft.available {
        failed := nft.RecreateTables();
      }
    }

    method StopIfOnline() returns (core: CoreAction)
      ensures core == if hasCore then StopCore else LeaveCore
    {
      core := if hasCore then StopCore else LeaveCore;
    }

    method HandlePluginClear() returns (accepted: bool, core: CoreAction)
      requires Settled()
      modifies state, nft`filters, nft`blocked, nft`failures
      ensures Settled() && state.Current() == FRESH
      ensures accepted ==> old(state.hasActive)
      ensures nft.failures == old(nft.failures) + if old(state.hasActive) && !accepted then 1 else 0
      ensures nft.health.Works? ==> nft.failures == old(nft.failures)
      ensures accepted && nft.available ==> nft.filters == NO_FILTERS
      ensures core == if accepted && hasCore then StopCore else LeaveCore
      ensures old(state.hasActive) && nft.available && nft.health.Broken? ==> nft.failures > old(nft.failures)
    {
      if !state.hasActive {
        return false, LeaveCore;
      }
      var failed := ResetPlugins();
      if failed {
        return false, LeaveCore;
      }
      accepted := true;
      core := StopIfOnline();
    }

    /** Puts a config's filters into empty sets. */
    method SyncFilters(cfg: Fields) returns (failed: bool)
      requires nft.available && nft.filters == NO_FILTERS
      modifies nft`filters, nft`blocked, nft`failures
      ensures !failed ==> nft.filters == FiltersOf(cfg, state.asn, nft.normalize)
      ensures nft.failures == old(nft.failures) + if failed then 1 else 0
      ensures nft.health.Works? ==> !failed
    {
      hide TextItems, Shared, Resolve, Numbers;
      var shared := BuildSharedIPMap(cfg, state.asn);
      var ingress := Section(cfg, "ingressFilter");
      if Flag(ingress, "enabled") {
        var items := ToStringSlice(Get(ingress, "blockedIps"));
        var ips := ResolveIPList(items, shared);
        failed := nft.SyncIngressFilter(ips);
        if failed { return true; }
      }
      var egress := Section(cfg, "egressFilter");
      if Flag(egress, "enabled") {
        var items := ToStringSlice(Get(egress, "blockedIps"));
        var ips := ResolveIPList(items, shared);
        var ports := ToIntSlice(Get(egress, "blockedPorts"));
        failed := nft.SyncEgressFilter(ips, ports);
        if failed { return true; }
      }
      return false;
    }

    /** The action the options call for; when the removal of the rule fails, the core is stopped. */
    method ApplyTorrentRestart(was: Torrent, now: Torrent) returns (core: CoreAction)
      ensures hasCore ==> core == ActionFor(hash, was, now)
                          || (core == StopCore && ActionFor(hash, was, now) == RemoveRule)
      ensures !hasCore ==> core == LeaveCore
    {
      if !hasCore {
        return LeaveCore;
      }
      if was.enabled && !now.enabled && |now.includeRuleTags| == 0 {
        var refused: bool := *;
        if refused {
          return StopCore;
        }
        return RemoveRule;
      }
      var needsRestart :=
        (was.enabled && !now.enabled) ||
        (!was.enabled && now.enabled) ||
        (was.enabled && now.enabled && TagKey(hash, was.includeRuleTags) != TagKey(hash, now.includeRuleTags)) ||
        (was.enabled && now.enabled && was.rulePlacement != now.rulePlacement);
      return if needsRestart then StopCore else LeaveCore;
    }

    /** Recreates the tables and fills them; on a failure the settings are reset. */
    method SyncTables(cfg: Fields) returns (failed: bool)
      requires nft.available && state.hasActive && state.active == cfg && Settled()
      modifies state, nft`filters, nft`blocked, nft`failures
      ensures Settled() && InPlace()
      ensures if failed then state.Current() == FRESH
              else state.Current() == old(state.Current()) && state.active == cfg
                   && nft.filters == FiltersOf(cfg, state.asn, nft.normalize)
      ensures nft.failures == old(nft.failures) + if failed then 1 else 0
      ensures (nft.health.Works? ==> !failed) && (nft.health.Broken? ==> failed)
    {
      hide FiltersOf, WhitelistOf, TorrentOf, PreStartOf;
      failed := nft.RecreateTables();
      if failed {
        state.Reset();
        return true;
      }
      failed := SyncFilters(cfg);
      if failed {
        state.Reset();
        return true;
      }
    }

    /** A request that passed whatever validation there is, and dropped the settings because a script
        failed: the blocker was on, and nothing stops the core. */
    twostate predicate Drops(plugin: Option<SyncPlugin>)
      reads state, nft
    {
      old(state.torrent).enabled && nft.failures > old(nft.failures) && (plugin.None? || Valid(plugin.value))
    }

    method HandleSync(plugin: Option<SyncPlugin>) returns (accepted: bool, core: CoreAction)
      requires Settled()
      modifies state, nft`filters, nft`blocked, nft`failures
      ensures Settled()
      // a refusal leaves the settings of a new state
      ensures !accepted ==> state.Current() == FRESH
      // a config counts as unchanged only with the hash of the active one, and then nothing changes
      ensures plugin.Some? && old(Unchanged(plugin.value)) ==>
                && accepted && core == LeaveCore && nft.failures == old(nft.failures)
                && state.Current() == old(state.Current()) && state.active == old(state.active)
                && nft.filters == old(nft.filters)
      // a new config is accepted exactly if it is valid and no script fails
      ensures plugin.Some? && !old(Unchanged(plugin.value)) ==>
                (accepted <==> Valid(plugin.value) && nft.failures == old(nft.failures))
      ensures plugin.None? ==> state.Current() == FRESH
      ensures plugin.None? ==> (accepted <==> old(state.hasActive) && nft.failures == old(nft.failures))
      // an invalid one stops the core and clears the tables
      ensures plugin.Some? && !old(Unchanged(plugin.value)) && !Valid(plugin.value) ==>
                && core == (if hasCore then StopCore else LeaveCore)
                && (nft.available && nft.failures == old(nft.failures) ==> nft.filters == NO_FILTERS)
      // an accepted change makes the settings and the filter sets
      ensures plugin.Some? && accepted && !old(SameHash(plugin.value)) ==>
                && state.Current() == SettingsOf(plugin.value, state.asn) && state.active == ConfigOf(plugin.value)
                && (nft.available ==> nft.filters == FiltersOf(ConfigOf(plugin.value), state.asn, nft.normalize))
      ensures plugin.Some? && accepted && old(SameHash(plugin.value)) ==>
                && core == LeaveCore && nft.failures == old(nft.failures)
                && state.Current() == old(state.Current()) && state.active == old(state.active)
                && nft.filters == old(nft.filters)
      ensures nft.failures >= old(nft.failures)
      // the filters are in place, except after a sync that changes nothing if they were not before
      ensures InPlace() <==> (plugin.Some? && accepted && old(SameHash(plugin.value)) ==> old(InPlace()))
      // the core is restarted for what the torrent blocker's options call for
      ensures plugin.Some? && accepted && hasCore ==>
                core == ActionFor(hash, old(state.torrent), state.torrent)
                || (core == StopCore && ActionFor(hash, old(state.torrent), state.torrent) == RemoveRule)
      ensures plugin.None? ==> core == if accepted && hasCore then StopCore else LeaveCore
      // the blocker goes off and the core is left alone exactly when a script failed
      ensures hasCore ==> (core == LeaveCore && old(state.torrent).enabled && !state.torrent.enabled <==> Drops(plugin))
      ensures !hasCore || (plugin.Some? && !accepted && Valid(plugin.value)) ==> core == LeaveCore
      ensures nft.health.Works? ==> nft.failures == old(nft.failures)
      ensures nft.available && nft.health.Broken? && (plugin.None? ==> old(state.hasActive)) ==>
                (plugin.Some? ==> !old(SameHash(plugin.value))) ==> nft.failures > old(nft.failures)
    {
      hide FiltersOf, WhitelistOf, TorrentOf, PreStartOf, TagKey;
      if plugin.None? {
        accepted, core := HandlePluginClear();
        return;
      }
      var p := plugin.value;
      if Unchanged(p) {
        return true, LeaveCore;
      }
      if !Valid(p) {
        var _ := ResetPlugins();
        core := StopIfOnline();
        return false, core;
      }
      var was := state.torrent;
      var changed, ok := state.UpdateFromSync(plugin);
      if changed && nft.available {
        var failed := SyncTables(p.config.value);
        if failed {
          return false, LeaveCore;
        }
      }
      core := ApplyTorrentRestart(was, state.torrent);
      accepted := true;
    }

    /** Recreating the tables by request empties the filter sets and does not fill them again. */
    method HandleRecreateTables() returns (accepted: bool)
      modifies nft`filters, nft`blocked, nft`failures
      ensures nft.filters == (if accepted then NO_FILTERS else old(nft.filters))
      ensures accepted ==> nft.available && (InPlace() <==> !state.hasActive || Asked() == NO_FILTERS)
      ensures !accepted ==> InPlace() == old(InPlace())
      ensures nft.available && nft.health.Works? ==> accepted
    {
      if !nft.available {
        return false;
      }
      var failed := nft.RecreateTables();
      return !failed;
    }

    /** Blocks addresses one after the other, up to the first that fails. */
    method HandleBlockIPs(items: seq<(string, int)>) returns (accepted: bool)
      modifies nft`filters, nft`blocked, nft`failures
      ensures nft.filters == old(nft.filters)
      ensures accepted ==> nft.available && forall item <- items :: item.1 >= 0 && Has(nft.blocked, item.0)
      ensures old(nft.blocked).v4 <= nft.blocked.v4 && old(nft.blocked).v6 <= nft.blocked.v6
      ensures nft.available && nft.health.Works? ==>
                (accepted <==> forall item <- items :: item.1 >= 0 && nft.how.isV4(item.0).Some?)
    {
      if !nft.available {
        return false;
      }
      for i := 0 to |items|
        invariant nft.filters == old(nft.filters)
        invariant forall item <- items[..i] :: item.1 >= 0 && Has(nft.blocked, item.0) && nft.how.isV4(item.0).Some?
        invariant old(nft.blocked).v4 <= nft.blocked.v4 && old(nft.blocked).v6 <= nft.blocked.v6
      {
        assert items[..i + 1] == items[..i] + [items[i]];
        var failed := nft.BlockIP(items[i].0, items[i].1);
        if failed {
          assert items[i] in items;
          return false;
        }
      }
      assert items[..|items|] == items;
      return true;
    }

    predicate Has(b: Blocked, ip: string) {
      ip in b.v4 || ip in b.v6
    }

    /** Unblocks addresses one after the other, up to the first that fails: each is also taken out of
        the ingress filter, whatever the active config says. */
    method HandleUnblockIPs(ips: seq<string>) returns (accepted: bool, ghost done: nat)
      modifies nft`filters, nft`blocked, nft`failures
      ensures done <= |ips| && nft.filters == Unblocked(old(nft.filters), ips[..done], nft.how)
      ensures (accepted ==> done == |ips| && nft.available) && (!nft.available ==> done == 0)
      ensures nft.blocked.v4 <= old(nft.blocked).v4 && nft.blocked.v6 <= old(nft.blocked).v6
      ensures accepted ==> forall ip <- ips :: ip !in if nft.how.isV4(ip) == Some(true) then nft.blocked.v4
                                                      else nft.blocked.v6
      ensures nft.available && nft.health.Works? ==> (accepted <==> forall ip <- ips :: nft.how.isV4(ip).Some?)
    {
      done := 0;
      if !nft.available {
        return false, 0;
      }
      for i := 0 to |ips|
        invariant done == i && nft.filters == Unblocked(old(nft.filters), ips[..i], nft.how)
        invariant forall ip <- ips[..i] :: nft.how.isV4(ip).Some?
        invariant nft.blocked.v4 <= old(nft.blocked).v4 && nft.blocked.v6 <= old(nft.blocked).v6
        invariant forall ip <- ips[..i] :: ip !in if nft.how.isV4(ip) == Some(true) then nft.blocked.v4
                                                  else nft.blocked.v6
      {
        assert ips[..i + 1] == ips[..i] + [ips[i]] && ips[..i + 1][..i] == ips[..i];
        var failed := nft.UnblockIP(ips[i]);
        if failed {
          assert ips[i] in ips;
          return false, i;
        }
        done := i + 1;
      }
      assert ips[..|ips|] == ips;
      return true, |ips|;
    }
  }
}
