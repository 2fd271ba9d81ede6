/** Whole runs of plugin requests beside a core: what the filter sets hold, which options the core runs
    with, and when the two part from the settings. */
module PluginRuns {
  import opened Bytes
  import opened JsonValues
  import opened PluginLists
  import opened PluginSync
  import opened Wrappers
  import L = Lifecycle

  /** What reaches a node: plugin requests, starts and stops of the core, and a change in how nft
      fares. */
  datatype Event =
    | Sync(plugin: Option<SyncPlugin>)
    | StopNode
    | StartCore
    | Recreate
    | Block(items: seq<(string, int)>)
    | Unblock(ips: seq<string>)
    | Weather(health: Health)

  /** An event with its answer, what it did to the core, and how many addresses were unblocked. */
  datatype Served = Served(event: Event, accepted: bool, action: CoreAction, unblocked: nat)

  predicate Proper(e: Served) {
    e.event.Unblock? ==> e.unblocked <= |e.event.ips|
  }

  // ---------------------------------------------------------------- the course of a run

  /** No core runs; the core's options agree with the settings; or it runs a blocker's rule although
      the settings have no blocker. */
  datatype Fate = NoCore | UpToDate | RuleLeft

  /** The plugin whose settings are active, how it is with the core, and the filter sets of an active
      plugin. */
  datatype Course = Course(active: Option<SyncPlugin>, fate: Fate, filters: Filters)

  /** What stays the same on a node. */
  datatype Surroundings = Surroundings(asn: Resolver, normalize: Normalizer, how: Addressing, nftAvailable: bool,
                                       valid: Fields -> bool)

  predicate BlockerOn(c: Course, w: Surroundings) {
    c.active.Some? && TorrentOf(ConfigOf(c.active.value), w.asn).enabled
  }

  /** The content of a sync is no reason to refuse it. */
  predicate Passes(plugin: Option<SyncPlugin>, w: Surroundings) {
    plugin.None? || (plugin.value.config.Some? && w.valid(plugin.value.config.value))
  }

  function FateAfterSync(c: Course, plugin: Option<SyncPlugin>, e: Served, w: Surroundings): Fate {
    if e.action.StopCore? then NoCore
    else if e.action.RemoveRule? then (if c.fate.NoCore? then NoCore else UpToDate)
    else if c.fate.UpToDate? && BlockerOn(c, w) && !e.accepted && Passes(plugin, w) then RuleLeft
    else c.fate
  }

  function AfterSync(c: Course, plugin: Option<SyncPlugin>, e: Served, w: Surroundings): Course {
    var fate := FateAfterSync(c, plugin, e, w);
    if !e.accepted || plugin.None? then Course(None, fate, NO_FILTERS)
    else if c.active.Some? && c.active.value.hash == plugin.value.hash then c.(fate := fate)
    else Course(plugin, fate,
                if w.nftAvailable then FiltersOf(ConfigOf(plugin.value), w.asn, w.normalize) else NO_FILTERS)
  }

  function Next(c: Course, e: Served, w: Surroundings): Course
    requires Proper(e)
  {
    match e.event
    case Sync(plugin) => AfterSync(c, plugin, e, w)
    case StopNode => Course(None, NoCore, NO_FILTERS)
    case StartCore => if e.accepted then c.(fate := UpToDate) else c
    case Recreate => if e.accepted then c.(filters := NO_FILTERS) else c
    case Unblock(ips) => if c.active.Some? then c.(filters := Unblocked(c.filters, ips[..e.unblocked], w.how)) else c
    case _ => c
  }

  /** What an event makes of the course. */
  lemma NextIs(c: Course, e: Served, w: Surroundings)
    requires Proper(e)
    ensures e.event.StopNode? ==> Next(c, e, w) == Course(None, NoCore, NO_FILTERS)
    ensures e.event.StartCore? && e.accepted ==> Next(c, e, w) == c.(fate := UpToDate)
    ensures e.event.Recreate? && e.accepted ==> Next(c, e, w) == c.(filters := Filters({}, {}, {}, {}, {}, {}))
    ensures e.event.Sync? && (!e.accepted || e.event.plugin.None?) ==>
              Next(c, e, w).active.None? && Next(c, e, w).filters == Filters({}, {}, {}, {}, {}, {})
    ensures e.event.Sync? && e.accepted && e.event.plugin.Some? ==>
              var same := c.active.Some? && c.active.value.hash == e.event.plugin.value.hash;
              && Next(c, e, w).active == (if same then c.active else e.event.plugin)
              && (same ==> Next(c, e, w).filters == c.filters)
              && (!same && w.nftAvailable ==>
                    Next(c, e, w).filters == FiltersOf(ConfigOf(e.event.plugin.value), w.asn, w.normalize))
    ensures e.event.Sync? && e.action.StopCore? ==> Next(c, e, w).fate == NoCore
    ensures e.event.Block? || e.event.Weather? ==> Next(c, e, w) == c
  {
    hide FiltersOf;
  }

  function After(c: Course, log: seq<Served>, w: Surroundings): Course
    requires forall e <- log :: Proper(e)
  {
    if log == [] then c else
    assert log[|log| - 1] in log;
    Next(After(c, log[..|log| - 1], w), log[|log| - 1], w)
  }

  /** The plugin service beside the core; `running` is what the core was started with. */
  class Node {
    const service: Service
    var running: Option<Torrent>

    constructor (service: Service)
      ensures this.service == service && running == None && Agrees()
    {
      this.service := service;
      running := None;
    }

    /** While the blocker is on, a running core has its current options. */
    predicate Agrees()
      reads this, service.state
    {
      && (!service.hasCore ==> running.None?)
      && (running.Some? && service.state.torrent.enabled ==>
            running.value.enabled && ActionFor(service.hash, running.value, service.state.torrent) == LeaveCore)
    }

    ghost predicate Good()
      reads this, service.state
    {
      service.Settled() && Agrees()
    }

    ghost function World(): Surroundings {
      Surroundings(service.state.asn, service.nft.normalize, service.nft.how, service.nft.available, service.valid)
    }

    function CoreFate(): Fate
      reads this, service.state
    {
      if running.None? then NoCore
      else if running.value.enabled && !service.state.torrent.enabled then RuleLeft
      else UpToDate
    }

    ghost function ActivePlugin(): Option<SyncPlugin>
      reads service.state
    {
      var s := service.state;
      if s.hasActive then Some(SyncPlugin(s.pluginUUID, s.pluginName, s.configHash, Some(s.active))) else None
    }

    ghost function Now(): Course
      reads this, service.state, service.nft
    {
      Course(ActivePlugin(), CoreFate(),
             if service.state.hasActive && service.nft.available then service.nft.filters else NO_FILTERS)
    }

    method ServeSync(plugin: Option<SyncPlugin>) returns (accepted: bool, core: CoreAction)
      requires Good()
      modifies this, service.state, service.nft
      ensures Good() && Now() == AfterSync(old(Now()), plugin, Served(Sync(plugin), accepted, core, 0), World())
      ensures !accepted ==> service.state.Current() == FRESH
      ensures running == if core.StopCore? || old(running).None? then None
                         else if core.RemoveRule? then Some(old(running).value.(enabled := false))
                         else old(running)
      ensures service.nft.health == old(service.nft.health)
      ensures service.nft.health.Works? && Passes(plugin, World()) ==>
                (plugin.None? ==> old(service.state.hasActive)) ==> accepted
      ensures service.nft.health.Broken? && service.nft.available ==>
                (plugin.Some? ==> !old(service.SameHash(plugin.value))) ==> !accepted
      ensures !accepted && Passes(plugin, World()) ==> core == LeaveCore
    {
      hide WhitelistOf, PreStartOf, FiltersOf, TorrentOf, PluginSync.TagKey;
      accepted, core := service.HandleSync(plugin);
      if core.StopCore? {
        running := None;
      } else if core.RemoveRule? && running.Some? {
        running := Some(running.value.(enabled := false));
      }
    }

    method Serve(e: Event) returns (accepted: bool, ghost served: Served)
      requires Good()
      modifies this, service.state, service.nft
      ensures Good() && Proper(served) && served.event == e && served.accepted == accepted
      ensures e.Sync? && !accepted ==> service.state.Current() == FRESH
      // a core is started with the settings there are, and a stopped node has neither core nor settings
      ensures e.StartCore? ==> running == if service.hasCore then Some(service.state.torrent) else old(running)
      ensures e.StopNode? ==> running == None && !service.state.hasActive && !service.state.torrent.enabled
      ensures !e.Sync? && !e.StopNode? ==> service.state.Current() == old(service.state.Current())
      ensures !e.Sync? && !e.StopNode? && !e.StartCore? ==> running == old(running)
      ensures Now() == Next(old(Now()), served, World())
    {
      hide Service.Settled, FiltersOf, SettingsOf, ActionFor, AfterSync;
      var core := LeaveCore;
      ghost var done: nat := 0;
      match e {
        case Sync(plugin) =>
          accepted, core := ServeSync(plugin);
        case StopNode =>
          var _ := service.ResetPlugins();
          running := None;
          accepted := true;
        case StartCore =>
          accepted := service.hasCore;
          if accepted {
            running := Some(service.state.torrent);
            SameOptions(service.hash, service.state.torrent);
          }
        case Recreate =>
          accepted := service.HandleRecreateTables();
        case Block(items) =>
          accepted := service.HandleBlockIPs(items);
        case Unblock(ips) =>
          accepted, done := service.HandleUnblockIPs(ips);
        case Weather(health) =>
          service.nft.health := health;
          accepted := true;
      }
      served := Served(e, accepted, core, done);
    }

    lemma SameOptions(hash: string -> string, t: Torrent)
      ensures ActionFor(hash, t, t) == LeaveCore
    {
    }

    /** Any run of events: its course follows from the events and their answers alone.  So while a
        plugin is active the filter sets are those of its config less what was emptied or unblocked
        since; and a running core has a blocker's rule that the settings do not have exactly when,
        since it was last started or touched, a sync was refused, not for its content, while the
        blocker was on.  After a refused sync nothing counts as unchanged. */
    method Run(events: seq<Event>) returns (ghost log: seq<Served>, ghost refused: bool)
      requires Good()
      modifies this, service.state, service.nft
      ensures Good() && |log| == |events|
      ensures forall i | 0 <= i < |log| :: log[i].event == events[i] && Proper(log[i])
      ensures Now() == After(old(Now()), log, World())
      ensures refused <==> log != [] && log[|log| - 1].event.Sync? && !log[|log| - 1].accepted
      ensures refused ==> service.state.Current() == FRESH && forall p :: !service.Unchanged(p)
    {
      hide Service.Settled, Next;
      log, refused := [], false;
      for i := 0 to |events|
        invariant Good() && |log| == i
        invariant forall j | 0 <= j < i :: log[j].event == events[j] && Proper(log[j])
        invariant Now() == After(old(Now()), log, World())
        invariant refused <==> log != [] && log[i - 1].event.Sync? && !log[i - 1].accepted
        invariant refused ==> service.state.Current() == FRESH
      {
        var accepted, served := Serve(events[i]);
        ghost var next := log + [served];
        assert next[..i] == log && next[i] == served;
        log := next;
        refused := events[i].Sync? && !accepted;
      }
    }
  }

  // ---------------------------------------------------------------- when a rule is left behind

  /** An event that starts or stops the core or takes the rule out of it. */
  predicate Touches(e: Served) {
    e.event.StopNode? || (e.event.StartCore? && e.accepted) || (e.event.Sync? && !e.action.LeaveCore?)
  }

  /** A sync or clear that leaves the core alone and is refused, not for its content, while the
      blocker is on. */
  predicate Drops(c: Course, e: Served, w: Surroundings) {
    && e.event.Sync? && e.action.LeaveCore? && !e.accepted && Passes(e.event.plugin, w)
    && c.fate.UpToDate? && BlockerOn(c, w)
  }

  /** Event `i` leaves the rule behind and no later one touches the core. */
  predicate LeftAt(c: Course, log: seq<Served>, w: Surroundings, i: nat)
    requires forall e <- log :: Proper(e)
  {
    && i < |log| && Drops(After(c, log[..i], w), log[i], w)
    && forall j | i < j < |log| :: !Touches(log[j])
  }

  /** A core is left with the rule of a blocker that is off exactly when the last thing that concerns it
      is a sync or clear that was refused, not for its content, while the blocker was on. */
  lemma {:induction false} RuleLeftIff(c: Course, log: seq<Served>, w: Surroundings)
    requires forall e <- log :: Proper(e)
    ensures After(c, log, w).fate == RuleLeft
       <==> (c.fate == RuleLeft && forall e <- log :: !Touches(e)) || exists i: nat :: LeftAt(c, log, w, i)
  {
    if log == [] {
    } else {
      hide After, Drops, Touches;
      var n := |log| - 1;
      var init, last := log[..n], log[n];
      assert log == init + [last] && last in log;
      RuleLeftIff(c, init, w);
      RuleNext(After(c, init, w), last, w);
      assert After(c, log, w) == Next(After(c, init, w), last, w) by { AfterNext(c, log, w); }
      forall i: nat ensures LeftAt(c, log, w, i)
        <==> if i == n then Drops(After(c, init, w), last, w) else LeftAt(c, init, w, i) && !Touches(last)
      {
        LeftNext(c, log, w, i);
      }
      assert LeftAt(c, log, w, n) <==> Drops(After(c, init, w), last, w);
    }
  }

  lemma AfterNext(c: Course, log: seq<Served>, w: Surroundings)
    requires log != [] && forall e <- log :: Proper(e)
    ensures log[|log| - 1] in log && After(c, log, w) == Next(After(c, log[..|log| - 1], w), log[|log| - 1], w)
  {
  }

  lemma RuleNext(c: Course, e: Served, w: Surroundings)
    requires Proper(e)
    ensures Next(c, e, w).fate == RuleLeft <==> (c.fate == RuleLeft && !Touches(e)) || Drops(c, e, w)
  {
  }

  lemma LeftNext(c: Course, log: seq<Served>, w: Surroundings, i: nat)
    requires log != [] && forall e <- log :: Proper(e)
    ensures var n := |log| - 1;
            LeftAt(c, log, w, i) <==> if i == n then Drops(After(c, log[..n], w), log[n], w)
                                      else LeftAt(c, log[..n], w, i) && !Touches(log[n])
  {
    hide After, Drops, Touches;
    var n := |log| - 1;
    if i < n {
      assert log[..n][..i] == log[..i];
      assert forall j | 0 <= j < n :: log[..n][j] == log[j];
    }
  }

  // ---------------------------------------------------------------- at an input

  const BLOCKING: Fields := map["torrentBlocker" := JObj(map["enabled" := JBool(true)])]

  const FILTERING: Fields := map["ingressFilter" :=
    JObj(map["enabled" := JBool(true), "blockedIps" := JArr([JStr("192.0.2.1")])])]

  /** Every list is one IPv4 prefix. */
  function OnePrefix(ips: seq<string>): (set<Prefix>, set<Prefix>) {
    ({"192.0.2.1/32"}, {})
  }

  /** A node whose scripts work, where every config is valid. */
  method NewNode() returns (node: Node)
    ensures fresh(node) && fresh(node.service) && fresh(node.service.state) && fresh(node.service.nft)
    ensures node.Good() && node.running == None && node.service.hasCore && node.service.state.Current() == FRESH
    ensures node.service.nft.available && node.service.nft.health.Works? && node.service.state.asn == None
    ensures node.service.nft.normalize == OnePrefix && forall cfg :: node.service.valid(cfg)
  {
    var state := new State(None);
    var nft := new NftManager(true, OnePrefix, Addressing(ip => Some(true), ip => ip + "/32"));
    nft.health := Works;
    var service := new Service(state, nft, true, cfg => true, text => "#" + text);
    node := new Node(service);
  }

  /** A node with a running core and a blocker, where every script is going to fail. */
  method BlockingNode(cfg: Fields) returns (node: Node)
    requires TorrentOf(cfg, None).enabled
    ensures fresh(node) && fresh(node.service) && fresh(node.service.state) && fresh(node.service.nft)
    ensures node.Good() && node.CoreFate() == UpToDate && node.service.hasCore && node.service.state.torrent.enabled
    ensures node.service.state.hasActive && node.service.state.configHash == "h"
    ensures node.service.nft.available && node.service.nft.health.Broken? && forall c :: node.service.valid(c)
  {
    hide TorrentOf, FiltersOf, WhitelistOf, PreStartOf, Service.Settled, OnePrefix;
    node := NewNode();
    var synced, _ := node.service.HandleSync(Some(SyncPlugin("u", "n", "h", Some(cfg))));
    node.running := Some(node.service.state.torrent);
    node.SameOptions(node.service.hash, node.service.state.torrent);
    node.service.nft.health := Broken;
  }

  /** A clear that fails at nft leaves a running core with the rule of a blocker that is off. */
  method ClearLeavesRule() returns (node: Node, accepted: bool)
    ensures fresh(node) && !accepted && !node.service.state.torrent.enabled && node.CoreFate() == RuleLeft
  {
    hide TorrentOf, FiltersOf, WhitelistOf, PreStartOf;
    assert TorrentOf(BLOCKING, None).enabled by { BlockingBlocks(None); }
    node := BlockingNode(BLOCKING);
    var core: CoreAction;
    accepted, core := node.ServeSync(None);
  }

  /** So does a sync of another valid config that fails at nft. */
  method SyncLeavesRule(cfg: Fields) returns (node: Node, accepted: bool)
    ensures fresh(node) && !accepted && !node.service.state.torrent.enabled && node.CoreFate() == RuleLeft
  {
    hide TorrentOf, FiltersOf, WhitelistOf, PreStartOf;
    assert TorrentOf(BLOCKING, None).enabled by { BlockingBlocks(None); }
    node := BlockingNode(BLOCKING);
    var core: CoreAction;
    accepted, core := node.ServeSync(Some(SyncPlugin("u", "n", "g", Some(cfg))));
  }

  /** Recreating the tables empties the sets of an active plugin, and a sync of the same config is
      accepted without filling them. */
  method RecreateThenSame(node: Node, p: SyncPlugin) returns (recreated: bool, accepted: bool)
    requires node.Good() && node.service.Unchanged(p)
    modifies node, node.service.state, node.service.nft
    ensures node.Good() && accepted && node.service.state.Current() == old(node.service.state.Current())
    ensures recreated ==> node.service.nft.filters == NO_FILTERS && node.service.Asked() == old(node.service.Asked())
    ensures node.service.nft.available && old(node.service.nft.health).Works? ==> recreated
    ensures recreated ==> (node.service.InPlace() <==> old(node.service.Asked()) == NO_FILTERS)
  {
    recreated := node.service.HandleRecreateTables();
    var core: CoreAction;
    accepted, core := node.service.HandleSync(Some(p));
  }

  /** An active ingress filter is lost that way. */
  method RecreateLosesFilter() returns (node: Node, accepted: bool)
    ensures fresh(node) && accepted && node.service.state.hasActive && !node.service.InPlace()
    ensures node.service.nft.filters == NO_FILTERS && node.service.Asked().ingress4 == {"192.0.2.1/32"}
  {
    hide FiltersOf, WhitelistOf, TorrentOf, PreStartOf, OnePrefix;
    assert FiltersOf(FILTERING, None, OnePrefix).ingress4 == {"192.0.2.1/32"} by { FilteringFilters(None); }
    node := NewNode();
    var p := SyncPlugin("u", "n", "h", Some(FILTERING));
    var core: CoreAction;
    accepted, core := node.service.HandleSync(Some(p));
    var recreated: bool;
    recreated, accepted := RecreateThenSame(node, p);
  }

  lemma FilteringFilters(asn: Resolver)
    ensures FiltersOf(FILTERING, asn, OnePrefix).ingress4 == {"192.0.2.1/32"}
  {
    assert Get(Section(FILTERING, "ingressFilter"), "enabled") == JBool(true);
  }

  lemma BlockingBlocks(asn: Resolver)
    ensures TorrentOf(BLOCKING, asn).enabled
  {
    assert Section(BLOCKING, "torrentBlocker") == map["enabled" := JBool(true)];
  }

  // ---------------------------------------------------------------- two models of one decision

  /** The options as the lifecycle model sees them. */
  function Seen(hash: string -> string, t: Torrent): L.TorrentOptions {
    L.TorrentOptions(t.enabled, PluginSync.TagKey(hash, t.includeRuleTags), t.rulePlacement)
  }

  /** The lifecycle model's decision is the service's: the core is left alone or not for the same
      options, the rule is removed hot for the same ones, and a config without a blocker gives the
      options the lifecycle model calls disabled. */
  lemma DecisionsAgree(hash: string -> string, was: Torrent, now: Torrent, cfg: Fields, asn: Resolver)
    requires forall x :: hash(x) != ""
    ensures L.NeedsRestart(Seen(hash, was), Seen(hash, now)) <==> ActionFor(hash, was, now) != LeaveCore
    ensures was.enabled && !now.enabled && Seen(hash, now).tagKey == "" <==> ActionFor(hash, was, now) == RemoveRule
    ensures L.Configured(Seen(hash, TorrentOf(cfg, asn))) == Seen(hash, TorrentOf(cfg, asn))
    ensures Seen(hash, NO_TORRENT) == L.DISABLED
  {
  }
}
