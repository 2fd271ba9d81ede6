/** What every step of the lifecycle keeps: who owns which lock, which child may be alive, which torrent
    options are in use, and what the boot file may hold. */
module LifecycleInvariants {
  import opened Lifecycle
  import opened Wrappers

  // ---------------------------------------------------------------- locks

  predicate HoldsLife(pc: Pc) {
    || (pc.InStart? && pc.start != Enter)
    || (pc.InStop? && pc.stop != StopEnter)
  }

  predicate HoldsMu(pc: Pc) {
    || (pc.InStart? && pc.start.Launch? &&
        (pc.start.launch.WaitOld? || pc.start.launch.Publish? || pc.start.launch.WaitNew?))
    || (pc.InStop? && pc.stop.StopWait?)
  }

  predicate HoldsSync(pc: Pc) {
    || (pc.InSync? && !pc.sync.SyncEnter?)
    || (pc.InStop? && pc.bySync)
  }

  predicate Processing(pc: Pc) {
    pc.InStart? && pc.start != Enter && pc.start != Check && !pc.start.Unlock?
  }

  /** The locks agree with where thread `t` is. */
  predicate Owns(s: Shared, t: Tid, pc: Pc) {
    && (HoldsLife(pc) <==> s.locks.life == Some(t))
    && (HoldsMu(pc) <==> s.locks.mu == Some(t))
    && (s.settings.serialSyncs ==> (HoldsSync(pc) <==> s.locks.syncing == Some(t)))
    && (HoldsLife(pc) ==> (s.core.startProcessing <==> Processing(pc)))
    && (s.locks.life.None? ==> !s.core.startProcessing)
  }

  /** Every lock has exactly the owner that the program counters say it has, and
      `startProcessing` is set exactly while the owner of `lifecycleMu` is inside a Start. */
  ghost predicate LocksOwned(s: State) {
    && (forall t: Tid :: t in s.threads ==> Owns(s.shared, t, s.threads[t]))
    && (s.shared.locks.life.Some? ==> s.shared.locks.life.value in s.threads)
    && (s.shared.locks.mu.Some? ==> s.shared.locks.mu.value in s.threads)
    && (s.shared.settings.serialSyncs && s.shared.locks.syncing.Some? ==>
          s.shared.locks.syncing.value in s.threads)
    && (s.shared.locks.life.None? ==> !s.shared.core.startProcessing)
  }

  predicate OneLockMove(before: Option<Tid>, after: Option<Tid>, t: Tid) {
    before == after || ((before.None? || before == Some(t)) && (after.None? || after == Some(t)))
  }

  /** A step of thread `t` touches no lock of another thread. */
  predicate LocksMove(s: Shared, t: Tid, s': Shared) {
    && OneLockMove(s.locks.life, s'.locks.life, t)
    && OneLockMove(s.locks.mu, s'.locks.mu, t)
    && s.settings == s'.settings
    && (s.settings.serialSyncs ==> OneLockMove(s.locks.syncing, s'.locks.syncing, t))
    && (s'.locks.life.None? ==> !s'.core.startProcessing)
    && (s'.locks.life.Some? && s'.locks.life != Some(t) ==> s'.core.startProcessing == s.core.startProcessing)
  }

  lemma LaunchMoves(s: Shared, t: Tid, req: StartRequest, n: nat, o: TorrentOptions, at: LaunchAt, ok: bool)
    requires Owns(s, t, InStart(req, n, Launch(o, at))) && LaunchStep(s, t, req, n, o, at, ok).To?
    ensures var m := LaunchStep(s, t, req, n, o, at, ok); LocksMove(s, t, m.shared) && Owns(m.shared, t, m.pc)
  {
  }

  lemma StartMoves(s: Shared, t: Tid, req: StartRequest, n: nat, at: StartAt, ok: bool)
    requires Owns(s, t, InStart(req, n, at)) && StartStep(s, t, req, n, at, ok).To?
    ensures var m := StartStep(s, t, req, n, at, ok); LocksMove(s, t, m.shared) && Owns(m.shared, t, m.pc)
  {
    if at.Launch? { LaunchMoves(s, t, req, n, at.opts, at.launch, ok); }
  }

  lemma StopMoves(s: Shared, t: Tid, clear: bool, sync: bool, at: StopAt, ok: bool)
    requires Owns(s, t, InStop(clear, sync, at)) && StopStep(s, t, clear, sync, at, ok).To?
    ensures var m := StopStep(s, t, clear, sync, at, ok); LocksMove(s, t, m.shared) && Owns(m.shared, t, m.pc)
  {
  }

  lemma SyncMoves(s: Shared, t: Tid, at: SyncAt, ok: bool)
    requires Owns(s, t, InSync(at)) && SyncStep(s, t, at, ok).To?
    ensures var m := SyncStep(s, t, at, ok); LocksMove(s, t, m.shared) && Owns(m.shared, t, m.pc)
  {
  }

  lemma MoveKeepsLocks(s: State, t: Tid, s': Shared, pc: Pc)
    requires LocksOwned(s) && LocksMove(s.shared, t, s') && Owns(s', t, pc)
    ensures LocksOwned(State(s.threads[t := pc], s'))
  {
    forall u: Tid | u in s.threads && u != t ensures Owns(s', u, s.threads[u]) {
      assert Owns(s.shared, u, s.threads[u]);
    }
  }

  lemma ThreadMoves(s: Shared, t: Tid, pc: Pc, ok: bool)
    requires Owns(s, t, pc) && ThreadStep(s, t, pc, ok).To?
    ensures var m := ThreadStep(s, t, pc, ok); LocksMove(s, t, m.shared) && Owns(m.shared, t, m.pc)
  {
    match pc
    case InStart(r, n, at) => StartMoves(s, t, r, n, at, ok);
    case InStop(clear, sync, at) => StopMoves(s, t, clear, sync, at, ok);
    case InSync(at) => SyncMoves(s, t, at, ok);
    case _ =>
  }

  // ---------------------------------------------------------------- children

  /** The thread inside `lifecycleMu`, and the thread inside a plugin sync. */
  function Owner(s: State, lock: Option<Tid>): Pc {
    if lock.Some? && lock.value in s.threads then s.threads[lock.value] else Done
  }

  function Inside(s: State): Pc {
    Owner(s, s.shared.locks.life)
  }

  function SyncPc(s: State): Pc {
    Owner(s, s.shared.locks.syncing)
  }

  /** Who is inside a lock after a thread went from `pc` to `pc'`, if `h` was inside before. */
  function After(held: bool, holds: bool, pc': Pc, h: Pc): Pc {
    if holds then pc' else if held then Done else h
  }

  predicate Publishing(h: Pc, c: nat) {
    h.InStart? && h.start.Launch? && h.start.launch == Publish(c)
  }

  /** What the thread inside `lifecycleMu` knows about the child it stops or starts. */
  predicate ChildKnown(s: Shared, h: Pc) {
    match h
    case InStart(_, _, Launch(_, WaitOld(c, _))) => s.core.process == Some(c)
    case InStart(_, _, Launch(_, WaitNew(c, _))) => s.core.process == Some(c)
    case InStart(_, _, Launch(_, Spawn)) => s.core.process.None?
    case InStart(_, _, Launch(_, Publish(c))) =>
      s.core.process.None? && c < |s.children| && !s.children[c].monitor.Finished?
    case InStop(_, _, StopWait(c, _)) => s.core.process == Some(c)
    case _ => true
  }

  /** At most one child is alive, and it is the one the manager knows or is about to record. */
  ghost predicate ChildrenOk(s: Shared, h: Pc) {
    && (forall c: nat :: c < |s.children| && s.children[c].alive ==>
          s.children[c].monitor.Waiting? && (s.core.process == Some(c) || Publishing(h, c)))
    && (s.core.process.Some? ==>
          s.core.process.value < |s.children| && !s.children[s.core.process.value].monitor.Finished?)
    && ChildKnown(s, h)
    && (HoldsMu(h) ==> s.locks.mu.Some?)
  }

  lemma LaunchKeepsChildren(s: Shared, t: Tid, req: StartRequest, n: nat, o: TorrentOptions, at: LaunchAt, ok: bool)
    requires Owns(s, t, InStart(req, n, Launch(o, at))) && LaunchStep(s, t, req, n, o, at, ok).To?
    requires ChildrenOk(s, InStart(req, n, Launch(o, at)))
    ensures var m := LaunchStep(s, t, req, n, o, at, ok); ChildrenOk(m.shared, m.pc)
  {
  }

  lemma StartFrame(s: Shared, t: Tid, req: StartRequest, n: nat, at: StartAt, ok: bool)
    requires StartStep(s, t, req, n, at, ok).To? && !at.Launch?
    ensures var m := StartStep(s, t, req, n, at, ok);
            && m.shared.children == s.children && m.shared.core.process == s.core.process
            && m.shared.locks.mu == s.locks.mu
            && (m.pc.InStart? && m.pc.start.Launch? ==> m.pc.start.launch.StopOld?)
  {
  }

  lemma StartKeepsChildren(s: Shared, t: Tid, req: StartRequest, n: nat, at: StartAt, ok: bool, h: Pc)
    requires Owns(s, t, InStart(req, n, at)) && StartStep(s, t, req, n, at, ok).To?
    requires if at != Enter then h == InStart(req, n, at) else s.locks.life.None? ==> h == Done
    requires ChildrenOk(s, h)
    ensures var m := StartStep(s, t, req, n, at, ok);
            ChildrenOk(m.shared, After(at != Enter, HoldsLife(m.pc), m.pc, h))
  {
    if at.Launch? {
      LaunchKeepsChildren(s, t, req, n, at.opts, at.launch, ok);
    } else {
      hide StartStep;
      StartFrame(s, t, req, n, at, ok);
    }
  }

  lemma StopKeepsChildren(s: Shared, t: Tid, clear: bool, sync: bool, at: StopAt, ok: bool, h: Pc)
    requires Owns(s, t, InStop(clear, sync, at)) && StopStep(s, t, clear, sync, at, ok).To?
    requires if at != StopEnter then h == InStop(clear, sync, at) else s.locks.life.None? ==> h == Done
    requires ChildrenOk(s, h)
    ensures var m := StopStep(s, t, clear, sync, at, ok);
            ChildrenOk(m.shared, After(at != StopEnter, HoldsLife(m.pc), m.pc, h))
  {
  }

  // ---------------------------------------------------------------- torrent options

  /** A plugin sync that has published new options and is bound to stop whatever runs the old
      ones. */
  predicate Covering(now: TorrentOptions, y: Pc) {
    match y
    case InSync(Nft(prev)) => NeedsRestart(prev, now)
    case InSync(Decide(prev, decided)) => NeedsRestart(prev, decided)
    case InSync(CheckOnline) => true
    case InStop(_, true, at) => !at.Remove? && !at.StopUnlock?
    case _ => false
  }

  /** The options a Start has read so far are those of the plugin state. */
  predicate Agrees(t: TorrentOptions, h: Pc) {
    match h
    case InStart(_, _, ReadTags(e)) => e == t.enabled
    case InStart(_, _, ReadPlacement(e, k)) => e == t.enabled && k == t.tagKey
    case InStart(_, _, ReadOnline(o)) => o == t
    case InStart(_, _, Ping(o)) => o == t
    case InStart(_, _, Compare(o)) => o == t
    case InStart(_, _, Adopt(o)) => o == t
    case InStart(_, _, Offline(o)) => o == t
    case InStart(_, _, Prepare(o)) => o == t
    case InStart(_, _, Launch(o, _)) => o == t
    case _ => true
  }

  predicate Launching(h: Pc) {
    h.InStart? && h.start.Launch? && h.start.launch != StopOld
  }

  /** A live child that no stop has given up on. */
  predicate Running(c: Child) {
    c.alive && !c.abandoned
  }

  /** What keeps a core from being left with a blocker's rule when the blocker goes off. */
  predicate Calm(settings: Settings) {
    settings.nftWorks && settings.removalApart
  }

  predicate HasUnserved(children: seq<Child>) {
    exists c :: c in children && Running(c) && c.served.None?
  }

  predicate AllServed(children: seq<Child>, t: TorrentOptions) {
    forall c <- children :: Running(c) && c.served.Some? ==> c.served.value == t
  }

  /** Giving up on a child, taking a rule out, and a step of a child. */
  lemma AbandonServed(s: Shared, c: nat, t: TorrentOptions)
    ensures AllServed(s.children, t) ==> AllServed(Abandon(s, c).children, t)
    ensures HasUnserved(Abandon(s, c).children) ==> HasUnserved(s.children)
  {
    var after := Abandon(s, c).children;
    forall x | x in after && Running(x) ensures x in s.children {
      var i :| 0 <= i < |after| && after[i] == x;
      assert s.children[i] in s.children;
    }
  }

  lemma RemovedServed(s: Shared)
    ensures AllServed(RuleRemoved(s).children, DISABLED)
    ensures HasUnserved(RuleRemoved(s).children) ==> HasUnserved(s.children)
  {
    var after := RuleRemoved(s).children;
    forall x | x in after && Running(x)
      ensures x.served.Some? ==> x.served.value == DISABLED
      ensures x.served.None? ==> x in s.children
    {
      var i :| 0 <= i < |after| && after[i] == x;
      assert s.children[i] in s.children;
    }
  }

  lemma ChildServed(s: Shared, c: nat, step: ChildStep, t: TorrentOptions)
    requires ChildMove(s, c, step).Some?
    ensures var after := ChildMove(s, c, step).value.children;
            && (AllServed(s.children, t) && (HasUnserved(s.children) ==> s.core.config == Some(t)) ==>
                  AllServed(after, t))
            && (HasUnserved(after) ==> HasUnserved(s.children))
  {
    var after := ChildMove(s, c, step).value.children;
    var child, child' := s.children[c], after[c];
    assert after == s.children[c := child'] && child in s.children;
    assert child'.served == child.served || (child.served.None? && child'.served == s.core.config);
    assert Running(child') ==> Running(child);
    forall d | d in after ensures d in s.children || d == child' { }
  }

  lemma SpawnServed(children: seq<Child>, t: TorrentOptions)
    ensures AllServed(children + [Child(true, Waiting, None, false)], t) <==> AllServed(children, t)
  {
    var after := children + [Child(true, Waiting, None, false)];
    assert forall x :: x in children ==> x in after;
  }

  ghost predicate TorrentOk(s: Shared, h: Pc, y: Pc) {
    && s.settings.serialSyncs
    && (!s.torrent.enabled ==> s.torrent == DISABLED)
    && (y.InSync? && y.sync.Apply? ==> y.sync.prev == s.torrent)
    && (y.InSync? && y.sync.Decide? ==> y.sync.now == s.torrent)
    && (y.InStop? ==> !y.clearPersist)
    && (Launching(h) ==> s.core.config == Some(h.start.opts))
    && (HasUnserved(s.children) ==> Launching(h))
    && ((s.torrent.enabled || Calm(s.settings)) && !Covering(s.torrent, y) ==>
          Agrees(s.torrent, h) && AllServed(s.children, s.torrent))
  }

  lemma WaitKeepsTorrent(s: Shared, t: Tid, req: StartRequest, n: nat, o: TorrentOptions, at: LaunchAt, ok: bool,
                           y: Pc)
    requires Owns(s, t, InStart(req, n, Launch(o, at))) && LaunchStep(s, t, req, n, o, at, ok).To?
    requires ChildrenOk(s, InStart(req, n, Launch(o, at)))
    requires TorrentOk(s, InStart(req, n, Launch(o, at)), y)
    requires at.WaitOld? || at.WaitNew?
    ensures var m := LaunchStep(s, t, req, n, o, at, ok); TorrentOk(m.shared, m.pc, y)
  {
  }

  lemma SpawnKeepsTorrent(s: Shared, t: Tid, req: StartRequest, n: nat, o: TorrentOptions, at: LaunchAt, ok: bool,
                           y: Pc)
    requires Owns(s, t, InStart(req, n, Launch(o, at))) && LaunchStep(s, t, req, n, o, at, ok).To?
    requires ChildrenOk(s, InStart(req, n, Launch(o, at)))
    requires TorrentOk(s, InStart(req, n, Launch(o, at)), y)
    requires !at.WaitOld? && !at.WaitNew?
    ensures var m := LaunchStep(s, t, req, n, o, at, ok); TorrentOk(m.shared, m.pc, y)
  {
  }

  lemma LaunchKeepsTorrent(s: Shared, t: Tid, req: StartRequest, n: nat, o: TorrentOptions, at: LaunchAt, ok: bool,
                           y: Pc)
    requires Owns(s, t, InStart(req, n, Launch(o, at))) && LaunchStep(s, t, req, n, o, at, ok).To?
    requires ChildrenOk(s, InStart(req, n, Launch(o, at)))
    requires TorrentOk(s, InStart(req, n, Launch(o, at)), y)
    ensures var m := LaunchStep(s, t, req, n, o, at, ok); TorrentOk(m.shared, m.pc, y)
  {
    hide TorrentOk, ChildrenOk, Owns, LaunchStep;
    if at.WaitOld? || at.WaitNew? { WaitKeepsTorrent(s, t, req, n, o, at, ok, y); }
    else { SpawnKeepsTorrent(s, t, req, n, o, at, ok, y); }
  }

  lemma StartKeepsTorrent(s: Shared, t: Tid, req: StartRequest, n: nat, at: StartAt, ok: bool, h: Pc, y: Pc)
    requires Owns(s, t, InStart(req, n, at)) && StartStep(s, t, req, n, at, ok).To?
    requires if at != Enter then h == InStart(req, n, at) else s.locks.life.None? ==> h == Done
    requires ChildrenOk(s, h) && TorrentOk(s, h, y)
    ensures var m := StartStep(s, t, req, n, at, ok);
            TorrentOk(m.shared, After(at != Enter, HoldsLife(m.pc), m.pc, h), y)
  {
    hide Covering, Serving, LaunchStep, AllServed, HasUnserved, ChildrenOk;
    if at.Launch? { LaunchKeepsTorrent(s, t, req, n, at.opts, at.launch, ok, y); }
  }

  /** Once a stop has let go of `mu`, no child runs. */
  lemma StopLeavesNone(s: Shared, clear: bool, sync: bool, at: StopAt, ok: bool, t: Tid, o: TorrentOptions)
    requires at.StopChild? || at.StopWait?
    requires ChildrenOk(s, InStop(clear, sync, at)) && StopStep(s, t, clear, sync, at, ok).To?
    ensures var m := StopStep(s, t, clear, sync, at, ok);
            m.pc.InStop? && (m.pc.stop.Remove? || m.pc.stop.StopUnlock?) ==>
              AllServed(m.shared.children, o) && !HasUnserved(m.shared.children)
  {
    var m := StopStep(s, t, clear, sync, at, ok);
    if m.pc.InStop? && (m.pc.stop.Remove? || m.pc.stop.StopUnlock?) {
      forall x | x in m.shared.children ensures !Running(x) {
        var c :| 0 <= c < |m.shared.children| && m.shared.children[c] == x;
      }
    }
  }

  lemma StopKeepsTorrent(s: Shared, t: Tid, clear: bool, sync: bool, at: StopAt, ok: bool, h: Pc, y: Pc)
    requires Owns(s, t, InStop(clear, sync, at)) && StopStep(s, t, clear, sync, at, ok).To?
    requires if at != StopEnter then h == InStop(clear, sync, at) else s.locks.life.None? ==> h == Done
    requires sync ==> y == InStop(clear, sync, at)
    requires ChildrenOk(s, h) && TorrentOk(s, h, y)
    ensures var m := StopStep(s, t, clear, sync, at, ok);
            TorrentOk(m.shared, After(at != StopEnter, HoldsLife(m.pc), m.pc, h), if sync then m.pc else y)
  {
    hide AllServed, HasUnserved, ChildrenOk, Ready, Abandon, SaveStep;
    if at.StopChild? || at.StopWait? {
      StopLeavesNone(s, clear, sync, at, ok, t, s.torrent);
      if at.StopWait? { AbandonServed(s, at.child, s.torrent); }
      StopKeepsOptions(s, t, clear, sync, at, ok);
    }
  }

  lemma StopKeepsOptions(s: Shared, t: Tid, clear: bool, sync: bool, at: StopAt, ok: bool)
    requires StopStep(s, t, clear, sync, at, ok).To?
    ensures StopStep(s, t, clear, sync, at, ok).shared.torrent == s.torrent
    ensures StopStep(s, t, clear, sync, at, ok).shared.settings == s.settings
  {
  }

  lemma SyncKeepsTorrent(s: Shared, t: Tid, at: SyncAt, ok: bool, h: Pc, y: Pc)
    requires Owns(s, t, InSync(at)) && SyncStep(s, t, at, ok).To?
    requires if !at.SyncEnter? then y == InSync(at) else s.locks.syncing.None? ==> y == Done
    requires s.core.startProcessing <==> Processing(h)
    requires ChildrenOk(s, h) && TorrentOk(s, h, y)
    ensures var m := SyncStep(s, t, at, ok);
            TorrentOk(m.shared, h, After(!at.SyncEnter?, HoldsSync(m.pc), m.pc, y))
  {
    hide AllServed, HasUnserved, ChildrenOk, Serving, RuleRemoved;
    if at.CheckOnline? && s.core.process.None? && !s.core.startProcessing { NoneAlive(s, h); }
    if at.Decide? {
      RemovedServed(s);
      RemovalFrame(s);
    }
  }

  lemma RemovalFrame(s: Shared)
    ensures RuleRemoved(s) == s.(children := RuleRemoved(s).children)
  {
  }

  /** Without a child that the manager knows or is about to, none is alive. */
  lemma NoneAlive(s: Shared, h: Pc)
    requires ChildrenOk(s, h) && s.core.process.None? && !Processing(h)
    ensures AllServed(s.children, s.torrent) && !HasUnserved(s.children)
  {
    forall x | x in s.children ensures !x.alive {
      var c :| 0 <= c < |s.children| && s.children[c] == x;
    }
  }

  // ---------------------------------------------------------------- boot file

  /** What the last decided Start or Stop(true) wants the boot file to denote. */
  function Latest(log: seq<Event>): Option<StartRequest> {
    if log == [] then None else
    match log[|log| - 1]
    case Started(r) => Meaning(r)
    case Cleared => None
    case DiskOk => Latest(log[..|log| - 1])
  }

  /** What the boot file may denote: the latest wish once its disk work completed, and anything
      wished since the last completed disk work until then. */
  ghost function Allowed(log: seq<Event>): set<Option<StartRequest>> {
    if log == [] then {None} else
    var before := log[..|log| - 1];
    match log[|log| - 1]
    case DiskOk => {Latest(before)}
    case _ => Allowed(before) + {Latest(log)}
  }

  predicate Settled(log: seq<Event>) {
    log == [] || log[|log| - 1].DiskOk?
  }

  lemma LogGrows(log: seq<Event>, e: Event)
    ensures Latest(log + [e]) == (match e case Started(r) => Meaning(r) case Cleared => None case DiskOk => Latest(log))
    ensures Allowed(log + [e]) == if e.DiskOk? then {Latest(log)} else Allowed(log) + {Latest(log + [e])}
  {
    assert (log + [e])[..|log|] == log;
  }

  lemma SettledIsExact(log: seq<Event>)
    requires Settled(log)
    ensures Allowed(log) == {Latest(log)}
  {
  }

  predicate SaveKnown(b: BootState, last: Option<StartRequest>, r: StartRequest, at: SaveAt) {
    last == Some(r) && (at.Rename? ==> b.disk.temp == Some(Full(r)))
  }

  /** What the thread inside `lifecycleMu` knows about its disk work. */
  predicate DiskKnown(b: BootState, last: Option<StartRequest>, h: Pc) {
    match h
    case InStart(r, _, Save(at)) => SaveKnown(b, last, r, at)
    case InStop(_, _, FlushSave(r, at)) => SaveKnown(b, last, r, at)
    case InStop(_, _, Remove) => Latest(b.log).None?
    case _ => true
  }

  ghost predicate PersistOk(b: BootState, last: Option<StartRequest>, h: Pc) {
    && (b.disk.target.Some? ==> b.disk.target.value.Full?)
    && Denotes(b.disk.target) in Allowed(b.log)
    && (last.Some? ==> Latest(b.log) == Meaning(last.value))
    && DiskKnown(b, last, h)
    && (!b.cut && !PendingDisk(h) ==> Settled(b.log))
  }

  /** One disk call of a save, from `h` to `h'`. */
  lemma SaveKeepsPersist(b: BootState, r: StartRequest, at: SaveAt, ok: bool, h: Pc, h': Pc)
    requires PersistOk(b, Some(r), h)
    requires (h.InStart? && h.start == Save(at) && h.req == r) || (h.InStop? && h.stop == FlushSave(r, at))
    requires if !ok || at.Rename? then !PendingDisk(h') && (forall b', last :: DiskKnown(b', last, h'))
             else if h.InStart? then h' == h.(start := Save(NextSave(at)))
             else h' == h.(stop := FlushSave(r, NextSave(at)))
    ensures PersistOk(SaveStep(b, r, at, ok), Some(r), h')
  {
    LogGrows(b.log, DiskOk);
    assert DiskKnown(b, Some(r), h);
  }

  lemma StartTouchesBoot(s: Shared, t: Tid, req: StartRequest, n: nat, at: StartAt, ok: bool)
    requires StartStep(s, t, req, n, at, ok).To? && !at.Persist? && !at.Save?
    ensures var m := StartStep(s, t, req, n, at, ok);
            && m.shared.boot == s.boot && m.shared.core.lastStart == s.core.lastStart
            && (m.pc.InStart? ==> !m.pc.start.Save?) && !m.pc.InStop?
  {
  }

  lemma StartKeepsPersist(s: Shared, t: Tid, req: StartRequest, n: nat, at: StartAt, ok: bool, h: Pc)
    requires StartStep(s, t, req, n, at, ok).To?
    requires if at != Enter then h == InStart(req, n, at) else s.locks.life.None? ==> h == Done
    requires PersistOk(s.boot, s.core.lastStart, h)
    ensures var m := StartStep(s, t, req, n, at, ok);
            PersistOk(m.shared.boot, m.shared.core.lastStart, After(at != Enter, HoldsLife(m.pc), m.pc, h))
  {
    match at
    case Persist => LogGrows(s.boot.log, Started(req));
    case Save(save) => SaveKeepsPersist(s.boot, req, save, ok, h, StartStep(s, t, req, n, at, ok).pc);
    case _ => StartTouchesBoot(s, t, req, n, at, ok);
  }

  lemma StopTouchesBoot(s: Shared, t: Tid, clear: bool, sync: bool, at: StopAt, ok: bool)
    requires StopStep(s, t, clear, sync, at, ok).To? && !at.FlushSave? && !at.Remove?
    ensures var m := StopStep(s, t, clear, sync, at, ok);
            || (&& m.shared.boot == s.boot && m.shared.core.lastStart == s.core.lastStart
                && !m.pc.InStart?
                && (m.pc.InStop? ==> !m.pc.stop.Remove?)
                && (m.pc.InStop? && m.pc.stop.FlushSave? ==>
                      m.pc.stop.flush == Truncate && s.core.lastStart == Some(m.pc.stop.request)))
            || (&& m.shared.boot == s.boot.(log := s.boot.log + [Cleared]) && m.shared.core.lastStart == None
                && m.pc == InStop(clear, sync, Remove))
  {
  }

  lemma RemoveKeepsPersist(b: BootState, last: Option<StartRequest>, ok: bool, h: Pc, h': Pc)
    requires PersistOk(b, last, h) && h.InStop? && h.stop.Remove?
    requires !PendingDisk(h') && (forall b', last :: DiskKnown(b', last, h'))
    ensures PersistOk(if ok then b.(disk := b.disk.(target := None), log := b.log + [DiskOk]) else b.(cut := true),
                      last, h')
  {
    LogGrows(b.log, DiskOk);
  }

  lemma ClearKeepsPersist(b: BootState, last: Option<StartRequest>, h: Pc, h': Pc)
    requires PersistOk(b, last, h) && h'.InStop? && h'.stop.Remove?
    ensures PersistOk(b.(log := b.log + [Cleared]), None, h')
  {
    LogGrows(b.log, Cleared);
  }

  lemma StopKeepsPersist(s: Shared, t: Tid, clear: bool, sync: bool, at: StopAt, ok: bool, h: Pc)
    requires StopStep(s, t, clear, sync, at, ok).To?
    requires if at != StopEnter then h == InStop(clear, sync, at) else s.locks.life.None? ==> h == Done
    requires PersistOk(s.boot, s.core.lastStart, h)
    ensures var m := StopStep(s, t, clear, sync, at, ok);
            PersistOk(m.shared.boot, m.shared.core.lastStart, After(at != StopEnter, HoldsLife(m.pc), m.pc, h))
  {
    var m := StopStep(s, t, clear, sync, at, ok);
    if at.FlushSave? {
      SaveKeepsPersist(s.boot, at.request, at.flush, ok, h, m.pc);
    } else if at.Remove? {
      RemoveKeepsPersist(s.boot, s.core.lastStart, ok, h, m.pc);
    } else {
      StopTouchesBoot(s, t, clear, sync, at, ok);
      if m.pc == InStop(clear, sync, Remove) { ClearKeepsPersist(s.boot, s.core.lastStart, h, m.pc); }
    }
  }

  // ---------------------------------------------------------------- every run

  ghost predicate Inv(s: State) {
    LocksOwned(s) && InvAt(s.shared, Inside(s), SyncPc(s))
  }

  /** Who is inside the locks after a move of thread `t`. */
  lemma InsideAfter(s: State, t: Tid, s': Shared, pc: Pc)
    requires LocksOwned(s) && t in s.threads && LocksMove(s.shared, t, s') && Owns(s', t, pc)
    ensures var was := s.threads[t]; var next := State(s.threads[t := pc], s');
            && Inside(next) == After(HoldsLife(was), HoldsLife(pc), pc, Inside(s))
            && (s.shared.settings.serialSyncs ==>
                  SyncPc(next) == After(HoldsSync(was), HoldsSync(pc), pc, SyncPc(s)))
            && (s.shared.core.startProcessing <==> Processing(Inside(s)))
  {
    assert Owns(s.shared, t, s.threads[t]);
    if s.shared.locks.life.Some? {
      assert Owns(s.shared, s.shared.locks.life.value, s.threads[s.shared.locks.life.value]);
    }
  }

  ghost predicate InvAt(s: Shared, h: Pc, y: Pc) {
    && ChildrenOk(s, h)
    && (s.settings.serialSyncs ==> TorrentOk(s, h, y))
    && PersistOk(s.boot, s.core.lastStart, h)
  }

  ghost predicate InvAfter(m: Move, pc: Pc, h: Pc, y: Pc)
    requires m.To?
  {
    InvAt(m.shared, After(HoldsLife(pc), HoldsLife(m.pc), m.pc, h), After(HoldsSync(pc), HoldsSync(m.pc), m.pc, y))
  }

  lemma StartStaysInStart(s: Shared, t: Tid, req: StartRequest, n: nat, at: StartAt, ok: bool)
    requires StartStep(s, t, req, n, at, ok).To?
    ensures var pc := StartStep(s, t, req, n, at, ok).pc; pc.InStart? || pc.BootRetry? || pc.Done?
  {
  }

  lemma StopStaysInStop(s: Shared, t: Tid, clear: bool, sync: bool, at: StopAt, ok: bool)
    requires StopStep(s, t, clear, sync, at, ok).To?
    ensures var pc := StopStep(s, t, clear, sync, at, ok).pc;
            if pc.InStop? then pc.bySync == sync else pc == if sync then InSync(SyncFinish) else Done
  {
  }

  /** The children differ in the options they run with only. */
  predicate SameButServed(a: seq<Child>, b: seq<Child>) {
    |a| == |b| && forall c | 0 <= c < |a| :: b[c] == a[c].(served := b[c].served)
  }

  lemma SyncTouches(s: Shared, t: Tid, at: SyncAt, ok: bool)
    requires SyncStep(s, t, at, ok).To?
    ensures var m := SyncStep(s, t, at, ok);
            && SameButServed(s.children, m.shared.children) && m.shared.core == s.core && m.shared.boot == s.boot
            && m.shared.locks.mu == s.locks.mu && m.shared.settings == s.settings && !HoldsLife(m.pc)
  {
  }

  lemma ChildrenFrame(s: Shared, s': Shared, h: Pc)
    requires ChildrenOk(s, h)
    requires SameButServed(s.children, s'.children) && s'.core == s.core && s'.locks.mu == s.locks.mu
    ensures ChildrenOk(s', h)
  {
  }

  lemma OthersTouch(s: Shared, t: Tid, pc: Pc, ok: bool)
    requires !pc.InStart? && !pc.InStop? && !pc.InSync? && ThreadStep(s, t, pc, ok).To?
    ensures var m := ThreadStep(s, t, pc, ok);
            && m.shared == s.(core := s.core.(online := m.shared.core.online))
            && !HoldsLife(m.pc) && !HoldsSync(m.pc)
  {
  }

  lemma StartsKeepInv(s: Shared, t: Tid, pc: Pc, ok: bool, h: Pc, y: Pc)
    requires pc.InStart? && Owns(s, t, pc) && ThreadStep(s, t, pc, ok).To? && InvAt(s, h, y)
    requires if HoldsLife(pc) then h == pc else s.locks.life.None? ==> h == Done
    requires s.settings.serialSyncs ==> if HoldsSync(pc) then y == pc else s.locks.syncing.None? ==> y == Done
    requires s.core.startProcessing <==> Processing(h)
    ensures InvAfter(ThreadStep(s, t, pc, ok), pc, h, y)
  {
    var InStart(r, n, at) := pc;
    StartKeepsChildren(s, t, r, n, at, ok, h);
    if s.settings.serialSyncs { StartKeepsTorrent(s, t, r, n, at, ok, h, y); }
    StartKeepsPersist(s, t, r, n, at, ok, h);
    StartMoves(s, t, r, n, at, ok);
    var m := StartStep(s, t, r, n, at, ok);
    assert !HoldsSync(m.pc) by { StartStaysInStart(s, t, r, n, at, ok); }
  }

  lemma StopsKeepInv(s: Shared, t: Tid, pc: Pc, ok: bool, h: Pc, y: Pc)
    requires pc.InStop? && Owns(s, t, pc) && ThreadStep(s, t, pc, ok).To? && InvAt(s, h, y)
    requires if HoldsLife(pc) then h == pc else s.locks.life.None? ==> h == Done
    requires s.settings.serialSyncs ==> if HoldsSync(pc) then y == pc else s.locks.syncing.None? ==> y == Done
    requires s.core.startProcessing <==> Processing(h)
    ensures InvAfter(ThreadStep(s, t, pc, ok), pc, h, y)
  {
    var InStop(clear, sync, at) := pc;
    StopKeepsChildren(s, t, clear, sync, at, ok, h);
    if s.settings.serialSyncs { StopKeepsTorrent(s, t, clear, sync, at, ok, h, y); }
    StopKeepsPersist(s, t, clear, sync, at, ok, h);
    StopMoves(s, t, clear, sync, at, ok);
    var m := StopStep(s, t, clear, sync, at, ok);
    assert HoldsSync(m.pc) == sync && m.shared.settings == s.settings by {
      StopStaysInStop(s, t, clear, sync, at, ok);
    }
  }

  lemma SyncsKeepInv(s: Shared, t: Tid, pc: Pc, ok: bool, h: Pc, y: Pc)
    requires pc.InSync? && Owns(s, t, pc) && ThreadStep(s, t, pc, ok).To? && InvAt(s, h, y)
    requires if HoldsLife(pc) then h == pc else s.locks.life.None? ==> h == Done
    requires s.settings.serialSyncs ==> if HoldsSync(pc) then y == pc else s.locks.syncing.None? ==> y == Done
    requires s.core.startProcessing <==> Processing(h)
    ensures InvAfter(ThreadStep(s, t, pc, ok), pc, h, y)
  {
    var InSync(at) := pc;
    if s.settings.serialSyncs { SyncKeepsTorrent(s, t, at, ok, h, y); }
    SyncTouches(s, t, at, ok);
    ChildrenFrame(s, SyncStep(s, t, at, ok).shared, h);
  }

  /** No invariant depends on `xrayOnline`, which Health sets from a ping made outside the locks. */
  lemma OnlineIsFree(s: Shared, online: bool, h: Pc, y: Pc)
    requires InvAt(s, h, y)
    ensures InvAt(s.(core := s.core.(online := online)), h, y)
  {
  }

  lemma OthersKeepInv(s: Shared, t: Tid, pc: Pc, ok: bool, h: Pc, y: Pc)
    requires !pc.InStart? && !pc.InStop? && !pc.InSync?
    requires Owns(s, t, pc) && ThreadStep(s, t, pc, ok).To? && InvAt(s, h, y)
    requires if HoldsLife(pc) then h == pc else s.locks.life.None? ==> h == Done
    requires s.settings.serialSyncs ==> if HoldsSync(pc) then y == pc else s.locks.syncing.None? ==> y == Done
    requires s.core.startProcessing <==> Processing(h)
    ensures InvAfter(ThreadStep(s, t, pc, ok), pc, h, y)
  {
    var m := ThreadStep(s, t, pc, ok);
    OthersTouch(s, t, pc, ok);
    OnlineIsFree(s, m.shared.core.online, h, y);
  }

  lemma ThreadKeepsInv(s: State, t: Tid, ok: bool)
    requires Inv(s) && t in s.threads && ThreadStep(s.shared, t, s.threads[t], ok).To?
    ensures var m := ThreadStep(s.shared, t, s.threads[t], ok); Inv(State(s.threads[t := m.pc], m.shared))
  {
    var pc := s.threads[t];
    var m := ThreadStep(s.shared, t, pc, ok);
    assert Owns(s.shared, t, pc);
    ThreadMoves(s.shared, t, pc, ok);
    MoveKeepsLocks(s, t, m.shared, m.pc);
    InsideAfter(s, t, m.shared, m.pc);
    match pc
    case InStart(_, _, _) => StartsKeepInv(s.shared, t, pc, ok, Inside(s), SyncPc(s));
    case InStop(_, _, _) => StopsKeepInv(s.shared, t, pc, ok, Inside(s), SyncPc(s));
    case InSync(_) => SyncsKeepInv(s.shared, t, pc, ok, Inside(s), SyncPc(s));
    case _ => OthersKeepInv(s.shared, t, pc, ok, Inside(s), SyncPc(s));
  }

  lemma ChildStepTouches(s: Shared, c: nat, step: ChildStep)
    requires ChildMove(s, c, step).Some?
    ensures var s' := ChildMove(s, c, step).value;
            && s'.boot == s.boot && s'.settings == s.settings && s'.locks == s.locks
            && s'.core.lastStart == s.core.lastStart && s'.core.startProcessing == s.core.startProcessing
  {
  }

  lemma ChildStepKeepsChildren(s: Shared, c: nat, step: ChildStep, h: Pc)
    requires ChildrenOk(s, h) && ChildMove(s, c, step).Some?
    ensures ChildrenOk(ChildMove(s, c, step).value, h)
  {
  }

  lemma ChildStepKeepsTorrent(s: Shared, c: nat, step: ChildStep, h: Pc, y: Pc)
    requires ChildrenOk(s, h) && TorrentOk(s, h, y) && ChildMove(s, c, step).Some?
    ensures TorrentOk(ChildMove(s, c, step).value, h, y)
  {
    hide AllServed, HasUnserved, ChildrenOk, Covering;
    ChildServed(s, c, step, s.torrent);
  }

  lemma ChildStepKeepsInv(s: Shared, c: nat, step: ChildStep, h: Pc, y: Pc)
    requires InvAt(s, h, y) && ChildMove(s, c, step).Some?
    ensures InvAt(ChildMove(s, c, step).value, h, y)
  {
    ChildStepKeepsChildren(s, c, step, h);
    if s.settings.serialSyncs { ChildStepKeepsTorrent(s, c, step, h, y); }
    ChildStepTouches(s, c, step);
  }

  lemma RebootKeepsInv(s: State)
    requires Inv(s)
    ensures Inv(Rebooted(s))
  {
  }

  lemma KeepsLocks(s: State, s': Shared)
    requires LocksOwned(s) && s'.locks == s.shared.locks && s'.settings == s.shared.settings
    requires s'.core.startProcessing == s.shared.core.startProcessing
    ensures LocksOwned(s.(shared := s'))
  {
    forall u: Tid | u in s.threads ensures Owns(s', u, s.threads[u]) { assert Owns(s.shared, u, s.threads[u]); }
  }

  lemma CallKeepsLocks(s: State, t: Tid, pc: Pc)
    requires LocksOwned(s) && t !in s.threads && Initial(pc)
    ensures LocksOwned(s.(threads := s.threads[t := pc]))
  {
    forall u: Tid | u in s.threads ensures Owns(s.shared, u, s.threads[u]) { }
  }

  lemma StepKeepsInv(s: State, step: Step)
    requires Inv(s) && Take(s, step).Some?
    ensures Inv(Take(s, step).value)
  {
    match step
    case Call(t, pc) =>
      CallKeepsLocks(s, t, pc);
    case Run(t, ok) => ThreadKeepsInv(s, t, ok);
    case OfChild(c, step) =>
      ChildStepKeepsInv(s.shared, c, step, Inside(s), SyncPc(s));
      ChildStepTouches(s.shared, c, step);
      KeepsLocks(s, ChildMove(s.shared, c, step).value);
    case Reboot => RebootKeepsInv(s);
  }
}
