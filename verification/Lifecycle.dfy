/** The rw-core lifecycle as a state machine.

    Any number of threads run `Start`, `Stop`, `RestoreOnBoot`, `Health` and plugin syncs; every
    child has a monitor goroutine; the machine can reboot between any two steps.  A step is what
    one thread does between two points where another thread can interfere: a critical section of
    `mu` is one step unless it waits or spawns inside, and every disk call is a step. */
module Lifecycle {
  import opened Wrappers

  type Tid = nat

  /** What `generateAPIConfig` takes from the plugin state.  `tagKey` stands for the value of
      `hashIncludeRuleTags` (see module `TagKeys`). */
  datatype TorrentOptions = TorrentOptions(enabled: bool, tagKey: string, placement: real)

  const DISABLED := TorrentOptions(false, "", 0.0)

  datatype StartRequest = StartRequest(forceRestart: bool, hashes: string, xrayConfig: seq<string>)

  datatype Content = Partial | Full(request: StartRequest)

  /** The boot file and its temporary sibling. */
  datatype Disk = Disk(target: Option<Content>, temp: Option<Content>)

  datatype MonitorAt = Waiting | Reaped | Sent | Finished

  /** One spawned rw-core.  `served` is the config it fetched from the internal socket;
      `abandoned` records that a stop of this child timed out. */
  datatype Child = Child(alive: bool, monitor: MonitorAt, served: Option<TorrentOptions>, abandoned: bool)

  datatype SaveAt = Truncate | Fill | Rename

  /** The part of `Start` that replaces the child. */
  datatype LaunchAt =
    | StopOld
    | WaitOld(child: nat, killed: bool)
    | Spawn
    | Publish(child: nat)
    | WaitGrpc
    | StopNew
    | WaitNew(child: nat, killed: bool)

  datatype StartAt =
    | Enter
    | Check
    | ReadEnabled
    | ReadTags(enabled: bool)
    | ReadPlacement(enabled: bool, tagKey: string)
    | ReadOnline(opts: TorrentOptions)
    | Ping(opts: TorrentOptions)
    | Compare(opts: TorrentOptions)
    | Adopt(opts: TorrentOptions)
    | Offline(opts: TorrentOptions)
    | Prepare(opts: TorrentOptions)
    | Launch(opts: TorrentOptions, launch: LaunchAt)
    | Online
    | Persist
    | Save(save: SaveAt)
    | Exit(started: bool)
    | Unlock(started: bool)

  datatype StopAt =
    | StopEnter
    | Flush
    | FlushSave(request: StartRequest, flush: SaveAt)
    | StopChild
    | StopWait(child: nat, killed: bool)
    | Remove
    | StopUnlock

  datatype HealthAt = HealthRead | HealthPing | HealthWrite(online: bool)

  datatype SyncKind = Update(opts: TorrentOptions) | Clear

  datatype SyncAt =
    | SyncEnter(kind: SyncKind)
    | Apply(kind: SyncKind, prev: TorrentOptions)
    | Nft(prev: TorrentOptions)
    | Decide(prev: TorrentOptions, now: TorrentOptions)
    | CheckOnline
    | SyncFinish

  /** Where a thread is.  `attempt` is 0 for a Start asked for by the panel and counts the tries
      of `RestoreOnBoot` otherwise. */
  datatype Pc =
    | InStart(req: StartRequest, attempt: nat, start: StartAt)
    | InStop(clearPersist: bool, bySync: bool, stop: StopAt)
    | InHealth(health: HealthAt)
    | InSync(sync: SyncAt)
    | BootLoad
    | BootRetry(req: StartRequest, attempt: nat)
    | Done

  /** What happened to the boot state: a Start succeeded, a Stop(true) ran, and a save or removal
      of the boot file completed. */
  datatype Event = Started(request: StartRequest) | Cleared | DiskOk

  datatype Locks = Locks(life: Option<Tid>, mu: Option<Tid>, syncing: Option<Tid>)

  /** The fields of `Manager` that change while it runs. */
  datatype Core = Core(
    process: Option<nat>,
    online: bool,
    startProcessing: bool,
    config: Option<TorrentOptions>,
    lastStart: Option<StartRequest>)

  /** The boot file, and what its content should go back to. */
  datatype BootState = BootState(disk: Disk, log: seq<Event>, cut: bool)

  /** What never changes: whether Start skips the hash check; and what the surroundings grant, as nothing
      in the node itself sees to it: whether the panel sends one plugin sync at a time, whether nft
      scripts never fail, and whether the blocker's rule is never taken out of a core while a Start is
      replacing it. */
  datatype Settings = Settings(disableHashCheck: bool, serialSyncs: bool, nftWorks: bool, removalApart: bool)

  /** Everything threads share. */
  datatype Shared = Shared(
    settings: Settings,
    locks: Locks,
    core: Core,
    children: seq<Child>,
    torrent: TorrentOptions,
    boot: BootState)

  datatype State = State(threads: map<Tid, Pc>, shared: Shared)

  function Fresh(settings: Settings, boot: BootState): State {
    State(map[], Shared(settings, Locks(None, None, None), Core(None, false, false, None, None), [],
                        DISABLED, boot))
  }

  function FirstBoot(settings: Settings): State {
    Fresh(settings, BootState(Disk(None, None), [], false))
  }

  // ---------------------------------------------------------------- steps

  const MAX_ATTEMPTS := 10

  /** A thread cannot move yet, or it moves on. */
  datatype Move = Blocked | To(shared: Shared, pc: Pc)

  function Life(s: Shared, owner: Option<Tid>): Shared {
    s.(locks := s.locks.(life := owner))
  }

  function Mu(s: Shared, owner: Option<Tid>): Shared {
    s.(locks := s.locks.(mu := owner))
  }

  function Syncing(s: Shared, owner: Option<Tid>): Shared {
    s.(locks := s.locks.(syncing := owner))
  }

  predicate Ready(s: Shared, c: nat) {
    c < |s.children| && (s.children[c].monitor.Sent? || s.children[c].monitor.Finished?)
  }

  /** A ping is answered only by a live child that has loaded its config. */
  ghost predicate Serving(s: Shared) {
    exists c: nat :: c < |s.children| && s.children[c].alive && s.children[c].served.Some?
  }

  /** The end of a successful `stopProcessLocked`. */
  function Stopped(c: Core, clearConfig: bool): Core {
    c.(process := Option.None, online := false, config := if clearConfig then Option.None else c.config)
  }

  function Abandon(s: Shared, c: nat): Shared {
    if c < |s.children| then s.(children := s.children[c := s.children[c].(abandoned := true)]) else s
  }

  /** One disk call of `savePersistedStart`; `ok` is the call's outcome. */
  function SaveStep(b: BootState, r: StartRequest, at: SaveAt, ok: bool): BootState {
    match at
    case Truncate => if ok then b.(disk := b.disk.(temp := Some(Partial))) else b.(cut := true)
    case Fill => if ok then b.(disk := b.disk.(temp := Some(Full(r)))) else b.(cut := true)
    case Rename =>
      if ok
      then b.(disk := Disk(b.disk.temp, None), log := b.log + [DiskOk])
      else b.(disk := b.disk.(temp := None), cut := true)
  }

  function NextSave(at: SaveAt): SaveAt {
    match at case Truncate => Fill case Fill => Rename case Rename => Rename
  }

  /** Back from `Start`: the panel's call ends, `RestoreOnBoot` may try again. */
  function AfterStart(req: StartRequest, attempt: nat, started: bool): Pc {
    if attempt == 0 || started || attempt >= MAX_ATTEMPTS then Done else BootRetry(req, attempt)
  }

  /** A step of `Start` between the stop of the old child and the answer of the new one. */
  ghost function LaunchStep(s: Shared, t: Tid, req: StartRequest, n: nat, o: TorrentOptions, at: LaunchAt, ok: bool)
    : Move
  {
    match at
    case StopOld =>
      if s.locks.mu.Some? then Blocked
      else if s.core.process.None?
      then To(s.(core := s.core.(config := Some(o), online := false)), InStart(req, n, Launch(o, Spawn)))
      else To(Mu(s.(core := s.core.(config := Some(o))), Some(t)),
              InStart(req, n, Launch(o, WaitOld(s.core.process.value, false))))
    case WaitOld(c, killed) =>
      if ok then
        if Ready(s, c)
        then To(Mu(s.(core := Stopped(s.core, false)), None), InStart(req, n, Launch(o, Spawn)))
        else Blocked
      else if !killed then To(s, InStart(req, n, Launch(o, WaitOld(c, true))))
      else To(Mu(Abandon(s, c), None), InStart(req, n, Exit(false)))
    case Spawn =>
      if s.locks.mu.Some? then Blocked
      else if !ok then To(s.(core := s.core.(online := false)), InStart(req, n, Exit(false)))
      else To(Mu(s.(children := s.children + [Child(true, Waiting, None, false)]), Some(t)),
              InStart(req, n, Launch(o, Publish(|s.children|))))
    case Publish(c) =>
      To(Mu(s.(core := s.core.(process := Some(c), online := false)), None),
         InStart(req, n, Launch(o, WaitGrpc)))
    case WaitGrpc =>
      if !ok then To(s, InStart(req, n, Launch(o, StopNew)))
      else if Serving(s) then To(s, InStart(req, n, Online)) else Blocked
    case StopNew =>
      if s.locks.mu.Some? then Blocked
      else if s.core.process.None?
      then To(s.(core := s.core.(online := false)), InStart(req, n, Exit(false)))
      else To(Mu(s, Some(t)), InStart(req, n, Launch(o, WaitNew(s.core.process.value, false))))
    case WaitNew(c, killed) =>
      if ok then
        if Ready(s, c)
        then To(Mu(s.(core := Stopped(s.core, false)), None), InStart(req, n, Exit(false)))
        else Blocked
      else if !killed then To(s, InStart(req, n, Launch(o, WaitNew(c, true))))
      else To(Mu(Abandon(s, c).(core := s.core.(online := false)), None), InStart(req, n, Exit(false)))
  }

  /** A step of `Start`; `ok` resolves whatever the environment decides at this point. */
  ghost function StartStep(s: Shared, t: Tid, req: StartRequest, n: nat, at: StartAt, ok: bool): Move {
    match at
    case Enter =>
      if !ok || s.locks.life.Some? then To(s, AfterStart(req, n, false))
      else To(Life(s, Some(t)), InStart(req, n, Check))
    case Check =>
      if s.locks.mu.Some? then Blocked
      else if s.core.startProcessing then To(s, InStart(req, n, Unlock(false)))
      else To(s.(core := s.core.(startProcessing := true)), InStart(req, n, ReadEnabled))
    case ReadEnabled => To(s, InStart(req, n, ReadTags(s.torrent.enabled)))
    case ReadTags(e) => To(s, InStart(req, n, ReadPlacement(e, s.torrent.tagKey)))
    case ReadPlacement(e, k) =>
      To(s, InStart(req, n, ReadOnline(TorrentOptions(e, k, s.torrent.placement))))
    case ReadOnline(o) =>
      if s.locks.mu.Some? then Blocked
      else if s.core.online && !s.settings.disableHashCheck && !req.forceRestart then To(s, InStart(req, n, Ping(o)))
      else To(s, InStart(req, n, Prepare(o)))
    case Ping(o) =>
      if !ok then To(s, InStart(req, n, Offline(o)))
      else if Serving(s) then To(s, InStart(req, n, Compare(o))) else Blocked
    case Compare(o) =>
      if s.locks.mu.Some? then Blocked else To(s, InStart(req, n, if ok then Prepare(o) else Adopt(o)))
    case Adopt(o) =>
      if s.locks.mu.Some? then Blocked
      else To(s.(core := s.core.(config := Some(o))), InStart(req, n, Persist))
    case Offline(o) =>
      if s.locks.mu.Some? then Blocked
      else To(s.(core := s.core.(online := false)), InStart(req, n, Prepare(o)))
    case Prepare(o) => To(s, InStart(req, n, if ok then Launch(o, StopOld) else Exit(false)))
    case Launch(o, launch) => LaunchStep(s, t, req, n, o, launch, ok)
    case Online =>
      if s.locks.mu.Some? then Blocked
      else To(s.(core := s.core.(online := true)), InStart(req, n, Persist))
    case Persist =>
      if s.locks.mu.Some? then Blocked
      else To(s.(core := s.core.(lastStart := Some(req)), boot := s.boot.(log := s.boot.log + [Started(req)])),
              InStart(req, n, Save(Truncate)))
    case Save(save) =>
      To(s.(boot := SaveStep(s.boot, req, save, ok)),
         InStart(req, n, if ok && !save.Rename? then Save(NextSave(save)) else Exit(true)))
    case Exit(r) =>
      if s.locks.mu.Some? then Blocked
      else To(s.(core := s.core.(startProcessing := false)), InStart(req, n, Unlock(r)))
    case Unlock(r) => To(Life(s, None), AfterStart(req, n, r))
  }

  /** What a Stop does before it lets go of `mu`. */
  function StopRelease(s: Shared, clear: bool, sync: bool): Move {
    if clear
    then To(Mu(s.(core := s.core.(lastStart := None), boot := s.boot.(log := s.boot.log + [Cleared])), None),
            InStop(clear, sync, Remove))
    else To(Mu(s, None), InStop(clear, sync, StopUnlock))
  }

  /** A step of `Stop`. */
  function StopStep(s: Shared, t: Tid, clear: bool, sync: bool, at: StopAt, ok: bool): Move {
    match at
    case StopEnter =>
      if s.locks.life.Some? then Blocked
      else To(Life(s, Some(t)), InStop(clear, sync, if clear then StopChild else Flush))
    case Flush =>
      if s.locks.mu.Some? then Blocked
      else To(s, InStop(clear, sync,
        if s.core.lastStart.None? then StopChild else FlushSave(s.core.lastStart.value, Truncate)))
    case FlushSave(r, save) =>
      To(s.(boot := SaveStep(s.boot, r, save, ok)),
         InStop(clear, sync, if ok && !save.Rename? then FlushSave(r, NextSave(save)) else StopChild))
    case StopChild =>
      if s.locks.mu.Some? then Blocked
      else if s.core.process.None? then StopRelease(s.(core := Stopped(s.core, true)), clear, sync)
      else To(Mu(s, Some(t)), InStop(clear, sync, StopWait(s.core.process.value, false)))
    case StopWait(c, killed) =>
      if ok then
        if Ready(s, c) then StopRelease(s.(core := Stopped(s.core, true)), clear, sync) else Blocked
      else if !killed then To(s, InStop(clear, sync, StopWait(c, true)))
      else StopRelease(Abandon(s, c), clear, sync)
    case Remove =>
      if ok
      then To(s.(boot := s.boot.(disk := s.boot.disk.(target := None), log := s.boot.log + [DiskOk])),
              InStop(clear, sync, StopUnlock))
      else To(s.(boot := s.boot.(cut := true)), InStop(clear, sync, StopUnlock))
    case StopUnlock => To(Life(s, None), if sync then InSync(SyncFinish) else Done)
  }

  /** A step of `Health`. */
  ghost function HealthStep(s: Shared, at: HealthAt, ok: bool): Move {
    match at
    case HealthRead =>
      if s.locks.mu.Some? then Blocked
      else To(s, InHealth(if s.core.process.Some? || s.core.online then HealthPing else HealthWrite(s.core.online)))
    case HealthPing =>
      if ok && !Serving(s) then Blocked else To(s, InHealth(HealthWrite(ok)))
    case HealthWrite(b) =>
      if s.locks.mu.Some? then Blocked else To(s.(core := s.core.(online := b)), Done)
  }

  /** The condition under which a plugin sync stops the core. */
  predicate NeedsRestart(prev: TorrentOptions, now: TorrentOptions) {
    || (prev.enabled && !now.enabled)
    || (!prev.enabled && now.enabled)
    || (prev.enabled && now.enabled && prev.tagKey != now.tagKey)
    || (prev.enabled && now.enabled && prev.placement != now.placement)
  }

  /** `configureTorrentBlocker` leaves every field zero when the blocker is off. */
  function Configured(o: TorrentOptions): TorrentOptions {
    if o.enabled then o else DISABLED
  }

  /** A call to the core can take the rule out of it. */
  ghost predicate CanRemoveRule(s: Shared) {
    s.core.online && Serving(s) && (s.settings.removalApart ==> !s.core.startProcessing)
  }

  /** A child that has loaded its config goes on without a blocker. */
  function WithoutRule(c: Child): Child {
    if c.alive && c.served.Some? then c.(served := Some(DISABLED)) else c
  }

  function RuleRemoved(s: Shared): Shared {
    s.(children := seq(|s.children|, c requires 0 <= c < |s.children| => WithoutRule(s.children[c])))
  }

  /** A step of a plugin sync, clear or reset, as far as the lifecycle sees it. */
  ghost function SyncStep(s: Shared, t: Tid, at: SyncAt, ok: bool): Move {
    match at
    case SyncEnter(kind) =>
      if !s.settings.serialSyncs then To(s, InSync(Apply(kind, s.torrent)))
      else if s.locks.syncing.Some? then Blocked
      else To(Syncing(s, Some(t)), InSync(Apply(kind, s.torrent)))
    case Apply(kind, prev) =>
      if kind.Update? then To(s.(torrent := Configured(kind.opts)), InSync(Nft(prev)))
      else To(s.(torrent := DISABLED), InSync(if ok || s.settings.nftWorks then CheckOnline else SyncFinish))
    case Nft(prev) =>
      if ok || s.settings.nftWorks then To(s, InSync(Decide(prev, s.torrent)))
      else To(s.(torrent := DISABLED), InSync(SyncFinish))
    case Decide(prev, now) =>
      var hotRemove := prev.enabled && !now.enabled && now.tagKey == "";
      if hotRemove && ok && CanRemoveRule(s) then To(RuleRemoved(s), InSync(SyncFinish))
      else To(s, InSync(if NeedsRestart(prev, now) then CheckOnline else SyncFinish))
    case CheckOnline =>
      if s.locks.mu.Some? then Blocked
      else if s.core.online || s.core.process.Some? || s.core.startProcessing
      then To(s, InStop(false, true, StopEnter))
      else To(s, InSync(SyncFinish))
    case SyncFinish => To(Syncing(s, None), Done)
  }

  /** What a boot file denotes: the request that `loadPersistedStart` would hand to `Start`. */
  function Meaning(r: StartRequest): Option<StartRequest> {
    if r.xrayConfig == [] then None else Some(r.(forceRestart := false))
  }

  function Denotes(c: Option<Content>): Option<StartRequest> {
    if c.Some? && c.value.Full? then Meaning(c.value.request) else None
  }

  ghost function ThreadStep(s: Shared, t: Tid, pc: Pc, ok: bool): Move {
    match pc
    case InStart(r, n, at) => StartStep(s, t, r, n, at, ok)
    case InStop(clear, sync, at) => StopStep(s, t, clear, sync, at, ok)
    case InHealth(at) => HealthStep(s, at, ok)
    case InSync(at) => SyncStep(s, t, at, ok)
    case BootLoad =>
      var r := Denotes(s.boot.disk.target);
      To(s, if ok && r.Some? then InStart(r.value, 1, Enter) else Done)
    case BootRetry(r, n) => To(s, if ok then InStart(r, n + 1, Enter) else Done)
    case Done => Blocked
  }

  /** Calls the outside can make at any time. */
  predicate Initial(pc: Pc) {
    || (pc.InStart? && pc.attempt == 0 && pc.start == Enter)
    || (pc.InStop? && !pc.bySync && pc.stop == StopEnter)
    || pc == InHealth(HealthRead)
    || (pc.InSync? && pc.sync.SyncEnter?)
    || pc == BootLoad
  }

  /** A thread whose Start or Stop has been decided but whose disk work is not done. */
  predicate PendingDisk(pc: Pc) {
    (pc.InStart? && pc.start.Save?) || (pc.InStop? && pc.stop.Remove?)
  }

  /** What a reboot leaves: the disk, and whether disk work was cut short. */
  function Rebooted(s: State): State {
    var life := s.shared.locks.life;
    var pending := life.Some? && life.value in s.threads && PendingDisk(s.threads[life.value]);
    Fresh(s.shared.settings, s.shared.boot.(cut := s.shared.boot.cut || pending))
  }

  function WithChild(s: Shared, c: nat, child: Child): Shared
    requires c < |s.children|
  {
    s.(children := s.children[c := child])
  }

  /** A step of a child or of its monitor goroutine. */
  datatype ChildStep = Exits | Reaps | Sends | Finishes | Fetches

  function ChildMove(s: Shared, c: nat, step: ChildStep): Option<Shared> {
    if c >= |s.children| then None else
    var child := s.children[c];
    match step
    case Exits => if child.alive then Some(WithChild(s, c, child.(alive := false))) else None
    case Reaps =>
      if !child.alive && child.monitor.Waiting? then Some(WithChild(s, c, child.(monitor := Reaped))) else None
    case Sends => if child.monitor.Reaped? then Some(WithChild(s, c, child.(monitor := Sent))) else None
    case Finishes =>
      if !child.monitor.Sent? || s.locks.mu.Some? then None else
      var s1 := WithChild(s, c, child.(monitor := Finished));
      Some(if s.core.process == Some(c) then s1.(core := s.core.(process := Option.None, online := false)) else s1)
    case Fetches =>
      if child.alive && child.served.None? && s.locks.mu.None?
      then Some(WithChild(s, c, child.(served := s.core.config))) else None
  }

  datatype Step = Call(t: Tid, pc: Pc) | Run(t: Tid, ok: bool) | OfChild(c: nat, step: ChildStep) | Reboot

  ghost function Take(s: State, step: Step): Option<State> {
    match step
    case Call(t, pc) =>
      if t !in s.threads && Initial(pc) then Some(s.(threads := s.threads[t := pc])) else None
    case Run(t, ok) =>
      if t !in s.threads then None else
      var m := ThreadStep(s.shared, t, s.threads[t], ok);
      if m.Blocked? then None else Some(State(s.threads[t := m.pc], m.shared))
    case OfChild(c, step) =>
      var m := ChildMove(s.shared, c, step);
      if m.None? then None else Some(s.(shared := m.value))
    case Reboot => Some(Rebooted(s))
  }

  /** The state after a schedule, if every step of it was possible. */
  ghost function Outcome(s: State, steps: seq<Step>): Option<State>
    decreases |steps|
  {
    if steps == [] then Some(s)
    else
      var s1 := Take(s, steps[0]);
      if s1.None? then None else Outcome(s1.value, steps[1..])
  }
}
