/** What holds in every run of the lifecycle, and the runs that leave a core behind with options that
    are no longer current. */
module LifecycleRuns {
  import opened Lifecycle
  import opened LifecycleInvariants
  import opened Wrappers

  /** Every state that some schedule reaches from a first boot. */
  ghost predicate Reached(settings: Settings, steps: seq<Step>, s: State) {
    Outcome(FirstBoot(settings), steps) == Some(s)
  }

  lemma {:induction false} OutcomeKeepsInv(s: State, steps: seq<Step>)
    requires Inv(s) && Outcome(s, steps).Some?
    ensures Inv(Outcome(s, steps).value) && Outcome(s, steps).value.shared.settings == s.shared.settings
    decreases |steps|
  {
    if steps != [] {
      StepKeepsInv(s, steps[0]);
      StepKeepsSettings(s, steps[0]);
      OutcomeKeepsInv(Take(s, steps[0]).value, steps[1..]);
    }
  }

  lemma StepKeepsSettings(s: State, step: Step)
    requires Inv(s) && Take(s, step).Some?
    ensures Take(s, step).value.shared.settings == s.shared.settings
  {
    if step.Run? {
      assert Owns(s.shared, step.t, s.threads[step.t]);
      ThreadMoves(s.shared, step.t, s.threads[step.t], step.ok);
    }
  }

  lemma ReachedInv(settings: Settings, steps: seq<Step>, s: State)
    requires Reached(settings, steps, s)
    ensures Inv(s) && s.shared.settings == settings
  {
    OutcomeKeepsInv(FirstBoot(settings), steps);
  }

  /** In every schedule at most one spawned child is alive; while nobody holds `mu` it is the one
      the manager knows; and a child whose monitor has finished is never that one. */
  lemma OneChild(settings: Settings, steps: seq<Step>, s: State)
    requires Reached(settings, steps, s)
    ensures forall a: nat, b: nat | a < |s.shared.children| && b < |s.shared.children| ::
              s.shared.children[a].alive && s.shared.children[b].alive ==> a == b
    ensures forall a: nat :: a < |s.shared.children| && s.shared.children[a].alive && s.shared.locks.mu.None? ==>
              s.shared.core.process == Some(a)
    ensures forall a: nat :: a < |s.shared.children| && s.shared.children[a].monitor.Finished? ==>
              s.shared.core.process != Some(a)
  {
    ReachedInv(settings, steps, s);
  }

  /** `startProcessing` is set exactly while a Start that passed its check owns `lifecycleMu`, so
      the check itself never finds it set. */
  lemma StartNeverCollides(settings: Settings, steps: seq<Step>, s: State)
    requires Reached(settings, steps, s)
    ensures s.shared.core.startProcessing <==> exists t :: t in s.threads && Processing(s.threads[t])
    ensures forall t :: t in s.threads && s.threads[t].InStart? && s.threads[t].start == Check ==>
              s.shared.locks.life == Some(t) && !s.shared.core.startProcessing
  {
    ReachedInv(settings, steps, s);
    forall t | t in s.threads && HoldsLife(s.threads[t])
      ensures s.shared.locks.life == Some(t)
      ensures s.shared.core.startProcessing <==> Processing(s.threads[t])
    {
      assert Owns(s.shared, t, s.threads[t]);
    }
    if s.shared.core.startProcessing {
      var t := s.shared.locks.life.value;
      assert Owns(s.shared, t, s.threads[t]);
    }
  }

  /** The steps of child `c` and its monitor that lead to its `done`. */
  function Drain(c: nat, child: Child): seq<Step>
    decreases if child.monitor.Waiting? then 2 else if child.monitor.Reaped? then 1 else 0, child.alive
  {
    match child.monitor
    case Waiting =>
      if child.alive then [OfChild(c, Exits)] + Drain(c, child.(alive := false))
      else [OfChild(c, Reaps)] + Drain(c, child.(monitor := Reaped))
    case Reaped => [OfChild(c, Sends)] + Drain(c, child.(monitor := Sent))
    case _ => []
  }

  lemma {:induction false} DrainWorks(s: State, c: nat)
    requires c < |s.shared.children|
    ensures var o := Outcome(s, Drain(c, s.shared.children[c]));
            && o.Some? && o.value == s.(shared := o.value.shared)
            && o.value.shared == s.shared.(children := o.value.shared.children)
            && |o.value.shared.children| == |s.shared.children| && Ready(o.value.shared, c)
    decreases var child := s.shared.children[c];
              if child.monitor.Waiting? then 2 else if child.monitor.Reaped? then 1 else 0, s.shared.children[c].alive
  {
    var d := Drain(c, s.shared.children[c]);
    if d != [] {
      var s1 := Take(s, d[0]).value;
      DrainWorks(s1, c);
      assert d[1..] == Drain(c, s1.shared.children[c]);
    }
  }

  /** Whoever waits for a child while holding `mu` waits only for steps that leave every lock and
      thread alone: from every reachable state they can all be taken, and then the wait is over. */
  lemma WaitNeedsNoMu(settings: Settings, steps: seq<Step>, s: State, t: Tid, c: nat)
    requires Reached(settings, steps, s) && t in s.threads && WaitsFor(s.threads[t], c)
    ensures s.shared.locks.mu == Some(t) && s.shared.core.process == Some(c) && c < |s.shared.children|
    ensures var o := Outcome(s, Drain(c, s.shared.children[c]));
            && o.Some? && o.value.shared.locks == s.shared.locks && o.value.threads == s.threads
            && Take(o.value, Run(t, true)).Some?
  {
    ReachedInv(settings, steps, s);
    assert Owns(s.shared, t, s.threads[t]);
    DrainWorks(s, c);
  }

  predicate WaitsFor(h: Pc, c: nat) {
    match h
    case InStart(_, _, Launch(_, WaitOld(d, _))) => c == d
    case InStart(_, _, Launch(_, WaitNew(d, _))) => c == d
    case InStop(_, _, StopWait(d, _)) => c == d
    case _ => false
  }

  /** No schedule of Starts, Stops, health checks, reboots and plugin syncs sent one at a time
      leaves a core online with options other than the current ones, once no Start and no sync is
      under way and no stop gave up on the core; and while the blocker is off, if nft never fails and
      no rule is taken out of a core that is being replaced. */
  lemma NoStaleCore(settings: Settings, steps: seq<Step>, s: State, c: nat)
    requires Reached(settings, steps, s) && settings.serialSyncs
    requires s.shared.torrent.enabled || Calm(settings)
    requires s.shared.locks.syncing.None? && !s.shared.core.startProcessing
    requires c < |s.shared.children| && s.shared.children[c].alive && !s.shared.children[c].abandoned
    ensures s.shared.children[c].served == Some(s.shared.torrent)
  {
    ReachedInv(settings, steps, s);
    var h := Inside(s);
    if s.shared.locks.life.Some? { assert Owns(s.shared, s.shared.locks.life.value, h); }
    assert Running(s.shared.children[c]);
  }

  /** The boot file is never partial, and denotes something that may be wished for. */
  lemma BootFileAllowed(settings: Settings, steps: seq<Step>, s: State)
    requires Reached(settings, steps, s)
    ensures s.shared.boot.disk.target.Some? ==> s.shared.boot.disk.target.value.Full?
    ensures Denotes(s.shared.boot.disk.target) in Allowed(s.shared.boot.log)
  {
    ReachedInv(settings, steps, s);
  }

  /** Once the disk work of the last successful Start or Stop(true) completed, or in a run where
      no disk work failed or was cut, with `lifecycleMu` free: the boot file denotes exactly what
      that Start or Stop(true) wants. */
  lemma BootFileExact(settings: Settings, steps: seq<Step>, s: State)
    requires Reached(settings, steps, s)
    requires Settled(s.shared.boot.log) || (s.shared.locks.life.None? && !s.shared.boot.cut)
    ensures Denotes(s.shared.boot.disk.target) == Latest(s.shared.boot.log)
  {
    ReachedInv(settings, steps, s);
    SettledIsExact(s.shared.boot.log);
  }

  /** While what the boot file denotes is settled, no step of a Stop(false) changes it. */
  lemma StopFalseKeepsBootFile(settings: Settings, steps: seq<Step>, s: State, t: Tid, ok: bool)
    requires Reached(settings, steps, s) && Settled(s.shared.boot.log)
    requires t in s.threads && s.threads[t].InStop? && !s.threads[t].clearPersist && Take(s, Run(t, ok)).Some?
    ensures var s' := Take(s, Run(t, ok)).value;
            Denotes(s'.shared.boot.disk.target) == Denotes(s.shared.boot.disk.target) && Settled(s'.shared.boot.log)
  {
    var s' := Take(s, Run(t, ok)).value;
    BootFileExact(settings, steps, s);
    ReachedInv(settings, steps, s);
    StepKeepsInv(s, Run(t, ok));
    assert Owns(s.shared, t, s.threads[t]);
    LogGrows(s.shared.boot.log, DiskOk);
    SettledIsExact(s.shared.boot.log + [DiskOk]);
  }

  // ---------------------------------------------------------------- two syncs at once

  function Runs(t: Tid, n: nat): seq<Step> {
    if n == 0 then [] else [Run(t, true)] + Runs(t, n - 1)
  }

  /** A thread that nobody interrupts, on a machine where everything works. */
  ghost function Solo(s: Shared, t: Tid, pc: Pc, n: nat): Move
    decreases n
  {
    if n == 0 then To(s, pc) else
    var m := ThreadStep(s, t, pc, true);
    if m.Blocked? then m else Solo(m.shared, t, m.pc, n - 1)
  }

  lemma {:induction false} SoloRuns(s: State, t: Tid, n: nat)
    requires t in s.threads && Solo(s.shared, t, s.threads[t], n).To?
    ensures var m := Solo(s.shared, t, s.threads[t], n);
            Outcome(s, Runs(t, n)) == Some(State(s.threads[t := m.pc], m.shared))
    decreases n
  {
    if n == 0 {
      assert s.threads[t := s.threads[t]] == s.threads;
    } else {
      var s' := Take(s, Run(t, true)).value;
      SoloRuns(s', t, n - 1);
      assert Runs(t, n)[1..] == Runs(t, n - 1);
      var pc := Solo(s.shared, t, s.threads[t], n).pc;
      assert s'.threads[t := pc] == s.threads[t := pc];
    }
  }

  lemma SoloFirst(s: Shared, t: Tid, pc: Pc, n: nat) returns (s': Shared, pc': Pc)
    requires n > 0 && ThreadStep(s, t, pc, true).To?
    ensures ThreadStep(s, t, pc, true) == To(s', pc') && Solo(s, t, pc, n) == Solo(s', t, pc', n - 1)
  {
    s', pc' := ThreadStep(s, t, pc, true).shared, ThreadStep(s, t, pc, true).pc;
  }

  lemma {:induction false} Extend(s: State, steps: seq<Step>, more: seq<Step>)
    requires Outcome(s, steps).Some?
    ensures Outcome(s, steps + more) == Outcome(Outcome(s, steps).value, more)
    decreases |steps|
  {
    if steps == [] {
      assert steps + more == more;
    } else {
      Extend(Take(s, steps[0]).value, steps[1..], more);
      assert (steps + more)[1..] == steps[1..] + more;
    }
  }

  /** A sync that begins reads the current options as those it may have to replace. */
  lemma SyncBegins(s: State, t: Tid, o: TorrentOptions) returns (steps: seq<Step>, s': State)
    requires t !in s.threads && s.shared.locks.syncing.None?
    ensures Outcome(s, steps) == Some(s')
    ensures s'.threads == s.threads[t := InSync(Apply(Update(o), s.shared.torrent))]
    ensures s'.shared == if s.shared.settings.serialSyncs then Syncing(s.shared, Some(t)) else s.shared
  {
    steps := [Call(t, InSync(SyncEnter(Update(o)))), Run(t, true)];
    var s1 := Take(s, steps[0]).value;
    s' := Take(s1, steps[1]).value;
    assert s'.threads == s.threads[t := InSync(Apply(Update(o), s.shared.torrent))];
    assert steps[1..][1..] == [] && Outcome(s', []) == Some(s');
    assert Outcome(s1, steps[1..]) == Some(s');
  }

  /** With no core to stop, or nothing to change, the rest of a sync only publishes its options. */
  lemma SyncPublishes(s: State, t: Tid, prev: TorrentOptions, o: TorrentOptions) returns (steps: seq<Step>, s': State)
    requires t in s.threads && s.threads[t] == InSync(Apply(Update(o), prev)) && Configured(o) == o
    requires prev == o
             || (o.enabled && s.shared.locks.mu.None? && s.shared.core == Core(None, false, false, None, None))
    ensures Outcome(s, steps) == Some(s') && s' == State(s.threads[t := Done], Syncing(s.shared, None).(torrent := o))
  {
    var n := if NeedsRestart(prev, o) then 5 else 4;
    var s1, p1 := SoloFirst(s.shared, t, s.threads[t], n);
    var s2, p2 := SoloFirst(s1, t, p1, n - 1);
    var s3, p3 := SoloFirst(s2, t, p2, n - 2);
    var s4, p4 := SoloFirst(s3, t, p3, n - 3);
    if NeedsRestart(prev, o) { var s5, p5 := SoloFirst(s4, t, p4, n - 4); }
    SoloRuns(s, t, n);
    steps, s' := Runs(t, n), State(s.threads[t := Done], Syncing(s.shared, None).(torrent := o));
  }

  /** A first Start, on a machine where everything works, leaves a core with the current options. */
  lemma StartLaunches(s: State, t: Tid, req: StartRequest) returns (steps: seq<Step>, s': State)
    requires t !in s.threads && s.shared.locks == Locks(None, None, None)
    requires s.shared.core == Core(None, false, false, None, None) && s.shared.children == []
    ensures Outcome(s, steps) == Some(s') && s'.threads == s.threads[t := Done]
    ensures s'.shared.locks == s.shared.locks && s'.shared.torrent == s.shared.torrent
    ensures s'.shared.core.online && !s'.shared.core.startProcessing && s'.shared.core.process == Some(0)
    ensures s'.shared.settings == s.shared.settings
    ensures s'.shared.children == [Child(true, Waiting, Some(s.shared.torrent), false)]
  {
    var call, fetch := [Call(t, InStart(req, 0, Enter))], [OfChild(0, Fetches)];
    var s0 := Take(s, call[0]).value;
    StartSpawns(s0.shared, t, req);
    SoloRuns(s0, t, 10);
    var s10 := Outcome(s0, Runs(t, 10)).value;
    var u0 := Take(s10, fetch[0]).value;
    assert u0.shared.children[0].alive && u0.shared.children[0].served.Some?;
    StartSettles(u0.shared, t, req, s.shared.torrent);
    SoloRuns(u0, t, 8);
    s' := Outcome(u0, Runs(t, 8)).value;
    steps := call + Runs(t, 10) + fetch + Runs(t, 8);
    assert Outcome(s0, []) == Some(s0) && Outcome(u0, []) == Some(u0);
    Extend(s, call, Runs(t, 10));
    Extend(s, call + Runs(t, 10), fetch);
    Extend(s, call + Runs(t, 10) + fetch, Runs(t, 8));
    assert s'.threads == s.threads[t := Done];
  }

  lemma StartSpawns(s: Shared, t: Tid, req: StartRequest)
    requires s.locks == Locks(None, None, None)
    requires s.core == Core(None, false, false, None, None) && s.children == []
    ensures Solo(s, t, InStart(req, 0, Enter), 10)
            == To(s.(locks := Locks(Some(t), None, None), core := Core(Some(0), false, true, Some(s.torrent), None),
                     children := [Child(true, Waiting, None, false)]),
                  InStart(req, 0, Launch(s.torrent, WaitGrpc)))
  {
    var o := s.torrent;
    var s1, p1 := SoloFirst(s, t, InStart(req, 0, Enter), 10);
    assert p1 == InStart(req, 0, Check);
    var s2, p2 := SoloFirst(s1, t, p1, 9);
    assert p2 == InStart(req, 0, ReadEnabled);
    var s3, p3 := SoloFirst(s2, t, p2, 8);
    var s4, p4 := SoloFirst(s3, t, p3, 7);
    var s5, p5 := SoloFirst(s4, t, p4, 6);
    assert p5 == InStart(req, 0, ReadOnline(o));
    assert s5 == s.(locks := Locks(Some(t), None, None), core := Core(None, false, true, None, None));
    StartReplaces(s5, t, req, o);
  }

  lemma StartReplaces(s: Shared, t: Tid, req: StartRequest, o: TorrentOptions)
    requires s.locks == Locks(Some(t), None, None)
    requires s.core == Core(None, false, true, None, None) && s.children == []
    ensures Solo(s, t, InStart(req, 0, ReadOnline(o)), 5)
            == To(s.(core := Core(Some(0), false, true, Some(o), None),
                     children := [Child(true, Waiting, None, false)]),
                  InStart(req, 0, Launch(o, WaitGrpc)))
  {
    var s6, p6 := SoloFirst(s, t, InStart(req, 0, ReadOnline(o)), 5);
    assert p6 == InStart(req, 0, Prepare(o));
    var s7, p7 := SoloFirst(s6, t, p6, 4);
    var s8, p8 := SoloFirst(s7, t, p7, 3);
    assert p8 == InStart(req, 0, Launch(o, Spawn));
    var s9, p9 := SoloFirst(s8, t, p8, 2);
    assert p9 == InStart(req, 0, Launch(o, Publish(0)));
    var s10, p10 := SoloFirst(s9, t, p9, 1);
  }

  lemma StartSettles(s: Shared, t: Tid, req: StartRequest, o: TorrentOptions)
    requires s.locks.mu.None? && Serving(s)
    ensures var m := Solo(s, t, InStart(req, 0, Launch(o, WaitGrpc)), 8);
            && m.To? && m.pc == Done
            && m.shared.children == s.children && m.shared.torrent == s.torrent
            && m.shared.locks == s.locks.(life := None) && m.shared.settings == s.settings
            && m.shared.core.online && !m.shared.core.startProcessing && m.shared.core.process == s.core.process
  {
    var s1, p1 := SoloFirst(s, t, InStart(req, 0, Launch(o, WaitGrpc)), 8);
    var s2, p2 := SoloFirst(s1, t, p1, 7);
    assert p2 == InStart(req, 0, Persist);
    var s3, p3 := SoloFirst(s2, t, p2, 6);
    assert p3 == InStart(req, 0, Save(Truncate));
    StartSaves(s3, t, req);
  }

  lemma StartSaves(s: Shared, t: Tid, req: StartRequest)
    requires s.locks.mu.None?
    ensures var m := Solo(s, t, InStart(req, 0, Save(Truncate)), 5);
            && m.To? && m.pc == Done
            && m.shared.children == s.children && m.shared.torrent == s.torrent
            && m.shared.locks == s.locks.(life := None) && m.shared.settings == s.settings
            && m.shared.core == s.core.(startProcessing := false)
  {
    hide SaveStep;
    var s4, p4 := SoloFirst(s, t, InStart(req, 0, Save(Truncate)), 5);
    assert p4 == InStart(req, 0, Save(Fill)) && s4 == s.(boot := s4.boot);
    var s5, p5 := SoloFirst(s4, t, p4, 4);
    assert p5 == InStart(req, 0, Save(Rename)) && s5 == s.(boot := s5.boot);
    var s6, p6 := SoloFirst(s5, t, p5, 3);
    assert p6 == InStart(req, 0, Exit(true)) && s6 == s.(boot := s6.boot);
    StartExits(s6, t, req);
  }

  lemma StartExits(s: Shared, t: Tid, req: StartRequest)
    requires s.locks.mu.None?
    ensures Solo(s, t, InStart(req, 0, Exit(true)), 2)
         == To(Life(s.(core := s.core.(startProcessing := false)), None), Done)
  {
    var s1, p1 := SoloFirst(s, t, InStart(req, 0, Exit(true)), 2);
    var s2, p2 := SoloFirst(s1, t, p1, 1);
  }

  /** Two syncs that overlap do leave a stale core: the second reads the options before the first
      publishes others, so it sees no change when it puts the old ones back. */
  lemma OverlappingSyncsLeaveStaleCore(settings: Settings) returns (steps: seq<Step>, s: State)
    requires !settings.serialSyncs
    ensures Reached(settings, steps, s) && forall t :: t in s.threads ==> s.threads[t].Done?
    ensures s.shared.torrent.enabled && |s.shared.children| == 1 && Running(s.shared.children[0])
    ensures s.shared.children[0].served.Some? && s.shared.children[0].served != Some(s.shared.torrent)
  {
    hide Solo, Runs;
    var o1, o2 := TorrentOptions(true, "a", 0.0), TorrentOptions(true, "b", 0.0);
    var boot := FirstBoot(settings);
    var more: seq<Step>, next: State;
    steps, s := BothSyncsBegin(boot, o1, o2);
    more, next := StartLaunches(s, 3, REQUEST);
    steps, s := Then(boot, steps, s, more, next);
    more, next := SyncPublishes(s, 1, o1, o1);
    steps, s := Then(boot, steps, s, more, next);
  }

  const REQUEST := StartRequest(true, "", ["config"])

  lemma Then(boot: State, steps: seq<Step>, s: State, more: seq<Step>, next: State)
    returns (steps': seq<Step>, s': State)
    requires Outcome(boot, steps) == Some(s) && Outcome(s, more) == Some(next)
    ensures Outcome(boot, steps') == Some(s') && s' == next
  {
    Extend(boot, steps, more);
    steps', s' := steps + more, next;
  }

  lemma NoStepsYet(s: State)
    ensures Outcome(s, []) == Some(s)
  {
  }

  /** One sync sets some options; a second begins, about to set the same; a third sets others. */
  lemma BothSyncsBegin(boot: State, o1: TorrentOptions, o2: TorrentOptions) returns (steps: seq<Step>, s: State)
    requires boot == FirstBoot(boot.shared.settings) && !boot.shared.settings.serialSyncs
    requires o1.enabled && o2.enabled && o1.tagKey != o2.tagKey
    ensures Outcome(boot, steps) == Some(s)
    ensures s.threads == map[0 := Done, 1 := InSync(Apply(Update(o1), o1)), 2 := Done]
    ensures s.shared == boot.shared.(torrent := o2)
  {
    hide Solo, Runs;
    var more: seq<Step>, next: State;
    steps, s := SyncEnables(boot, 0, o1);
    more, next := SyncBegins(s, 1, o1);
    steps, s := Then(boot, steps, s, more, next);
    more, next := SyncBegins(s, 2, o2);
    steps, s := Then(boot, steps, s, more, next);
    more, next := SyncPublishes(s, 2, o1, o2);
    steps, s := Then(boot, steps, s, more, next);
  }

  /** A whole sync that switches the blocker on before there is a core. */
  lemma SyncEnables(s: State, t: Tid, o: TorrentOptions) returns (steps: seq<Step>, s': State)
    requires t !in s.threads && s.shared.locks == Locks(None, None, None) && o.enabled
    requires s.shared.core == Core(None, false, false, None, None)
    ensures Outcome(s, steps) == Some(s')
    ensures s'.threads == s.threads[t := Done] && s'.shared == s.shared.(torrent := o)
  {
    hide Solo, Runs;
    var more: seq<Step>, next: State;
    steps, s' := SyncBegins(s, t, o);
    more, next := SyncPublishes(s', t, s.shared.torrent, o);
    steps, s' := Then(s, steps, s', more, next);
  }

  /** No thread is inside a Start or a sync. */
  ghost predicate Quiet(s: State) {
    forall t :: t in s.threads ==> !Processing(s.threads[t]) && !HoldsSync(s.threads[t])
  }

  /** A live core that no stop gave up on runs other options than the blocker's current ones. */
  ghost predicate HasStaleCore(s: State) {
    && s.shared.torrent.enabled
    && exists c: nat :: c < |s.shared.children| && Running(s.shared.children[c])
                        && s.shared.children[c].served != Some(s.shared.torrent)
  }

  ghost predicate NeverStale(settings: Settings) {
    forall steps, s :: Reached(settings, steps, s) && Quiet(s) ==> !HasStaleCore(s)
  }

  /** No run whatever ends quietly with a stale core if and only if syncs do not overlap. */
  lemma NeverStaleIff(settings: Settings)
    ensures NeverStale(settings) <==> settings.serialSyncs
  {
    if settings.serialSyncs {
      forall steps, s | Reached(settings, steps, s) && Quiet(s) ensures !HasStaleCore(s) {
        QuietIsFree(settings, steps, s);
        forall c: nat | c < |s.shared.children| && Running(s.shared.children[c]) && s.shared.torrent.enabled
          ensures s.shared.children[c].served == Some(s.shared.torrent)
        {
          NoStaleCore(settings, steps, s, c);
        }
      }
    } else {
      var steps, s := OverlappingSyncsLeaveStaleCore(settings);
      assert Quiet(s) && Running(s.shared.children[0]);
    }
  }

  lemma QuietIsFree(settings: Settings, steps: seq<Step>, s: State)
    requires Reached(settings, steps, s) && settings.serialSyncs && Quiet(s)
    ensures s.shared.locks.syncing.None? && !s.shared.core.startProcessing
  {
    ReachedInv(settings, steps, s);
    forall t: Tid | t in s.threads
      ensures s.shared.locks.syncing != Some(t)
      ensures s.shared.locks.life == Some(t) ==> !s.shared.core.startProcessing
    {
      assert Owns(s.shared, t, s.threads[t]);
    }
  }

  // ---------------------------------------------------------------- a rule that is left behind

  /** The blocker is off and a live core that no stop gave up on runs with its rule. */
  ghost predicate HasLeftRule(s: State) {
    && !s.shared.torrent.enabled
    && exists c: nat :: c < |s.shared.children| && LeftRule(s.shared.children[c])
  }

  predicate LeftRule(c: Child) {
    Running(c) && c.served.Some? && c.served.value.enabled
  }

  ghost predicate NeverLeavesRule(settings: Settings) {
    forall steps, s :: Reached(settings, steps, s) && Quiet(s) ==> !HasLeftRule(s)
  }

  /** No run whatever ends quietly with such a core if and only if syncs do not overlap, nft does not
      fail, and the rule is not taken out of a core that is being replaced. */
  lemma NeverLeavesRuleIff(settings: Settings)
    ensures NeverLeavesRule(settings) <==> settings.serialSyncs && settings.nftWorks && settings.removalApart
  {
    if settings.serialSyncs && Calm(settings) {
      forall steps, s | Reached(settings, steps, s) && Quiet(s) ensures !HasLeftRule(s) {
        QuietIsFree(settings, steps, s);
        forall c: nat | c < |s.shared.children| && Running(s.shared.children[c])
          ensures s.shared.children[c].served == Some(s.shared.torrent)
        {
          NoStaleCore(settings, steps, s, c);
        }
      }
    } else {
      var steps: seq<Step>, s: State;
      if !settings.serialSyncs { steps, s := OverlapLeavesRule(settings); }
      else if !settings.nftWorks { steps, s := FailedSyncLeavesRule(settings); }
      else { steps, s := RestartLeavesRule(settings); }
      assert Quiet(s) && HasLeftRule(s);
    }
  }

  const BLOCKING := TorrentOptions(true, "a", 0.0)

  /** A blocker is on and a core has been started with it. */
  lemma CoreBlocks(boot: State, s: State, t: Tid, u: Tid) returns (steps: seq<Step>, s': State)
    requires s.shared == boot.shared && boot == FirstBoot(boot.shared.settings)
    requires t !in s.threads && u !in s.threads && t != u
    ensures Outcome(s, steps) == Some(s') && s'.threads == s.threads[t := Done][u := Done]
    ensures s'.shared.settings == boot.shared.settings && s'.shared.torrent == BLOCKING
    ensures s'.shared.locks == Locks(None, None, None)
    ensures s'.shared.core.online && !s'.shared.core.startProcessing && s'.shared.core.process == Some(0)
    ensures s'.shared.children == [Child(true, Waiting, Some(BLOCKING), false)]
  {
    hide Solo, Runs;
    var more: seq<Step>, next: State;
    steps, s' := SyncEnables(s, t, BLOCKING);
    more, next := StartLaunches(s', u, REQUEST);
    steps, s' := Then(s, steps, s', more, next);
  }

  /** A sync is about to switch off a blocker that is off already while another one switches it on. */
  lemma OverlapLeavesRule(settings: Settings) returns (steps: seq<Step>, s: State)
    requires !settings.serialSyncs
    ensures Reached(settings, steps, s) && Quiet(s) && HasLeftRule(s)
  {
    hide Solo, Runs;
    var boot := FirstBoot(settings);
    var more: seq<Step>, next: State;
    steps, s := SyncBegins(boot, 0, DISABLED);
    more, next := CoreBlocks(boot, s, 1, 2);
    steps, s := Then(boot, steps, s, more, next);
    more, next := SyncPublishes(s, 0, DISABLED, DISABLED);
    steps, s := Then(boot, steps, s, more, next);
    assert LeftRule(s.shared.children[0]);
  }

  /** A sync that switches the blocker off fails at nft. */
  lemma FailedSyncLeavesRule(settings: Settings) returns (steps: seq<Step>, s: State)
    requires !settings.nftWorks
    ensures Reached(settings, steps, s) && Quiet(s) && HasLeftRule(s)
  {
    hide Solo, Runs;
    var boot := FirstBoot(settings);
    NoStepsYet(boot);
    var more: seq<Step>, next: State;
    steps, s := CoreBlocks(boot, boot, 0, 1);
    more, next := SyncBegins(s, 2, DISABLED);
    steps, s := Then(boot, steps, s, more, next);
    more, next := SyncFails(s, 2, BLOCKING);
    steps, s := Then(boot, steps, s, more, next);
    assert LeftRule(s.shared.children[0]);
  }

  lemma SyncFails(s: State, t: Tid, prev: TorrentOptions) returns (steps: seq<Step>, s': State)
    requires t in s.threads && s.threads[t] == InSync(Apply(Update(DISABLED), prev)) && !s.shared.settings.nftWorks
    ensures Outcome(s, steps) == Some(s')
    ensures s' == State(s.threads[t := Done], Syncing(s.shared, None).(torrent := DISABLED))
  {
    steps := [Run(t, true), Run(t, false), Run(t, true)];
    var s1 := Take(s, steps[0]).value;
    var s2 := Take(s1, steps[1]).value;
    s' := Take(s2, steps[2]).value;
    assert s'.threads == s.threads[t := Done];
    assert Outcome(s', []) == Some(s');
    assert Outcome(s2, [Run(t, true)]) == Some(s');
    assert Outcome(s1, [Run(t, false), Run(t, true)]) == Some(s');
  }

  /** A Start that restarts a core has read its options when a sync switches the blocker off and takes
      the rule out of the old core; the new one gets it back. */
  lemma RestartLeavesRule(settings: Settings) returns (steps: seq<Step>, s: State)
    requires !settings.removalApart
    ensures Reached(settings, steps, s) && Quiet(s) && HasLeftRule(s)
  {
    hide Solo, Runs, RuleRemoved;
    var boot := FirstBoot(settings);
    var more: seq<Step>, next: State;
    steps, s := RemovalDuringRestart(boot);
    more, next := OldChildStops(s, 2, BLOCKING);
    steps, s := Then(boot, steps, s, more, next);
    more, next := NewChildServes(s, 2, BLOCKING);
    steps, s := Then(boot, steps, s, more, next);
    assert LeftRule(s.shared.children[1]);
  }

  lemma RemovalDuringRestart(boot: State) returns (steps: seq<Step>, s: State)
    requires boot == FirstBoot(boot.shared.settings) && !boot.shared.settings.removalApart
    ensures Outcome(boot, steps) == Some(s) && s.shared.torrent == DISABLED
    ensures s.threads == map[0 := Done, 1 := Done, 2 := InStart(REQUEST, 0, ReadOnline(BLOCKING)), 3 := Done]
    ensures s.shared.locks.mu.None? && s.shared.core.process == Some(0)
    ensures s.shared.children == [Child(true, Waiting, Some(DISABLED), false)]
  {
    hide Solo, Runs;
    NoStepsYet(boot);
    var more: seq<Step>, next: State;
    steps, s := CoreBlocks(boot, boot, 0, 1);
    more, next := RestartBegins(s, 2);
    steps, s := Then(boot, steps, s, more, next);
    more, next := SyncBegins(s, 3, DISABLED);
    steps, s := Then(boot, steps, s, more, next);
    more, next := SyncRemoves(s, 3, BLOCKING);
    steps, s := Then(boot, steps, s, more, next);
  }

  /** A Start reads the current options. */
  lemma RestartBegins(s: State, t: Tid) returns (steps: seq<Step>, s': State)
    requires t !in s.threads && s.shared.locks == Locks(None, None, None) && !s.shared.core.startProcessing
    ensures Outcome(s, steps) == Some(s')
    ensures s' == State(s.threads[t := InStart(REQUEST, 0, ReadOnline(s.shared.torrent))],
                        Life(s.shared, Some(t)).(core := s.shared.core.(startProcessing := true)))
  {
    var call := [Call(t, InStart(REQUEST, 0, Enter))];
    var s0 := Take(s, call[0]).value;
    assert Outcome(s0, []) == Some(s0);
    var s1, p1 := SoloFirst(s0.shared, t, InStart(REQUEST, 0, Enter), 5);
    var s2, p2 := SoloFirst(s1, t, p1, 4);
    var s3, p3 := SoloFirst(s2, t, p2, 3);
    var s4, p4 := SoloFirst(s3, t, p3, 2);
    var s5, p5 := SoloFirst(s4, t, p4, 1);
    SoloRuns(s0, t, 5);
    s' := State(s0.threads[t := p5], s5);
    assert s0.threads[t := p5] == s.threads[t := p5];
    steps, s' := Then(s, call, s0, Runs(t, 5), s');
  }

  /** A sync switches the blocker off and takes the rule out of the core. */
  lemma SyncRemoves(s: State, t: Tid, prev: TorrentOptions) returns (steps: seq<Step>, s': State)
    requires t in s.threads && s.threads[t] == InSync(Apply(Update(DISABLED), prev)) && prev.enabled
    requires s.shared.core.online && !s.shared.settings.removalApart
    requires s.shared.children != [] && s.shared.children[0].alive && s.shared.children[0].served.Some?
    ensures Outcome(s, steps) == Some(s')
    ensures s' == State(s.threads[t := Done], Syncing(RuleRemoved(s.shared), None).(torrent := DISABLED))
  {
    hide RuleRemoved;
    var s1, p1 := SoloFirst(s.shared, t, s.threads[t], 4);
    var s2, p2 := SoloFirst(s1, t, p1, 3);
    assert Serving(s2);
    var s3, p3 := SoloFirst(s2, t, p2, 2);
    RemovedAfter(s.shared);
    var s4, p4 := SoloFirst(s3, t, p3, 1);
    SoloRuns(s, t, 4);
    steps, s' := Runs(t, 4), State(s.threads[t := Done], s4);
  }

  lemma RemovedAfter(s: Shared)
    ensures RuleRemoved(s.(torrent := DISABLED)) == RuleRemoved(s).(torrent := DISABLED)
  {
    assert RuleRemoved(s.(torrent := DISABLED)).children == RuleRemoved(s).children;
  }

  /** The Start goes on: it stops the old child. */
  lemma OldChildStops(s: State, t: Tid, o: TorrentOptions) returns (steps: seq<Step>, s': State)
    requires t in s.threads && s.threads[t] == InStart(REQUEST, 0, ReadOnline(o)) && s.shared.locks.mu.None?
    requires |s.shared.children| == 1 && s.shared.core.process == Some(0)
    requires s.shared.children[0].alive && s.shared.children[0].monitor.Waiting?
    ensures Outcome(s, steps) == Some(s')
    ensures s'.threads == s.threads[t := InStart(REQUEST, 0, Launch(o, WaitOld(0, false)))]
    ensures |s'.shared.children| == 1 && !s'.shared.children[0].alive && Ready(s'.shared, 0)
    ensures s'.shared == s.shared.(core := s.shared.core.(config := Some(o)), children := s'.shared.children,
                                   locks := s.shared.locks.(mu := Some(t)))
  {
    var s1, p1 := SoloFirst(s.shared, t, s.threads[t], 3);
    var s2, p2 := SoloFirst(s1, t, p1, 2);
    var s3, p3 := SoloFirst(s2, t, p2, 1);
    SoloRuns(s, t, 3);
    var w := State(s.threads[t := p3], s3);
    var ends := [OfChild(0, Exits), OfChild(0, Reaps), OfChild(0, Sends)];
    var w1 := Take(w, ends[0]).value;
    var w2 := Take(w1, ends[1]).value;
    s' := Take(w2, ends[2]).value;
    assert Outcome(s', []) == Some(s');
    assert Outcome(w2, [OfChild(0, Sends)]) == Some(s');
    assert Outcome(w1, [OfChild(0, Reaps), OfChild(0, Sends)]) == Some(s');
    steps, s' := Then(s, Runs(t, 3), w, ends, s');
  }

  /** It spawns a new one, which gets the options read in the beginning. */
  lemma NewChildServes(s: State, t: Tid, o: TorrentOptions) returns (steps: seq<Step>, s': State)
    requires t in s.threads && s.threads[t] == InStart(REQUEST, 0, Launch(o, WaitOld(0, false)))
    requires |s.shared.children| == 1 && Ready(s.shared, 0) && s.shared.core.config == Some(o)
    ensures Outcome(s, steps) == Some(s') && s'.threads == s.threads[t := Done]
    ensures s'.shared.torrent == s.shared.torrent
    ensures s'.shared.children == s.shared.children + [Child(true, Waiting, Some(o), false)]
  {
    var fetch := [OfChild(1, Fetches)];
    var w: State;
    steps, w := NewChildStarts(s, t, o);
    var u := Take(w, fetch[0]).value;
    assert u.shared.children[1].alive && u.shared.children[1].served.Some? && Outcome(u, []) == Some(u);
    steps, s' := Then(s, steps, w, fetch, u);
    StartSettles(u.shared, t, REQUEST, o);
    SoloRuns(u, t, 8);
    steps, s' := Then(s, steps, u, Runs(t, 8), Outcome(u, Runs(t, 8)).value);
    assert s'.threads == s.threads[t := Done];
  }

  lemma NewChildStarts(s: State, t: Tid, o: TorrentOptions) returns (steps: seq<Step>, s': State)
    requires t in s.threads && s.threads[t] == InStart(REQUEST, 0, Launch(o, WaitOld(0, false)))
    requires |s.shared.children| == 1 && Ready(s.shared, 0) && s.shared.core.config == Some(o)
    ensures Outcome(s, steps) == Some(s')
    ensures s'.threads == s.threads[t := InStart(REQUEST, 0, Launch(o, WaitGrpc))]
    ensures s'.shared.children == s.shared.children + [Child(true, Waiting, None, false)]
    ensures s'.shared.torrent == s.shared.torrent && s'.shared.locks.mu.None? && s'.shared.core.config == Some(o)
  {
    var s1, p1 := SoloFirst(s.shared, t, s.threads[t], 3);
    var s2, p2 := SoloFirst(s1, t, p1, 2);
    var s3, p3 := SoloFirst(s2, t, p2, 1);
    SoloRuns(s, t, 3);
    steps, s' := Runs(t, 3), State(s.threads[t := p3], s3);
  }
}
