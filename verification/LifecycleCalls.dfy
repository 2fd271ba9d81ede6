/** What single calls come to: a Start, a Stop, a health check, and the restore after a boot, each on a
    machine that answers in a given way. */
module LifecycleCalls {
  import opened Lifecycle
  import opened LifecycleInvariants
  import opened LifecycleRuns
  import opened Wrappers

  // ---------------------------------------------------------------- some schedule

  /** Some schedule goes from one state to the other. */
  ghost predicate Leads(s: State, s': State) {
    exists steps :: Outcome(s, steps) == Some(s')
  }

  lemma LeadsStep(s: State, step: Step) returns (s': State)
    requires Take(s, step).Some?
    ensures Take(s, step) == Some(s') && Leads(s, s')
  {
    s' := Take(s, step).value;
    assert Outcome(s', []) == Some(s');
    assert Outcome(s, [step]) == Some(s');
  }

  lemma LeadsThen(a: State, b: State, c: State)
    requires Leads(a, b) && Leads(b, c)
    ensures Leads(a, c)
  {
    var steps :| Outcome(a, steps) == Some(b);
    var more :| Outcome(b, more) == Some(c);
    Extend(a, steps, more);
    assert Outcome(a, steps + more) == Some(c);
  }

  lemma LeadsAlone(s: State, t: Tid, n: nat) returns (s': State)
    requires t in s.threads && Solo(s.shared, t, s.threads[t], n).To?
    ensures var m := Solo(s.shared, t, s.threads[t], n); s' == State(s.threads[t := m.pc], m.shared)
    ensures Leads(s, s')
  {
    var m := Solo(s.shared, t, s.threads[t], n);
    s' := State(s.threads[t := m.pc], m.shared);
    SoloRuns(s, t, n);
    assert Outcome(s, Runs(t, n)) == Some(s');
  }

  lemma LeadsReached(settings: Settings, before: seq<Step>, s: State, s': State) returns (steps: seq<Step>)
    requires Reached(settings, before, s) && Leads(s, s')
    ensures Reached(settings, steps, s')
  {
    var more :| Outcome(s, more) == Some(s');
    Extend(FirstBoot(settings), before, more);
    steps := before + more;
  }

  /** A thread goes on. */
  function Goes(s: State, t: Tid, pc: Pc): State {
    s.(threads := s.threads[t := pc])
  }

  /** No lock is taken and no Start is under way. */
  predicate AtRest(s: Shared) {
    s.locks == Locks(None, None, None) && !s.core.startProcessing
  }

  /** Every call can be made at any time. */
  lemma CallsArePossible(s: State, t: Tid, req: StartRequest, clear: bool, kind: SyncKind)
    requires t !in s.threads
    ensures Take(s, Call(t, InStart(req, 0, Enter))) == Some(Goes(s, t, InStart(req, 0, Enter)))
    ensures Take(s, Call(t, InStop(clear, false, StopEnter))) == Some(Goes(s, t, InStop(clear, false, StopEnter)))
    ensures Take(s, Call(t, InHealth(HealthRead))) == Some(Goes(s, t, InHealth(HealthRead)))
    ensures Take(s, Call(t, InSync(SyncEnter(kind)))) == Some(Goes(s, t, InSync(SyncEnter(kind))))
    ensures Take(s, Call(t, BootLoad)) == Some(Goes(s, t, BootLoad))
  {
  }

  // ---------------------------------------------------------------- the parts of a Start

  lemma Begins(s: State, t: Tid, req: StartRequest, n: nat) returns (s': State)
    requires t in s.threads && s.threads[t] == InStart(req, n, Enter) && AtRest(s.shared)
    ensures Leads(s, s') && s'.threads == s.threads[t := InStart(req, n, ReadOnline(s.shared.torrent))]
    ensures s'.shared == Life(s.shared, Some(t)).(core := s.shared.core.(startProcessing := true))
  {
    var s1, p1 := SoloFirst(s.shared, t, s.threads[t], 5);
    var s2, p2 := SoloFirst(s1, t, p1, 4);
    var s3, p3 := SoloFirst(s2, t, p2, 3);
    var s4, p4 := SoloFirst(s3, t, p3, 2);
    var s5, p5 := SoloFirst(s4, t, p4, 1);
    s' := LeadsAlone(s, t, 5);
  }

  /** The old child, if any, is stopped and reaped. */
  lemma StopsOld(s: State, t: Tid, req: StartRequest, n: nat, o: TorrentOptions) returns (s': State)
    requires t in s.threads && s.threads[t] == InStart(req, n, Prepare(o)) && s.shared.locks.mu.None?
    requires s.shared.core.process.Some? ==> s.shared.core.process.value < |s.shared.children|
    ensures Leads(s, s') && s'.threads == s.threads[t := InStart(req, n, Launch(o, Spawn))]
    ensures |s'.shared.children| == |s.shared.children|
    ensures s'.shared == s.shared.(core := s.shared.core.(process := Option.None, online := false, config := Some(o)),
                                   children := s'.shared.children)
  {
    var s1, p1 := SoloFirst(s.shared, t, s.threads[t], 2);
    var s2, p2 := SoloFirst(s1, t, p1, 1);
    s' := LeadsAlone(s, t, 2);
    if s.shared.core.process.Some? {
      s' := OldStops(s, s', t, req, n, o, s.shared.core.process.value);
    }
  }

  lemma OldStops(a: State, s: State, t: Tid, req: StartRequest, n: nat, o: TorrentOptions, c: nat) returns (s': State)
    requires Leads(a, s) && t in s.threads && s.threads[t] == InStart(req, n, Launch(o, WaitOld(c, false)))
    requires c < |s.shared.children|
    ensures Leads(a, s') && s'.threads == s.threads[t := InStart(req, n, Launch(o, Spawn))]
    ensures |s'.shared.children| == |s.shared.children|
    ensures s'.shared == s.shared.(core := s.shared.core.(process := Option.None, online := false),
                                   locks := s.shared.locks.(mu := None), children := s'.shared.children)
  {
    DrainWorks(s, c);
    var u := Outcome(s, Drain(c, s.shared.children[c])).value;
    assert Leads(s, u);
    s' := LeadsStep(u, Run(t, true));
    LeadsThen(s, u, s');
    LeadsThen(a, s, s');
  }

  /** A new child is spawned and fetches the config. */
  lemma SpawnsNew(s: State, t: Tid, req: StartRequest, n: nat, o: TorrentOptions) returns (s': State)
    requires t in s.threads && s.threads[t] == InStart(req, n, Launch(o, Spawn)) && s.shared.locks.mu.None?
    requires s.shared.core.config == Some(o)
    ensures Leads(s, s') && s'.threads == s.threads[t := InStart(req, n, Launch(o, WaitGrpc))]
    ensures s'.shared == s.shared.(core := s.shared.core.(process := Some(|s.shared.children|), online := false),
                                   children := s.shared.children + [Child(true, Waiting, Some(o), false)])
  {
    var c := |s.shared.children|;
    var s1, p1 := SoloFirst(s.shared, t, s.threads[t], 2);
    var s2, p2 := SoloFirst(s1, t, p1, 1);
    var u := LeadsAlone(s, t, 2);
    assert u.shared.children == s.shared.children + [Child(true, Waiting, None, false)];
    s' := LeadsStep(u, OfChild(c, Fetches));
    assert s'.shared.children == s.shared.children + [Child(true, Waiting, Some(o), false)];
    LeadsThen(s, u, s');
  }

  /** What a successful Start leaves of the boot state. */
  function Kept(b: BootState, req: StartRequest): BootState {
    BootState(Disk(Some(Full(req)), None), b.log + [Started(req)] + [DiskOk], b.cut)
  }

  /** The disk calls of a save, one by one: the file is replaced by the last of them alone, and what a
      failed one leaves is a temporary file or, after the rename, nothing. */
  lemma SaveCalls(b: BootState, req: StartRequest)
    ensures SaveStep(b, req, Truncate, true) == b.(disk := Disk(b.disk.target, Some(Partial)))
    ensures SaveStep(b, req, Fill, true) == b.(disk := Disk(b.disk.target, Some(Full(req))))
    ensures SaveStep(b, req, Rename, true) == b.(disk := Disk(b.disk.temp, None), log := b.log + [DiskOk])
    ensures SaveStep(b, req, Truncate, false) == b.(cut := true) && SaveStep(b, req, Fill, false) == b.(cut := true)
    ensures SaveStep(b, req, Rename, false) == b.(disk := Disk(b.disk.target, None), cut := true)
  {
  }

  lemma SavesAll(b: BootState, req: StartRequest)
    ensures SaveStep(SaveStep(SaveStep(b, req, Truncate, true), req, Fill, true), req, Rename, true)
         == BootState(Disk(Some(Full(req)), None), b.log + [DiskOk], b.cut)
  {
  }

  /** The request is recorded and written to disk, and the locks are given back. */
  lemma Persists(s: State, t: Tid, req: StartRequest, n: nat) returns (s': State)
    requires t in s.threads && s.threads[t] == InStart(req, n, Persist) && s.shared.locks.mu.None?
    ensures Leads(s, s') && s'.threads == s.threads[t := Done]
    ensures s'.shared == Life(s.shared, None).(core := s.shared.core.(lastStart := Some(req), startProcessing := false),
                                               boot := Kept(s.shared.boot, req))
  {
    var u := LeadsStep(s, Run(t, true));
    var v := Writes(u, t, req, n);
    LeadsThen(s, u, v);
    s' := Ends(v, t, req, n, true);
    LeadsThen(s, v, s');
    assert s'.threads == s.threads[t := Done];
  }

  lemma Writes(s: State, t: Tid, req: StartRequest, n: nat) returns (s': State)
    requires t in s.threads && s.threads[t] == InStart(req, n, Save(Truncate))
    ensures Leads(s, s') && s'.threads == s.threads[t := InStart(req, n, Exit(true))]
    ensures s'.shared == s.shared.(
              boot := BootState(Disk(Some(Full(req)), None), s.shared.boot.log + [DiskOk], s.shared.boot.cut))
  {
    hide SaveStep;
    var s1, p1 := SoloFirst(s.shared, t, s.threads[t], 3);
    var s2, p2 := SoloFirst(s1, t, p1, 2);
    var s3, p3 := SoloFirst(s2, t, p2, 1);
    SavesAll(s.shared.boot, req);
    s' := LeadsAlone(s, t, 3);
  }

  /** The end of a Start. */
  lemma Ends(s: State, t: Tid, req: StartRequest, n: nat, started: bool) returns (s': State)
    requires t in s.threads && s.threads[t] == InStart(req, n, Exit(started)) && s.shared.locks.mu.None?
    requires started || n == 0
    ensures Leads(s, s') && s'.threads == s.threads[t := Done]
    ensures s'.shared == Life(s.shared, None).(core := s.shared.core.(startProcessing := false))
  {
    var s1, p1 := SoloFirst(s.shared, t, s.threads[t], 2);
    var s2, p2 := SoloFirst(s1, t, p1, 1);
    s' := LeadsAlone(s, t, 2);
  }

  lemma ComesOnline(s: State, t: Tid, req: StartRequest, n: nat, o: TorrentOptions) returns (s': State)
    requires t in s.threads && s.threads[t] == InStart(req, n, Launch(o, WaitGrpc)) && s.shared.locks.mu.None?
    requires Serving(s.shared)
    ensures Leads(s, s') && s'.threads == s.threads[t := InStart(req, n, Persist)]
    ensures s'.shared == s.shared.(core := s.shared.core.(online := true))
  {
    var s1, p1 := SoloFirst(s.shared, t, s.threads[t], 2);
    var s2, p2 := SoloFirst(s1, t, p1, 1);
    s' := LeadsAlone(s, t, 2);
  }

  /** From the preparation on, when all goes well: the old child is gone and a new one serves. */
  lemma Replaces(s: State, t: Tid, req: StartRequest, n: nat, o: TorrentOptions) returns (s': State)
    requires t in s.threads && s.threads[t] == InStart(req, n, Prepare(o)) && s.shared.locks.mu.None?
    requires s.shared.core.process.Some? ==> s.shared.core.process.value < |s.shared.children|
    ensures Leads(s, s') && s'.threads == s.threads[t := Done]
    ensures |s'.shared.children| == |s.shared.children| + 1
    ensures s'.shared.children[|s.shared.children|] == Child(true, Waiting, Some(o), false)
    ensures s'.shared == Life(s.shared, None).(
              core := Core(Some(|s.shared.children|), true, false, Some(o), Some(req)),
              children := s'.shared.children, boot := Kept(s.shared.boot, req))
  {
    var u := StopsOld(s, t, req, n, o);
    var v := SpawnsNew(u, t, req, n, o);
    LeadsThen(s, u, v);
    assert v.shared.children[|s.shared.children|].alive && v.shared.children[|s.shared.children|].served.Some?;
    var w := ComesOnline(v, t, req, n, o);
    LeadsThen(s, v, w);
    s' := Persists(w, t, req, n);
    LeadsThen(s, w, s');
    assert s'.threads == s.threads[t := Done];
  }

  // ---------------------------------------------------------------- a Start

  /** The running core is asked, and compared with the request, exactly if it is online, the check is not
      switched off, and no restart is forced. */
  lemma AsksCoreIff(s: State, t: Tid, req: StartRequest, n: nat, o: TorrentOptions, ok: bool)
    requires t in s.threads && s.threads[t] == InStart(req, n, ReadOnline(o)) && s.shared.locks.mu.None?
    ensures var asks := s.shared.core.online && !s.shared.settings.disableHashCheck && !req.forceRestart;
            Take(s, Run(t, ok)) == Some(Goes(s, t, InStart(req, n, if asks then Ping(o) else Prepare(o))))
  {
  }

  /** A Start that asks nothing replaces the core: at the end the one live child is a new one with the
      current options, and the request is what the next boot starts. */
  lemma StartReplacesCore(settings: Settings, before: seq<Step>, s: State, t: Tid, req: StartRequest, n: nat)
    returns (s': State)
    requires Reached(settings, before, s) && AtRest(s.shared)
    requires t in s.threads && s.threads[t] == InStart(req, n, Enter)
    requires req.forceRestart || settings.disableHashCheck || !s.shared.core.online
    ensures Leads(s, s') && s'.threads == s.threads[t := Done] && AtRest(s'.shared)
    ensures Replaced(s.shared, s'.shared, req)
  {
    ReachedInv(settings, before, s);
    var o := s.shared.torrent;
    var u := Begins(s, t, req, n);
    AsksCoreIff(u, t, req, n, o, true);
    var v := LeadsStep(u, Run(t, true));
    LeadsThen(s, u, v);
    s' := Replaces(v, t, req, n, o);
    LeadsThen(s, v, s');
    assert s'.threads == s.threads[t := Done];
    OnlyNewLives(settings, before, s, s', |s.shared.children|);
  }

  /** A core was replaced by one with the current options, on request `req`. */
  ghost predicate Replaced(was: Shared, now: Shared, req: StartRequest) {
    var c := |was.children|;
    && |now.children| == c + 1 && now.children[c] == Child(true, Waiting, Some(was.torrent), false)
    && (forall d | 0 <= d < c :: !now.children[d].alive)
    && now.core == Core(Some(c), true, false, Some(was.torrent), Some(req))
    && now.torrent == was.torrent && now.boot.disk.target == Some(Full(req))
    && now.boot.log == was.boot.log + [Started(req)] + [DiskOk]
  }

  lemma OnlyNewLives(settings: Settings, before: seq<Step>, s: State, s': State, c: nat)
    requires Reached(settings, before, s) && Leads(s, s')
    requires c < |s'.shared.children| && s'.shared.children[c].alive
    ensures forall d | 0 <= d < |s'.shared.children| && d != c :: !s'.shared.children[d].alive
  {
    var steps := LeadsReached(settings, before, s, s');
    OneChild(settings, steps, s');
  }

  /** A Start asks the core that is online. */
  lemma Asks(s: State, t: Tid, req: StartRequest, n: nat) returns (s': State)
    requires t in s.threads && s.threads[t] == InStart(req, n, Enter) && AtRest(s.shared)
    requires !req.forceRestart && !s.shared.settings.disableHashCheck && s.shared.core.online
    ensures Leads(s, s') && s'.threads == s.threads[t := InStart(req, n, Ping(s.shared.torrent))]
    ensures s'.shared == Life(s.shared, Some(t)).(core := s.shared.core.(startProcessing := true))
  {
    var u := Begins(s, t, req, n);
    AsksCoreIff(u, t, req, n, s.shared.torrent, true);
    s' := LeadsStep(u, Run(t, true));
    LeadsThen(s, u, s');
  }

  /** A core that is asked and does not answer is replaced too. */
  lemma SilentCoreReplaced(settings: Settings, before: seq<Step>, s: State, t: Tid, req: StartRequest, n: nat)
    returns (s': State)
    requires Reached(settings, before, s) && AtRest(s.shared)
    requires t in s.threads && s.threads[t] == InStart(req, n, Enter)
    requires !req.forceRestart && !settings.disableHashCheck && s.shared.core.online
    ensures Leads(s, s') && s'.threads == s.threads[t := Done] && AtRest(s'.shared)
    ensures Replaced(s.shared, s'.shared, req)
  {
    hide Inv;
    ReachedInv(settings, before, s);
    ProcessKnown(s);
    var u := Asks(s, t, req, n);
    var v := LeadsStep(u, Run(t, false));
    LeadsThen(s, u, v);
    u := LeadsStep(v, Run(t, true));
    LeadsThen(s, v, u);
    s' := Replaces(u, t, req, n, s.shared.torrent);
    LeadsThen(s, u, s');
    assert s'.threads == s.threads[t := Done];
    OnlyNewLives(settings, before, s, s', |s.shared.children|);
  }

  lemma ProcessKnown(s: State)
    requires Inv(s)
    ensures s.shared.core.process.Some? ==> s.shared.core.process.value < |s.shared.children|
  {
  }

  /** A core that answers and needs a restart is replaced as well. */
  lemma ChangedCoreReplaced(settings: Settings, before: seq<Step>, s: State, t: Tid, req: StartRequest, n: nat)
    returns (s': State)
    requires Reached(settings, before, s) && AtRest(s.shared) && Serving(s.shared)
    requires t in s.threads && s.threads[t] == InStart(req, n, Enter)
    requires !req.forceRestart && !settings.disableHashCheck && s.shared.core.online
    ensures Leads(s, s') && s'.threads == s.threads[t := Done] && AtRest(s'.shared)
    ensures Replaced(s.shared, s'.shared, req)
  {
    hide Inv;
    ReachedInv(settings, before, s);
    ProcessKnown(s);
    var u := Asks(s, t, req, n);
    var v := LeadsStep(u, Run(t, true));
    LeadsThen(s, u, v);
    u := LeadsStep(v, Run(t, true));
    LeadsThen(s, v, u);
    s' := Replaces(u, t, req, n, s.shared.torrent);
    LeadsThen(s, u, s');
    assert s'.threads == s.threads[t := Done];
    OnlyNewLives(settings, before, s, s', |s.shared.children|);
  }

  /** A core that answers and needs no restart is left alone: only the config and the request are
      recorded. */
  lemma SameCoreAdopted(s: State, t: Tid, req: StartRequest, n: nat) returns (s': State)
    requires AtRest(s.shared) && Serving(s.shared)
    requires t in s.threads && s.threads[t] == InStart(req, n, Enter)
    requires !req.forceRestart && !s.shared.settings.disableHashCheck && s.shared.core.online
    ensures Leads(s, s') && s'.threads == s.threads[t := Done]
    ensures s'.shared == s.shared.(core := s.shared.core.(config := Some(s.shared.torrent), lastStart := Some(req)),
                                   boot := Kept(s.shared.boot, req))
  {
    var u := Asks(s, t, req, n);
    var v := LeadsStep(u, Run(t, true));
    LeadsThen(s, u, v);
    u := LeadsStep(v, Run(t, false));
    LeadsThen(s, v, u);
    v := LeadsStep(u, Run(t, true));
    LeadsThen(s, u, v);
    s' := Persists(v, t, req, n);
    LeadsThen(s, v, s');
    assert s'.threads == s.threads[t := Done];
  }

  // ---------------------------------------------------------------- a Start that fails

  /** While another call owns `lifecycleMu`, or without a log directory, a Start is turned away at once. */
  lemma StartRejected(s: State, t: Tid, req: StartRequest, ok: bool)
    requires t in s.threads && s.threads[t] == InStart(req, 0, Enter) && (s.shared.locks.life.Some? || !ok)
    ensures Take(s, Run(t, ok)) == Some(Goes(s, t, Done))
  {
  }

  /** A preparation that fails leaves core, children and boot file alone. */
  lemma FailedPreparationChangesNothing(s: State, t: Tid, req: StartRequest) returns (s': State)
    requires AtRest(s.shared) && t in s.threads && s.threads[t] == InStart(req, 0, Enter)
    requires req.forceRestart || s.shared.settings.disableHashCheck || !s.shared.core.online
    ensures Leads(s, s') && s' == Goes(s, t, Done)
  {
    var u := Begins(s, t, req, 0);
    AsksCoreIff(u, t, req, 0, s.shared.torrent, true);
    var v := LeadsStep(u, Run(t, true));
    LeadsThen(s, u, v);
    u := LeadsStep(v, Run(t, false));
    LeadsThen(s, v, u);
    v := Ends(u, t, req, 0, false);
    LeadsThen(s, u, v);
    s' := v;
    assert s'.threads == s.threads[t := Done];
    assert s'.shared == s.shared;
  }

  /** A new child that does not answer in time is stopped again, and nothing is recorded. */
  lemma LateChildStopped(s: State, t: Tid, req: StartRequest, o: TorrentOptions) returns (s': State)
    requires t in s.threads && s.threads[t] == InStart(req, 0, Launch(o, WaitGrpc)) && s.shared.locks.mu.None?
    requires s.shared.core.process.Some? && s.shared.core.process.value < |s.shared.children|
    ensures Leads(s, s') && s'.threads == s.threads[t := Done] && Ready(s'.shared, s.shared.core.process.value)
    ensures s'.shared == Life(s.shared, None).(
              core := s.shared.core.(process := Option.None, online := false, startProcessing := false),
              children := s'.shared.children)
  {
    var u := LeadsStep(s, Run(t, false));
    var v := LeadsStep(u, Run(t, true));
    LeadsThen(s, u, v);
    u := NewStops(v, t, req, o, s.shared.core.process.value);
    LeadsThen(s, v, u);
    s' := Ends(u, t, req, 0, false);
    LeadsThen(s, u, s');
    assert s'.threads == s.threads[t := Done];
  }

  lemma NewStops(s: State, t: Tid, req: StartRequest, o: TorrentOptions, c: nat) returns (s': State)
    requires t in s.threads && s.threads[t] == InStart(req, 0, Launch(o, WaitNew(c, false))) && c < |s.shared.children|
    ensures Leads(s, s') && s'.threads == s.threads[t := InStart(req, 0, Exit(false))] && Ready(s'.shared, c)
    ensures s'.shared == s.shared.(core := s.shared.core.(process := Option.None, online := false),
                                   locks := s.shared.locks.(mu := None), children := s'.shared.children)
  {
    DrainWorks(s, c);
    var u := Outcome(s, Drain(c, s.shared.children[c])).value;
    assert Leads(s, u);
    s' := LeadsStep(u, Run(t, true));
    LeadsThen(s, u, s');
  }

  // ---------------------------------------------------------------- a Stop

  /** A Stop on a machine where everything works leaves no child alive.  With `clear` the boot file and
      the recorded request are gone; without, the file holds the recorded request, if there is one. */
  lemma StopStops(settings: Settings, before: seq<Step>, s: State, t: Tid, clear: bool) returns (s': State)
    requires Reached(settings, before, s) && AtRest(s.shared)
    requires t in s.threads && s.threads[t] == InStop(clear, false, StopEnter)
    ensures Leads(s, s') && s'.threads == s.threads[t := Done] && s'.shared.locks == s.shared.locks
    ensures forall d | 0 <= d < |s'.shared.children| :: !s'.shared.children[d].alive
    ensures s'.shared.core == Core(Option.None, false, false, None, if clear then None else s.shared.core.lastStart)
    ensures s'.shared.boot.disk.target
         == if clear then None
            else if s.shared.core.lastStart.Some? then Some(Full(s.shared.core.lastStart.value))
            else s.shared.boot.disk.target
  {
    hide Inv;
    ReachedInv(settings, before, s);
    ProcessKnown(s);
    var u: State;
    if clear { u := LeadsStep(s, Run(t, true)); } else { u := Flushes(s, t); }
    var v := StopsChild(u, t, clear);
    LeadsThen(s, u, v);
    if clear { s' := Clears(v, t); } else { s' := LeadsStep(v, Run(t, true)); }
    LeadsThen(s, v, s');
    assert s'.threads == s.threads[t := Done];
    NoneLives(settings, before, s, s');
  }

  /** The recorded request is written again. */
  lemma Flushes(s: State, t: Tid) returns (s': State)
    requires AtRest(s.shared) && t in s.threads && s.threads[t] == InStop(false, false, StopEnter)
    ensures Leads(s, s') && s'.threads == s.threads[t := InStop(false, false, StopChild)]
    ensures s'.shared == Life(s.shared, Some(t)).(boot := s'.shared.boot)
    ensures s'.shared.boot.disk.target == if s.shared.core.lastStart.Some?
                                          then Some(Full(s.shared.core.lastStart.value)) else s.shared.boot.disk.target
  {
    hide SaveStep;
    var n := if s.shared.core.lastStart.Some? then 5 else 2;
    var s1, p1 := SoloFirst(s.shared, t, s.threads[t], n);
    var s2, p2 := SoloFirst(s1, t, p1, n - 1);
    if s.shared.core.lastStart.Some? {
      var s3, p3 := SoloFirst(s2, t, p2, 3);
      var s4, p4 := SoloFirst(s3, t, p3, 2);
      var s5, p5 := SoloFirst(s4, t, p4, 1);
      SavesAll(s.shared.boot, s.shared.core.lastStart.value);
    }
    s' := LeadsAlone(s, t, n);
  }

  lemma StopsChild(s: State, t: Tid, clear: bool) returns (s': State)
    requires t in s.threads && s.threads[t] == InStop(clear, false, StopChild) && s.shared.locks.mu.None?
    requires s.shared.core.process.Some? ==> s.shared.core.process.value < |s.shared.children|
    ensures Leads(s, s') && s'.threads == s.threads[t := InStop(clear, false, if clear then Remove else StopUnlock)]
    ensures s'.shared == s.shared.(
              core := s.shared.core.(process := Option.None, online := false, config := None,
                                     lastStart := if clear then None else s.shared.core.lastStart),
              boot := s.shared.boot.(log := s.shared.boot.log + if clear then [Cleared] else []),
              children := s'.shared.children)
  {
    s' := LeadsStep(s, Run(t, true));
    if s.shared.core.process.Some? {
      var c := s.shared.core.process.value;
      var v := s';
      DrainWorks(v, c);
      var u := Outcome(v, Drain(c, v.shared.children[c])).value;
      assert Leads(v, u);
      LeadsThen(s, v, u);
      s' := LeadsStep(u, Run(t, true));
      LeadsThen(s, u, s');
    }
    assert s'.threads == s.threads[t := InStop(clear, false, if clear then Remove else StopUnlock)];
  }

  lemma Clears(s: State, t: Tid) returns (s': State)
    requires t in s.threads && s.threads[t] == InStop(true, false, Remove)
    ensures Leads(s, s') && s'.threads == s.threads[t := Done]
    ensures s'.shared == Life(s.shared, None).(boot := s'.shared.boot) && s'.shared.boot.disk.target == None
  {
    var s1, p1 := SoloFirst(s.shared, t, s.threads[t], 2);
    var s2, p2 := SoloFirst(s1, t, p1, 1);
    s' := LeadsAlone(s, t, 2);
  }

  lemma NoneLives(settings: Settings, before: seq<Step>, s: State, s': State)
    requires Reached(settings, before, s) && Leads(s, s') && s'.shared.core.process.None? && s'.shared.locks.mu.None?
    ensures forall d | 0 <= d < |s'.shared.children| :: !s'.shared.children[d].alive
  {
    var steps := LeadsReached(settings, before, s, s');
    OneChild(settings, steps, s');
  }

  // ---------------------------------------------------------------- what goes wrong

  /** The three places where a child is waited for. */
  predicate WaitsFor(pc: Pc, c: nat, killed: bool) {
    match pc
    case InStart(_, _, Launch(_, at)) => at == WaitOld(c, killed) || at == WaitNew(c, killed)
    case InStop(_, _, at) => at == StopWait(c, killed)
    case _ => false
  }

  /** A child that does not end in time is killed and waited for once more, and only then given up. */
  lemma GivenUpAfterKill(s: State, t: Tid, c: nat, killed: bool)
    requires t in s.threads && WaitsFor(s.threads[t], c, killed) && c < |s.shared.children|
    ensures Take(s, Run(t, false)).Some?
    ensures var s' := Take(s, Run(t, false)).value;
            if killed
            then s'.shared.children == s.shared.children[c := s.shared.children[c].(abandoned := true)]
                 && s'.shared.locks.mu.None?
            else s'.shared == s.shared && WaitsFor(s'.threads[t], c, true)
                 && (s.threads[t].InStart? ==> s'.threads[t].InStart? && s'.threads[t].req == s.threads[t].req
                                               && s'.threads[t].attempt == s.threads[t].attempt)
                 && (s.threads[t].InStop? ==> s'.threads[t].InStop?
                                              && s'.threads[t].clearPersist == s.threads[t].clearPersist
                                              && s'.threads[t].bySync == s.threads[t].bySync)
  {
  }

  /** A Start that fails once the old child is gone leaves no core that is taken for online. */
  lemma FailedLaunchIsOffline(s: State, t: Tid, req: StartRequest, n: nat, o: TorrentOptions, at: LaunchAt, ok: bool)
    requires t in s.threads && s.threads[t] == InStart(req, n, Launch(o, at)) && !at.StopOld? && !at.WaitOld?
    requires Take(s, Run(t, ok)).Some? && Take(s, Run(t, ok)).value.threads[t] == InStart(req, n, Exit(false))
    ensures !Take(s, Run(t, ok)).value.shared.core.online
  {
  }

  /** A core that does not answer is no longer taken for online, even if the preparation then fails. */
  lemma SilentCoreIsOffline(s: State, t: Tid, req: StartRequest, n: nat, o: TorrentOptions) returns (s': State)
    requires t in s.threads && s.threads[t] == InStart(req, n, Ping(o)) && s.shared.locks.mu.None?
    ensures Leads(s, s') && s'.threads == s.threads[t := InStart(req, n, Prepare(o))]
    ensures s'.shared == s.shared.(core := s.shared.core.(online := false))
  {
    var u := LeadsStep(s, Run(t, false));
    s' := LeadsStep(u, Run(t, true));
    LeadsThen(s, u, s');
    assert s'.threads == s.threads[t := InStart(req, n, Prepare(o))];
  }

  /** A request that cannot be written to the disk has been started all the same. */
  lemma FailedSaveIsStarted(s: State, t: Tid, req: StartRequest, n: nat, at: SaveAt) returns (s': State)
    requires t in s.threads && s.threads[t] == InStart(req, n, Save(at)) && s.shared.locks.mu.None?
    ensures Leads(s, s') && s'.threads == s.threads[t := Done]
    ensures s'.shared.core == s.shared.core.(startProcessing := false)
    ensures s'.shared.boot.cut && s'.shared.boot.disk.target == s.shared.boot.disk.target
  {
    var u := LeadsStep(s, Run(t, false));
    s' := Ends(u, t, req, n, true);
    LeadsThen(s, u, s');
    assert s'.threads == s.threads[t := Done];
  }

  /** A child that ended is forgotten by its monitor, unless another one is known by then. */
  lemma EndedChildForgotten(s: Shared, c: nat)
    requires c < |s.children| && s.children[c].monitor.Sent? && s.locks.mu.None?
    ensures ChildMove(s, c, Finishes).Some?
    ensures var core := ChildMove(s, c, Finishes).value.core;
            core == if s.core.process == Some(c) then s.core.(process := Option.None, online := false) else s.core
  {
  }

  // ---------------------------------------------------------------- a plugin sync

  /** The settings are published before anything else is done about them: those of an enabled blocker as
      they are, nothing of one that is off. */
  lemma SyncPublishesFirst(s: State, t: Tid, kind: SyncKind, prev: TorrentOptions, ok: bool)
    requires t in s.threads && s.threads[t] == InSync(Apply(kind, prev))
    ensures Take(s, Run(t, ok)).Some?
    ensures var now := Take(s, Run(t, ok)).value.shared.torrent;
            && (kind.Update? && kind.opts.enabled ==> now == kind.opts)
            && (kind.Clear? || !kind.opts.enabled ==> now == TorrentOptions(false, "", 0.0))
  {
  }

  lemma FailedSyncPublishesNothing(s: State, t: Tid, prev: TorrentOptions)
    requires t in s.threads && s.threads[t] == InSync(Nft(prev)) && !s.shared.settings.nftWorks
    ensures Take(s, Run(t, false))
         == Some(Goes(s.(shared := s.shared.(torrent := TorrentOptions(false, "", 0.0))), t, InSync(SyncFinish)))
  {
  }

  /** A blocker that goes off is taken out of a core that is online and has loaded its config, and no core
      is stopped then; if that does not work the core is stopped. */
  lemma RuleTakenOut(s: State, t: Tid, prev: TorrentOptions, now: TorrentOptions, ok: bool)
    requires t in s.threads && s.threads[t] == InSync(Decide(prev, now))
    requires prev.enabled && now == TorrentOptions(false, "", 0.0)
    ensures var works := ok && s.shared.core.online && Serving(s.shared)
                         && (s.shared.settings.removalApart ==> !s.shared.core.startProcessing);
            && Take(s, Run(t, ok)).Some?
            && var s' := Take(s, Run(t, ok)).value;
            && s'.threads == s.threads[t := InSync(if works then SyncFinish else CheckOnline)]
            && s'.shared == s.shared.(children := s'.shared.children)
            && |s'.shared.children| == |s.shared.children|
            && forall c | 0 <= c < |s.shared.children| ::
                 var x := s.shared.children[c];
                 s'.shared.children[c]
                 == if works && x.alive && x.served.Some? then x.(served := Some(TorrentOptions(false, "", 0.0))) else x
  {
  }

  /** A sync that asks for a restart stops the core exactly when there is one, or one is being started. */
  lemma SyncStopsIff(s: State, t: Tid, ok: bool)
    requires t in s.threads && s.threads[t] == InSync(CheckOnline) && s.shared.locks.mu.None?
    ensures Take(s, Run(t, ok))
         == Some(Goes(s, t, if s.shared.core.online || s.shared.core.process.Some? || s.shared.core.startProcessing
                            then InStop(false, true, StopEnter) else InSync(SyncFinish)))
  {
  }

  // ---------------------------------------------------------------- a health check

  /** A health check asks the core if there is a child or one was online, and records the answer. */
  lemma HealthRecords(s: State, t: Tid, answers: bool) returns (s': State)
    requires t in s.threads && s.threads[t] == InHealth(HealthRead) && s.shared.locks.mu.None?
    requires answers ==> Serving(s.shared)
    ensures Leads(s, s') && s'.threads == s.threads[t := Done]
    ensures var asks := s.shared.core.process.Some? || s.shared.core.online;
            s'.shared == s.shared.(core := s.shared.core.(online := asks && answers))
  {
    var u := LeadsStep(s, Run(t, true));
    if s.shared.core.process.Some? || s.shared.core.online {
      var v := LeadsStep(u, Run(t, answers));
      LeadsThen(s, u, v);
      u := v;
    }
    s' := LeadsStep(u, Run(t, true));
    LeadsThen(s, u, s');
    assert s'.threads == s.threads[t := Done];
  }

  // ---------------------------------------------------------------- the restore after a boot

  /** What the boot file is to bring back, read off the log: the last request that was started, with the
      restart no longer forced, unless it has no config or a Stop(true) came later. */
  lemma {:induction false} LatestIs(log: seq<Event>, r: StartRequest)
    ensures Latest(log) == Some(r)
       <==> exists i, q :: LastStarted(log, i, q) && q.xrayConfig != [] && r == q.(forceRestart := false)
  {
    if log != [] {
      var n := |log| - 1;
      LatestIs(log[..n], r);
      match log[n]
      case Started(q) =>
        assert LastStarted(log, n, q);
      case Cleared =>
      case DiskOk =>
        forall i, q ensures LastStarted(log, i, q) <==> LastStarted(log[..n], i, q) {
        }
    }
  }

  /** Event `i` is the start of `q`, and no other start and no Stop(true) came later. */
  predicate LastStarted(log: seq<Event>, i: int, q: StartRequest) {
    0 <= i < |log| && log[i] == Started(q) && forall j | i < j < |log| :: log[j].DiskOk?
  }

  /** The file may denote what was the latest wish at some point since disk work last completed. */
  lemma {:induction false} AllowedIs(log: seq<Event>, wish: Option<StartRequest>)
    ensures wish in Allowed(log) <==> exists i :: LatestAt(log, i, wish)
  {
    if log == [] {
      assert LatestAt(log, 0, None);
      assert forall i :: LatestAt(log, i, wish) ==> log[..i] == [];
    } else {
      var n := |log| - 1;
      AllowedIs(log[..n], wish);
      assert log[..|log|] == log;
      assert LatestAt(log, |log|, wish) <==> Latest(log) == wish;
      forall i | i <= n ensures LatestAt(log, i, wish) <==> !log[n].DiskOk? && LatestAt(log[..n], i, wish) {
        if 0 <= i { assert log[..n][..i] == log[..i]; }
      }
    }
  }

  /** The wish was the latest after the first `i` events, and no disk work completed since. */
  predicate LatestAt(log: seq<Event>, i: int, wish: Option<StartRequest>) {
    0 <= i <= |log| && Latest(log[..i]) == wish && forall j | i <= j < |log| :: !log[j].DiskOk?
  }

  /** What is loaded is the latest request, and it is started; with nothing to start the restore ends. */
  lemma RestoreLoadsLatest(settings: Settings, before: seq<Step>, s: State, t: Tid)
    requires Reached(settings, before, s) && t in s.threads && s.threads[t] == BootLoad
    requires Settled(s.shared.boot.log) || (s.shared.locks.life.None? && !s.shared.boot.cut)
    ensures var latest := Latest(s.shared.boot.log);
            Take(s, Run(t, true))
            == Some(Goes(s, t, if latest.Some? then InStart(latest.value, 1, Enter) else Done))
    ensures Take(s, Run(t, false)) == Some(Goes(s, t, Done))
  {
    BootFileExact(settings, before, s);
  }

  /** In any case only something that was wished for is started. */
  lemma RestoreLoadsAllowed(settings: Settings, before: seq<Step>, s: State, t: Tid, ok: bool)
    requires Reached(settings, before, s) && t in s.threads && s.threads[t] == BootLoad
    ensures Take(s, Run(t, ok)).Some? && Take(s, Run(t, ok)).value.shared == s.shared
    ensures var pc := Take(s, Run(t, ok)).value.threads[t];
            pc == Done || (pc.InStart? && Some(pc.req) in Allowed(s.shared.boot.log) && pc == InStart(pc.req, 1, Enter))
  {
    BootFileAllowed(settings, before, s);
  }

  /** A step that ends an attempt of the restore leads to a retry of the same request, after the tenth to
      the end; and a retry leads to the next attempt. */
  lemma RestoreRetries(s: State, t: Tid, ok: bool)
    requires t in s.threads && Take(s, Run(t, ok)).Some?
    ensures var pc, pc' := s.threads[t], Take(s, Run(t, ok)).value.threads[t];
            && (pc.InStart? && 1 <= pc.attempt < 10 && !pc'.InStart? ==>
                  pc' == BootRetry(pc.req, pc.attempt) || (pc' == Done && pc.start == Unlock(true)))
            && (pc.InStart? && pc.attempt >= 10 && !pc'.InStart? ==> pc' == Done)
            && (pc.InStart? && pc'.InStart? ==> pc'.req == pc.req && pc'.attempt == pc.attempt)
            && (pc.BootRetry? ==> pc' == if ok then InStart(pc.req, pc.attempt + 1, Enter) else Done)
  {
    var pc := s.threads[t];
    if pc.InStart? {
      StartEnds(s.shared, t, pc.req, pc.attempt, pc.start, ok);
    }
  }

  lemma StartEnds(s: Shared, t: Tid, req: StartRequest, n: nat, at: StartAt, ok: bool)
    requires StartStep(s, t, req, n, at, ok).To?
    ensures var pc := StartStep(s, t, req, n, at, ok).pc;
            if pc.InStart? then pc.req == req && pc.attempt == n
            else if at == Unlock(true) then pc == Done
            else pc == if n == 0 || n >= 10 then Done else BootRetry(req, n)
  {
  }

  /** If every attempt is turned away, the restore is over after ten of them and no earlier. */
  lemma {:induction false} TenAttempts(s: State, t: Tid, req: StartRequest, n: nat) returns (s': State)
    requires t in s.threads && s.threads[t] == InStart(req, n, Enter) && s.shared.locks.life.Some? && 1 <= n <= 10
    ensures Outcome(s, Runs(t, 2 * (10 - n) + 1)) == Some(Goes(s, t, Done))
    decreases 10 - n
  {
    s' := Goes(s, t, Done);
    if n == 10 {
      assert Runs(t, 1) == [Run(t, true)];
      assert Outcome(s', []) == Some(s');
    } else {
      var u := Goes(s, t, BootRetry(req, n));
      var v := Goes(s, t, InStart(req, n + 1, Enter));
      assert Take(s, Run(t, true)) == Some(u);
      assert u.threads[t := InStart(req, n + 1, Enter)] == v.threads;
      assert Take(u, Run(t, true)) == Some(v);
      var k := 2 * (10 - n) + 1;
      assert Runs(t, k)[0] == Run(t, true) && Runs(t, k)[1..] == Runs(t, k - 1);
      assert Runs(t, k - 1)[0] == Run(t, true) && Runs(t, k - 1)[1..] == Runs(t, k - 2);
      var _ := TenAttempts(v, t, req, n + 1);
      assert v.threads[t := Done] == s'.threads;
    }
  }

  /** After a reboot, the restore on a machine where everything works brings the latest request back: one
      live core on the current options, and the request is kept for the next boot. */
  lemma RestoreServes(settings: Settings, before: seq<Step>, down: State, t: Tid, r: StartRequest) returns (s': State)
    requires Reached(settings, before, down)
    requires var b := Rebooted(down).shared.boot; (Settled(b.log) || !b.cut) && Latest(b.log) == Some(r)
    ensures var s := Rebooted(down);
            Take(s, Call(t, BootLoad)).Some? && Leads(Take(s, Call(t, BootLoad)).value, s')
    ensures s'.threads == map[t := Done] && AtRest(s'.shared)
    ensures s'.shared.children == [Child(true, Waiting, Some(s'.shared.torrent), false)]
    ensures s'.shared.core == Core(Some(0), true, false, Some(s'.shared.torrent), Some(r))
    ensures s'.shared.torrent == DISABLED && Denotes(s'.shared.boot.disk.target) == Some(r)
  {
    var s := LeadsStep(down, Reboot);
    var u := LeadsStep(s, Call(t, BootLoad));
    LeadsThen(down, s, u);
    var steps := LeadsReached(settings, before, down, u);
    RestoreLoadsLatest(settings, steps, u, t);
    var v := LeadsStep(u, Run(t, true));
    var more := LeadsReached(settings, steps, u, v);
    s' := StartReplacesCore(settings, more, v, t, r, 1);
    LeadsThen(u, v, s');
    assert s'.threads == map[t := Done];
    LatestMeans(s.shared.boot.log, r);
  }

  lemma LatestMeans(log: seq<Event>, r: StartRequest)
    requires Latest(log) == Some(r)
    ensures r.xrayConfig != [] && !r.forceRestart && Meaning(r) == Some(r)
  {
    LatestIs(log, r);
  }
}
