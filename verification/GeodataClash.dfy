/** Why no geodata file may be called like another one with ".download" behind it: the download of
    the one then removes the other. */
module GeodataClash {
  import opened Geodata
  import opened GeodataPool
  import opened Wrappers

  const ANSWER: Answer := Full([2])

  /** A state some schedule leads to. */
  ghost predicate Leads(plan: Plan, s: State, t: State)
    requires ValidPlan(plan) && Shape(plan, s)
  {
    Shape(plan, t) && exists schedule :: Exec(plan, s, schedule) == Some(t)
  }

  lemma LeadsOn(plan: Plan, s: State, t: State, a: Action) returns (u: State)
    requires ValidPlan(plan) && Shape(plan, s) && Leads(plan, s, t) && Enabled(plan, t, a)
    ensures Leads(plan, s, u) && u == Do(plan, t, a) && |u.workers| == |t.workers|
  {
    hide Shape, Do, Enabled;
    var schedule :| Exec(plan, s, schedule) == Some(t);
    assert Placed(plan, t) by { ShapePlaces(plan, t); }
    u := Do(plan, t, a);
    DoKeepsShape(plan, t, a);
    assert (schedule + [a])[..|schedule|] == schedule;
    assert Exec(plan, s, schedule + [a]) == Some(u);
  }

  /** Nothing but worker 0 and the files differ. */
  predicate AsideFrom0(s: State, t: State) {
    && |s.workers| == |t.workers| && s.sent == t.sent && s.closed == t.closed && s.cancelled == t.cancelled
    && forall w | 0 < w < |s.workers| :: t.workers[w] == s.workers[w]
  }

  /** What one group does to the files when every download succeeds. */
  predicate GroupEffect(file: FileName, before: Files, after: Files) {
    if NonEmpty(At(before, file)) then after == before
    else At(after, file) == Some([2]) && At(after, Temporary(file)) == None
  }

  ghost predicate OnlyPaths(file: FileName, before: Files, after: Files) {
    forall name :: name != file && name != Temporary(file) ==> At(after, name) == At(before, name)
  }

  lemma AssetRun(plan: Plan, s: State, t: State, g: nat, k: nat) returns (u: State)
    requires ValidPlan(plan) && Shape(plan, s) && Leads(plan, s, t) && t.workers != [] && !t.cancelled
    requires t.workers[0] == Next(g, k) && g < |plan| && k < |plan[g]|
    ensures Leads(plan, s, u) && AsideFrom0(t, u) && u.workers[0] == Next(g, k + 1)
    ensures GroupEffect(FileOf(plan[g]), t.files, u.files) && OnlyPaths(FileOf(plan[g]), t.files, u.files)
  {
    hide Shape, Leads, ValidPlan;
    u := Move(plan, s, t, Check(g, k), t.files);
    if NonEmpty(At(t.files, FileOf(plan[g]))) {
      u := Move(plan, s, u, Next(g, k + 1), t.files);
    } else {
      u := DownloadRun(plan, s, u, g, k);
    }
  }

  lemma DownloadRun(plan: Plan, s: State, t: State, g: nat, k: nat) returns (u: State)
    requires ValidPlan(plan) && Shape(plan, s) && Leads(plan, s, t) && t.workers != [] && !t.cancelled
    requires t.workers[0] == Check(g, k) && g < |plan| && k < |plan[g]| && !NonEmpty(At(t.files, FileOf(plan[g])))
    ensures Leads(plan, s, u) && AsideFrom0(t, u) && u.workers[0] == Next(g, k + 1)
    ensures GroupEffect(FileOf(plan[g]), t.files, u.files) && OnlyPaths(FileOf(plan[g]), t.files, u.files)
  {
    hide Shape, Leads, ValidPlan;
    var file, tmp := FileOf(plan[g]), Temporary(FileOf(plan[g]));
    assert |tmp| != |file|;
    var cleared := t.files - {tmp};
    u := Move(plan, s, t, Asking(g, k), t.files);
    u := Move(plan, s, u, Creating(g, k, ANSWER), cleared);
    u := Move(plan, s, u, Writing(g, k, ANSWER), cleared[tmp := []]);
    u := Move(plan, s, u, Renaming(g, k, ANSWER), cleared[tmp := []][tmp := [2]]);
    var last := cleared[tmp := []][tmp := [2]];
    u := Move(plan, s, u, Next(g, k + 1), (last - {tmp})[file := [2]]);
  }

  lemma LeadsPlaces(plan: Plan, s: State, t: State)
    requires ValidPlan(plan) && Shape(plan, s) && Leads(plan, s, t)
    ensures Placed(plan, t)
  {
  }

  /** Worker 0 takes the given step. */
  lemma Move(plan: Plan, s: State, t: State, pc: Pc, files: Files) returns (u: State)
    requires ValidPlan(plan) && Shape(plan, s) && Leads(plan, s, t) && t.workers != [] && Busy(t.workers[0])
    requires t.workers[0].g < |plan|
    requires var was := t.workers[0];
             var e := Step(FileOf(plan[was.g]), |plan[was.g]|, t.files, t.cancelled, was, ANSWER);
             e.pc == pc && e.files == files
    ensures Leads(plan, s, u) && AsideFrom0(t, u) && u.workers[0] == pc && u.files == files
  {
    hide Shape, Step, Leads, ValidPlan;
    assert Placed(plan, t) by { LeadsPlaces(plan, s, t); }
    u := LeadsOn(plan, s, t, Work(0, ANSWER));
  }

  lemma {:induction false} AssetsRun(plan: Plan, s: State, t: State, g: nat, k: nat) returns (u: State)
    requires ValidPlan(plan) && Shape(plan, s) && Leads(plan, s, t) && t.workers != [] && !t.cancelled
    requires t.workers[0] == Next(g, k) && g < |plan| && k < |plan[g]|
    ensures Leads(plan, s, u) && AsideFrom0(t, u) && u.workers[0] == Next(g, |plan[g]|)
    ensures GroupEffect(FileOf(plan[g]), t.files, u.files) && OnlyPaths(FileOf(plan[g]), t.files, u.files)
    decreases |plan[g]| - k
  {
    hide Shape, Leads, ValidPlan;
    u := AssetRun(plan, s, t, g, k);
    if k + 1 < |plan[g]| {
      u := AssetsRun(plan, s, u, g, k + 1);
    }
  }

  predicate Waits(s: State, g: nat) {
    && s.workers != [] && s.sent == g && !s.closed && !s.cancelled
    && forall w | 0 <= w < |s.workers| :: s.workers[w].Idle?
  }

  /** Worker 0 deals with the next group while the others wait. */
  lemma GroupRun(plan: Plan, s: State, t: State, g: nat) returns (u: State)
    requires ValidPlan(plan) && Shape(plan, s) && Leads(plan, s, t) && Waits(t, g) && g < |plan|
    ensures Leads(plan, s, u) && Waits(u, g + 1)
    ensures GroupEffect(FileOf(plan[g]), t.files, u.files) && OnlyPaths(FileOf(plan[g]), t.files, u.files)
  {
    hide Shape, Leads;
    assert Placed(plan, t) by { LeadsPlaces(plan, s, t); }
    u := LeadsOn(plan, s, t, Send(0));
    u := AssetsRun(plan, s, u, g, 0);
    u := Move(plan, s, u, Idle, u.files);
  }

  /** Every file of the plan has content, except one. */
  ghost predicate AllBut(plan: Plan, h: nat, init: Files)
    requires ValidPlan(plan) && h < |plan|
  {
    && At(init, FileOf(plan[h])) == None
    && forall g | 0 <= g < |plan| && g != h :: At(init, FileOf(plan[g])) == Some([1])
  }

  /** The groups in order, one after the other: once the group whose temporary file it is was dealt
      with, the victim's content is gone. */
  lemma {:induction false} PlanRun(plan: Plan, init: Files, victim: nat, h: nat, n: nat) returns (u: State)
    requires ValidPlan(plan) && Shape(plan, Start(plan, init)) && n <= |plan|
    requires victim < |plan| && h < |plan| && FileOf(plan[victim]) == Temporary(FileOf(plan[h]))
    requires AllBut(plan, h, init)
    ensures Leads(plan, Start(plan, init), u) && Waits(u, n)
    ensures if n <= h then u.files == init else At(u.files, FileOf(plan[victim])) != Some([1])
  {
    hide Shape, Leads;
    if n == 0 {
      u := Start(plan, init);
      StartLeads(plan, init);
    } else {
      var g := n - 1;
      var t := PlanRun(plan, init, victim, h, g);
      u := GroupRun(plan, Start(plan, init), t, g);
      var file := FileOf(plan[victim]);
      if g < h {
        assert At(init, FileOf(plan[g])) == Some([1]);
      } else if g > h && g != victim {
        assert FileOf(plan[g]) != file;
        var a, b := FileOf(plan[g]), FileOf(plan[h]);
        assert Temporary(a)[..|a|] == a && Temporary(b)[..|b|] == b;
        assert |Temporary(a)| == |a| + 9 && |Temporary(b)| == |b| + 9;
        assert Temporary(a) != file;
      }
    }
  }

  lemma StartLeads(plan: Plan, init: Files)
    requires ValidPlan(plan) && Shape(plan, Start(plan, init))
    ensures Leads(plan, Start(plan, init), Start(plan, init))
  {
    assert Exec(plan, Start(plan, init), []) == Some(Start(plan, init));
  }

  lemma {:induction false} AllQuit(plan: Plan, s: State, t: State, n: nat) returns (u: State)
    requires ValidPlan(plan) && Shape(plan, s) && Leads(plan, s, t) && n <= |t.workers| && t.closed
    requires forall w | 0 <= w < |t.workers| :: t.workers[w].Idle?
    ensures Leads(plan, s, u) && u.closed && u.cancelled == t.cancelled && u.files == t.files
    ensures |u.workers| == |t.workers|
    ensures forall w | 0 <= w < |u.workers| :: if w < n then u.workers[w].Gone? else u.workers[w].Idle?
  {
    hide Shape, Leads, ValidPlan;
    if n == 0 {
      u := t;
    } else {
      u := AllQuit(plan, s, t, n - 1);
      assert Placed(plan, u) by { LeadsPlaces(plan, s, u); }
      u := LeadsOn(plan, s, u, Quit(n - 1));
    }
  }

  /** A run that is finished and was not cancelled. */
  ghost predicate Completes(assets: seq<Asset>, init: Files, schedule: seq<Action>, s: State) {
    Reached(assets, init, schedule, s) && Finished(s) && !s.cancelled
  }

  /** A file with content keeps it. */
  ghost predicate KeepsContent(assets: seq<Asset>, init: Files, s: State) {
    forall g | 0 <= g < |DistinctFiles(assets)| :: NonEmpty(At(init, DistinctFiles(assets)[g])) ==>
      At(s.files, DistinctFiles(assets)[g]) == At(init, DistinctFiles(assets)[g])
  }

  ghost predicate AlwaysKeepsContent(assets: seq<Asset>) {
    forall init, schedule, s :: Completes(assets, init, schedule, s) ==> KeepsContent(assets, init, s)
  }

  lemma ClashLosesContent(assets: seq<Asset>, victim: nat, h: nat)
    requires var plan := Groups(assets);
             ValidPlan(plan) && victim < |plan| && h < |plan| && FileOf(plan[victim]) == Temporary(FileOf(plan[h]))
    ensures !AlwaysKeepsContent(assets)
  {
    hide Shape, Finished, Groups, Leads;
    var plan := Groups(assets);
    var init := OneMissing(plan, h, |plan|);
    StartHasShape(plan, init);
    assert FileOf(plan[victim]) != FileOf(plan[h]) by { assert |Temporary(FileOf(plan[h]))| == |FileOf(plan[h])| + 9; }
    var s := PlanRun(plan, init, victim, h, |plan|);
    assert Placed(plan, s) by { LeadsPlaces(plan, Start(plan, init), s); }
    s := LeadsOn(plan, Start(plan, init), s, Close);
    s := AllQuit(plan, Start(plan, init), s, |s.workers|);
    Lost(assets, init, s, victim);
  }

  /** Files with content for the first `n` groups but one. */
  ghost function OneMissing(plan: Plan, h: nat, n: nat): (init: Files)
    requires ValidPlan(plan) && h < |plan| && n <= |plan|
    ensures forall g | 0 <= g < n && g != h :: At(init, FileOf(plan[g])) == Some([1])
    ensures forall g | n <= g < |plan| :: FileOf(plan[g]) !in init
    ensures FileOf(plan[h]) !in init
  {
    if n == 0 then map[]
    else if n - 1 == h then OneMissing(plan, h, n - 1)
    else OneMissing(plan, h, n - 1)[FileOf(plan[n - 1]) := [1]]
  }

  lemma Lost(assets: seq<Asset>, init: Files, s: State, victim: nat)
    requires var plan := Groups(assets);
             && ValidPlan(plan) && Shape(plan, Start(plan, init)) && Leads(plan, Start(plan, init), s)
             && victim < |plan| && At(init, FileOf(plan[victim])) == Some([1])
             && At(s.files, FileOf(plan[victim])) != Some([1])
    requires Finished(s) && !s.cancelled
    ensures !AlwaysKeepsContent(assets)
  {
    var schedule :| Exec(Groups(assets), Start(Groups(assets), init), schedule) == Some(s);
    GroupsAreValid(assets);
    assert Completes(assets, init, schedule, s);
    assert FileOf(Groups(assets)[victim]) == DistinctFiles(assets)[victim];
    assert !KeepsContent(assets, init, s);
  }

  /** Content that is there before a run is there after it, in every run that is not cancelled, if and
      only if no file of the assets is another's name with ".download" behind it. */
  lemma ContentKeptIff(assets: seq<Asset>)
    ensures ValidPlan(Groups(assets))
    ensures AlwaysKeepsContent(assets) <==> NoClash(Groups(assets))
  {
    hide Groups, Finished, Shape, OthersKept, Exec;
    var plan := Groups(assets);
    GroupsAreValid(assets);
    if NoClash(plan) {
      forall init, schedule, s | Completes(assets, init, schedule, s) ensures KeepsContent(assets, init, s) {
        FinishedFiles(assets, init, schedule, s);
        GroupCount(assets);
      }
    } else {
      var victim, h :| 0 <= victim < |plan| && 0 <= h < |plan| && FileOf(plan[victim]) == Temporary(FileOf(plan[h]));
      ClashLosesContent(assets, victim, h);
    }
  }
}
