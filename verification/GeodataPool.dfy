/** The worker pool that prepares geodata files, as interleaved steps: a producer that hands groups
    over an unbuffered channel, workers that stat, download and rename, and a context that may be
    cancelled between any two steps. */
module GeodataPool {
  import opened Geodata
  import opened Wrappers

  type Plan = seq<seq<Asset>>

  function FileOf(group: seq<Asset>): FileName
    requires group != []
  {
    group[0].file
  }

  /** Groups of assets, each with a file of its own. */
  ghost predicate ValidPlan(plan: Plan) {
    && (forall g | 0 <= g < |plan| :: plan[g] != [])
    && (forall g, h | 0 <= g < h < |plan| :: FileOf(plan[g]) != FileOf(plan[h]))
  }

  lemma GroupsAreValid(assets: seq<Asset>)
    ensures ValidPlan(Groups(assets))
    ensures forall g | 0 <= g < |Groups(assets)| :: FileOf(Groups(assets)[g]) == DistinctFiles(assets)[g]
  {
    hide Sources, DistinctFiles;
    var plan, files := Groups(assets), DistinctFiles(assets);
    DistinctFilesAreDistinct(assets);
    forall g | 0 <= g < |plan| ensures plan[g] != [] && FileOf(plan[g]) == files[g] {
      SourcesAreOfFile(assets, files[g]);
      assert plan[g] != [] && plan[g][0] in Sources(assets, files[g]);
    }
  }

  /** What a download gives: nothing at all, a body that breaks off, is empty or is refused by a
      check, or a whole body. */
  datatype Answer = Refused | Cut(part: Body) | Full(body: Body)

  /** What became of an asset. */
  datatype Try = Skipped | Tried(answer: Answer)

  /** Where a worker is, with the group and the asset it is at. */
  datatype Pc =
    | Idle
    | Gone
    | Next(g: nat, k: nat)
    | Check(g: nat, k: nat)
    | Asking(g: nat, k: nat)
    | Creating(g: nat, k: nat, answer: Answer)
    | Writing(g: nat, k: nat, answer: Answer)
    | Renaming(g: nat, k: nat, answer: Answer)
    | Cleaning(g: nat, k: nat, answer: Answer)
    | Stubbing(g: nat, k: nat, answer: Answer)

  predicate Busy(pc: Pc) {
    !pc.Idle? && !pc.Gone?
  }

  /** `log` holds, for each group, what became of its assets so far. */
  datatype State = State(files: Files, workers: seq<Pc>, sent: nat, closed: bool, cancelled: bool, log: seq<seq<Try>>)

  datatype Action = Send(w: nat) | Close | Work(w: nat, answer: Answer) | Quit(w: nat) | Cancel

  function Start(plan: Plan, files: Files): State {
    var count := if |plan| < WORKERS then |plan| else WORKERS;
    State(files, seq(count, _ => Idle), 0, false, false, seq(|plan|, _ => []))
  }

  predicate Enabled(plan: Plan, s: State, a: Action) {
    match a
    case Send(w) => !s.closed && s.sent < |plan| && w < |s.workers| && s.workers[w].Idle?
    case Close => !s.closed && (s.sent == |plan| || s.cancelled)
    case Work(w, answer) => w < |s.workers| && Busy(s.workers[w]) && (answer.Full? ==> answer.body != [])
    case Quit(w) => w < |s.workers| && s.workers[w].Idle? && s.closed
    case Cancel => !s.cancelled
  }

  /** The files, the place and the new entry of the log after one step of a worker. */
  datatype Effect = Effect(files: Files, pc: Pc, entry: Option<Try>)

  /** One step of a worker on an asset of `file`, the k-th of `size`. */
  function Step(file: FileName, size: nat, files: Files, cancelled: bool, pc: Pc, answer: Answer): Effect
    requires Busy(pc)
  {
    var tmp, g, k := Temporary(file), pc.g, pc.k;
    match pc
    case Next(_, _) =>
      Effect(files, if k >= size then Idle else if cancelled then Gone else Check(g, k), None)
    case Check(_, _) =>
      if file in files && files[file] != [] then Effect(files, Next(g, k + 1), Some(Skipped))
      else Effect(files, Asking(g, k), None)
    case Asking(_, _) =>
      if answer.Refused? then Effect(files, Stubbing(g, k, answer), None)
      else Effect(files - {tmp}, Creating(g, k, answer), None)
    case Creating(_, _, a) =>
      if tmp in files then Effect(files, Stubbing(g, k, a), None)
      else Effect(files[tmp := []], Writing(g, k, a), None)
    case Writing(_, _, a) =>
      var body := if a.Full? then a.body else if a.Cut? then a.part else [];
      var written := if tmp in files then files[tmp := body] else files;
      Effect(written, if a.Full? then Renaming(g, k, a) else Cleaning(g, k, a), None)
    case Renaming(_, _, a) =>
      if tmp in files then Effect((files - {tmp})[file := files[tmp]], Next(g, k + 1), Some(Tried(a)))
      else Effect(files, Cleaning(g, k, a), None)
    case Cleaning(_, _, a) => Effect(files - {tmp}, Stubbing(g, k, a), None)
    case Stubbing(_, _, a) =>
      Effect(if file in files then files else files[file := []], Next(g, k + 1), Some(Tried(a)))
  }

  /** Every busy worker is at a group that was sent, and there is a log for each group. */
  predicate Placed(plan: Plan, s: State) {
    && |s.log| == |plan| && s.sent <= |plan|
    && forall w | 0 <= w < |s.workers| :: Busy(s.workers[w]) ==> s.workers[w].g < s.sent
  }

  function Do(plan: Plan, s: State, a: Action): State
    requires Enabled(plan, s, a) && Placed(plan, s) && ValidPlan(plan)
  {
    match a
    case Send(w) => s.(workers := s.workers[w := Next(s.sent, 0)], sent := s.sent + 1)
    case Close => s.(closed := true)
    case Work(w, answer) =>
      var pc := s.workers[w];
      var e := Step(FileOf(plan[pc.g]), |plan[pc.g]|, s.files, s.cancelled, pc, answer);
      s.(files := e.files, workers := s.workers[w := e.pc],
         log := if e.entry.Some? then s.log[pc.g := s.log[pc.g] + [e.entry.value]] else s.log)
    case Quit(w) => s.(workers := s.workers[w := Gone])
    case Cancel => s.(cancelled := true)
  }

  predicate Finished(s: State) {
    s.closed && forall w | 0 <= w < |s.workers| :: s.workers[w].Gone?
  }

  // ---------------------------------------------------------------- who works on what

  predicate OnGroup(pc: Pc, g: nat) {
    Busy(pc) && pc.g == g
  }

  predicate Worked(s: State, g: nat) {
    exists w :: 0 <= w < |s.workers| && OnGroup(s.workers[w], g)
  }

  /** A worker is at the asset after those in the log. */
  predicate InPlace(plan: Plan, s: State, pc: Pc)
    requires Placed(plan, s)
  {
    Busy(pc) && pc.g < |plan| ==>
      && pc.k == |s.log[pc.g]|
      && (if pc.Next? then pc.k <= |plan[pc.g]| else pc.k < |plan[pc.g]|)
  }

  ghost predicate Shape(plan: Plan, s: State) {
    && Placed(plan, s)
    && (plan != [] ==> s.workers != [])
    && (forall w | 0 <= w < |s.workers| :: InPlace(plan, s, s.workers[w]))
    && (forall v, w | 0 <= v < w < |s.workers| ::
          Busy(s.workers[v]) && Busy(s.workers[w]) ==> s.workers[v].g != s.workers[w].g)
    && (forall w | 0 <= w < |s.workers| :: s.workers[w].Gone? ==> s.closed || s.cancelled)
    && (s.closed && !s.cancelled ==> s.sent == |plan|)
    && (forall g | s.sent <= g < |plan| :: s.log[g] == [])
    && (forall g | 0 <= g < |plan| :: |s.log[g]| <= |plan[g]|)
    && (forall g | 0 <= g < s.sent :: Settled(plan, s, g))
  }

  /** A group that was sent is being worked on, or done, or the run was cancelled. */
  predicate Settled(plan: Plan, s: State, g: nat)
    requires g < |plan| && |s.log| == |plan|
  {
    Worked(s, g) || s.cancelled || |s.log[g]| == |plan[g]|
  }

  lemma StartHasShape(plan: Plan, files: Files)
    requires ValidPlan(plan)
    ensures Shape(plan, Start(plan, files))
  {
  }

  lemma SendKeepsShape(plan: Plan, s: State, w: nat)
    requires ValidPlan(plan) && Shape(plan, s) && Enabled(plan, s, Send(w))
    ensures Shape(plan, Do(plan, s, Send(w)))
  {
    var t := Do(plan, s, Send(w));
    assert OnGroup(t.workers[w], s.sent);
    forall g | 0 <= g < t.sent ensures Settled(plan, t, g) {
      assert g < s.sent ==> Settled(plan, s, g);
      if g < s.sent && Worked(s, g) {
        var v :| 0 <= v < |s.workers| && OnGroup(s.workers[v], g);
        assert OnGroup(t.workers[v], g);
      }
    }
  }

  /** A worker stays at its group, goes on by one asset with each entry it logs, and leaves the
      group when it is done or the run was cancelled. */
  lemma StepMoves(file: FileName, size: nat, files: Files, cancelled: bool, pc: Pc, answer: Answer)
    requires Busy(pc) && (if pc.Next? then pc.k <= size else pc.k < size)
    ensures var e := Step(file, size, files, cancelled, pc, answer);
            && (Busy(e.pc) ==> e.pc.g == pc.g && e.pc.k == pc.k + if e.entry.Some? then 1 else 0)
            && (Busy(e.pc) && !e.pc.Next? ==> e.pc.k < size)
            && (e.entry.Some? ==> Busy(e.pc) && e.pc.Next? && !pc.Next?)
            && (e.pc.Idle? ==> pc.Next? && pc.k == size)
            && (e.pc.Gone? ==> cancelled)
  {
  }

  lemma WorkKeepsShape(plan: Plan, s: State, w: nat, answer: Answer)
    requires ValidPlan(plan) && Shape(plan, s) && Enabled(plan, s, Work(w, answer))
    ensures Shape(plan, Do(plan, s, Work(w, answer)))
  {
    hide Step;
    var t, pc := Do(plan, s, Work(w, answer)), s.workers[w];
    assert InPlace(plan, s, pc);
    StepMoves(FileOf(plan[pc.g]), |plan[pc.g]|, s.files, s.cancelled, pc, answer);
    forall v | 0 <= v < |t.workers| ensures InPlace(plan, t, t.workers[v]) {
      assert InPlace(plan, s, s.workers[v]);
    }
    forall g | 0 <= g < t.sent ensures Settled(plan, t, g) {
      assert Settled(plan, s, g);
      if Worked(s, g) {
        var v :| 0 <= v < |s.workers| && OnGroup(s.workers[v], g);
        if v != w || Busy(t.workers[w]) { assert OnGroup(t.workers[v], g); }
      }
    }
  }

  lemma QuitKeepsShape(plan: Plan, s: State, w: nat)
    requires ValidPlan(plan) && Shape(plan, s) && Enabled(plan, s, Quit(w))
    ensures Shape(plan, Do(plan, s, Quit(w)))
  {
    var t := Do(plan, s, Quit(w));
    forall g | 0 <= g < t.sent ensures Settled(plan, t, g) {
      assert Settled(plan, s, g);
      if Worked(s, g) {
        var v :| 0 <= v < |s.workers| && OnGroup(s.workers[v], g);
        assert OnGroup(t.workers[v], g);
      }
    }
  }

  lemma RestKeepsShape(plan: Plan, s: State, a: Action)
    requires ValidPlan(plan) && Shape(plan, s) && Enabled(plan, s, a) && (a.Close? || a.Cancel?)
    ensures Shape(plan, Do(plan, s, a))
  {
    var t := Do(plan, s, a);
    forall w | 0 <= w < |t.workers| ensures InPlace(plan, t, t.workers[w]) {
      assert InPlace(plan, s, s.workers[w]);
    }
    forall g | 0 <= g < t.sent ensures Settled(plan, t, g) {
      assert Settled(plan, s, g);
      if Worked(s, g) {
        var v :| 0 <= v < |s.workers| && OnGroup(s.workers[v], g);
        assert OnGroup(t.workers[v], g);
      }
    }
  }

  lemma DoKeepsShape(plan: Plan, s: State, a: Action)
    requires ValidPlan(plan) && Shape(plan, s) && Enabled(plan, s, a)
    ensures Shape(plan, Do(plan, s, a)) && |Do(plan, s, a).workers| == |s.workers|
  {
    hide Shape;
    assert Placed(plan, s) by { ShapePlaces(plan, s); }
    match a
    case Send(w) => SendKeepsShape(plan, s, w);
    case Work(w, answer) => WorkKeepsShape(plan, s, w, answer);
    case Quit(w) => QuitKeepsShape(plan, s, w);
    case _ => RestKeepsShape(plan, s, a);
  }

  lemma ShapePlaces(plan: Plan, s: State)
    requires Shape(plan, s)
    ensures Placed(plan, s)
  {
  }

  // ---------------------------------------------------------------- every schedule

  /** The state a schedule leads to, if each of its actions is possible in its turn. */
  ghost function Exec(plan: Plan, s: State, schedule: seq<Action>): (t: Option<State>)
    requires ValidPlan(plan) && Shape(plan, s)
    ensures t.Some? ==> Shape(plan, t.value) && |t.value.workers| == |s.workers|
  {
    if schedule == [] then Some(s) else
    var n := |schedule| - 1;
    var before := Exec(plan, s, schedule[..n]);
    if before.None? || !Enabled(plan, before.value, schedule[n]) then None else
    DoKeepsShape(plan, before.value, schedule[n]);
    Some(Do(plan, before.value, schedule[n]))
  }

  /** No two workers ever hold the same file. */
  lemma OneWorkerPerFile(plan: Plan, s: State, v: nat, w: nat)
    requires ValidPlan(plan) && Shape(plan, s) && v < w < |s.workers|
    requires Busy(s.workers[v]) && Busy(s.workers[w])
    ensures s.workers[v].g < |plan| && s.workers[w].g < |plan|
    ensures FileOf(plan[s.workers[v].g]) != FileOf(plan[s.workers[w].g])
  {
    assert s.workers[v].g != s.workers[w].g;
  }

  /** Whatever happened, and whether or not the run was cancelled, something other than a cancellation
      can happen until everything is finished. */
  lemma NeverStuck(plan: Plan, s: State)
    requires ValidPlan(plan) && Shape(plan, s)
    ensures Finished(s) || exists a :: a != Cancel && Enabled(plan, s, a)
  {
    if !Finished(s) {
      if exists w :: 0 <= w < |s.workers| && Busy(s.workers[w]) {
        var w :| 0 <= w < |s.workers| && Busy(s.workers[w]);
        assert Enabled(plan, s, Work(w, Refused));
      } else if exists w :: 0 <= w < |s.workers| && s.workers[w].Idle? {
        var w :| 0 <= w < |s.workers| && s.workers[w].Idle?;
        if s.closed { assert Enabled(plan, s, Quit(w)); }
        else if s.sent < |plan| { assert Enabled(plan, s, Send(w)); }
        else { assert Enabled(plan, s, Close); }
      } else {
        assert forall w | 0 <= w < |s.workers| :: s.workers[w].Gone?;
        assert !s.closed;
        if s.sent < |plan| && s.workers != [] { assert s.workers[0].Gone?; }
        assert Enabled(plan, s, Close);
      }
    }
  }

  // ---------------------------------------------------------------- what the log holds

  /** What a worker was answered for the k-th asset of a group is in the log, or the worker still has it. */
  predicate Taken(s: State, w: nat, g: nat, k: nat, answer: Answer) {
    && g < |s.log|
    && (if k < |s.log[g]| then s.log[g][k] == Tried(answer)
        else w < |s.workers| && var pc := s.workers[w];
             Busy(pc) && !pc.Next? && !pc.Check? && !pc.Asking? && pc.g == g && pc.k == k && pc.answer == answer)
  }

  lemma AskingTakes(plan: Plan, s: State, w: nat, answer: Answer)
    requires ValidPlan(plan) && Shape(plan, s) && Enabled(plan, s, Work(w, answer)) && s.workers[w].Asking?
    ensures Taken(Do(plan, s, Work(w, answer)), w, s.workers[w].g, s.workers[w].k, answer)
  {
    assert InPlace(plan, s, s.workers[w]);
  }

  lemma DoKeepsTaken(plan: Plan, s: State, a: Action, w: nat, g: nat, k: nat, answer: Answer)
    requires ValidPlan(plan) && Shape(plan, s) && Enabled(plan, s, a) && Taken(s, w, g, k, answer)
    ensures Taken(Do(plan, s, a), w, g, k, answer)
  {
    if w < |s.workers| { InOwnPlace(plan, s, w); }
    if a.Work? {
      InOwnPlace(plan, s, a.w);
      if w < |s.workers| && Busy(s.workers[w]) && s.workers[a.w].g == s.workers[w].g { OneAtATime(plan, s, a.w, w); }
    }
  }

  /** Once the run is cancelled no worker begins with another asset. */
  lemma CancelledStops(plan: Plan, s: State, w: nat, answer: Answer)
    requires ValidPlan(plan) && Shape(plan, s) && Enabled(plan, s, Work(w, answer)) && s.cancelled
    requires s.workers[w].Next? && s.workers[w].k < |plan[s.workers[w].g]|
    ensures Do(plan, s, Work(w, answer)) == s.(workers := s.workers[w := Gone])
  {
  }

  lemma ExecLast(plan: Plan, s: State, schedule: seq<Action>)
    requires ValidPlan(plan) && Shape(plan, s) && Exec(plan, s, schedule).Some? && schedule != []
    ensures var n := |schedule| - 1;
            var before := Exec(plan, s, schedule[..n]);
            && before.Some? && Shape(plan, before.value) && Placed(plan, before.value)
            && Enabled(plan, before.value, schedule[n])
            && Exec(plan, s, schedule).value == Do(plan, before.value, schedule[n])
  {
  }

  /** The state in which an action of a schedule is taken. */
  ghost predicate Asks(plan: Plan, s: State, schedule: seq<Action>, i: nat, g: nat, k: nat)
    requires ValidPlan(plan) && Shape(plan, s)
  {
    && i < |schedule| && schedule[i].Work?
    && var before := Exec(plan, s, schedule[..i]);
       && before.Some? && schedule[i].w < |before.value.workers|
       && before.value.workers[schedule[i].w] == Asking(g, k)
  }

  /** Whatever the other workers do in between: what a source answered is what the log has for it. */
  lemma {:induction false} AnswersAreLogged(plan: Plan, s: State, schedule: seq<Action>, i: nat, g: nat, k: nat)
    requires ValidPlan(plan) && Shape(plan, s) && Exec(plan, s, schedule).Some? && Asks(plan, s, schedule, i, g, k)
    ensures Taken(Exec(plan, s, schedule).value, schedule[i].w, g, k, schedule[i].answer)
  {
    hide Exec, Shape, Do, Enabled, Taken, Placed;
    var n := |schedule| - 1;
    ExecLast(plan, s, schedule);
    var before := Exec(plan, s, schedule[..n]).value;
    if i < n {
      assert schedule[..n][..i] == schedule[..i] && schedule[..n][i] == schedule[i];
      AnswersAreLogged(plan, s, schedule[..n], i, g, k);
      DoKeepsTaken(plan, before, schedule[n], schedule[i].w, g, k, schedule[i].answer);
    } else {
      AskingTakes(plan, before, schedule[n].w, schedule[n].answer);
    }
  }

  // ---------------------------------------------------------------- how many steps are left

  function Rank(size: nat, pc: Pc): nat {
    match pc
    case Gone => 0
    case Idle => 1
    case Next(_, k) => 2 + if k < size then 8 * (size - k) else 0
    case Check(_, k) => 9 + if k < size then 8 * (size - k - 1) else 0
    case Asking(_, k) => 8 + if k < size then 8 * (size - k - 1) else 0
    case Creating(_, k, _) => 7 + if k < size then 8 * (size - k - 1) else 0
    case Writing(_, k, _) => 6 + if k < size then 8 * (size - k - 1) else 0
    case Renaming(_, k, _) => 5 + if k < size then 8 * (size - k - 1) else 0
    case Cleaning(_, k, _) => 4 + if k < size then 8 * (size - k - 1) else 0
    case Stubbing(_, k, _) => 3 + if k < size then 8 * (size - k - 1) else 0
  }

  function RankIn(plan: Plan, pc: Pc): nat {
    Rank(if Busy(pc) && pc.g < |plan| then |plan[pc.g]| else 0, pc)
  }

  function Ranks(plan: Plan, workers: seq<Pc>): nat {
    if workers == [] then 0 else RankIn(plan, workers[0]) + Ranks(plan, workers[1..])
  }

  /** The steps that the groups not yet sent will take. */
  function Waiting(plan: Plan, sent: nat): nat
    decreases |plan| - sent
  {
    if sent >= |plan| then 0 else 2 + 8 * |plan[sent]| + Waiting(plan, sent + 1)
  }

  function StepsLeft(plan: Plan, s: State): nat {
    Ranks(plan, s.workers) + Waiting(plan, s.sent) + (if s.closed then 0 else 1) + (if s.cancelled then 0 else 1)
  }

  lemma {:induction false} RanksUpdate(plan: Plan, workers: seq<Pc>, w: nat, pc: Pc)
    requires w < |workers|
    ensures Ranks(plan, workers[w := pc]) == Ranks(plan, workers) - RankIn(plan, workers[w]) + RankIn(plan, pc)
  {
    if w > 0 {
      RanksUpdate(plan, workers[1..], w - 1, pc);
      assert workers[w := pc][1..] == workers[1..][w - 1 := pc];
    } else {
      assert workers[w := pc][1..] == workers[1..];
    }
  }

  lemma StepLowersRank(file: FileName, size: nat, files: Files, cancelled: bool, pc: Pc, answer: Answer)
    requires Busy(pc) && (if pc.Next? then pc.k <= size else pc.k < size)
    ensures var pc' := Step(file, size, files, cancelled, pc, answer).pc;
            Rank(size, pc') < Rank(size, pc) && (Busy(pc') ==> pc'.g == pc.g)
  {
  }

  lemma DoTakesAStep(plan: Plan, s: State, a: Action)
    requires ValidPlan(plan) && Shape(plan, s) && Enabled(plan, s, a)
    ensures StepsLeft(plan, Do(plan, s, a)) < StepsLeft(plan, s)
  {
    hide Rank, Step;
    if a.Work? {
      var pc := s.workers[a.w];
      assert InPlace(plan, s, pc);
      var pc' := Do(plan, s, a).workers[a.w];
      StepLowersRank(FileOf(plan[pc.g]), |plan[pc.g]|, s.files, s.cancelled, pc, a.answer);
      assert RankIn(plan, pc') < RankIn(plan, pc) by { LowestRank(pc', 0, |plan[pc.g]|); }
      RanksUpdate(plan, s.workers, a.w, pc');
    } else if a.Send? {
      RanksUpdate(plan, s.workers, a.w, Next(s.sent, 0));
      SentRank(|plan[s.sent]|, s.sent);
    } else if a.Quit? {
      RanksUpdate(plan, s.workers, a.w, Gone);
      SentRank(0, 0);
    }
  }

  lemma LowestRank(pc: Pc, a: nat, b: nat)
    ensures !Busy(pc) ==> Rank(a, pc) == Rank(b, pc)
  {
  }

  lemma SentRank(size: nat, g: nat)
    ensures Rank(size, Next(g, 0)) == 2 + 8 * size && forall n: nat :: Rank(n, Idle) == 1 && Rank(n, Gone) == 0
  {
  }

  /** Every schedule ends: it has no more actions than this bound allows. */
  lemma {:induction false} SchedulesEnd(plan: Plan, s: State, schedule: seq<Action>)
    requires ValidPlan(plan) && Shape(plan, s) && Exec(plan, s, schedule).Some?
    ensures |schedule| + StepsLeft(plan, Exec(plan, s, schedule).value) <= StepsLeft(plan, s)
  {
    hide StepsLeft, Shape, Do;
    if schedule != [] {
      var n := |schedule| - 1;
      SchedulesEnd(plan, s, schedule[..n]);
      DoTakesAStep(plan, Exec(plan, s, schedule[..n]).value, schedule[n]);
    }
  }

  // ---------------------------------------------------------------- what the files hold

  predicate NonEmpty(b: Option<Body>) {
    b.Some? && b.value != []
  }

  /** A file after one more asset: a whole body replaces what was there, a failure leaves an empty
      file where there was none. */
  function Then(b: Option<Body>, t: Try): Option<Body> {
    match t
    case Skipped => b
    case Tried(a) => if a.Full? then Some(a.body) else if b.Some? then b else Some([])
  }

  function After(b: Option<Body>, log: seq<Try>): Option<Body> {
    if log == [] then b else Then(After(b, log[..|log| - 1]), log[|log| - 1])
  }

  /** An asset is skipped exactly when the file has content by then, and whole bodies are not empty. */
  predicate Honest(b: Option<Body>, log: seq<Try>) {
    forall j | 0 <= j < |log| ::
      && (log[j].Skipped? <==> NonEmpty(After(b, log[..j])))
      && (log[j].Tried? && log[j].answer.Full? ==> log[j].answer.body != [])
  }

  /** The first whole body in the log. */
  function FirstBody(log: seq<Try>): Option<Body> {
    if log == [] then None
    else if log[0].Tried? && log[0].answer.Full? then Some(log[0].answer.body)
    else FirstBody(log[1..])
  }

  /** It is the body of a try that gave one, and no try before it did. */
  lemma {:induction false} FirstBodyIs(log: seq<Try>)
    ensures FirstBody(log) == None <==> forall k | 0 <= k < |log| :: !(log[k].Tried? && log[k].answer.Full?)
    ensures FirstBody(log).Some? ==>
              exists k :: 0 <= k < |log| && log[k] == Tried(Full(FirstBody(log).value))
                          && forall j | 0 <= j < k :: !(log[j].Tried? && log[j].answer.Full?)
  {
    if log != [] && !(log[0].Tried? && log[0].answer.Full?) {
      var rest := log[1..];
      FirstBodyIs(rest);
      forall k | 0 < k < |log| ensures log[k] == rest[k - 1] {}
      if FirstBody(rest).Some? {
        var k :| 0 <= k < |rest| && rest[k] == Tried(Full(FirstBody(log).value))
                 && forall j | 0 <= j < k :: !(rest[j].Tried? && rest[j].answer.Full?);
        assert log[k + 1] == Tried(Full(FirstBody(log).value));
      }
    }
  }

  lemma {:induction false} FirstBodyNext(log: seq<Try>, t: Try)
    ensures FirstBody(log + [t])
         == if FirstBody(log).Some? then FirstBody(log)
            else if t.Tried? && t.answer.Full? then Some(t.answer.body) else None
  {
    if log == [] {
      assert FirstBody([t][1..]) == None;
    } else {
      assert (log + [t])[1..] == log[1..] + [t];
      FirstBodyNext(log[1..], t);
    }
  }

  /** A file keeps its content if it has some; else it gets the first whole body; else it is there and
      empty. */
  lemma {:induction false} FirstSourceWins(b: Option<Body>, log: seq<Try>)
    requires Honest(b, log)
    ensures After(b, log)
         == if NonEmpty(b) then b
            else if FirstBody(log).Some? then FirstBody(log)
            else if log == [] then b else Some([])
    ensures FirstBody(log).Some? ==> FirstBody(log).value != []
  {
    if log != [] {
      var n := |log| - 1;
      HonestPrefix(b, log, n);
      var before, t := log[..n], log[n];
      assert log == before + [t] && After(b, log) == Then(After(b, before), t);
      assert FirstBody([]) == None;
      hide Honest, After, FirstBody;
      FirstSourceWins(b, before);
      FirstBodyNext(before, t);
    }
  }

  lemma HonestPrefix(b: Option<Body>, log: seq<Try>, n: nat)
    requires Honest(b, log) && n < |log|
    ensures Honest(b, log[..n])
    ensures log[n].Skipped? <==> NonEmpty(After(b, log[..n]))
    ensures log[n].Tried? && log[n].answer.Full? ==> log[n].answer.body != []
  {
    forall j | 0 <= j < n
      ensures && (log[..n][j].Skipped? <==> NonEmpty(After(b, log[..n][..j])))
              && (log[..n][j].Tried? && log[..n][j].answer.Full? ==> log[..n][j].answer.body != [])
    {
      assert log[..n][..j] == log[..j];
      assert log[..n][j] == log[j];
    }
  }

  /** No file is the temporary file of another. */
  ghost predicate NoClash(plan: Plan)
    requires ValidPlan(plan)
  {
    forall g, h | 0 <= g < |plan| && 0 <= h < |plan| :: FileOf(plan[g]) != Temporary(FileOf(plan[h]))
  }

  predicate HoldsTemporary(pc: Pc) {
    pc.Writing? || pc.Renaming? || pc.Cleaning?
  }

  predicate WorkerOk(file: FileName, files: Files, pc: Pc) {
    Busy(pc) && !pc.Next? && !pc.Check? ==>
      && !NonEmpty(At(files, file))
      && (!pc.Asking? && pc.answer.Full? ==> pc.answer.body != [])
      && (pc.Creating? ==> Temporary(file) !in files)
      && (pc.Writing? ==> Temporary(file) in files)
      && (pc.Renaming? ==> pc.answer.Full? && At(files, Temporary(file)) == Some(pc.answer.body))
      && (pc.Cleaning? || pc.Stubbing? ==> !pc.answer.Full?)
  }

  lemma StepKeepsContent(file: FileName, size: nat, files: Files, cancelled: bool, pc: Pc, answer: Answer)
    requires Busy(pc) && WorkerOk(file, files, pc) && (answer.Full? ==> answer.body != [])
    ensures var e, tmp := Step(file, size, files, cancelled, pc, answer), Temporary(file);
            && (forall name :: name != file && name != tmp ==> At(e.files, name) == At(files, name))
            && WorkerOk(file, e.files, e.pc)
            && At(e.files, file) == (if e.entry.Some? then Then(At(files, file), e.entry.value) else At(files, file))
            && (e.entry.Some? ==>
                  && (e.entry.value.Skipped? <==> NonEmpty(At(files, file)))
                  && (e.entry.value.Tried? && e.entry.value.answer.Full? ==> e.entry.value.answer.body != []))
            && (HoldsTemporary(e.pc) || At(e.files, tmp) == None
                || (!HoldsTemporary(pc) && At(e.files, tmp) == At(files, tmp)))
  {
    assert |Temporary(file)| != |file|;
  }

  predicate Held(s: State, g: nat) {
    exists w :: 0 <= w < |s.workers| && OnGroup(s.workers[w], g) && HoldsTemporary(s.workers[w])
  }

  /** At every moment a file holds what the sources tried so far make of it, and its temporary file is
      there only during a download. */
  predicate FileOk(file: FileName, init: Files, files: Files, log: seq<Try>, held: bool) {
    && At(files, file) == After(At(init, file), log)
    && Honest(At(init, file), log)
    && (held || At(files, Temporary(file)) == None || At(files, Temporary(file)) == At(init, Temporary(file)))
  }

  ghost predicate OthersKept(plan: Plan, init: Files, files: Files)
    requires ValidPlan(plan)
  {
    forall name :: (forall g | 0 <= g < |plan| :: name != FileOf(plan[g]) && name != Temporary(FileOf(plan[g]))) ==>
      At(files, name) == At(init, name)
  }

  ghost predicate Content(plan: Plan, init: Files, s: State)
    requires ValidPlan(plan) && Shape(plan, s)
  {
    && (forall g | 0 <= g < |plan| :: FileOk(FileOf(plan[g]), init, s.files, s.log[g], Held(s, g)))
    && (forall w | 0 <= w < |s.workers| && Busy(s.workers[w]) ::
          WorkerOk(FileOf(plan[s.workers[w].g]), s.files, s.workers[w]))
    && OthersKept(plan, init, s.files)
  }

  lemma StartHasContent(plan: Plan, init: Files)
    requires ValidPlan(plan) && Shape(plan, Start(plan, init))
    ensures Content(plan, init, Start(plan, init))
  {
  }

  lemma {:induction false} AfterNext(b: Option<Body>, log: seq<Try>, t: Try)
    ensures After(b, log + [t]) == Then(After(b, log), t)
    ensures (Honest(b, log) && (t.Skipped? <==> NonEmpty(After(b, log)))
             && (t.Tried? && t.answer.Full? ==> t.answer.body != [])) ==> Honest(b, log + [t])
  {
    assert (log + [t])[..|log|] == log;
    assert forall j | 0 <= j < |log| :: (log + [t])[..j] == log[..j];
  }

  /** The worker's own group. */
  lemma WorkKeepsOwn(plan: Plan, init: Files, s: State, w: nat, answer: Answer)
    requires ValidPlan(plan) && NoClash(plan) && Shape(plan, s) && Enabled(plan, s, Work(w, answer))
    requires Content(plan, init, s)
    ensures var t, g := Do(plan, s, Work(w, answer)), s.workers[w].g;
            && FileOk(FileOf(plan[g]), init, t.files, t.log[g], Held(t, g))
            && WorkerOk(FileOf(plan[g]), t.files, t.workers[w])
  {
    hide Step, WorkerOk, Shape, After, Honest, NonEmpty, Then;
    assert Placed(plan, s) by { ShapePlaces(plan, s); }
    var pc := s.workers[w];
    var g, file, size := pc.g, FileOf(plan[pc.g]), |plan[pc.g]|;
    var e := Step(file, size, s.files, s.cancelled, pc, answer);
    StepKeepsContent(file, size, s.files, s.cancelled, pc, answer);
    if e.entry.Some? { AfterNext(At(init, file), s.log[g], e.entry.value); }
    var t := Do(plan, s, Work(w, answer));
    InOwnPlace(plan, s, w);
    StepMoves(file, size, s.files, s.cancelled, pc, answer);
    if HoldsTemporary(e.pc) { assert OnGroup(t.workers[w], g); }
    if Held(s, g) {
      var v :| 0 <= v < |s.workers| && OnGroup(s.workers[v], g) && HoldsTemporary(s.workers[v]);
      OneAtATime(plan, s, v, w);
    }
  }

  lemma InOwnPlace(plan: Plan, s: State, w: nat)
    requires Shape(plan, s) && w < |s.workers|
    ensures InPlace(plan, s, s.workers[w])
  {
  }

  lemma OneAtATime(plan: Plan, s: State, v: nat, w: nat)
    requires Shape(plan, s) && v < |s.workers| && w < |s.workers|
    requires Busy(s.workers[v]) && Busy(s.workers[w]) && s.workers[v].g == s.workers[w].g
    ensures v == w
  {
  }

  /** Two groups share no path. */
  lemma Apart(plan: Plan, g: nat, h: nat)
    requires ValidPlan(plan) && NoClash(plan) && g < |plan| && h < |plan| && g != h
    ensures var a, b := FileOf(plan[g]), FileOf(plan[h]);
            a != b && a != Temporary(b) && b != Temporary(a) && Temporary(a) != Temporary(b)
  {
    var a, b := FileOf(plan[g]), FileOf(plan[h]);
    assert Temporary(a)[..|a|] == a && Temporary(b)[..|b|] == b;
    assert |Temporary(a)| == |a| + 9 && |Temporary(b)| == |b| + 9;
  }

  lemma WorkKeepsOtherGroup(plan: Plan, init: Files, s: State, w: nat, answer: Answer, h: nat)
    requires ValidPlan(plan) && NoClash(plan) && Shape(plan, s) && Enabled(plan, s, Work(w, answer))
    requires Content(plan, init, s) && h < |plan| && h != s.workers[w].g
    ensures var t := Do(plan, s, Work(w, answer)); FileOk(FileOf(plan[h]), init, t.files, t.log[h], Held(t, h))
  {
    hide Step, WorkerOk, Shape, After, Honest, NonEmpty, Then, Temporary;
    assert Placed(plan, s) by { ShapePlaces(plan, s); }
    var pc := s.workers[w];
    StepKeepsContent(FileOf(plan[pc.g]), |plan[pc.g]|, s.files, s.cancelled, pc, answer);
    Apart(plan, pc.g, h);
    var t := Do(plan, s, Work(w, answer));
    if Held(s, h) {
      var v :| 0 <= v < |s.workers| && OnGroup(s.workers[v], h) && HoldsTemporary(s.workers[v]);
      assert t.workers[v] == s.workers[v];
    }
  }

  lemma WorkKeepsOtherWorker(plan: Plan, init: Files, s: State, w: nat, answer: Answer, v: nat)
    requires ValidPlan(plan) && NoClash(plan) && Shape(plan, s) && Enabled(plan, s, Work(w, answer))
    requires Content(plan, init, s) && v < |s.workers| && v != w && Busy(s.workers[v])
    ensures var t := Do(plan, s, Work(w, answer)); WorkerOk(FileOf(plan[s.workers[v].g]), t.files, s.workers[v])
  {
    hide Step, Shape, After, Honest, NonEmpty, Then, Temporary, FileOk;
    assert Placed(plan, s) by { ShapePlaces(plan, s); }
    var pc := s.workers[w];
    StepKeepsContent(FileOf(plan[pc.g]), |plan[pc.g]|, s.files, s.cancelled, pc, answer);
    assert s.workers[v].g != pc.g by { if s.workers[v].g == pc.g { OneAtATime(plan, s, v, w); } }
    Apart(plan, pc.g, s.workers[v].g);
    var t := Do(plan, s, Work(w, answer));
    var tmp := Temporary(FileOf(plan[s.workers[v].g]));
    assert At(t.files, tmp) == At(s.files, tmp);
  }

  lemma WorkKeepsContent(plan: Plan, init: Files, s: State, w: nat, answer: Answer)
    requires ValidPlan(plan) && NoClash(plan) && Shape(plan, s) && Enabled(plan, s, Work(w, answer))
    requires Content(plan, init, s) && Shape(plan, Do(plan, s, Work(w, answer)))
    ensures Content(plan, init, Do(plan, s, Work(w, answer)))
  {
    hide Step, WorkerOk, Shape, FileOk, Temporary, Held;
    assert Placed(plan, s) by { ShapePlaces(plan, s); }
    var t, pc := Do(plan, s, Work(w, answer)), s.workers[w];
    assert Placed(plan, t) by { ShapePlaces(plan, t); }
    InOwnPlace(plan, s, w);
    StepMoves(FileOf(plan[pc.g]), |plan[pc.g]|, s.files, s.cancelled, pc, answer);
    WorkKeepsOwn(plan, init, s, w, answer);
    forall h | 0 <= h < |plan| ensures FileOk(FileOf(plan[h]), init, t.files, t.log[h], Held(t, h)) {
      if h != pc.g { WorkKeepsOtherGroup(plan, init, s, w, answer, h); }
    }
    forall v | 0 <= v < |t.workers| && Busy(t.workers[v])
      ensures WorkerOk(FileOf(plan[t.workers[v].g]), t.files, t.workers[v])
    {
      if v != w { WorkKeepsOtherWorker(plan, init, s, w, answer, v); }
    }
    StepKeepsContent(FileOf(plan[pc.g]), |plan[pc.g]|, s.files, s.cancelled, pc, answer);
  }

  /** The other actions touch no file. */
  lemma RestKeepsContent(plan: Plan, init: Files, s: State, a: Action)
    requires ValidPlan(plan) && Shape(plan, s) && Enabled(plan, s, a) && !a.Work?
    requires Content(plan, init, s) && Shape(plan, Do(plan, s, a))
    ensures Content(plan, init, Do(plan, s, a))
  {
    hide Shape, After, Honest;
    assert Placed(plan, s) by { ShapePlaces(plan, s); }
    var t := Do(plan, s, a);
    assert Placed(plan, t) by { ShapePlaces(plan, t); }
    forall g | 0 <= g < |plan| ensures FileOk(FileOf(plan[g]), init, t.files, t.log[g], Held(t, g)) {
      if Held(s, g) {
        var v :| 0 <= v < |s.workers| && OnGroup(s.workers[v], g) && HoldsTemporary(s.workers[v]);
        assert t.workers[v] == s.workers[v];
      }
    }
  }

  lemma {:induction false} ExecKeepsContent(plan: Plan, init: Files, schedule: seq<Action>)
    requires ValidPlan(plan) && NoClash(plan) && Shape(plan, Start(plan, init))
    requires Exec(plan, Start(plan, init), schedule).Some?
    ensures Content(plan, init, Exec(plan, Start(plan, init), schedule).value)
  {
    hide Shape, Do, Content;
    if schedule == [] {
      StartHasContent(plan, init);
    } else {
      var n := |schedule| - 1;
      ExecKeepsContent(plan, init, schedule[..n]);
      var s := Exec(plan, Start(plan, init), schedule[..n]).value;
      DoKeepsShape(plan, s, schedule[n]);
      match schedule[n]
      case Work(w, answer) => WorkKeepsContent(plan, init, s, w, answer);
      case _ => RestKeepsContent(plan, init, s, schedule[n]);
    }
  }

  /** What a file holds when each of its sources was tried or skipped. */
  ghost predicate EndsAs(file: FileName, init: Files, files: Files, log: seq<Try>) {
    && At(files, file) == (if NonEmpty(At(init, file)) then At(init, file)
                           else if FirstBody(log).Some? then FirstBody(log)
                           else if log == [] then At(init, file) else Some([]))
    && (At(files, Temporary(file)) == None || At(files, Temporary(file)) == At(init, Temporary(file)))
  }

  lemma FinishedGroup(plan: Plan, init: Files, s: State, g: nat)
    requires ValidPlan(plan) && Shape(plan, s) && Content(plan, init, s) && Finished(s) && g < |plan|
    ensures EndsAs(FileOf(plan[g]), init, s.files, s.log[g])
    ensures |s.log[g]| <= |plan[g]| && (!s.cancelled ==> |s.log[g]| == |plan[g]|)
  {
    hide After, Honest, FirstBody;
    assert FileOk(FileOf(plan[g]), init, s.files, s.log[g], Held(s, g));
    FirstSourceWins(At(init, FileOf(plan[g])), s.log[g]);
    assert g < s.sent ==> Settled(plan, s, g);
  }

  /** A state the pool can be in, from its start with some files. */
  ghost predicate Reached(assets: seq<Asset>, init: Files, schedule: seq<Action>, s: State) {
    && ValidPlan(Groups(assets)) && Shape(Groups(assets), Start(Groups(assets), init))
    && Exec(Groups(assets), Start(Groups(assets), init), schedule) == Some(s)
  }

  /** In every finished run, cancelled or not, every file is as the sources tried for it make it; all
      sources were dealt with unless the run was cancelled, and no other file has changed. */
  lemma FinishedFiles(assets: seq<Asset>, init: Files, schedule: seq<Action>, s: State)
    requires Reached(assets, init, schedule, s) && Finished(s) && NoClash(Groups(assets))
    ensures OthersKept(Groups(assets), init, s.files) && |s.log| == |Groups(assets)|
    ensures forall g | 0 <= g < |Groups(assets)| ::
              && EndsAs(DistinctFiles(assets)[g], init, s.files, s.log[g])
              && |s.log[g]| <= |Groups(assets)[g]|
              && (!s.cancelled ==> |s.log[g]| == |Groups(assets)[g]|)
  {
    hide Groups, EndsAs, Finished, FileOk, WorkerOk;
    var plan := Groups(assets);
    GroupsAreValid(assets);
    ExecKeepsContent(plan, init, schedule);
    assert |plan| == |DistinctFiles(assets)| by { GroupCount(assets); }
    forall g | 0 <= g < |plan|
      ensures EndsAs(DistinctFiles(assets)[g], init, s.files, s.log[g])
      ensures |s.log[g]| <= |plan[g]| && (!s.cancelled ==> |s.log[g]| == |plan[g]|)
    {
      FinishedGroup(plan, init, s, g);
    }
  }

  lemma GroupCount(assets: seq<Asset>)
    ensures |Groups(assets)| == |DistinctFiles(assets)|
  {
  }

  /** Every schedule of every run keeps at most one worker at a file, can always go on until the run
      is finished, cancelled or not, and ends within a bound. */
  lemma EverySchedule(assets: seq<Asset>, init: Files, schedule: seq<Action>, s: State)
    requires Reached(assets, init, schedule, s)
    ensures forall v, w | 0 <= v < w < |s.workers| && Busy(s.workers[v]) && Busy(s.workers[w]) ::
              && s.workers[v].g < |Groups(assets)| && s.workers[w].g < |Groups(assets)|
              && FileOf(Groups(assets)[s.workers[v].g]) != FileOf(Groups(assets)[s.workers[w].g])
    ensures Finished(s) || exists a :: a != Cancel && Enabled(Groups(assets), s, a)
    ensures |schedule| <= StepsLeft(Groups(assets), Start(Groups(assets), init))
    ensures |s.workers| == if |Groups(assets)| < 5 then |Groups(assets)| else 5
  {
    hide Groups, StepsLeft, Shape, Enabled, Finished;
    var plan := Groups(assets);
    forall v, w | 0 <= v < w < |s.workers| && Busy(s.workers[v]) && Busy(s.workers[w])
      ensures && s.workers[v].g < |plan| && s.workers[w].g < |plan|
              && FileOf(plan[s.workers[v].g]) != FileOf(plan[s.workers[w].g])
    {
      OneWorkerPerFile(plan, s, v, w);
    }
    NeverStuck(plan, s);
    SchedulesEnd(plan, Start(plan, init), schedule);
  }

  /** The statements above are about something: a run starts with any files. */
  lemma StartIsReached(assets: seq<Asset>, init: Files)
    ensures Reached(assets, init, [], Start(Groups(assets), init))
  {
    hide Groups;
    GroupsAreValid(assets);
    StartHasShape(Groups(assets), init);
  }
}
