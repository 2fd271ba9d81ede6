/** Looking up the addresses of all online users with a pool of workers that write their answers into
    slots of one slice. */
module UserIpPool {
  import opened Wrappers

  type UserId = string
  type Ip = string

  datatype Entry = Entry(user: UserId, ips: seq<Ip>)

  const WORKERS: nat := 50
  const SEPARATOR := ">>>"

  // ---------------------------------------------------------------- the users

  predicate StartsWith(s: string, prefix: string) {
    |prefix| <= |s| && s[..|prefix|] == prefix
  }

  /** Where the separator first occurs, or the length of the text. */
  function FirstSeparator(s: string): (i: nat)
    ensures i <= |s| && (i < |s| ==> StartsWith(s[i..], SEPARATOR))
  {
    if s == [] || StartsWith(s, SEPARATOR) then 0 else 1 + FirstSeparator(s[1..])
  }

  /** The parts between separators. */
  function Split(s: string): (parts: seq<string>)
    ensures parts != []
    decreases |s|
  {
    var i := FirstSeparator(s);
    if i == |s| then [s] else [s[..i]] + Split(s[i + |SEPARATOR|..])
  }

  function ExtractOnlineUserID(raw: string): UserId {
    var parts := Split(raw);
    if |parts| < 3 || parts[0] != "user" then "" else parts[1]
  }

  /** The name under which the core counts a user. */
  function OnlineName(user: UserId): string {
    "user" + SEPARATOR + user + SEPARATOR + "online"
  }

  /** Whether a separator starts at the front does not depend on what follows the separator behind. */
  lemma StartsAlike(s: string, rest: string)
    requires s != []
    ensures StartsWith(s + SEPARATOR + rest, SEPARATOR) == StartsWith(s + SEPARATOR, SEPARATOR)
    ensures (s + SEPARATOR)[1..] == s[1..] + SEPARATOR
    ensures (s + SEPARATOR + rest)[1..] == s[1..] + SEPARATOR + rest
  {
    assert (s + SEPARATOR + rest)[..3] == (s + SEPARATOR)[..3];
  }

  lemma SeparatorFirst()
    ensures FirstSeparator(SEPARATOR) == 0
  {
    assert SEPARATOR[..3] == SEPARATOR;
  }

  lemma NothingBefore(s: string, rest: string)
    requires s == []
    ensures FirstSeparator(s + SEPARATOR) == 0 && FirstSeparator(s + SEPARATOR + rest) == 0
  {
    assert s + SEPARATOR == SEPARATOR;
    SeparatorFirst();
    assert (s + SEPARATOR + rest)[..3] == SEPARATOR;
  }

  /** The first separator after a text is where the text ends, unless the text has one or ends in a
      part of one. */
  lemma {:induction false} SeparatorAfter(s: string, rest: string)
    requires FirstSeparator(s + SEPARATOR) == |s|
    ensures FirstSeparator(s + SEPARATOR + rest) == |s|
  {
    hide StartsWith;
    if s == [] {
      NothingBefore(s, rest);
    } else {
      StartsAlike(s, rest);
      SeparatorAfter(s[1..], rest);
    }
  }

  lemma {:induction false} EarlierSeparator(s: string, rest: string)
    requires FirstSeparator(s + SEPARATOR) != |s|
    ensures s != [] && FirstSeparator(s + SEPARATOR + rest) < |s|
  {
    hide StartsWith;
    if s == [] {
      NothingBefore(s, rest);
    } else {
      StartsAlike(s, rest);
      if !StartsWith(s + SEPARATOR, SEPARATOR) { EarlierSeparator(s[1..], rest); }
    }
  }

  lemma SplitAt(s: string, rest: string)
    requires FirstSeparator(s + SEPARATOR) == |s|
    ensures Split(s + SEPARATOR + rest) == [s] + Split(rest)
  {
    hide FirstSeparator;
    var all := s + SEPARATOR + rest;
    SeparatorAfter(s, rest);
    assert all[..|s|] == s && all[|s| + |SEPARATOR|..] == rest;
  }

  /** An id is read back from its name exactly when no separator starts inside it. */
  lemma ExtractNameIff(user: UserId)
    ensures ExtractOnlineUserID(OnlineName(user)) == user <==> FirstSeparator(user + SEPARATOR) == |user|
  {
    hide FirstSeparator, Split;
    var after := user + SEPARATOR + "online";
    NameParts(user);
    var parts := Split(OnlineName(user));
    assert parts[1] == Split(after)[0];
    if FirstSeparator(user + SEPARATOR) == |user| {
      SplitAt(user, "online");
    } else {
      EarlierSeparator(user, "online");
      FirstPart(after);
      assert |parts[1]| < |user|;
    }
  }

  lemma NameParts(user: UserId)
    ensures Split(OnlineName(user)) == ["user"] + Split(user + SEPARATOR + "online")
  {
    hide FirstSeparator, Split;
    var after := user + SEPARATOR + "online";
    assert OnlineName(user) == "user" + SEPARATOR + after;
    UserPrefix();
    SplitAt("user", after);
  }

  lemma FirstPart(s: string)
    ensures |Split(s)[0]| == FirstSeparator(s)
  {
  }

  predicate SeparatorAt(s: string, i: nat) {
    i + 3 <= |s| && s[i] == '>' && s[i + 1] == '>' && s[i + 2] == '>'
  }

  /** The id stands between "user>>>" and the first separator after it. */
  predicate Names(raw: string, user: UserId, rest: string) {
    && raw == "user>>>" + user + ">>>" + rest
    && forall i | 0 <= i < |user| :: !SeparatorAt(user + ">>>", i)
  }

  /** An id that is not empty is the one a text names. */
  lemma ExtractIff(raw: string, user: UserId)
    requires user != ""
    ensures ExtractOnlineUserID(raw) == user <==> exists rest :: Names(raw, user, rest)
  {
    if rest :| Names(raw, user, rest) {
      NamedIsExtracted(raw, user, rest);
    }
    if ExtractOnlineUserID(raw) == user {
      var rest := ExtractedIsNamed(raw);
      assert Names(raw, user, rest);
    }
  }

  lemma NamedIsExtracted(raw: string, user: UserId, rest: string)
    requires Names(raw, user, rest)
    ensures ExtractOnlineUserID(raw) == user
  {
    hide FirstSeparator, Split, SeparatorAt;
    var after := user + SEPARATOR + rest;
    assert raw == "user" + SEPARATOR + after;
    UserPrefix();
    SplitAt("user", after);
    FirstAtEnd(user);
    SplitAt(user, rest);
  }

  lemma StartsIff(s: string)
    ensures StartsWith(s, SEPARATOR) <==> SeparatorAt(s, 0)
  {
    if |s| >= 3 { assert s[..3] == [s[0], s[1], s[2]]; }
  }

  lemma Shifted(s: string, i: nat)
    requires s != []
    ensures SeparatorAt(s[1..], i) <==> SeparatorAt(s, i + 1)
  {
  }

  lemma {:induction false} FirstAtEnd(s: string)
    requires forall i | 0 <= i < |s| :: !SeparatorAt(s + ">>>", i)
    ensures FirstSeparator(s + SEPARATOR) == |s|
  {
    var all := s + SEPARATOR;
    hide SeparatorAt;
    if s == [] {
      NothingBefore(s, "");
    } else {
      var t := s[1..];
      assert all[1..] == t + SEPARATOR;
      forall i | 0 <= i < |t| ensures !SeparatorAt(t + ">>>", i) {
        Shifted(all, i);
      }
      FirstAtEnd(t);
      StartsIff(all);
    }
  }

  /** No separator starts before the first one. */
  lemma {:induction false} NoneBefore(s: string, k: nat)
    requires k < FirstSeparator(s)
    ensures !SeparatorAt(s, k)
  {
    StartsIff(s);
    if k > 0 {
      NoneBefore(s[1..], k - 1);
      Shifted(s, k - 1);
    }
  }

  /** A text that splits has a separator behind its first part. */
  lemma SplitFirst(s: string) returns (rest: string)
    requires |Split(s)| > 1
    ensures s == Split(s)[0] + ">>>" + rest && Split(s) == [Split(s)[0]] + Split(rest)
    ensures forall i | 0 <= i < |Split(s)[0]| :: !SeparatorAt(Split(s)[0] + ">>>", i)
  {
    var n := FirstSeparator(s);
    var first := s[..n];
    rest := s[n + 3..];
    assert s == first + ">>>" + rest by { assert s[n..][..3] == ">>>"; }
    forall k | 0 <= k < n ensures !SeparatorAt(first + ">>>", k) {
      NoneBefore(s, k);
    }
  }

  lemma ExtractedIsNamed(raw: string) returns (rest: string)
    requires ExtractOnlineUserID(raw) != ""
    ensures Names(raw, ExtractOnlineUserID(raw), rest)
  {
    hide Split, SeparatorAt;
    var after := SplitFirst(raw);
    rest := SplitFirst(after);
    assert raw == "user>>>" + Split(after)[0] + ">>>" + rest;
  }

  lemma UserPrefix()
    ensures FirstSeparator("user" + SEPARATOR) == 4
  {
    var s0, s1, s2, s3, s4 := "user>>>", "ser>>>", "er>>>", "r>>>", ">>>";
    assert s0[1..] == s1 && s1[1..] == s2 && s2[1..] == s3 && s3[1..] == s4;
    assert s0[0] == 'u' && s1[0] == 's' && s2[0] == 'e' && s3[0] == 'r';
    assert !StartsWith(s0, SEPARATOR) by { assert s0[..3][0] != SEPARATOR[0]; }
    assert !StartsWith(s1, SEPARATOR) by { assert s1[..3][0] != SEPARATOR[0]; }
    assert !StartsWith(s2, SEPARATOR) by { assert s2[..3][0] != SEPARATOR[0]; }
    assert !StartsWith(s3, SEPARATOR) by { assert s3[..3][0] != SEPARATOR[0]; }
    assert StartsWith(s4, SEPARATOR) by { assert s4[..3] == s4; }
    assert FirstSeparator(s4) == 0;
    assert FirstSeparator(s3) == 1;
    assert FirstSeparator(s2) == 2;
    assert FirstSeparator(s1) == 3;
    assert "user" + SEPARATOR == s0;
  }

  /** The distinct users of the metrics in order of first appearance. */
  function UniqueUsers(metrics: seq<string>): seq<UserId> {
    if metrics == [] then []
    else
      var before, user := UniqueUsers(metrics[..|metrics| - 1]), ExtractOnlineUserID(metrics[|metrics| - 1]);
      if user == "" || user in before then before else before + [user]
  }

  method UniqueOnlineUserIDs(metrics: seq<string>) returns (users: seq<UserId>)
    ensures users == UniqueUsers(metrics)
  {
    users := [];
    var seen: set<UserId> := {};
    for i := 0 to |metrics|
      invariant users == UniqueUsers(metrics[..i]) && seen == set u | u in users
    {
      assert metrics[..i + 1][..i] == metrics[..i];
      var user := ExtractOnlineUserID(metrics[i]);
      if user == "" {
        continue;
      }
      if user in seen {
        continue;
      }
      seen := seen + {user};
      users := users + [user];
    }
    assert metrics[..|metrics|] == metrics;
  }

  /** Each user once, and exactly those some metric names. */
  lemma {:induction false} UniqueUsersAreDistinct(metrics: seq<string>)
    ensures forall i, j | 0 <= i < j < |UniqueUsers(metrics)| :: UniqueUsers(metrics)[i] != UniqueUsers(metrics)[j]
    ensures forall u <- UniqueUsers(metrics) :: u != "" && u in NamedUsers(metrics)
    ensures forall u <- NamedUsers(metrics) :: u != "" ==> u in UniqueUsers(metrics)
  {
    if metrics != [] {
      var n := |metrics| - 1;
      UniqueUsersAreDistinct(metrics[..n]);
      assert metrics == metrics[..n] + [metrics[n]];
      assert NamedUsers(metrics) == NamedUsers(metrics[..n]) + {ExtractOnlineUserID(metrics[n])};
    }
  }

  /** In order of first appearance: whenever a user is named, those in front of it were named before. */
  lemma {:induction false} UniqueUsersInOrder(metrics: seq<string>, i: nat, j: nat, q: nat)
    requires i < j < |UniqueUsers(metrics)| && q < |metrics|
    requires ExtractOnlineUserID(metrics[q]) == UniqueUsers(metrics)[j]
    ensures exists p :: 0 <= p < q && ExtractOnlineUserID(metrics[p]) == UniqueUsers(metrics)[i]
  {
    hide ExtractOnlineUserID;
    var n := |metrics| - 1;
    var before := metrics[..n];
    UniqueUsersAreDistinct(metrics);
    UniqueUsersAreDistinct(before);
    var users, last := UniqueUsers(before), ExtractOnlineUserID(metrics[n]);
    assert users == UniqueUsers(metrics)[..|users|];
    if j < |users| && q < n {
      assert before[q] == metrics[q];
      UniqueUsersInOrder(before, i, j, q);
      var p :| 0 <= p < q && ExtractOnlineUserID(before[p]) == users[i];
      assert before[p] == metrics[p];
    } else {
      assert users[i] in NamedUsers(before);
      var m :| m in before && ExtractOnlineUserID(m) == users[i];
      var p :| 0 <= p < n && before[p] == m;
      assert metrics[p] == m;
    }
  }

  function NamedUsers(metrics: seq<string>): set<UserId> {
    set m | m in metrics :: ExtractOnlineUserID(m)
  }

  // ---------------------------------------------------------------- the pool

  datatype Worker = Idle | Gone | Asking(job: nat)

  /** What the lookup of a user gave so far. */
  datatype Lookup = Waiting | Failed | Ips(ips: seq<Ip>)

  /** `results` is the shared slice; `sends` counts how often a job is handed out and `writes` the writes
      to each slot, `answers` holds what the lookups gave. */
  datatype State = State(results: seq<Entry>, workers: seq<Worker>, sent: nat, closed: bool, cancelled: bool,
                         sends: seq<nat>, writes: seq<nat>, answers: seq<Lookup>)

  datatype Action = Send(w: nat) | Close | Answer(w: nat, answer: Lookup) | Quit(w: nat) | Cancel

  const EMPTY := Entry("", [])

  function Start(users: seq<UserId>): State {
    var count := if |users| < WORKERS then |users| else WORKERS;
    State(seq(|users|, _ => EMPTY), seq(count, _ => Idle), 0, false, false,
          seq(|users|, _ => 0), seq(|users|, _ => 0), seq(|users|, _ => Waiting))
  }

  predicate Enabled(users: seq<UserId>, s: State, a: Action) {
    match a
    case Send(w) => !s.closed && s.sent < |users| && w < |s.workers| && s.workers[w].Idle?
    case Close => !s.closed && (s.sent == |users| || s.cancelled)
    case Answer(w, answer) => w < |s.workers| && s.workers[w].Asking? && !answer.Waiting?
    case Quit(w) => w < |s.workers| && s.workers[w].Idle? && s.closed
    case Cancel => !s.cancelled
  }

  predicate Sized(users: seq<UserId>, s: State) {
    && |s.results| == |s.sends| == |s.writes| == |s.answers| == |users| && s.sent <= |users|
    && forall w | 0 <= w < |s.workers| :: s.workers[w].Asking? ==> s.workers[w].job < s.sent
  }

  function Do(users: seq<UserId>, s: State, a: Action): State
    requires Sized(users, s) && Enabled(users, s, a)
  {
    match a
    case Send(w) =>
      s.(workers := s.workers[w := Asking(s.sent)], sent := s.sent + 1, sends := s.sends[s.sent := s.sends[s.sent] + 1])
    case Close => s.(closed := true)
    case Answer(w, answer) =>
      var job := s.workers[w].job;
      var t := s.(workers := s.workers[w := Idle], answers := s.answers[job := answer]);
      if !answer.Ips? || answer.ips == [] then t
      else t.(results := s.results[job := Entry(users[job], answer.ips)], writes := s.writes[job := s.writes[job] + 1])
    case Quit(w) => s.(workers := s.workers[w := Gone])
    case Cancel => s.(cancelled := true)
  }

  predicate Finished(s: State) {
    s.closed && forall w | 0 <= w < |s.workers| :: s.workers[w].Gone?
  }

  /** The slot of an answer. */
  function Slot(user: UserId, answer: Lookup): Entry {
    if !answer.Ips? || answer.ips == [] then EMPTY else Entry(user, answer.ips)
  }

  predicate Asked(s: State, job: nat) {
    exists w :: 0 <= w < |s.workers| && s.workers[w] == Asking(job)
  }

  ghost predicate Inv(users: seq<UserId>, s: State) {
    && Sized(users, s)
    && (users != [] ==> s.workers != [])
    && (forall v, w | 0 <= v < w < |s.workers| ::
          s.workers[v].Asking? && s.workers[w].Asking? ==> s.workers[v].job != s.workers[w].job)
    && (forall w | 0 <= w < |s.workers| :: s.workers[w].Gone? ==> s.closed)
    && (s.closed && !s.cancelled ==> s.sent == |users|)
    && (forall i | 0 <= i < |users| :: s.results[i] == Slot(users[i], s.answers[i]))
    && (forall i | 0 <= i < |users| :: s.sends[i] == if i < s.sent then 1 else 0)
    && (forall i | 0 <= i < |users| :: s.writes[i] == if s.results[i] == EMPTY then 0 else 1)
    && (forall i | s.sent <= i < |users| :: s.answers[i] == Waiting)
    && (forall w | 0 <= w < |s.workers| :: s.workers[w].Asking? ==> s.answers[s.workers[w].job] == Waiting)
    && (forall i | 0 <= i < s.sent :: s.answers[i] == Waiting ==> Asked(s, i))
  }

  lemma StartInv(users: seq<UserId>)
    ensures Inv(users, Start(users))
  {
  }

  lemma DoKeepsAsked(users: seq<UserId>, s: State, a: Action, i: nat)
    requires Inv(users, s) && Enabled(users, s, a)
    requires var t := Do(users, s, a); i < t.sent <= |t.answers| && t.answers[i] == Waiting
    ensures Asked(Do(users, s, a), i)
  {
    hide Slot;
    var t := Do(users, s, a);
    if i < s.sent {
      assert s.answers[i] == Waiting;
      assert Asked(s, i);
      var v :| 0 <= v < |s.workers| && s.workers[v] == Asking(i);
      assert t.workers[v] == Asking(i);
    } else {
      assert t.workers[a.w] == Asking(i);
    }
  }

  lemma AnswerKeepsInv(users: seq<UserId>, s: State, w: nat, answer: Lookup)
    requires Inv(users, s) && Enabled(users, s, Answer(w, answer))
    ensures Inv(users, Do(users, s, Answer(w, answer)))
  {
    hide Asked;
    var a := Answer(w, answer);
    var t, job := Do(users, s, a), s.workers[w].job;
    forall i | 0 <= i < t.sent && t.answers[i] == Waiting ensures Asked(t, i) {
      DoKeepsAsked(users, s, a, i);
    }
    assert s.answers[job] == Waiting && s.results[job] == EMPTY && s.writes[job] == 0;
  }

  lemma DoKeepsInv(users: seq<UserId>, s: State, a: Action)
    requires Inv(users, s) && Enabled(users, s, a)
    ensures Inv(users, Do(users, s, a))
  {
    hide Asked, Slot;
    if a.Answer? {
      AnswerKeepsInv(users, s, a.w, a.answer);
    } else {
      var t := Do(users, s, a);
      forall i | 0 <= i < t.sent && t.answers[i] == Waiting ensures Asked(t, i) {
        DoKeepsAsked(users, s, a, i);
      }
    }
  }

  // how many steps are left

  function Rank(w: Worker): nat {
    match w case Gone => 0 case Idle => 1 case Asking(_) => 2
  }

  function Ranks(workers: seq<Worker>): nat {
    if workers == [] then 0 else Rank(workers[0]) + Ranks(workers[1..])
  }

  function StepsLeft(users: seq<UserId>, s: State): nat
    requires s.sent <= |users|
  {
    Ranks(s.workers) + 2 * (|users| - s.sent) + (if s.closed then 0 else 1) + (if s.cancelled then 0 else 1)
  }

  lemma {:induction false} RanksUpdate(workers: seq<Worker>, w: nat, x: Worker)
    requires w < |workers|
    ensures Ranks(workers[w := x]) == Ranks(workers) - Rank(workers[w]) + Rank(x)
  {
    if w > 0 {
      RanksUpdate(workers[1..], w - 1, x);
      assert workers[w := x][1..] == workers[1..][w - 1 := x];
    } else {
      assert workers[w := x][1..] == workers[1..];
    }
  }

  lemma DoTakesAStep(users: seq<UserId>, s: State, a: Action)
    requires Inv(users, s) && Enabled(users, s, a)
    ensures Do(users, s, a).sent <= |users| && StepsLeft(users, Do(users, s, a)) < StepsLeft(users, s)
  {
    match a
    case Send(w) => RanksUpdate(s.workers, w, Asking(s.sent));
    case Answer(w, _) => RanksUpdate(s.workers, w, Idle);
    case Quit(w) => RanksUpdate(s.workers, w, Gone);
    case _ =>
  }

  // ---------------------------------------------------------------- every schedule

  ghost function Exec(users: seq<UserId>, schedule: seq<Action>): (t: Option<State>)
    ensures t.Some? ==> Inv(users, t.value)
  {
    if schedule == [] then StartInv(users); Some(Start(users)) else
    var n := |schedule| - 1;
    var before := Exec(users, schedule[..n]);
    if before.None? || !Enabled(users, before.value, schedule[n]) then None else
    DoKeepsInv(users, before.value, schedule[n]);
    Some(Do(users, before.value, schedule[n]))
  }

  lemma NeverStuck(users: seq<UserId>, s: State)
    requires Inv(users, s)
    ensures Finished(s) || exists a :: a != Cancel && Enabled(users, s, a)
  {
    if !Finished(s) {
      if !s.closed {
        if s.sent == |users| { assert Enabled(users, s, Close); }
        else if s.workers[0].Idle? { assert Enabled(users, s, Send(0)); }
        else { assert Enabled(users, s, Answer(0, Failed)); }
      } else {
        var w :| 0 <= w < |s.workers| && !s.workers[w].Gone?;
        if s.workers[w].Idle? { assert Enabled(users, s, Quit(w)); }
        else { assert Enabled(users, s, Answer(w, Failed)); }
      }
    }
  }

  lemma {:induction false} SchedulesEnd(users: seq<UserId>, schedule: seq<Action>)
    requires Exec(users, schedule).Some?
    ensures |schedule| + StepsLeft(users, Exec(users, schedule).value) <= StepsLeft(users, Start(users))
  {
    hide StepsLeft, Do, Enabled;
    if schedule != [] {
      var n := |schedule| - 1;
      SchedulesEnd(users, schedule[..n]);
      DoTakesAStep(users, Exec(users, schedule[..n]).value, schedule[n]);
    }
  }

  // ---------------------------------------------------------------- the result

  function Filtered(results: seq<Entry>): seq<Entry> {
    if results == [] then []
    else Filtered(results[..|results| - 1]) + if |results[|results| - 1].ips| > 0 then [results[|results| - 1]] else []
  }

  method Filter(results: seq<Entry>) returns (filtered: seq<Entry>)
    ensures filtered == Filtered(results)
  {
    filtered := [];
    for i := 0 to |results|
      invariant filtered == Filtered(results[..i])
    {
      assert results[..i + 1][..i] == results[..i];
      if |results[i].ips| > 0 {
        filtered := filtered + [results[i]];
      }
    }
    assert results[..|results|] == results;
  }

  /** The users whose lookup gave addresses, in order. */
  function Found(users: seq<UserId>, answers: seq<Lookup>): seq<Entry>
    requires |answers| == |users|
  {
    if users == [] then [] else
    var n := |users| - 1;
    Found(users[..n], answers[..n]) +
    if answers[n].Ips? && answers[n].ips != [] then [Entry(users[n], answers[n].ips)] else []
  }

  lemma {:induction false} FilteredIsFound(users: seq<UserId>, results: seq<Entry>, answers: seq<Lookup>, sent: nat)
    requires |results| == |answers| == |users| && sent <= |users|
    requires forall i | 0 <= i < |users| :: results[i] == Slot(users[i], answers[i])
    requires forall i | sent <= i < |users| :: answers[i] == Waiting
    ensures Filtered(results) == Found(users[..sent], answers[..sent])
  {
    if users != [] {
      var n := |users| - 1;
      if sent == |users| {
        FilteredIsFound(users[..n], results[..n], answers[..n], n);
        assert users[..sent][..n] == users[..n][..n] && answers[..sent][..n] == answers[..n][..n];
      } else {
        FilteredIsFound(users[..n], results[..n], answers[..n], sent);
        assert users[..n][..sent] == users[..sent] && answers[..n][..sent] == answers[..sent];
      }
    }
  }

  /** The list holds exactly the users with addresses, each with its own, in the order of the users. */
  lemma {:induction false} FoundIs(users: seq<UserId>, answers: seq<Lookup>)
    requires |answers| == |users|
    requires forall i, j | 0 <= i < j < |users| :: users[i] != users[j]
    ensures forall e :: e in Found(users, answers)
                   <==> exists i :: 0 <= i < |users| && e.user == users[i] && answers[i] == Ips(e.ips) && e.ips != []
    ensures forall a, b, i, j | 0 <= a < b < |Found(users, answers)| && 0 <= i < |users| && 0 <= j < |users| ::
              Found(users, answers)[a].user == users[i] && Found(users, answers)[b].user == users[j] ==> i < j
  {
    if users != [] {
      var n := |users| - 1;
      var us, an := users[..n], answers[..n];
      var before, found := Found(us, an), Found(users, answers);
      FoundIs(us, an);
      forall e
        ensures e in found
           <==> exists i :: 0 <= i < |users| && e.user == users[i] && answers[i] == Ips(e.ips) && e.ips != []
      {
        if i :| 0 <= i < |users| && e.user == users[i] && answers[i] == Ips(e.ips) && e.ips != [] {
          if i < n { assert us[i] == users[i] && an[i] == answers[i]; }
        }
        if e in before {
          var i :| 0 <= i < n && e.user == us[i] && an[i] == Ips(e.ips) && e.ips != [];
          assert us[i] == users[i] && an[i] == answers[i];
        }
      }
      forall a, b, i, j | 0 <= a < b < |found| && 0 <= i < |users| && 0 <= j < |users| &&
                          found[a].user == users[i] && found[b].user == users[j]
        ensures i < j
      {
        FoundEarlier(users, answers, a, i);
        if b < |before| {
          FoundEarlier(users, answers, b, j);
          assert us[i] == users[i] && us[j] == users[j];
        } else {
          assert users[j] == users[n];
        }
      }
    }
  }

  /** What was found before the last user is found among the users before. */
  lemma FoundEarlier(users: seq<UserId>, answers: seq<Lookup>, a: nat, i: nat)
    requires |answers| == |users| && i < |users|
    requires forall i, j | 0 <= i < j < |users| :: users[i] != users[j]
    requires var n := |users| - 1; a < |Found(users[..n], answers[..n])| && Found(users, answers)[a].user == users[i]
    requires var n := |users| - 1;
             forall e :: e in Found(users[..n], answers[..n]) ==> exists k :: 0 <= k < n && e.user == users[..n][k]
    ensures i < |users| - 1 && Found(users, answers)[a] == Found(users[..|users| - 1], answers[..|users| - 1])[a]
  {
    var n := |users| - 1;
    var before := Found(users[..n], answers[..n]);
    assert before[a] in before;
    var k :| 0 <= k < n && before[a].user == users[..n][k];
    assert users[..n][k] == users[k];
  }

  /** The answer is to the user whom the worker asks for, and is there afterwards. */
  predicate Kept(at: State, a: Action, after: State) {
    && a.Answer? && a.w < |at.workers| && at.workers[a.w].Asking?
    && at.workers[a.w].job < |after.answers| && after.answers[at.workers[a.w].job] == a.answer
  }

  /** An answer that a worker got for a user is there in every later state. */
  lemma {:induction false} AnswersStay(users: seq<UserId>, schedule: seq<Action>, k: nat)
    requires Exec(users, schedule).Some? && k < |schedule| && schedule[k].Answer?
    ensures Exec(users, schedule[..k]).Some?
    ensures Kept(Exec(users, schedule[..k]).value, schedule[k], Exec(users, schedule).value)
  {
    hide Exec, Kept, Enabled, Do, Inv;
    var n := |schedule| - 1;
    var before := schedule[..n];
    ExecLast(users, schedule);
    var s := Exec(users, before).value;
    if k < n {
      assert before[..k] == schedule[..k] && before[k] == schedule[k];
      AnswersStay(users, before, k);
      AnswersAreGiven(users, before, k);
      AnswerStays(users, Exec(users, before[..k]).value, before[k], s, schedule[n]);
    } else {
      AnswerIsKept(users, s, schedule[n]);
    }
  }

  lemma {:induction false} AnswersAreGiven(users: seq<UserId>, schedule: seq<Action>, k: nat)
    requires Exec(users, schedule).Some? && k < |schedule|
    ensures Exec(users, schedule[..k]).Some? && Enabled(users, Exec(users, schedule[..k]).value, schedule[k])
  {
    hide Exec, Enabled, Do, Inv;
    var n := |schedule| - 1;
    ExecLast(users, schedule);
    if k < n {
      assert schedule[..n][..k] == schedule[..k];
      AnswersAreGiven(users, schedule[..n], k);
    }
  }

  lemma AnswerIsKept(users: seq<UserId>, s: State, a: Action)
    requires Inv(users, s) && Enabled(users, s, a) && a.Answer?
    ensures Kept(s, a, Do(users, s, a))
  {
  }

  lemma ExecLast(users: seq<UserId>, schedule: seq<Action>)
    requires Exec(users, schedule).Some? && schedule != []
    ensures var n := |schedule| - 1;
            var s := Exec(users, schedule[..n]);
            && s.Some? && Inv(users, s.value) && Enabled(users, s.value, schedule[n])
            && Exec(users, schedule).value == Do(users, s.value, schedule[n]) && Inv(users, Exec(users, schedule).value)
  {
  }

  lemma AnswerStays(users: seq<UserId>, at: State, given: Action, s: State, a: Action)
    requires Inv(users, s) && Enabled(users, s, a) && Kept(at, given, s) && Enabled(users, at, given)
    ensures Kept(at, given, Do(users, s, a))
  {
  }

  lemma {:induction false} WorkersStay(users: seq<UserId>, schedule: seq<Action>)
    requires Exec(users, schedule).Some?
    ensures |Exec(users, schedule).value.workers| == if |users| < 50 then |users| else 50
  {
    if schedule != [] {
      ExecLast(users, schedule);
      hide Exec, Inv;
      WorkersStay(users, schedule[..|schedule| - 1]);
    }
  }

  /** In every schedule: no user is handed out twice, no two workers ask for one at a time, and a slot is
      written at most once;
      something can always happen until all is finished, and that is within a bound; the output is
      the users with addresses among a prefix of the distinct users, among all of them unless the
      context was cancelled. */
  lemma EverySchedule(metrics: seq<string>, schedule: seq<Action>, s: State)
    requires Exec(UniqueUsers(metrics), schedule) == Some(s)
    ensures forall v, w | 0 <= v < w < |s.workers| && s.workers[v].Asking? && s.workers[w].Asking? ::
              s.workers[v].job != s.workers[w].job
    ensures |s.sends| == |s.writes| == |UniqueUsers(metrics)|
    ensures forall i | 0 <= i < |s.sends| :: s.sends[i] == (if i < s.sent then 1 else 0) && s.writes[i] <= s.sends[i]
    ensures Finished(s) || exists a :: a != Cancel && Enabled(UniqueUsers(metrics), s, a)
    ensures |schedule| <= StepsLeft(UniqueUsers(metrics), Start(UniqueUsers(metrics)))
    ensures var users := UniqueUsers(metrics);
            && s.sent <= |users| && |s.answers| == |users|
            && Filtered(s.results) == Found(users[..s.sent], s.answers[..s.sent])
            && (Finished(s) ==> forall i | 0 <= i < s.sent :: !s.answers[i].Waiting?)
            && (Finished(s) && !s.cancelled ==> s.sent == |users| && Filtered(s.results) == Found(users, s.answers))
  {
    hide StepsLeft, Enabled;
    var users := UniqueUsers(metrics);
    NeverStuck(users, s);
    SchedulesEnd(users, schedule);
    FilteredIsFound(users, s.results, s.answers, s.sent);
    if Finished(s) && !s.cancelled {
      assert users[..|users|] == users && s.answers[..|users|] == s.answers;
    }
  }
}
