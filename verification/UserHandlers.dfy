/** The add-user and remove-user handlers, which change the core's user tables and the recorded
    hashes together. */
module UserHandlers {
  import opened Wrappers
  import opened HashedSets
  import opened HashState

  type User = string

  /** The recorded sets and tags, and what the core holds: for each of its inbounds, the id the
      panel hashes for each user. */
  datatype Tables = Tables(sets: map<Tag, set<Id>>, tags: set<Tag>, core: map<Tag, map<User, Id>>)

  /** An inbound to put a user on. */
  datatype Item = Item(tag: Tag, user: User)

  /** One user's part of a request: who is taken off every inbound, with which id, and who is put
      where, with which id. */
  datatype Placement = Placement(user: User, hashId: Id, newId: Id, items: seq<Item>)

  datatype BatchUser = BatchUser(userId: User, hashUuid: Id, vlessUuid: Id, tags: seq<Tag>)

  datatype Request =
    | AddUser(data: seq<Item>, vlessUuid: Id, prevVlessUuid: Option<Id>)
    | AddUsers(affectedTags: seq<Tag>, users: seq<BatchUser>)
    | RemoveUser(username: User, vlessUuid: Id)
    | RemoveUsers(removals: seq<(User, Id)>)

  /** What the core answers for one user: the inbounds where it fails to take the user off, and
      which additions it is willing to make. */
  datatype Answer = Answer(stuck: set<Tag>, ok: seq<bool>)

  function SinglePlacement(data: seq<Item>, vlessUuid: Id, prev: Option<Id>): Placement
    requires data != []
  {
    Placement(data[0].user, if prev.Some? && prev.value != [] then prev.value else vlessUuid, vlessUuid, data)
  }

  function BatchPlacement(u: BatchUser): Placement {
    Placement(u.userId, u.hashUuid, u.vlessUuid,
              seq(|u.tags|, i requires 0 <= i < |u.tags| => Item(u.tags[i], u.userId)))
  }

  // ---------------------------------------------------------------- what the handlers do

  function CoreRemove(core: map<Tag, map<User, Id>>, tag: Tag, user: User): map<Tag, map<User, Id>> {
    if tag in core then core[tag := core[tag] - {user}] else core
  }

  function RemoveOne(t: Tables, tag: Tag, user: User, id: Id, stuck: bool): Tables {
    Tables(Removing(t.sets, tag, id), t.tags - Emptied(t.sets, tag, id),
           if stuck then t.core else CoreRemove(t.core, tag, user))
  }

  /** Removing a user, and an id, from some inbounds.  The id goes whether or not the core obeys. */
  function RemoveFrom(t: Tables, tags: set<Tag>, user: User, id: Id, stuck: set<Tag>): Tables {
    Tables(
      map tag | tag in t.sets && !(tag in tags && Empties(t.sets, tag, id)) ::
        if tag in tags && tag != "" then t.sets[tag] - (if id == [] then {} else {id}) else t.sets[tag],
      t.tags - (set tag | tag in tags && Empties(t.sets, tag, id)),
      map tag | tag in t.core :: if tag in tags - stuck then t.core[tag] - {user} else t.core[tag])
  }

  function AddTags(t: Tables, tags: seq<Tag>): Tables {
    t.(tags := t.tags + set tag | tag in tags && tag != "")
  }

  function TagsOf(items: seq<Item>): seq<Tag> {
    seq(|items|, i requires 0 <= i < |items| => items[i].tag)
  }

  /** The core puts a user on an inbound it has, unless it refuses. */
  predicate CanAdd(core: map<Tag, map<User, Id>>, item: Item) {
    item.tag != "" && item.tag in core && item.user !in core[item.tag]
  }

  function AddOne(t: Tables, item: Item, id: Id, ok: bool): Tables {
    if !ok || !CanAdd(t.core, item) then t else
    Tables(Adding(t.sets, item.tag, id), t.tags + (if id == [] then {} else {item.tag}),
           t.core[item.tag := t.core[item.tag][item.user := id]])
  }

  /** Putting users on inbounds one after the other; `ok` are the core's answers. */
  function AddTo(t: Tables, items: seq<Item>, id: Id, ok: seq<bool>): Tables
    requires |ok| == |items|
  {
    if items == [] then t else
    var n := |items| - 1;
    AddOne(AddTo(t, items[..n], id, ok[..n]), items[n], id, ok[n])
  }

  /** Tags first, then off every inbound.  A batch user is taken off even without a name, a single
      one is not. */
  function Cleared(t: Tables, p: Placement, batch: bool, stuck: set<Tag>): Tables {
    var tagged := AddTags(t, TagsOf(p.items));
    if !batch && p.user == "" then tagged else RemoveFrom(tagged, tagged.tags, p.user, p.hashId, stuck)
  }

  /** Then onto the wanted ones. */
  function Place(t: Tables, p: Placement, batch: bool, a: Answer): Tables
    requires |a.ok| == |p.items|
  {
    AddTo(Cleared(t, p, batch, a.stuck), p.items, p.newId, a.ok)
  }

  /** The k-th addition is made. */
  predicate Lands(t: Tables, items: seq<Item>, id: Id, ok: seq<bool>, k: nat)
    requires k < |items| == |ok|
  {
    ok[k] && CanAdd(AddTo(t, items[..k], id, ok[..k]).core, items[k])
  }

  /** An answer for each user, about each of the user's inbounds. */
  predicate Answers(answers: seq<Answer>, users: seq<BatchUser>) {
    |answers| == |users| && forall i | 0 <= i < |users| :: |answers[i].ok| == |users[i].tags|
  }

  function PlaceAll(t: Tables, users: seq<BatchUser>, answers: seq<Answer>): Tables
    requires Answers(answers, users)
  {
    if users == [] then t else
    var n := |users| - 1;
    Place(PlaceAll(t, users[..n], answers[..n]), BatchPlacement(users[n]), true, answers[n])
  }

  function RemoveAll(t: Tables, rs: seq<(User, Id)>, answers: seq<Answer>): Tables
    requires |answers| == |rs|
  {
    if rs == [] then t else
    var n := |rs| - 1;
    var before := RemoveAll(t, rs[..n], answers[..n]);
    RemoveFrom(before, before.tags, rs[n].0, rs[n].1, answers[n].stuck)
  }

  predicate AnswersTo(answers: seq<Answer>, req: Request) {
    match req
    case AddUser(data, _, _) => |answers| == 1 && |answers[0].ok| == |data|
    case AddUsers(_, users) => Answers(answers, users)
    case RemoveUser(_, _) => |answers| == 1
    case RemoveUsers(removals) => |answers| == |removals|
  }

  /** What a request does to the tables, given the core's answers. */
  function Serve(t: Tables, req: Request, answers: seq<Answer>): Tables
    requires AnswersTo(answers, req)
  {
    match req
    case AddUser(data, id, prev) =>
      if data == [] then t else Place(t, SinglePlacement(data, id, prev), false, answers[0])
    case AddUsers(affected, users) => PlaceAll(AddTags(t, affected), users, answers)
    case RemoveUser(user, id) => if t.tags == {} then t else RemoveFrom(t, t.tags, user, id, answers[0].stuck)
    case RemoveUsers(removals) => if t.tags == {} then t else RemoveAll(t, removals, answers)
  }

  // ---------------------------------------------------------------- staying in step

  function IdsOf(core: map<Tag, map<User, Id>>, tag: Tag): set<Id> {
    if tag in core then core[tag].Values else {}
  }

  function SetOf(sets: map<Tag, set<Id>>, tag: Tag): set<Id> {
    if tag in sets then sets[tag] else {}
  }

  /** Ids name users: the same id exactly for the same user, on every inbound. */
  ghost predicate IdsNameUsers(core: map<Tag, map<User, Id>>) {
    && "" !in core
    && (forall a, u :: a in core && u in core[a] ==> core[a][u] != [])
    && (forall a, b, u, v :: a in core && b in core && u in core[a] && v in core[b] ==>
          (core[a][u] == core[b][v] <==> u == v))
  }

  /** The ids recorded under each tag are those of the users the core holds there. */
  ghost predicate InStep(t: Tables) {
    && IdsNameUsers(t.core)
    && t.sets.Keys <= t.tags
    && "" !in t.sets
    && (forall tag :: SetOf(t.sets, tag) == IdsOf(t.core, tag))
  }

  /** The id sent for a user is the one the user has, and nobody else's. */
  ghost predicate IdMatches(core: map<Tag, map<User, Id>>, user: User, id: Id) {
    forall a, u :: a in core && u in core[a] ==> (core[a][u] == id <==> u == user)
  }

  /** The core takes the user off wherever the user is. */
  ghost predicate Obeys(core: map<Tag, map<User, Id>>, user: User, stuck: set<Tag>) {
    forall a :: a in core && a in stuck ==> user !in core[a]
  }

  /** The id sent is on exactly the entries that the core gives up. */
  ghost predicate IdFits(core: map<Tag, map<User, Id>>, user: User, id: Id, stuck: set<Tag>) {
    forall a, u :: a in core && u in core[a] ==> (core[a][u] == id <==> u == user && a !in stuck)
  }

  /** The new id is a proper id and nobody else's. */
  ghost predicate NewIdFree(core: map<Tag, map<User, Id>>, user: User, id: Id) {
    id != [] && forall a, u :: a in core && u in core[a] && core[a][u] == id ==> u == user
  }

  /** A user with a name can go from one id to another: the old one is the user's, the new one nobody
      else's, and the core does take the user off. */
  ghost predicate CanMove(core: map<Tag, map<User, Id>>, user: User, oldId: Id, newId: Id, stuck: set<Tag>) {
    && user != ""
    && IdMatches(core, user, oldId)
    && Obeys(core, user, stuck)
    && NewIdFree(core, user, newId)
  }

  /** A placement is about one user, who can move. */
  ghost predicate Proper(t: Tables, p: Placement, stuck: set<Tag>) {
    (forall item <- p.items :: item.user == p.user) && CanMove(t.core, p.user, p.hashId, p.newId, stuck)
  }

  lemma RemoveFromKeepsInStep(t: Tables, user: User, id: Id, stuck: set<Tag>)
    requires InStep(t) && IdFits(t.core, user, id, stuck)
    ensures InStep(RemoveFrom(t, t.tags, user, id, stuck))
  {
    var t' := RemoveFrom(t, t.tags, user, id, stuck);
    forall tag ensures SetOf(t'.sets, tag) == IdsOf(t'.core, tag) {
      assert SetOf(t.sets, tag) == IdsOf(t.core, tag);
      if tag in t.core && tag in t.tags {
        if tag in stuck { assert id !in t.core[tag].Values; } else { ValuesWithout(t.core[tag], user, id); }
      }
    }
  }

  /** A core that obeys has the user nowhere afterwards. */
  lemma RemoveFromClears(t: Tables, user: User, id: Id, stuck: set<Tag>)
    requires InStep(t) && Obeys(t.core, user, stuck)
    ensures forall a :: a in t.core ==> user !in RemoveFrom(t, t.tags, user, id, stuck).core[a]
  {
    forall tag | tag in t.core ensures user !in RemoveFrom(t, t.tags, user, id, stuck).core[tag] {
      if user in t.core[tag] {
        assert SetOf(t.sets, tag) == IdsOf(t.core, tag);
        assert t.core[tag][user] in IdsOf(t.core, tag);
        assert tag in t.sets;
      }
    }
  }

  /** Dropping a user drops exactly the user's id. */
  lemma ValuesWithout(m: map<User, Id>, user: User, id: Id)
    requires forall u :: u in m ==> (m[u] == id <==> u == user)
    ensures (m - {user}).Values == m.Values - {id}
  {
    forall x | x in m.Values - {id} ensures x in (m - {user}).Values {
      var u :| u in m && m[u] == x;
      assert u in m - {user} && (m - {user})[u] == x;
    }
  }

  /** Wherever a user is, it is with this id. */
  ghost predicate HasOnly(core: map<Tag, map<User, Id>>, user: User, id: Id) {
    forall a :: a in core && user in core[a] ==> core[a][user] == id
  }

  lemma AddOneNames(t: Tables, item: Item, id: Id)
    requires IdsNameUsers(t.core) && HasOnly(t.core, item.user, id) && NewIdFree(t.core, item.user, id)
    requires CanAdd(t.core, item)
    ensures var core := AddOne(t, item, id, true).core;
            IdsNameUsers(core) && HasOnly(core, item.user, id) && NewIdFree(core, item.user, id)
  {
    var core := AddOne(t, item, id, true).core;
    forall a, u | a in core && u in core[a]
      ensures core[a][u] != [] && (core[a][u] == id <==> u == item.user)
    {
      if a != item.tag || u != item.user { assert a in t.core && u in t.core[a]; }
    }
    forall a, b, u, v | a in core && b in core && u in core[a] && v in core[b]
      ensures core[a][u] == core[b][v] <==> u == v
    {
      if u != item.user { assert a in t.core && u in t.core[a]; }
      if v != item.user { assert b in t.core && v in t.core[b]; }
    }
  }

  lemma AddOneSets(t: Tables, item: Item, id: Id, tag: Tag)
    requires InStep(t) && CanAdd(t.core, item) && id != []
    ensures var t' := AddOne(t, item, id, true); SetOf(t'.sets, tag) == IdsOf(t'.core, tag)
  {
    hide IdsNameUsers;
    assert SetOf(t.sets, tag) == IdsOf(t.core, tag);
    ValuesWith(t.core[item.tag], item.user, id);
  }

  lemma AddOneKeepsInStep(t: Tables, item: Item, id: Id, ok: bool)
    requires InStep(t) && HasOnly(t.core, item.user, id) && NewIdFree(t.core, item.user, id)
    ensures var t' := AddOne(t, item, id, ok);
            InStep(t') && HasOnly(t'.core, item.user, id) && NewIdFree(t'.core, item.user, id)
  {
    hide IdsNameUsers, HasOnly, SetOf, IdsOf;
    if ok && CanAdd(t.core, item) {
      AddOneNames(t, item, id);
      forall tag ensures var t' := AddOne(t, item, id, ok); SetOf(t'.sets, tag) == IdsOf(t'.core, tag) {
        AddOneSets(t, item, id, tag);
      }
    }
  }

  lemma ValuesWith(m: map<User, Id>, user: User, id: Id)
    requires user !in m
    ensures m[user := id].Values == m.Values + {id}
  {
    var m' := m[user := id];
    assert m'[user] == id;
    forall x | x in m.Values ensures x in m'.Values {
      var u :| u in m && m[u] == x;
      assert m'[u] == x;
    }
  }

  lemma {:induction false} AddToKeepsInStep(t: Tables, items: seq<Item>, user: User, id: Id, ok: seq<bool>)
    requires |ok| == |items| && forall item <- items :: item.user == user
    requires InStep(t) && HasOnly(t.core, user, id) && NewIdFree(t.core, user, id)
    ensures var t' := AddTo(t, items, id, ok);
            InStep(t') && HasOnly(t'.core, user, id) && NewIdFree(t'.core, user, id)
  {
    if items != [] {
      var n := |items| - 1;
      AddToKeepsInStep(t, items[..n], user, id, ok[..n]);
      AddOneKeepsInStep(AddTo(t, items[..n], id, ok[..n]), items[n], id, ok[n]);
    }
  }

  lemma PlaceKeepsInStep(t: Tables, p: Placement, batch: bool, a: Answer)
    requires |a.ok| == |p.items| && InStep(t) && Proper(t, p, a.stuck)
    ensures InStep(Place(t, p, batch, a))
  {
    var tagged := AddTags(t, TagsOf(p.items));
    assert InStep(tagged);
    RemoveFromKeepsInStep(tagged, p.user, p.hashId, a.stuck);
    RemoveFromClears(tagged, p.user, p.hashId, a.stuck);
    AddToKeepsInStep(RemoveFrom(tagged, tagged.tags, p.user, p.hashId, a.stuck), p.items, p.user, p.newId, a.ok);
  }

  // ---------------------------------------------------------------- every run

  /** Each user of a batch can move when its turn comes. */
  ghost predicate AllProper(t: Tables, users: seq<BatchUser>, answers: seq<Answer>)
    requires Answers(answers, users)
  {
    forall i | 0 <= i < |users| ::
      CanMove(PlaceAll(t, users[..i], answers[..i]).core, users[i].userId, users[i].hashUuid, users[i].vlessUuid,
              answers[i].stuck)
  }

  ghost predicate AllFit(t: Tables, rs: seq<(User, Id)>, answers: seq<Answer>)
    requires |answers| == |rs|
  {
    forall i | 0 <= i < |rs| ::
      IdFits(RemoveAll(t, rs[..i], answers[..i]).core, rs[i].0, rs[i].1, answers[i].stuck)
  }

  ghost predicate ProperRequest(t: Tables, req: Request, answers: seq<Answer>)
    requires AnswersTo(answers, req)
  {
    match req
    case AddUser(data, id, prev) =>
      data != [] ==>
        && (forall item <- data :: item.user == data[0].user)
        && var oldId := if prev.Some? && prev.value != [] then prev.value else id;
           CanMove(t.core, data[0].user, oldId, id, answers[0].stuck)
    case AddUsers(affected, users) => AllProper(AddTags(t, affected), users, answers)
    case RemoveUser(user, id) => IdFits(t.core, user, id, answers[0].stuck)
    case RemoveUsers(removals) => AllFit(t, removals, answers)
  }

  lemma {:induction false} PlaceAllKeepsInStep(t: Tables, users: seq<BatchUser>, answers: seq<Answer>)
    requires Answers(answers, users) && InStep(t) && AllProper(t, users, answers)
    ensures InStep(PlaceAll(t, users, answers))
  {
    hide InStep, CanMove, Place;
    if users != [] {
      var n := |users| - 1;
      forall i | 0 <= i < n
        ensures CanMove(PlaceAll(t, users[..n][..i], answers[..n][..i]).core, users[..n][i].userId,
                        users[..n][i].hashUuid, users[..n][i].vlessUuid, answers[..n][i].stuck)
      {
        assert users[..n][..i] == users[..i] && answers[..n][..i] == answers[..i];
      }
      PlaceAllKeepsInStep(t, users[..n], answers[..n]);
      PlaceKeepsInStep(PlaceAll(t, users[..n], answers[..n]), BatchPlacement(users[n]), true, answers[n]);
    }
  }

  lemma {:induction false} RemoveAllKeepsInStep(t: Tables, rs: seq<(User, Id)>, answers: seq<Answer>)
    requires |answers| == |rs| && InStep(t) && AllFit(t, rs, answers)
    ensures InStep(RemoveAll(t, rs, answers))
  {
    hide InStep, IdFits, RemoveFrom;
    if rs != [] {
      var n := |rs| - 1;
      forall i | 0 <= i < n
        ensures IdFits(RemoveAll(t, rs[..n][..i], answers[..n][..i]).core, rs[..n][i].0, rs[..n][i].1,
                       answers[..n][i].stuck)
      {
        assert rs[..n][..i] == rs[..i] && answers[..n][..i] == answers[..i];
      }
      RemoveAllKeepsInStep(t, rs[..n], answers[..n]);
      RemoveFromKeepsInStep(RemoveAll(t, rs[..n], answers[..n]), rs[n].0, rs[n].1, answers[n].stuck);
    }
  }

  /** A proper request, whatever the core answers to the additions, keeps the tables in step. */
  lemma ServeKeepsInStep(t: Tables, req: Request, answers: seq<Answer>)
    requires AnswersTo(answers, req) && InStep(t) && ProperRequest(t, req, answers)
    ensures InStep(Serve(t, req, answers))
  {
    match req
    case AddUser(data, id, prev) =>
      if data != [] { PlaceKeepsInStep(t, SinglePlacement(data, id, prev), false, answers[0]); }
    case AddUsers(affected, users) =>
      assert InStep(AddTags(t, affected));
      PlaceAllKeepsInStep(AddTags(t, affected), users, answers);
    case RemoveUser(user, id) => RemoveFromKeepsInStep(t, user, id, answers[0].stuck);
    case RemoveUsers(removals) => RemoveAllKeepsInStep(t, removals, answers);
  }

  /** For a removal the condition is exact: the tables stay in step if and only if the id sent is on
      exactly the entries that the core gives up. */
  lemma RemoveKeepsInStepIff(t: Tables, user: User, id: Id, a: Answer)
    requires InStep(t)
    ensures InStep(Serve(t, RemoveUser(user, id), [a])) <==> IdFits(t.core, user, id, a.stuck)
  {
    if IdFits(t.core, user, id, a.stuck) {
      ServeKeepsInStep(t, RemoveUser(user, id), [a]);
    } else {
      var tag, u :| tag in t.core && u in t.core[tag] && !(t.core[tag][u] == id <==> u == user && tag !in a.stuck);
      EntrySplits(t, user, id, a.stuck, tag, u);
    }
  }

  /** An entry that goes on one side only. */
  lemma EntrySplits(t: Tables, user: User, id: Id, stuck: set<Tag>, tag: Tag, u: User)
    requires InStep(t) && tag in t.core && u in t.core[tag]
    requires !(t.core[tag][u] == id <==> u == user && tag !in stuck)
    ensures t.tags != {} && !InStep(RemoveFrom(t, t.tags, user, id, stuck))
  {
    var t', x := RemoveFrom(t, t.tags, user, id, stuck), t.core[tag][u];
    assert x in IdsOf(t.core, tag) && SetOf(t.sets, tag) == IdsOf(t.core, tag);
    assert tag in t.sets && tag in t.tags;
    if u == user && tag !in stuck {
      assert x in SetOf(t'.sets, tag);
      forall v | v in t'.core[tag] ensures t'.core[tag][v] != x { assert v in t.core[tag] && v != user; }
    } else {
      assert x !in SetOf(t'.sets, tag);
      assert u in t'.core[tag] && t'.core[tag][u] == x;
      assert x in IdsOf(t'.core, tag);
    }
    assert SetOf(t'.sets, tag) != IdsOf(t'.core, tag);
  }

  /** With a core that obeys, the id has to be the user's and nobody else's; with such an id, the core
      has to obey. */
  lemma RemoveKeepsInStepWhen(t: Tables, user: User, id: Id, a: Answer)
    requires InStep(t)
    ensures Obeys(t.core, user, a.stuck) ==>
              (InStep(Serve(t, RemoveUser(user, id), [a])) <==> IdMatches(t.core, user, id))
    ensures IdMatches(t.core, user, id) ==>
              (InStep(Serve(t, RemoveUser(user, id), [a])) <==> Obeys(t.core, user, a.stuck))
  {
    hide InStep, Serve;
    RemoveKeepsInStepIff(t, user, id, a);
  }

  /** One inbound with one user. */
  function OneUser(tag: Tag, user: User, id: Id): Tables {
    Tables(map[tag := {id}], {tag}, map[tag := map[user := id]])
  }

  /** Both ways to fail: a removal with another id, which takes the user off and keeps the id, and one
      that the core does not carry out, after which the hash is that of no users. */
  lemma RemovalSplits(tag: Tag, user: User, id: Id, other: Id)
    requires tag != "" && id != [] && other != id
    ensures InStep(OneUser(tag, user, id))
    ensures !InStep(Serve(OneUser(tag, user, id), RemoveUser(user, other), [Answer({}, [])]))
    ensures !InStep(Serve(OneUser(tag, user, id), RemoveUser(user, id), [Answer({tag}, [])]))
  {
    var t := OneUser(tag, user, id);
    assert t.core[tag][user] == id;
    assert t.core[tag].Values == {id};
    EntrySplits(t, user, other, {}, tag, user);
    EntrySplits(t, user, id, {tag}, tag, user);
  }

  datatype Call = Call(req: Request, answers: seq<Answer>)

  function Run(t: Tables, calls: seq<Call>): Tables
    requires forall c <- calls :: AnswersTo(c.answers, c.req)
  {
    if calls == [] then t else
    var n := |calls| - 1;
    assert calls[n] in calls;
    Serve(Run(t, calls[..n]), calls[n].req, calls[n].answers)
  }

  /** After any run of proper requests, the ids recorded under each tag are those of the users the
      core holds on it. */
  lemma {:induction false} RunKeepsInStep(t: Tables, calls: seq<Call>)
    requires forall c <- calls :: AnswersTo(c.answers, c.req)
    requires InStep(t)
    requires forall i | 0 <= i < |calls| :: ProperCall(t, calls, i)
    ensures InStep(Run(t, calls))
  {
    if calls != [] {
      var n := |calls| - 1;
      forall i | 0 <= i < n ensures ProperCall(t, calls[..n], i) {
        assert calls[..n][..i] == calls[..i] && ProperCall(t, calls, i);
      }
      RunKeepsInStep(t, calls[..n]);
      assert calls[n] in calls && ProperCall(t, calls, n);
      ServeKeepsInStep(Run(t, calls[..n]), calls[n].req, calls[n].answers);
    }
  }

  ghost predicate ProperCall(t: Tables, calls: seq<Call>, i: nat)
    requires i < |calls| && forall c <- calls :: AnswersTo(c.answers, c.req)
  {
    assert calls[i] in calls;
    ProperRequest(Run(t, calls[..i]), calls[i].req, calls[i].answers)
  }

  // ---------------------------------------------------------------- the start of a run

  datatype Account = Account(user: User, id: Id)

  /** An inbound of the config the core is started with. */
  datatype Listener = Listener(tag: Tag, accounts: seq<Account>)

  function AsInbound(l: Listener): Inbound {
    Inbound.Inbound(l.tag, seq(|l.accounts|, i requires 0 <= i < |l.accounts| => l.accounts[i].id))
  }

  function AsInbounds(ls: seq<Listener>): seq<Inbound> {
    seq(|ls|, i requires 0 <= i < |ls| => AsInbound(ls[i]))
  }

  predicate DistinctListeners(ls: seq<Listener>) {
    forall i, j | 0 <= i < j < |ls| :: ls[i].tag != ls[j].tag
  }

  /** The core holds exactly the accounts of the config. */
  ghost predicate Loads(core: map<Tag, map<User, Id>>, ls: seq<Listener>) {
    && (forall l <- ls :: l.tag in core && forall u, id ::
          (u in core[l.tag] && core[l.tag][u] == id) <==> Account(u, id) in l.accounts)
    && (forall tag :: tag in core ==> exists l :: l in ls && l.tag == tag)
  }

  lemma {:induction false} RecordedKeys(valid: set<Tag>, ls: seq<Listener>, tag: Tag)
    ensures var sets := RecordedSets(valid, AsInbounds(ls));
            tag in sets ==> tag != "" && exists l :: l in ls && l.tag == tag
  {
    if ls != [] {
      var n := |ls| - 1;
      assert AsInbounds(ls)[..n] == AsInbounds(ls[..n]);
      RecordedKeys(valid, ls[..n], tag);
      assert ls[n] in ls;
    }
  }

  lemma {:induction false} RecordedAt(valid: set<Tag>, ls: seq<Listener>, k: nat)
    requires k < |ls| && DistinctListeners(ls) && ls[k].tag != ""
    ensures var sets := RecordedSets(valid, AsInbounds(ls));
            if ls[k].tag in valid then ls[k].tag in sets && sets[ls[k].tag] == ClientIds(AsInbound(ls[k]).clients)
            else ls[k].tag !in sets
  {
    var n := |ls| - 1;
    assert AsInbounds(ls)[..n] == AsInbounds(ls[..n]);
    if k < n {
      RecordedAt(valid, ls[..n], k);
    } else {
      RecordedKeys(valid, ls[..n], ls[n].tag);
    }
  }

  lemma LoadedIds(core: map<Tag, map<User, Id>>, ls: seq<Listener>, l: Listener)
    requires Loads(core, ls) && IdsNameUsers(core) && l in ls
    ensures IdsOf(core, l.tag) == ClientIds(AsInbound(l).clients)
  {
    var ids := AsInbound(l).clients;
    forall id | id in IdsOf(core, l.tag) ensures id in ClientIds(ids) {
      var u :| u in core[l.tag] && core[l.tag][u] == id;
      var k :| 0 <= k < |l.accounts| && l.accounts[k] == Account(u, id);
      assert ids[k] == id;
    }
    forall id | id in ClientIds(ids) ensures id in IdsOf(core, l.tag) {
      var k :| 0 <= k < |ids| && ids[k] == id;
      assert Account(l.accounts[k].user, id) in l.accounts;
    }
  }

  /** Right after extraction the tables are in step exactly when the request carries a hash for
      every inbound that has users. */
  lemma ExtractionInStepIff(core: map<Tag, map<User, Id>>, ls: seq<Listener>, hashes: ConfigHash)
    requires DistinctListeners(ls) && Loads(core, ls) && IdsNameUsers(core)
    ensures var sets := RecordedSets(ValidTags(hashes), AsInbounds(ls));
            InStep(Tables(sets, sets.Keys, core))
            <==> forall l <- ls :: l.accounts != [] ==> l.tag in ValidTags(hashes)
  {
    hide IdsNameUsers, Loads, ClientIds, RecordedSets, ValidTags;
    var valid := ValidTags(hashes);
    var sets := RecordedSets(valid, AsInbounds(ls));
    forall l | l in ls
      ensures SetOf(sets, l.tag) == IdsOf(core, l.tag) <==> l.accounts != [] ==> l.tag in valid
    {
      var k :| 0 <= k < |ls| && ls[k] == l;
      assert l.tag != "" by { Named(core, ls, l); }
      RecordedAt(valid, ls, k);
      LoadedIds(core, ls, l);
      NoIds(core, ls, l);
    }
    forall tag | forall l <- ls :: l.tag != tag ensures SetOf(sets, tag) == IdsOf(core, tag) {
      RecordedKeys(valid, ls, tag);
      Unlisted(core, ls, tag);
    }
    RecordedKeys(valid, ls, "");
  }

  lemma Named(core: map<Tag, map<User, Id>>, ls: seq<Listener>, l: Listener)
    requires Loads(core, ls) && IdsNameUsers(core) && l in ls
    ensures l.tag != ""
  {
  }

  lemma Unlisted(core: map<Tag, map<User, Id>>, ls: seq<Listener>, tag: Tag)
    requires Loads(core, ls) && forall l <- ls :: l.tag != tag
    ensures tag !in core
  {
  }

  lemma NoIds(core: map<Tag, map<User, Id>>, ls: seq<Listener>, l: Listener)
    requires Loads(core, ls) && l in ls
    ensures IdsOf(core, l.tag) == {} <==> l.accounts == []
  {
    if l.accounts != [] {
      var a := l.accounts[0];
      assert Account(a.user, a.id) in l.accounts;
      assert core[l.tag][a.user] in IdsOf(core, l.tag);
    }
    assert forall u :: u in core[l.tag] ==> Account(u, core[l.tag][u]) in l.accounts;
    if l.accounts == [] { assert core[l.tag] == map[]; }
  }

  // ---------------------------------------------------------------- the answer

  datatype HandlerResult = HandlerResult(ok: bool, message: string)

  datatype Response = Response(success: bool, error: Option<string>)

  predicate SomeOk(results: seq<HandlerResult>) {
    exists r :: r in results && r.ok
  }

  function FirstMessage(results: seq<HandlerResult>): string {
    if results == [] then "" else if results[0].message != "" then results[0].message else FirstMessage(results[1..])
  }

  /** It is the first message that is not empty. */
  lemma {:induction false} FirstMessageIs(results: seq<HandlerResult>)
    ensures FirstMessage(results) == "" <==> forall i | 0 <= i < |results| :: results[i].message == ""
    ensures FirstMessage(results) != "" ==>
              exists i :: 0 <= i < |results| && results[i].message == FirstMessage(results)
                          && forall j | 0 <= j < i :: results[j].message == ""
  {
    if results != [] && results[0].message == "" {
      var rest := results[1..];
      FirstMessageIs(rest);
      forall i | 0 < i < |results| ensures results[i] == rest[i - 1] {}
      if FirstMessage(rest) != "" {
        var i :| 0 <= i < |rest| && rest[i].message == FirstMessage(rest)
                 && forall j | 0 <= j < i :: rest[j].message == "";
        assert results[i + 1].message == FirstMessage(rest);
      }
    }
  }

  /** Only a request all of whose calls failed is answered as failed, with the first message there is. */
  method AggregateResults(results: seq<HandlerResult>) returns (response: Response)
    ensures response.success <==> results == [] || SomeOk(results)
    ensures response.success <==> response.error.None?
    ensures !response.success ==>
              var first := FirstMessage(results);
              response.error.value == if first == "" then "all handler operations failed" else first
  {
    if results == [] {
      return Response(true, None);
    }
    var allFailed, firstError := true, "";
    for i := 0 to |results|
      invariant allFailed <==> !SomeOk(results[..i])
      invariant allFailed ==>
                  FirstMessage(results) == if firstError == "" then FirstMessage(results[i..]) else firstError
    {
      assert results[..i + 1] == results[..i] + [results[i]];
      if results[i].ok {
        allFailed := false;
        continue;
      }
      if firstError == "" && results[i].message != "" {
        firstError := results[i].message;
      }
    }
    assert results[..|results|] == results;
    if allFailed {
      return Response(false, Some(if firstError == "" then "all handler operations failed" else firstError));
    }
    return Response(true, None);
  }

  // ---------------------------------------------------------------- the handlers

  lemma RemoveFromNone(t: Tables, user: User, id: Id)
    ensures RemoveFrom(t, {}, user, id, {}) == t
  {
  }

  /** One more inbound, in whatever order. */
  lemma RemoveFromNext(t: Tables, done: set<Tag>, tag: Tag, user: User, id: Id, stuck: set<Tag>, fails: bool)
    requires tag !in done && stuck <= done
    ensures RemoveOne(RemoveFrom(t, done, user, id, stuck), tag, user, id, fails)
         == RemoveFrom(t, done + {tag}, user, id, stuck + if fails then {tag} else {})
  {
    var before := RemoveFrom(t, done, user, id, stuck);
    var after := RemoveFrom(t, done + {tag}, user, id, stuck + if fails then {tag} else {});
    RemoveNextSets(t, done, tag, user, id, stuck, stuck + if fails then {tag} else {});
    assert (if fails then before.core else CoreRemove(before.core, tag, user)) == after.core;
  }

  /** What goes from the record does not depend on what the core does. */
  lemma RemoveNextSets(t: Tables, done: set<Tag>, tag: Tag, user: User, id: Id, stuck: set<Tag>, stuck': set<Tag>)
    requires tag !in done
    ensures var before := RemoveFrom(t, done, user, id, stuck);
            var after := RemoveFrom(t, done + {tag}, user, id, stuck');
            Removing(before.sets, tag, id) == after.sets && before.tags - Emptied(before.sets, tag, id) == after.tags
  {
    var before, after := RemoveFrom(t, done, user, id, stuck), RemoveFrom(t, done + {tag}, user, id, stuck');
    assert Empties(before.sets, tag, id) == Empties(t.sets, tag, id);
    if tag in t.sets { assert id == [] ==> t.sets[tag] - {} == t.sets[tag]; }
    assert (tag in Removing(before.sets, tag, id)) == (tag in after.sets);
    assert tag in after.sets ==> Removing(before.sets, tag, id)[tag] == after.sets[tag];
    assert Removing(before.sets, tag, id) == after.sets;
  }

  predicate Off(core: map<Tag, map<User, Id>>, tag: Tag, user: User) {
    tag !in core || user !in core[tag]
  }

  lemma LandsNext(t: Tables, items: seq<Item>, n: nat, id: Id, ok: seq<bool>, last: bool)
    requires n == |ok| < |items|
    ensures forall k | 0 <= k < n ::
              Lands(t, items[..n + 1], id, ok + [last], k) <==> Lands(t, items[..n], id, ok, k)
    ensures Lands(t, items[..n + 1], id, ok + [last], n)
       <==> last && CanAdd(AddTo(t, items[..n], id, ok).core, items[n])
  {
    forall k | 0 <= k <= n
      ensures items[..n + 1][..k] == items[..k] && (ok + [last])[..k] == ok[..k]
      ensures items[..n][..k] == items[..k]
    {
    }
  }

  lemma StaysOff(before: map<Tag, map<User, Id>>, core: map<Tag, map<User, Id>>, tag: Tag, user: User, fails: bool)
    requires core == if fails then before else CoreRemove(before, tag, user)
    ensures forall a :: Off(before, a, user) ==> Off(core, a, user)
  {
  }

  lemma SomeOkNone()
    ensures !SomeOk([])
  {
  }

  lemma SomeOkNext(results: seq<HandlerResult>, r: HandlerResult)
    ensures SomeOk(results + [r]) <==> SomeOk(results) || r.ok
  {
    assert r in results + [r];
    assert forall x :: x in results + [r] <==> x in results || x == r;
  }

  lemma SomeOkAt(results: seq<HandlerResult>)
    ensures SomeOk(results) <==> exists k :: 0 <= k < |results| && results[k].ok
  {
    if SomeOk(results) {
      var r :| r in results && r.ok;
      assert exists k :: 0 <= k < |results| && results[k] == r;
    }
  }

  lemma AddTagsNext(t: Tables, tags: seq<Tag>, i: nat)
    requires i < |tags|
    ensures AddTags(t, tags[..i + 1])
         == AddTags(t, tags[..i]).(tags := AddTags(t, tags[..i]).tags + if tags[i] == "" then {} else {tags[i]})
  {
    assert tags[..i + 1] == tags[..i] + [tags[i]];
  }

  /** The node's recorded hashes beside the core they describe. */
  class Service {
    const hashes: UserHashes
    /** What the core holds; it changes only through the calls below. */
    var core: map<Tag, map<User, Id>>

    constructor (hashes: UserHashes, core: map<Tag, map<User, Id>>)
      ensures this.hashes == hashes && this.core == core
    {
      this.hashes := hashes;
      this.core := core;
    }

    ghost function Repr(): set<object>
      reads this, hashes
    {
      {this, hashes} + set h | h in hashes.inboundHashes.Values :: h
    }

    ghost function Contents(): Tables
      reads this, hashes, hashes.inboundHashes.Values
    {
      Tables(hashes.Sets(), hashes.inboundTags, core)
    }

    ghost predicate Valid()
      reads this, hashes, hashes.inboundHashes.Values
    {
      hashes.Valid()
    }

    /** The core is asked to take a user off an inbound.  An answer of success means that the user is
        not there, a failure may mean anything. */
    method HandlerRemoveUser(tag: Tag, user: User) returns (result: HandlerResult, ghost stuck: bool)
      modifies this
      ensures core == if stuck then old(core) else CoreRemove(old(core), tag, user)
      ensures result.ok ==> Off(core, tag, user)
    {
      var obeys: bool, succeeds: bool, message: string := *, *, *;
      if obeys && tag in core {
        core := core[tag := core[tag] - {user}];
      }
      stuck := !obeys;
      result := HandlerResult(succeeds && Off(core, tag, user), message);
    }

    /** The core puts a user on an inbound or refuses, for reasons of its own. */
    method HandlerAddUser(item: Item, id: Id) returns (result: HandlerResult, ghost willing: bool)
      modifies this
      ensures result.ok == (willing && CanAdd(old(core), item))
      ensures core == if result.ok then old(core)[item.tag := old(core)[item.tag][item.user := id]] else old(core)
    {
      var answer: bool, message: string := *, *;
      willing := answer;
      result := HandlerResult(answer && CanAdd(core, item), message);
      if result.ok {
        core := core[item.tag := core[item.tag][item.user := id]];
      }
    }

    method AddInboundTags(tags: seq<Tag>)
      requires Valid()
      modifies hashes`inboundTags
      ensures Valid() && Contents() == AddTags(old(Contents()), tags)
    {
      hide XorAll, HashedSet.Valid;
      for i := 0 to |tags|
        invariant Valid() && Contents() == AddTags(old(Contents()), tags[..i])
      {
        AddTagsNext(old(Contents()), tags, i);
        hashes.AddInboundTag(tags[i]);
      }
      assert tags[..|tags|] == tags;
    }

    /** Takes a user off one inbound, and the id out of its hash. */
    method RemoveAt(tag: Tag, user: User, id: Id) returns (result: HandlerResult, ghost stuck: bool)
      requires Valid()
      modifies Repr()
      ensures Valid() && Repr() <= old(Repr())
      ensures Contents() == RemoveOne(old(Contents()), tag, user, id, stuck)
      ensures forall a :: Off(old(core), a, user) ==> Off(core, a, user)
      ensures result.ok ==> Off(core, tag, user)
    {
      hide UserHashes.Valid, UserHashes.Sets, Removing, Emptied, CoreRemove, Off;
      result, stuck := HandlerRemoveUser(tag, user);
      StaysOff(old(core), core, tag, user, stuck);
      hashes.RemoveUserFromInboundHash(tag, id);
    }

    /** Takes a user off all the given inbounds, in any order. */
    method RemoveEverywhere(tags: set<Tag>, user: User, id: Id)
      returns (results: seq<HandlerResult>, ghost stuck: set<Tag>)
      requires Valid()
      modifies Repr()
      ensures Valid() && Repr() <= old(Repr())
      ensures |results| == |tags| && stuck <= tags
      ensures Contents() == RemoveFrom(old(Contents()), tags, user, id, stuck)
      ensures SomeOk(results) ==> exists tag :: tag in tags && Off(core, tag, user)
    {
      hide Repr, Contents, Valid, RemoveFrom, RemoveOne, SomeOk, Off;
      var left := tags;
      ghost var done, off := {}, "";
      results, stuck := [], {};
      RemoveFromNone(Contents(), user, id);
      SomeOkNone();
      while left != {}
        invariant done + left == tags && done !! left && stuck <= done
        invariant Valid() && Repr() <= old(Repr())
        invariant |results| == |done|
        invariant Contents() == RemoveFrom(old(Contents()), done, user, id, stuck)
        invariant SomeOk(results) ==> off in done && Off(core, off, user)
        decreases left
      {
        var tag :| tag in left;
        var result, fails := RemoveAt(tag, user, id);
        RemoveFromNext(old(Contents()), done, tag, user, id, stuck, fails);
        SomeOkNext(results, result);
        left, done := left - {tag}, done + {tag};
        off := if result.ok then tag else off;
        stuck := stuck + if fails then {tag} else {};
        results := results + [result];
      }
      assert done == tags;
    }

    /** Puts a user on one inbound, and the id into its hash if the core accepts. */
    method AddAt(item: Item, id: Id) returns (result: HandlerResult, ghost willing: bool)
      requires Valid()
      modifies Repr()
      ensures Valid() && fresh(Repr() - old(Repr()))
      ensures Contents() == AddOne(old(Contents()), item, id, willing)
      ensures result.ok <==> willing && CanAdd(old(Contents()).core, item)
    {
      hide UserHashes.Valid, UserHashes.Sets, Adding;
      result, willing := HandlerAddUser(item, id);
      if result.ok {
        hashes.AddUserToInboundHash(item.tag, id);
      }
    }

    /** Puts a user on the given inbounds; `answers` are the core's. */
    method AddEverywhere(items: seq<Item>, id: Id) returns (results: seq<HandlerResult>, ghost answers: seq<bool>)
      requires Valid()
      modifies Repr()
      ensures Valid() && fresh(Repr() - old(Repr()))
      ensures |results| == |answers| == |items| && Contents() == AddTo(old(Contents()), items, id, answers)
      ensures forall k | 0 <= k < |items| :: results[k].ok <==> Lands(old(Contents()), items, id, answers, k)
    {
      hide Contents, Valid, Lands, AddOne, CanAdd;
      results, answers := [], [];
      for i := 0 to |items|
        invariant Valid() && fresh(Repr() - old(Repr()))
        invariant |results| == |answers| == i && Contents() == AddTo(old(Contents()), items[..i], id, answers)
        invariant forall k | 0 <= k < i :: results[k].ok <==> Lands(old(Contents()), items[..i], id, answers, k)
      {
        assert items[..i + 1][..i] == items[..i];
        var result, willing := AddAt(items[i], id);
        assert (answers + [willing])[..i] == answers;
        LandsNext(old(Contents()), items, i, id, answers, willing);
        results, answers := results + [result], answers + [willing];
      }
      assert items[..|items|] == items;
    }

    /** None stands for the answer 400.  Success means that the user was put somewhere. */
    method HandleAddUser(data: seq<Item>, vlessUuid: Id, prevVlessUuid: Option<Id>)
      returns (response: Option<Response>, ghost answers: seq<Answer>)
      requires Valid()
      modifies Repr()
      ensures Valid() && fresh(Repr() - old(Repr()))
      ensures var req := AddUser(data, vlessUuid, prevVlessUuid);
              AnswersTo(answers, req) && Contents() == Serve(old(Contents()), req, answers)
      ensures response.Some? <==> data != []
      ensures response.Some? ==>
                var p := SinglePlacement(data, vlessUuid, prevVlessUuid);
                var cleared := Cleared(old(Contents()), p, false, answers[0].stuck);
                response.value.success
                <==> exists k :: 0 <= k < |data| && Lands(cleared, data, vlessUuid, answers[0].ok, k)
    {
      hide UserHashes.Valid, UserHashes.Sets, RemoveFrom, AddTags, AddTo, Lands;
      if data == [] {
        return None, [Answer({}, [])];
      }
      AddInboundTags(TagsOf(data));
      var hashUuid := vlessUuid;
      if prevVlessUuid.Some? && prevVlessUuid.value != [] {
        hashUuid := prevVlessUuid.value;
      }
      var username := data[0].user;
      ghost var stuck := {};
      if username != "" {
        var removed, failed := RemoveEverywhere(hashes.inboundTags, username, hashUuid);
        stuck := failed;
      }
      var results, willing := AddEverywhere(data, vlessUuid);
      answers := [Answer(stuck, willing)];
      var r := AggregateResults(results);
      SomeOkAt(results);
      return Some(r), answers;
    }

    /** Success, with inbounds known, means that the user is not on one of them. */
    method HandleRemoveUser(username: User, vlessUuid: Id) returns (response: Response, ghost answers: seq<Answer>)
      requires Valid()
      modifies Repr()
      ensures Valid() && fresh(Repr() - old(Repr()))
      ensures var req := RemoveUser(username, vlessUuid);
              AnswersTo(answers, req) && Contents() == Serve(old(Contents()), req, answers)
      ensures response.success && old(hashes.inboundTags) != {} ==>
                exists tag :: tag in old(hashes.inboundTags) && Off(core, tag, username)
    {
      hide UserHashes.Valid, UserHashes.Sets, RemoveFrom;
      if hashes.inboundTags == {} {
        return Response(true, None), [Answer({}, [])];
      }
      var results, stuck := RemoveEverywhere(hashes.inboundTags, username, vlessUuid);
      response := AggregateResults(results);
      answers := [Answer(stuck, [])];
    }

    method HandleAddUsers(affectedTags: seq<Tag>, users: seq<BatchUser>)
      returns (response: Response, ghost answers: seq<Answer>)
      requires Valid()
      modifies Repr()
      ensures Valid() && fresh(Repr() - old(Repr()))
      ensures var req := AddUsers(affectedTags, users);
              AnswersTo(answers, req) && Contents() == Serve(old(Contents()), req, answers)
      ensures response == Response(true, None)
    {
      hide UserHashes.Valid, UserHashes.Sets, RemoveFrom, AddTags, AddTo, Place;
      AddInboundTags(affectedTags);
      ghost var start := Contents();
      answers := [];
      for i := 0 to |users|
        invariant Valid() && fresh(Repr() - old(Repr()))
        invariant Answers(answers, users[..i]) && Contents() == PlaceAll(start, users[..i], answers)
      {
        assert users[..i + 1][..i] == users[..i];
        ghost var before := Contents();
        ghost var answer := PlaceBatchUser(users[i]);
        assert (answers + [answer])[..i] == answers;
        answers := answers + [answer];
        assert Contents() == Place(before, BatchPlacement(users[i]), true, answer);
      }
      assert users[..|users|] == users;
      response := Response(true, None);
    }

    method PlaceBatchUser(u: BatchUser) returns (ghost answer: Answer)
      requires Valid()
      modifies Repr()
      ensures Valid() && fresh(Repr() - old(Repr()))
      ensures |answer.ok| == |u.tags| && Contents() == Place(old(Contents()), BatchPlacement(u), true, answer)
    {
      hide UserHashes.Valid, UserHashes.Sets, RemoveFrom, AddTags, AddTo;
      var p := BatchPlacement(u);
      AddInboundTags(TagsOf(p.items));
      var removed, stuck := RemoveEverywhere(hashes.inboundTags, u.userId, u.hashUuid);
      var added, willing := AddEverywhere(p.items, u.vlessUuid);
      answer := Answer(stuck, willing);
    }

    method HandleRemoveUsers(removals: seq<(User, Id)>) returns (response: Response, ghost answers: seq<Answer>)
      requires Valid()
      modifies Repr()
      ensures Valid() && fresh(Repr() - old(Repr()))
      ensures var req := RemoveUsers(removals);
              AnswersTo(answers, req) && Contents() == Serve(old(Contents()), req, answers)
    {
      hide UserHashes.Valid, UserHashes.Sets, RemoveFrom;
      if hashes.inboundTags == {} {
        return Response(true, None), seq(|removals|, _ => Answer({}, []));
      }
      var results := [];
      answers := [];
      for i := 0 to |removals|
        invariant Valid() && fresh(Repr() - old(Repr()))
        invariant |answers| == i && Contents() == RemoveAll(old(Contents()), removals[..i], answers)
      {
        assert removals[..i + 1][..i] == removals[..i];
        var some, stuck := RemoveEverywhere(hashes.inboundTags, removals[i].0, removals[i].1);
        assert (answers + [Answer(stuck, [])])[..i] == answers;
        results, answers := results + some, answers + [Answer(stuck, [])];
      }
      assert removals[..|removals|] == removals;
      response := AggregateResults(results);
    }
  }
}
