/** What the add-user and remove-user requests come to, in terms of their own fields: who is where
    afterwards, with which id, and that the recorded hashes say the same. */
module UserEffects {
  import opened Wrappers
  import opened HashedSets
  import opened HashState
  import opened UserHandlers

  type CoreTable = map<Tag, map<User, Id>>

  /** The tables agree: an id is recorded under a tag exactly if the core has a user with it there. */
  lemma InStepMeans(t: Tables, tag: Tag, id: Id)
    requires InStep(t)
    ensures (tag in t.sets && id in t.sets[tag])
       <==> tag in t.core && exists u :: u in t.core[tag] && t.core[tag][u] == id
  {
    assert SetOf(t.sets, tag) == IdsOf(t.core, tag);
  }

  /** The id a request names as the user's: the previous one, if there is one that is not empty. */
  function OldId(vlessUuid: Id, prev: Option<Id>): Id {
    match prev
    case None => vlessUuid
    case Some(id) => if id == [] then vlessUuid else id
  }

  /** A request to add one user keeps hashes and core in step if what it says of the user is so: the
      previous id, or else the new one, is the user's and nobody else's, and so is the new one. */
  lemma AddUserKeepsInStep(t: Tables, data: seq<Item>, vlessUuid: Id, prev: Option<Id>, a: Answer)
    requires InStep(t) && data != [] && |a.ok| == |data|
    requires data[0].user != "" && forall item <- data :: item.user == data[0].user
    requires forall tag, u :: tag in t.core && u in t.core[tag] ==>
               (t.core[tag][u] == OldId(vlessUuid, prev) <==> u == data[0].user)
    requires vlessUuid != []
    requires forall tag, u :: tag in t.core && u in t.core[tag] && t.core[tag][u] == vlessUuid ==> u == data[0].user
    requires forall tag :: tag in t.core && tag in a.stuck ==> data[0].user !in t.core[tag]
    ensures InStep(Serve(t, AddUser(data, vlessUuid, prev), [a]))
  {
    hide InStep, Serve;
    ServeKeepsInStep(t, AddUser(data, vlessUuid, prev), [a]);
  }

  // ---------------------------------------------------------------- who is where

  /** Nothing differs between two core tables but where one user is. */
  predicate OthersStay(core: CoreTable, core': CoreTable, user: User) {
    && core'.Keys == core.Keys
    && forall tag :: tag in core ==> core'[tag] - {user} == core[tag] - {user}
  }

  /** Wherever a user is, it is with this id and on one of these inbounds; and on all of those that the
      core has, unless it refuses. */
  predicate IsOn(core: CoreTable, user: User, id: Id, tags: set<Tag>, willing: bool) {
    forall tag :: tag in core ==>
      && (user in core[tag] ==> tag in tags && core[tag][user] == id)
      && (willing && tag in tags && tag != "" ==> user in core[tag])
  }

  predicate AllOk(ok: seq<bool>) {
    forall i | 0 <= i < |ok| :: ok[i]
  }

  function ItemTags(items: seq<Item>): set<Tag> {
    set item | item in items :: item.tag
  }

  lemma {:induction false} AddToPlaces(t: Tables, items: seq<Item>, user: User, id: Id, ok: seq<bool>)
    requires |ok| == |items| && forall item <- items :: item.user == user
    requires forall tag :: tag in t.core ==> user !in t.core[tag]
    ensures OthersStay(t.core, AddTo(t, items, id, ok).core, user)
    ensures IsOn(AddTo(t, items, id, ok).core, user, id, ItemTags(items), AllOk(ok))
  {
    if items != [] {
      var n := |items| - 1;
      AddToPlaces(t, items[..n], user, id, ok[..n]);
      assert items == items[..n] + [items[n]];
      assert ItemTags(items) == ItemTags(items[..n]) + {items[n].tag};
      AddOnePlaces(AddTo(t, items[..n], id, ok[..n]), items[n], id, ok[n], ItemTags(items[..n]), AllOk(ok[..n]));
    }
  }

  lemma AddOnePlaces(t: Tables, item: Item, id: Id, ok: bool, tags: set<Tag>, willing: bool)
    requires IsOn(t.core, item.user, id, tags, willing)
    ensures OthersStay(t.core, AddOne(t, item, id, ok).core, item.user)
    ensures IsOn(AddOne(t, item, id, ok).core, item.user, id, tags + {item.tag}, willing && ok)
  {
  }

  lemma StaysThen(a: CoreTable, b: CoreTable, c: CoreTable, user: User)
    requires OthersStay(a, b, user) && OthersStay(b, c, user)
    ensures OthersStay(a, c, user)
  {
  }

  /** A user who is placed is afterwards on the wanted inbounds and on no others, with the new id. */
  lemma PlacePlaces(t: Tables, p: Placement, batch: bool, a: Answer)
    requires |a.ok| == |p.items| && InStep(t) && Proper(t, p, a.stuck)
    ensures OthersStay(t.core, Place(t, p, batch, a).core, p.user)
    ensures IsOn(Place(t, p, batch, a).core, p.user, p.newId, ItemTags(p.items), AllOk(a.ok))
  {
    hide AddTo, IsOn;
    var tagged := AddTags(t, TagsOf(p.items));
    assert InStep(tagged);
    var cleared := RemoveFrom(tagged, tagged.tags, p.user, p.hashId, a.stuck);
    RemoveFromClears(tagged, p.user, p.hashId, a.stuck);
    assert OthersStay(t.core, cleared.core, p.user);
    hide InStep, RemoveFrom;
    AddToPlaces(cleared, p.items, p.user, p.newId, a.ok);
    StaysThen(t.core, cleared.core, Place(t, p, batch, a).core, p.user);
  }

  /** A request to add one user: the user is on the wanted inbounds and on no others, with the new id;
      everybody else is where they were. */
  lemma AddUserPlaces(t: Tables, data: seq<Item>, vlessUuid: Id, prev: Option<Id>, a: Answer)
    requires InStep(t) && data != [] && |a.ok| == |data|
    requires ProperRequest(t, AddUser(data, vlessUuid, prev), [a])
    ensures var core := Serve(t, AddUser(data, vlessUuid, prev), [a]).core;
            && OthersStay(t.core, core, data[0].user)
            && IsOn(core, data[0].user, vlessUuid, set item | item in data :: item.tag, AllOk(a.ok))
  {
    hide InStep, IsOn, Place;
    PlacePlaces(t, SinglePlacement(data, vlessUuid, prev), false, a);
  }

  function TagSet(tags: seq<Tag>): set<Tag> {
    set tag | tag in tags
  }

  lemma BatchTags(u: BatchUser)
    ensures ItemTags(BatchPlacement(u).items) == TagSet(u.tags)
    ensures forall item <- BatchPlacement(u).items :: item.user == u.userId
  {
    var items := BatchPlacement(u).items;
    forall tag | tag in u.tags ensures tag in ItemTags(items) {
      var i :| 0 <= i < |u.tags| && u.tags[i] == tag;
      assert items[i].tag == tag;
    }
  }

  /** A batch: each user whose turn comes only once more is afterwards where its last turn put it. */
  lemma {:induction false} AddUsersPlaces(t: Tables, users: seq<BatchUser>, answers: seq<Answer>, i: nat)
    requires Answers(answers, users) && InStep(t) && AllProper(t, users, answers) && i < |users|
    requires forall j | i < j < |users| :: users[j].userId != users[i].userId
    ensures IsOn(PlaceAll(t, users, answers).core, users[i].userId, users[i].vlessUuid, TagSet(users[i].tags),
                 AllOk(answers[i].ok))
  {
    hide InStep, Place, IsOn, AllProper, OthersStay, AllOk, TagSet, PlaceAll;
    var n := |users| - 1;
    AllProperPrefix(t, users, answers, n);
    LastPlaces(t, users, answers);
    if i < n {
      AddUsersPlaces(t, users[..n], answers[..n], i);
      StaysOn(PlaceAll(t, users[..n], answers[..n]).core, PlaceAll(t, users, answers).core, users[n].userId,
              users[i].userId, users[i].vlessUuid, TagSet(users[i].tags), AllOk(answers[i].ok));
    }
  }

  lemma LastPlaces(t: Tables, users: seq<BatchUser>, answers: seq<Answer>)
    requires Answers(answers, users) && InStep(t) && AllProper(t, users, answers) && users != []
    ensures var n := |users| - 1;
            var core := PlaceAll(t, users, answers).core;
            && OthersStay(PlaceAll(t, users[..n], answers[..n]).core, core, users[n].userId)
            && IsOn(core, users[n].userId, users[n].vlessUuid, TagSet(users[n].tags), AllOk(answers[n].ok))
  {
    hide InStep, Place, IsOn, CanMove, OthersStay, AllOk, TagSet, AllProper;
    var n := |users| - 1;
    AllProperPrefix(t, users, answers, n);
    PlaceAllKeepsInStep(t, users[..n], answers[..n]);
    BatchTags(users[n]);
    PlacePlaces(PlaceAll(t, users[..n], answers[..n]), BatchPlacement(users[n]), true, answers[n]);
  }

  lemma AllProperPrefix(t: Tables, users: seq<BatchUser>, answers: seq<Answer>, n: nat)
    requires Answers(answers, users) && AllProper(t, users, answers) && n < |users|
    ensures AllProper(t, users[..n], answers[..n])
    ensures CanMove(PlaceAll(t, users[..n], answers[..n]).core, users[n].userId, users[n].hashUuid, users[n].vlessUuid,
                    answers[n].stuck)
  {
    hide CanMove, PlaceAll;
    forall i | 0 <= i < n ensures users[..n][..i] == users[..i] && answers[..n][..i] == answers[..i] {}
  }

  lemma StaysOn(core: CoreTable, core': CoreTable, other: User, user: User, id: Id, tags: set<Tag>, willing: bool)
    requires IsOn(core, user, id, tags, willing) && OthersStay(core, core', other) && user != other
    ensures IsOn(core', user, id, tags, willing)
  {
    forall tag | tag in core' ensures user in core'[tag] <==> user in core[tag]
      ensures user in core[tag] ==> core'[tag][user] == core[tag][user]
    {
      assert core'[tag] - {other} == core[tag] - {other};
      assert user in core'[tag] <==> user in core'[tag] - {other};
      assert user in core[tag] <==> user in core[tag] - {other};
      if user in core[tag] { assert (core'[tag] - {other})[user] == (core[tag] - {other})[user]; }
    }
  }

  // ---------------------------------------------------------------- the known tags

  lemma {:induction false} AddToKnows(t: Tables, items: seq<Item>, id: Id, ok: seq<bool>)
    requires |ok| == |items|
    ensures t.tags <= AddTo(t, items, id, ok).tags <= t.tags + ItemTags(items)
  {
    if items != [] {
      var n := |items| - 1;
      AddToKnows(t, items[..n], id, ok[..n]);
      assert items == items[..n] + [items[n]];
    }
  }

  /** The tags of a request to add a user are known afterwards, and so are those known before, but for
      inbounds whose last user the old id was. */
  lemma AddUserKnows(t: Tables, data: seq<Item>, vlessUuid: Id, prev: Option<Id>, a: Answer, tag: Tag)
    requires data != [] && |a.ok| == |data| && data[0].user != ""
    requires tag in t.tags || (tag != "" && exists item :: item in data && item.tag == tag)
    ensures tag in Serve(t, AddUser(data, vlessUuid, prev), [a]).tags
            || (tag in t.sets && t.sets[tag] - {OldId(vlessUuid, prev)} == {})
  {
    var p := SinglePlacement(data, vlessUuid, prev);
    AddToKnows(Cleared(t, p, false, a.stuck), data, vlessUuid, a.ok);
    if tag !in t.tags {
      var item :| item in data && item.tag == tag;
      var i :| 0 <= i < |data| && data[i] == item;
      assert TagsOf(data)[i] == tag;
    }
  }

  /** A batch makes its affected tags known, those of its users aside. */
  lemma AddUsersKnows(t: Tables, affected: seq<Tag>)
    ensures Serve(t, AddUsers(affected, []), []) == t.(tags := t.tags + set tag | tag in affected && tag != "")
  {
  }

  // ---------------------------------------------------------------- removals

  /** A removal that the core carries out: the user is nowhere, everybody else is where they were. */
  lemma RemoveUserTakesOff(t: Tables, user: User, id: Id, a: Answer)
    requires InStep(t) && forall tag :: tag in t.core && tag in a.stuck ==> user !in t.core[tag]
    ensures var core := Serve(t, RemoveUser(user, id), [a]).core;
            OthersStay(t.core, core, user) && forall tag :: tag in core ==> user !in core[tag]
  {
    RemoveFromClears(t, user, id, a.stuck);
    if t.tags == {} { assert RemoveFrom(t, {}, user, id, a.stuck).core == t.core; }
  }

  predicate NoneStuck(answers: seq<Answer>) {
    forall i | 0 <= i < |answers| :: answers[i].stuck == {}
  }

  predicate Nowhere(core: CoreTable, user: User) {
    forall tag :: tag in core ==> user !in core[tag]
  }

  /** Several removals that the core carries out: nobody who was named is left anywhere. */
  lemma {:induction false} RemoveUsersTakeOff(t: Tables, rs: seq<(User, Id)>, answers: seq<Answer>, i: nat)
    requires |answers| == |rs| && InStep(t) && AllFit(t, rs, answers) && i < |rs| && NoneStuck(answers)
    ensures Nowhere(RemoveAll(t, rs, answers).core, rs[i].0)
  {
    hide InStep, AllFit, Nowhere, RemoveFrom;
    var n := |rs| - 1;
    var before := RemoveAll(t, rs[..n], answers[..n]);
    AllFitPrefix(t, rs, answers, n);
    RemoveAllKeepsInStep(t, rs[..n], answers[..n]);
    OneTakenOff(before, rs[n].0, rs[n].1);
    if i < n {
      RemoveUsersTakeOff(t, rs[..n], answers[..n], i);
      StaysNowhere(before, rs[n].0, rs[n].1, rs[i].0);
    }
  }

  lemma OneTakenOff(t: Tables, user: User, id: Id)
    requires InStep(t)
    ensures Nowhere(RemoveFrom(t, t.tags, user, id, {}).core, user)
  {
    RemoveFromClears(t, user, id, {});
  }

  lemma StaysNowhere(t: Tables, user: User, id: Id, other: User)
    requires Nowhere(t.core, other)
    ensures Nowhere(RemoveFrom(t, t.tags, user, id, {}).core, other)
  {
  }

  lemma AllFitPrefix(t: Tables, rs: seq<(User, Id)>, answers: seq<Answer>, n: nat)
    requires |answers| == |rs| && AllFit(t, rs, answers) && n < |rs|
    ensures AllFit(t, rs[..n], answers[..n])
  {
    hide IdFits, RemoveAll;
    forall i | 0 <= i < n ensures rs[..n][..i] == rs[..i] && answers[..n][..i] == answers[..i] {}
  }
}
