/** The recorded user sets of the running config, and the decision whether a start request needs a
    restart. */
module HashState {
  import opened Wrappers
  import opened HashedSets

  type Tag = string

  datatype InboundHash = InboundHash(usersCount: int, hash: string, tag: Tag)

  datatype ConfigHash = ConfigHash(emptyConfig: string, inbounds: seq<InboundHash>)

  /** A client of an inbound: its id, empty when it has none or is not an object. */
  type Client = Id

  /** An item of a config's inbounds; `tag` is empty when there is none. */
  datatype Inbound = NotObject | Inbound(tag: Tag, clients: seq<Client>)

  // ---------------------------------------------------------------- what is recorded

  function ClientIds(clients: seq<Client>): set<Id> {
    set id | id in clients && id != []
  }

  lemma ClientIdsNext(clients: seq<Client>, c: Client)
    ensures ClientIds(clients + [c]) == ClientIds(clients) + if c != [] then {c} else {}
  {
  }

  lemma ValuesUpdated<K, V>(m: map<K, V>, k: K, v: V)
    ensures m[k := v].Values <= m.Values + {v}
  {
  }

  /** The tags for which the request carries a hash. */
  function ValidTags(hashes: ConfigHash): set<Tag> {
    set h | h in hashes.inbounds && h.tag != "" :: h.tag
  }

  predicate Recorded(valid: set<Tag>, inbound: Inbound) {
    inbound.Inbound? && inbound.tag != "" && inbound.tag in valid
  }

  /** The user sets of a config: the last inbound with a tag counts. */
  function RecordedSets(valid: set<Tag>, inbounds: seq<Inbound>): map<Tag, set<Id>> {
    if inbounds == [] then map[] else
    var before, last := RecordedSets(valid, inbounds[..|inbounds| - 1]), inbounds[|inbounds| - 1];
    if Recorded(valid, last) then before[last.tag := ClientIds(last.clients)] else before
  }

  /** The i-th inbound is the one whose clients are recorded under a tag. */
  predicate Counts(valid: set<Tag>, inbounds: seq<Inbound>, tag: Tag, i: nat) {
    && i < |inbounds| && inbounds[i].Inbound? && inbounds[i].tag == tag && tag != "" && tag in valid
    && forall j | i < j < |inbounds| :: !(inbounds[j].Inbound? && inbounds[j].tag == tag)
  }

  /** Recorded are the clients with an id of the last inbound with the tag, if the request has a hash for
      it; nothing else is. */
  lemma {:induction false} RecordedIs(valid: set<Tag>, inbounds: seq<Inbound>, tag: Tag)
    ensures tag in RecordedSets(valid, inbounds) <==> exists i :: Counts(valid, inbounds, tag, i)
    ensures forall i: nat, id :: Counts(valid, inbounds, tag, i) ==>
              (id in RecordedSets(valid, inbounds)[tag] <==> id in inbounds[i].clients && id != [])
  {
    if inbounds != [] {
      var n := |inbounds| - 1;
      var before, last := inbounds[..n], inbounds[n];
      RecordedIs(valid, before, tag);
      if Recorded(valid, last) && last.tag == tag {
        assert Counts(valid, inbounds, tag, n);
        assert forall i: nat :: Counts(valid, inbounds, tag, i) ==> i == n;
      } else {
        forall i: nat ensures Counts(valid, inbounds, tag, i) <==> Counts(valid, before, tag, i) {
          if i < n { assert before[i] == inbounds[i]; }
        }
      }
    }
  }

  lemma RecordedNone(valid: set<Tag>, inbounds: seq<Inbound>)
    ensures RecordedSets(valid, inbounds[..0]) == map[]
  {
  }

  lemma RecordedNext(valid: set<Tag>, inbounds: seq<Inbound>, i: nat)
    requires i < |inbounds|
    ensures RecordedSets(valid, inbounds[..i + 1])
         == if Recorded(valid, inbounds[i])
            then RecordedSets(valid, inbounds[..i])[inbounds[i].tag := ClientIds(inbounds[i].clients)]
            else RecordedSets(valid, inbounds[..i])
  {
    assert inbounds[..i + 1][..i] == inbounds[..i];
  }

  // ---------------------------------------------------------------- the decision

  function FirstWith(inbounds: seq<InboundHash>, tag: Tag): Option<InboundHash> {
    if inbounds == [] then None
    else if inbounds[0].tag == tag then Some(inbounds[0])
    else FirstWith(inbounds[1..], tag)
  }

  predicate Matches(inbounds: seq<InboundHash>, tag: Tag, hash: string) {
    FirstWith(inbounds, tag).Some? && FirstWith(inbounds, tag).value.hash == hash
  }

  ghost predicate UpToDate(base: string, sets: map<Tag, set<Id>>, incoming: ConfigHash) {
    && base != ""
    && incoming.emptyConfig == base
    && |incoming.inbounds| == |sets|
    && forall tag :: tag in sets ==> Matches(incoming.inbounds, tag, Render(XorAll(sets[tag])))
  }

  predicate DistinctTags(inbounds: seq<InboundHash>) {
    forall i, j | 0 <= i < j < |inbounds| :: inbounds[i].tag != inbounds[j].tag
  }

  function Tags(inbounds: seq<InboundHash>): set<Tag> {
    set h | h in inbounds :: h.tag
  }

  /** The list names every recorded inbound once, nothing else, each with its hash. */
  ghost predicate Describes(inbounds: seq<InboundHash>, sets: map<Tag, set<Id>>) {
    && DistinctTags(inbounds)
    && Tags(inbounds) == sets.Keys
    && forall h <- inbounds :: h.tag in sets ==> h.hash == Render(XorAll(sets[h.tag]))
  }

  lemma DescribesIff(inbounds: seq<InboundHash>, sets: map<Tag, set<Id>>)
    ensures Describes(inbounds, sets)
       <==> && (forall i, j | 0 <= i < j < |inbounds| :: inbounds[i].tag != inbounds[j].tag)
            && (forall tag :: tag in sets <==> exists i :: 0 <= i < |inbounds| && inbounds[i].tag == tag)
            && (forall i | 0 <= i < |inbounds| ::
                  inbounds[i].tag in sets && inbounds[i].hash == Render(XorAll(sets[inbounds[i].tag])))
  {
    hide Render, XorAll;
    assert forall i | 0 <= i < |inbounds| :: inbounds[i] in inbounds && inbounds[i].tag in Tags(inbounds);
    if Describes(inbounds, sets) {
      forall tag ensures tag in sets <==> exists i :: 0 <= i < |inbounds| && inbounds[i].tag == tag {
        assert tag in sets <==> tag in Tags(inbounds);
      }
    } else if && (forall i, j | 0 <= i < j < |inbounds| :: inbounds[i].tag != inbounds[j].tag)
              && (forall tag :: tag in sets <==> exists i :: 0 <= i < |inbounds| && inbounds[i].tag == tag) {
      forall tag ensures tag in Tags(inbounds) <==> tag in sets {}
      assert Tags(inbounds) == sets.Keys;
    }
  }

  /** No restart exactly when the base hash is recorded and unchanged and the list describes the
      recorded sets one for one.  Nothing is assumed of the incoming tags. */
  lemma UpToDateIff(base: string, sets: map<Tag, set<Id>>, incoming: ConfigHash)
    ensures UpToDate(base, sets, incoming)
       <==> base != "" && incoming.emptyConfig == base && Describes(incoming.inbounds, sets)
    ensures var inbounds := incoming.inbounds;
            Describes(inbounds, sets)
            <==> && (forall i, j | 0 <= i < j < |inbounds| :: inbounds[i].tag != inbounds[j].tag)
                 && (forall tag :: tag in sets <==> exists i :: 0 <= i < |inbounds| && inbounds[i].tag == tag)
                 && (forall i | 0 <= i < |inbounds| ::
                       inbounds[i].tag in sets && inbounds[i].hash == Render(XorAll(sets[inbounds[i].tag])))
  {
    var inbounds := incoming.inbounds;
    DescribesIff(inbounds, sets);
    if UpToDate(base, sets, incoming) {
      forall tag | tag in sets ensures tag in Tags(inbounds) { FirstIsThere(inbounds, tag); }
      TagCount(inbounds);
      SubsetSize(sets.Keys, Tags(inbounds));
      forall h | h in inbounds ensures h.hash == Render(XorAll(sets[h.tag])) {
        assert h.tag in Tags(inbounds);
        DistinctFirst(inbounds, h);
      }
    }
    if Describes(inbounds, sets) {
      TagCount(inbounds);
      forall tag | tag in sets ensures Matches(inbounds, tag, Render(XorAll(sets[tag]))) {
        assert tag in Tags(inbounds);
        var h :| h in inbounds && h.tag == tag;
        DistinctFirst(inbounds, h);
      }
    }
  }

  lemma {:induction false} FirstIsThere(inbounds: seq<InboundHash>, tag: Tag)
    requires FirstWith(inbounds, tag).Some?
    ensures FirstWith(inbounds, tag).value in inbounds && FirstWith(inbounds, tag).value.tag == tag
  {
    if inbounds[0].tag != tag { FirstIsThere(inbounds[1..], tag); }
  }

  lemma {:induction false} DistinctFirst(inbounds: seq<InboundHash>, h: InboundHash)
    requires DistinctTags(inbounds) && h in inbounds
    ensures FirstWith(inbounds, h.tag) == Some(h)
  {
    var k :| 0 <= k < |inbounds| && inbounds[k] == h;
    if k > 0 {
      assert h == inbounds[1..][k - 1];
      DistinctFirst(inbounds[1..], h);
    }
  }

  lemma TagsNext(init: seq<InboundHash>, last: InboundHash)
    ensures Tags(init + [last]) == Tags(init) + {last.tag}
  {
  }

  lemma DistinctNext(init: seq<InboundHash>, last: InboundHash)
    ensures DistinctTags(init + [last]) <==> DistinctTags(init) && last.tag !in Tags(init)
  {
    var all, n := init + [last], |init|;
    if DistinctTags(all) {
      forall i, j | 0 <= i < j < n ensures init[i].tag != init[j].tag { assert all[i].tag != all[j].tag; }
      forall h | h in init ensures h.tag != last.tag {
        var k :| 0 <= k < n && init[k] == h;
        assert all[k].tag != all[n].tag;
      }
    }
    if DistinctTags(init) && last.tag !in Tags(init) {
      forall k | 0 <= k < n ensures init[k].tag != last.tag { assert init[k] in init; }
    }
  }

  /** As many tags as items exactly when they are distinct. */
  lemma {:induction false} TagCount(inbounds: seq<InboundHash>)
    ensures |Tags(inbounds)| <= |inbounds|
    ensures |Tags(inbounds)| == |inbounds| <==> DistinctTags(inbounds)
  {
    if inbounds != [] {
      hide Tags, DistinctTags;
      var init, last := inbounds[..|inbounds| - 1], inbounds[|inbounds| - 1];
      TagCount(init);
      assert inbounds == init + [last];
      TagsNext(init, last);
      DistinctNext(init, last);
      if last.tag in Tags(init) { assert Tags(init) + {last.tag} == Tags(init); }
    }
  }

  lemma {:induction false} SubsetSize<T>(a: set<T>, b: set<T>)
    requires a <= b && |b| <= |a|
    ensures a == b
    decreases |a|
  {
    if a == {} {
    } else {
      var x :| x in a;
      SubsetSize(a - {x}, b - {x});
      assert a == a - {x} + {x} && b == b - {x} + {x};
    }
  }

  // ---------------------------------------------------------------- the state

  /** The fields of `Manager` that record users. */
  class UserHashes {
    var emptyConfigHash: string
    var inboundHashes: map<Tag, HashedSet>
    var inboundTags: set<Tag>

    ghost predicate Valid()
      reads this`inboundHashes, inboundHashes.Values
    {
      && (forall tag :: tag in inboundHashes ==> inboundHashes[tag].Valid())
      && (forall a, b :: a in inboundHashes && b in inboundHashes && a != b ==> inboundHashes[a] != inboundHashes[b])
    }

    /** The recorded ids of each inbound. */
    ghost function Sets(): map<Tag, set<Id>>
      reads this`inboundHashes, inboundHashes.Values
    {
      map tag | tag in inboundHashes :: inboundHashes[tag].members
    }

    constructor ()
      ensures Valid() && emptyConfigHash == "" && Sets() == map[] && inboundTags == {}
    {
      emptyConfigHash := "";
      inboundHashes := map[];
      inboundTags := {};
    }

    method Extract(hashes: ConfigHash, inbounds: Option<seq<Inbound>>)
      modifies this
      ensures Valid() && fresh(inboundHashes.Values)
      ensures emptyConfigHash == hashes.emptyConfig
      ensures Sets() == if inbounds.None? then map[] else RecordedSets(ValidTags(hashes), inbounds.value)
      ensures inboundTags == Sets().Keys
    {
      hide XorAll, HashedSet.Valid, RecordedSets, ClientIds;
      inboundHashes := map[];
      inboundTags := {};
      emptyConfigHash := hashes.emptyConfig;
      var validTags := CollectTags(hashes);
      if inbounds.None? {
        return;
      }
      var items := inbounds.value;
      assert RecordedSets(validTags, items[..0]) == map[] by { RecordedNone(validTags, items); }
      for i := 0 to |items|
        invariant Valid() && fresh(inboundHashes.Values)
        invariant emptyConfigHash == hashes.emptyConfig
        invariant Sets() == RecordedSets(validTags, items[..i]) && inboundTags == Sets().Keys
      {
        RecordedNext(validTags, items, i);
        var item := items[i];
        if item.NotObject? { continue; }
        if item.tag == "" { continue; }
        if item.tag !in validTags { continue; }
        var ids := ExtractClientIds(item.clients);
        Record(item.tag, ids);
      }
      assert items[..|items|] == items;
    }

    /** Records a fresh set under a tag, in place of any other. */
    method Record(tag: Tag, ids: seq<Id>)
      requires Valid()
      modifies this
      ensures Valid() && fresh(inboundHashes.Values - old(inboundHashes.Values))
      ensures emptyConfigHash == old(emptyConfigHash)
      ensures Sets() == old(Sets())[tag := set id | id in ids]
      ensures inboundTags == old(inboundTags) + {tag}
    {
      hide XorAll, HashedSet.Valid;
      var s := new HashedSet(ids);
      ValuesUpdated(inboundHashes, tag, s);
      inboundHashes := inboundHashes[tag := s];
      inboundTags := inboundTags + {tag};
    }

    method CollectTags(hashes: ConfigHash) returns (validTags: set<Tag>)
      ensures validTags == ValidTags(hashes)
    {
      validTags := {};
      for i := 0 to |hashes.inbounds|
        invariant validTags == set h | h in hashes.inbounds[..i] && h.tag != "" :: h.tag
      {
        assert hashes.inbounds[..i + 1] == hashes.inbounds[..i] + [hashes.inbounds[i]];
        if hashes.inbounds[i].tag != "" {
          validTags := validTags + {hashes.inbounds[i].tag};
        }
      }
      assert hashes.inbounds[..|hashes.inbounds|] == hashes.inbounds;
    }

    method ExtractClientIds(clients: seq<Client>) returns (ids: seq<Id>)
      ensures (set id | id in ids) == ClientIds(clients)
    {
      ids := [];
      for i := 0 to |clients|
        invariant (set id | id in ids) == ClientIds(clients[..i])
      {
        assert clients[..i + 1] == clients[..i] + [clients[i]];
        ClientIdsNext(clients[..i], clients[i]);
        if clients[i] != [] {
          ids := ids + [clients[i]];
        }
      }
      assert clients[..|clients|] == clients;
    }

    method IsNeedRestart(incoming: ConfigHash) returns (need: bool)
      requires Valid()
      ensures need <==> !UpToDate(emptyConfigHash, Sets(), incoming)
    {
      if emptyConfigHash == "" {
        return true;
      }
      if incoming.emptyConfig != emptyConfigHash {
        return true;
      }
      assert Sets().Keys == inboundHashes.Keys;
      if |incoming.inbounds| != |inboundHashes| {
        return true;
      }
      var left := inboundHashes.Keys;
      while left != {}
        invariant left <= inboundHashes.Keys
        invariant forall tag :: tag in inboundHashes && tag !in left ==>
                    Matches(incoming.inbounds, tag, Render(XorAll(Sets()[tag])))
        decreases left
      {
        var tag :| tag in left;
        left := left - {tag};
        var found := FindInbound(incoming.inbounds, tag);
        if found.None? {
          assert tag in Sets();
          return true;
        }
        assert inboundHashes[tag].Valid();
        if inboundHashes[tag].Hash64String() != found.value.hash {
          assert tag in Sets();
          return true;
        }
      }
      return false;
    }

    method FindInbound(inbounds: seq<InboundHash>, tag: Tag) returns (found: Option<InboundHash>)
      ensures found == FirstWith(inbounds, tag)
    {
      for i := 0 to |inbounds|
        invariant FirstWith(inbounds, tag) == FirstWith(inbounds[i..], tag)
      {
        if inbounds[i].tag == tag {
          return Some(inbounds[i]);
        }
      }
      return None;
    }

    method AddUserToInboundHash(tag: Tag, id: Id)
      requires Valid()
      modifies this, inboundHashes.Values
      ensures Valid() && fresh(inboundHashes.Values - old(inboundHashes.Values))
      ensures emptyConfigHash == old(emptyConfigHash)
      ensures Sets() == Adding(old(Sets()), tag, id)
      ensures inboundTags == old(inboundTags) + if tag == "" || id == [] then {} else {tag}
    {
      hide Valid, Adding, XorAll, HashedSet.Valid;
      AddingIs(Sets(), tag, id);
      if tag == "" || id == [] {
        return;
      }
      if tag !in inboundHashes {
        StartSet(tag);
      }
      AddTo(tag, id);
      inboundTags := inboundTags + {tag};
    }

    /** An empty set under a new tag. */
    method StartSet(tag: Tag)
      requires Valid() && tag !in Sets()
      modifies this`inboundHashes
      ensures Valid() && fresh(inboundHashes.Values - old(inboundHashes.Values))
      ensures Sets() == old(Sets())[tag := {}]
    {
      hide XorAll, HashedSet.Valid;
      var s := new HashedSet([]);
      assert s.members == {};
      ValuesUpdated(inboundHashes, tag, s);
      inboundHashes := inboundHashes[tag := s];
    }

    /** Adds an id to the set of a tag. */
    method AddTo(tag: Tag, id: Id)
      requires Valid() && tag in Sets()
      modifies inboundHashes.Values
      ensures Valid() && Sets() == old(Sets())[tag := old(Sets())[tag] + {id}]
    {
      hide XorAll, HashedSet.Valid;
      var s := inboundHashes[tag];
      s.Add(id);
      forall t | t in inboundHashes && t != tag
        ensures inboundHashes[t] != s && inboundHashes[t].members == old(inboundHashes[t].members)
      {
        assert inboundHashes[t].Valid();
      }
    }

    method RemoveUserFromInboundHash(tag: Tag, id: Id)
      requires Valid()
      modifies this, inboundHashes.Values
      ensures Valid() && inboundHashes.Values <= old(inboundHashes.Values)
      ensures emptyConfigHash == old(emptyConfigHash)
      ensures Sets() == Removing(old(Sets()), tag, id)
      ensures inboundTags == old(inboundTags) - Emptied(old(Sets()), tag, id)
    {
      hide Valid, Removing, Emptied, XorAll, HashedSet.Valid;
      RemovingIs(Sets(), tag, id);
      if tag == "" || id == [] {
        return;
      }
      if tag !in inboundHashes {
        return;
      }
      var empty := DeleteFrom(tag, id);
      if empty {
        DropSet(tag);
        inboundTags := inboundTags - {tag};
      }
    }

    /** Forgets the set of a tag. */
    method DropSet(tag: Tag)
      requires Valid()
      modifies this`inboundHashes
      ensures Valid() && inboundHashes.Values <= old(inboundHashes.Values)
      ensures Sets() == old(Sets()) - {tag}
    {
      hide HashedSet.Valid;
      inboundHashes := inboundHashes - {tag};
    }

    /** Takes an id out of the set of a tag, and says whether none is left. */
    method DeleteFrom(tag: Tag, id: Id) returns (empty: bool)
      requires Valid() && tag in Sets()
      modifies inboundHashes.Values
      ensures Valid() && Sets() == old(Sets())[tag := old(Sets())[tag] - {id}]
      ensures empty <==> old(Sets())[tag] - {id} == {}
    {
      hide XorAll, HashedSet.Valid;
      var s := inboundHashes[tag];
      var existed := s.Delete(id);
      forall t | t in inboundHashes && t != tag
        ensures inboundHashes[t] != s && inboundHashes[t].members == old(inboundHashes[t].members)
      {
        assert inboundHashes[t].Valid();
      }
      empty := |s.members| == 0;
    }

    method AddInboundTag(tag: Tag)
      modifies this`inboundTags
      ensures inboundTags == old(inboundTags) + if tag == "" then {} else {tag}
    {
      if tag == "" {
        return;
      }
      inboundTags := inboundTags + {tag};
    }

    method Clear()
      modifies this
      ensures Valid() && emptyConfigHash == "" && Sets() == map[] && inboundTags == {}
    {
      emptyConfigHash := "";
      inboundHashes := map[];
      inboundTags := {};
    }
  }

  // ---------------------------------------------------------------- hot updates

  function Adding(sets: map<Tag, set<Id>>, tag: Tag, id: Id): map<Tag, set<Id>> {
    if tag == "" || id == [] then sets
    else sets[tag := (if tag in sets then sets[tag] else {}) + {id}]
  }

  predicate Empties(sets: map<Tag, set<Id>>, tag: Tag, id: Id) {
    tag != "" && id != [] && tag in sets && sets[tag] - {id} == {}
  }

  /** The tag that goes away with its last user. */
  function Emptied(sets: map<Tag, set<Id>>, tag: Tag, id: Id): set<Tag> {
    if Empties(sets, tag, id) then {tag} else {}
  }

  function Removing(sets: map<Tag, set<Id>>, tag: Tag, id: Id): map<Tag, set<Id>> {
    if tag == "" || id == [] || tag !in sets then sets
    else if Empties(sets, tag, id) then sets - {tag}
    else sets[tag := sets[tag] - {id}]
  }

  lemma AddingIs(sets: map<Tag, set<Id>>, tag: Tag, id: Id)
    ensures tag == "" || id == [] ==> Adding(sets, tag, id) == sets
    ensures tag != "" && id != [] && tag in sets ==> Adding(sets, tag, id) == sets[tag := sets[tag] + {id}]
    ensures tag != "" && id != [] && tag !in sets ==>
              var started := sets[tag := {}]; Adding(sets, tag, id) == started[tag := started[tag] + {id}]
  {
  }

  lemma RemovingIs(sets: map<Tag, set<Id>>, tag: Tag, id: Id)
    ensures tag == "" || id == [] || tag !in sets ==>
              Removing(sets, tag, id) == sets && Emptied(sets, tag, id) == {}
    ensures tag != "" && id != [] && tag in sets && sets[tag] - {id} == {} ==>
              Removing(sets, tag, id) == sets[tag := sets[tag] - {id}] - {tag} && Emptied(sets, tag, id) == {tag}
    ensures tag != "" && id != [] && tag in sets && sets[tag] - {id} != {} ==>
              Removing(sets, tag, id) == sets[tag := sets[tag] - {id}] && Emptied(sets, tag, id) == {}
  {
  }

  // ---------------------------------------------------------------- restarts after hot updates

  datatype Update = AddId(tag: Tag, id: Id) | RemoveId(tag: Tag, id: Id)

  /** The recorded sets after some updates. */
  function Updated(sets: map<Tag, set<Id>>, run: seq<Update>): map<Tag, set<Id>> {
    if run == [] then sets else
    var before := Updated(sets, run[..|run| - 1]);
    match run[|run| - 1]
    case AddId(tag, id) => Adding(before, tag, id)
    case RemoveId(tag, id) => Removing(before, tag, id)
  }

  /** The sets as the panel sees them: an inbound stays when its last user goes. */
  function Described(sets: map<Tag, set<Id>>, run: seq<Update>): map<Tag, set<Id>> {
    if run == [] then sets else
    var before := Described(sets, run[..|run| - 1]);
    match run[|run| - 1]
    case AddId(tag, id) => Adding(before, tag, id)
    case RemoveId(tag, id) =>
      if tag == "" || id == [] || tag !in before then before else before[tag := before[tag] - {id}]
  }

  /** The recorded sets are the panel's, without some that are empty. */
  ghost predicate WithoutEmpty(recorded: map<Tag, set<Id>>, panel: map<Tag, set<Id>>) {
    && (forall tag :: tag in recorded ==> tag in panel && panel[tag] == recorded[tag])
    && (forall tag :: tag in panel && tag !in recorded ==> panel[tag] == {})
  }

  lemma {:induction false} UpdatedWithoutEmpty(sets: map<Tag, set<Id>>, run: seq<Update>)
    ensures WithoutEmpty(Updated(sets, run), Described(sets, run))
  {
    if run != [] {
      var n := |run| - 1;
      UpdatedWithoutEmpty(sets, run[..n]);
      OneUpdate(Updated(sets, run[..n]), Described(sets, run[..n]), run[n].tag, run[n].id);
    }
  }

  lemma OneUpdate(recorded: map<Tag, set<Id>>, panel: map<Tag, set<Id>>, tag: Tag, id: Id)
    requires WithoutEmpty(recorded, panel)
    ensures WithoutEmpty(Adding(recorded, tag, id), Adding(panel, tag, id))
    ensures WithoutEmpty(Removing(recorded, tag, id),
                         if tag == "" || id == [] || tag !in panel then panel else panel[tag := panel[tag] - {id}])
  {
  }

  lemma OneMissing(recorded: map<Tag, set<Id>>, panel: map<Tag, set<Id>>, tag: Tag, id: Id)
    requires WithoutEmpty(recorded, panel)
    ensures Adding(panel, tag, id).Keys - Adding(recorded, tag, id).Keys
         == panel.Keys - recorded.Keys - if tag == "" || id == [] then {} else {tag}
    ensures panel.Keys - Removing(recorded, tag, id).Keys == panel.Keys - recorded.Keys + Emptied(panel, tag, id)
  {
  }

  /** The tags that lost their last user and got none since, read off the updates as the panel sees them. */
  function Forgotten(sets: map<Tag, set<Id>>, run: seq<Update>): set<Tag> {
    if run == [] then {} else
    var n := |run| - 1;
    var before := Forgotten(sets, run[..n]);
    match run[n]
    case AddId(tag, id) => if tag == "" || id == [] then before else before - {tag}
    case RemoveId(tag, id) => before + Emptied(Described(sets, run[..n]), tag, id)
  }

  /** What the record lacks is what was forgotten. */
  lemma {:induction false} ForgottenIsMissing(sets: map<Tag, set<Id>>, run: seq<Update>)
    ensures Forgotten(sets, run) == Described(sets, run).Keys - Updated(sets, run).Keys
  {
    if run != [] {
      var n := |run| - 1;
      ForgottenIsMissing(sets, run[..n]);
      UpdatedWithoutEmpty(sets, run[..n]);
      OneMissing(Updated(sets, run[..n]), Described(sets, run[..n]), run[n].tag, run[n].id);
    }
  }

  lemma DescribesLessIff(inbounds: seq<InboundHash>, recorded: map<Tag, set<Id>>, panel: map<Tag, set<Id>>)
    requires WithoutEmpty(recorded, panel) && Describes(inbounds, panel)
    ensures Describes(inbounds, recorded) <==> panel.Keys - recorded.Keys == {}
  {
    hide XorAll, Render, DistinctTags, Tags;
    if panel.Keys - recorded.Keys == {} {
      forall tag | tag in panel ensures tag in recorded {
        assert tag !in panel.Keys - recorded.Keys;
      }
      assert recorded == panel;
    }
  }

  /** After an extraction and any hot updates, a request that describes the sets the panel sees needs
      no restart exactly when every inbound that lost its last user got another one. */
  lemma NoRestartIff(base: string, sets: map<Tag, set<Id>>, run: seq<Update>, incoming: ConfigHash)
    requires base != "" && incoming.emptyConfig == base && Describes(incoming.inbounds, Described(sets, run))
    ensures UpToDate(base, Updated(sets, run), incoming) <==> Forgotten(sets, run) == {}
  {
    hide UpToDate, Describes, WithoutEmpty, Described, Updated, Forgotten;
    UpdatedWithoutEmpty(sets, run);
    ForgottenIsMissing(sets, run);
    UpToDateIff(base, Updated(sets, run), incoming);
    DescribesLessIff(incoming.inbounds, Updated(sets, run), Described(sets, run));
  }

  /** One inbound with one user, who is removed: the panel describes the empty inbound and the core
      is restarted. */
  lemma LastUserRestarts(base: string, tag: Tag, id: Id) returns (incoming: ConfigHash)
    requires base != "" && tag != "" && id != []
    ensures incoming.emptyConfig == base
    ensures Describes(incoming.inbounds, Described(map[tag := {id}], [RemoveId(tag, id)]))
    ensures !UpToDate(base, Updated(map[tag := {id}], [RemoveId(tag, id)]), incoming)
  {
    hide XorAll, Render, UpToDate, Updated, Describes;
    var sets, run := map[tag := {id}], [RemoveId(tag, id)];
    var empty: set<Id> := {};
    incoming := ConfigHash(base, [InboundHash(0, Render(XorAll(empty)), tag)]);
    assert Described(sets, run) == map[tag := empty] && Forgotten(sets, run) == {tag} by {
      assert run[..0] == [] && Described(sets, run[..0]) == sets;
      assert {id} - {id} == empty;
    }
    OneEmptyInbound(incoming.inbounds[0]);
    NoRestartIff(base, sets, run, incoming);
  }

  lemma OneEmptyInbound(h: InboundHash)
    requires h.hash == Render(XorAll({}))
    ensures Describes([h], map[h.tag := {}])
  {
    hide XorAll, Render;
    assert h in [h];
  }

  /** No inbound loses its last user: then none goes away. */
  lemma {:induction false} NoneEmptied(sets: map<Tag, set<Id>>, run: seq<Update>)
    requires forall i | 0 <= i < |run| && run[i].RemoveId? :: !Empties(Updated(sets, run[..i]), run[i].tag, run[i].id)
    ensures Updated(sets, run) == Described(sets, run)
  {
    if run != [] {
      var n := |run| - 1;
      forall i | 0 <= i < n && run[..n][i].RemoveId?
        ensures !Empties(Updated(sets, run[..n][..i]), run[..n][i].tag, run[..n][i].id)
      {
        assert run[..n][..i] == run[..i];
      }
      NoneEmptied(sets, run[..n]);
    }
  }
}
