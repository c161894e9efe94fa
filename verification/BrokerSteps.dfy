/** What the requests of clients add to the graph, and the notices that go with the changes. */
module BrokerSteps {
  import opened JsonValue
  import opened Lists
  import opened Strings
  import EventScan
  import opened BrokerGraph

  // ---------- identifiers

  /** How many of the numbers read are in use before one is free */
  function InUse(used: map<nat, Ref>, numbers: seq<nat>): (n: nat)
    ensures n <= |numbers| && forall i :: 0 <= i < n ==> numbers[i] in used
    ensures n < |numbers| ==> numbers[n] !in used
  {
    if numbers == [] || numbers[0] !in used then 0 else 1 + InUse(used, numbers[1..])
  }

  /** The first free number read, if any: it may be one of the system's, since `continue` goes on with the insertion. */
  function FirstFree(used: map<nat, Ref>, numbers: seq<nat>): (r: Option<nat>)
    ensures r.Some? ==> r.value !in used && r.value in numbers
    ensures r.None? <==> forall i :: i in numbers ==> i in used
  {
    var n := InUse(used, numbers);
    if n < |numbers| then Some(numbers[n]) else None
  }

  // ---------- what is added

  function Subscribed(s: State, x: Ref, obj: Ref, target: Ref): State
    requires obj in s.objs && target in s.objs && obj != target
  {
    var objs := s.objs[target := s.objs[target].(subscribers := [x] + s.objs[target].subscribers)];
    s.(subs := s.subs[x := Sub(obj, target)], objs := objs[obj := objs[obj].(targets := [x] + objs[obj].targets)])
  }

  /** avl_insert: behind all patterns that are not greater */
  function Place(sources: map<Ref, Source>, patterns: seq<Ref>, key: string): (i: nat)
    requires forall e :: e in patterns ==> e in sources
    ensures i <= |patterns|
    ensures forall j :: 0 <= j < i ==> Leq(sources[patterns[j]].key, key)
    ensures i < |patterns| ==> !Leq(sources[patterns[i]].key, key)
  {
    if patterns == [] || !Leq(sources[patterns[0]].key, key) then 0 else 1 + Place(sources, patterns[1..], key)
  }

  function Inserted(q: seq<Ref>, i: nat, e: Ref): (r: seq<Ref>)
    requires i <= |q|
    ensures |r| == |q| + 1 && forall j :: 0 <= j < |r| ==> r[j] == if j < i then q[j] else if j == i then e else q[j-1]
  {
    q[..i] + [e] + q[i..]
  }

  function Registered(s: State, e: Ref, o: Ref, key: string, partial: bool): State
    requires o in s.objs && forall f :: f in s.patterns ==> f in s.sources
  {
    var i := Place(s.sources, s.patterns, key);
    s.(sources := s.sources[e := EventScan.Source(key, partial, o)], patterns := Inserted(s.patterns, i, e),
       objs := s.objs[o := s.objs[o].(events := [e] + s.objs[o].events)])
  }

  /** The type of a new object: none, one that exists, or a new one */
  datatype Pick = NoKind | Known(k: Ref) | Made(k: Ref, id: nat)

  function KindOf(pick: Pick): Option<Ref> {
    if pick.NoKind? then None else Some(pick.k)
  }

  predicate Picks(s: State, pick: Pick) {
    && (pick.Known? ==> pick.k in s.kinds)
    && (pick.Made? ==> pick.k !in s.kinds && pick.id !in s.kindIds)
  }

  function Picked(s: State, pick: Pick): State
    requires Picks(s, pick)
  {
    match pick
    case NoKind => s
    case Known(k) => s.(kinds := s.kinds[k := s.kinds[k].(refcount := s.kinds[k].refcount + 1)])
    case Made(k, id) => s.(kinds := s.kinds[k := Kind(id, 1)], kindIds := s.kindIds[id := k])
  }

  /** With a new object that has no subscriptions and no patterns */
  function Added(s: State, o: Ref, id: nat, pick: Pick, path: Option<string>, client: Option<Ref>): State
    requires Picks(s, pick) && (client.Some? ==> client.value in s.clients)
  {
    Picked(s, pick).(objs := s.objs[o := Obj(id, client, KindOf(pick), path, [], [], [])], ids := s.ids[id := o],
      paths := if path.Some? then s.paths[path.value := o] else s.paths,
      clients :=
          if client.Some? then
            s.clients[client.value := s.clients[client.value].(objects := [o] + s.clients[client.value].objects)]
          else s.clients)
  }

  // ---------- it keeps what holds

  lemma SubscribedOk(s: State, x: Ref, obj: Ref, target: Ref)
    requires Inv(s) && x !in s.subs && obj in s.objs && target in s.objs
    requires s.objs[obj].client.Some? && s.objs[target].client.Some? && s.objs[obj].client != s.objs[target].client
    ensures Inv(Subscribed(s, x, obj, target))
  {
    hide IdsOk, PathsOk, KindsOk, OwnersOk, PatternsOk, KindIdsOk, ClientIdsOk, SubsOk, ListsOk, SourcesOk, EventsOk;
    var t := Subscribed(s, x, obj, target);
    FaceIds(s.objs, t.objs, s.ids);
    FacePaths(s.objs, t.objs, s.paths);
    FaceKinds(s.objs, t.objs, s.kinds);
    FaceOwners(s.objs, t.objs, s.clients);
    SubscribedSubs(s, x, obj, target);
    SubscribedLists(s, x, obj, target);
    SubscribedEvents(s, x, obj, target);
  }

  lemma SubscribedSubs(s: State, x: Ref, obj: Ref, target: Ref)
    requires SubsOk(s.objs, s.subs) && x !in s.subs && obj in s.objs && target in s.objs
    requires s.objs[obj].client.Some? && s.objs[target].client.Some? && s.objs[obj].client != s.objs[target].client
    ensures SubsOk(Subscribed(s, x, obj, target).objs, Subscribed(s, x, obj, target).subs)
  {
  }

  lemma SubscribedLists(s: State, x: Ref, obj: Ref, target: Ref)
    requires ListsOk(s.objs, s.subs) && x !in s.subs && obj in s.objs && target in s.objs && obj != target
    ensures ListsOk(Subscribed(s, x, obj, target).objs, Subscribed(s, x, obj, target).subs)
  {
    hide ListsOf;
    var t := Subscribed(s, x, obj, target);
    forall o | o in t.objs ensures ListsOf(o, t.objs[o].targets, t.objs[o].subscribers, t.subs) {
      ListsGrown(o, s.objs[o].targets, s.objs[o].subscribers, s.subs, x, Sub(obj, target));
    }
  }

  lemma ListsGrown(o: Ref, targets: seq<Ref>, subscribers: seq<Ref>, subs: map<Ref, Sub>, x: Ref, sub: Sub)
    requires ListsOf(o, targets, subscribers, subs) && x !in subs && sub.subscriber != sub.target
    ensures ListsOf(o, if o == sub.subscriber then [x] + targets else targets,
      if o == sub.target then [x] + subscribers else subscribers, subs[x := sub])
  {
    assert x !in targets && x !in subscribers;
  }

  lemma SubscribedEvents(s: State, x: Ref, obj: Ref, target: Ref)
    requires SourcesOk(s.objs, s.sources) && EventsOk(s.objs, s.sources) && obj in s.objs && target in s.objs
      && obj != target
    ensures var t := Subscribed(s, x, obj, target); SourcesOk(t.objs, s.sources) && EventsOk(t.objs, s.sources)
  {
    hide Distinct;
  }

  lemma RegisteredOk(s: State, e: Ref, o: Ref, key: string, partial: bool)
    requires Inv(s) && e !in s.sources && o in s.objs && s.objs[o].client.Some? && s.objs[o].id >= SYSTEM_OBJECT_MAX
      && IsCString(key)
    ensures Inv(Registered(s, e, o, key, partial))
  {
    hide IdsOk, PathsOk, KindsOk, OwnersOk, PatternsOk, KindIdsOk, ClientIdsOk, SubsOk, ListsOk, SourcesOk, EventsOk;
    KnownPatterns(s);
    var t := Registered(s, e, o, key, partial);
    FaceIds(s.objs, t.objs, s.ids);
    FacePaths(s.objs, t.objs, s.paths);
    FaceKinds(s.objs, t.objs, s.kinds);
    FaceOwners(s.objs, t.objs, s.clients);
    RegisteredEvents(s, e, o, EventScan.Source(key, partial, o));
    RegisteredLists(s, o, [e] + s.objs[o].events);
    PatternsGrown(s.sources, s.patterns, e, EventScan.Source(key, partial, o));
  }

  lemma KnownPatterns(s: State)
    requires PatternsOk(s.sources, s.patterns)
    ensures forall e :: e in s.patterns ==> e in s.sources
  {
    assert forall e :: e in s.patterns ==> e in Elements(s.patterns);
  }

  lemma RegisteredEvents(s: State, e: Ref, o: Ref, source: Source)
    requires SourcesOk(s.objs, s.sources) && EventsOk(s.objs, s.sources) && e !in s.sources && o in s.objs
      && source.obj == o
    requires s.objs[o].client.Some? && s.objs[o].id >= SYSTEM_OBJECT_MAX
    ensures var objs := s.objs[o := s.objs[o].(events := [e] + s.objs[o].events)];
      SourcesOk(objs, s.sources[e := source]) && EventsOk(objs, s.sources[e := source])
  {
  }

  lemma RegisteredLists(s: State, o: Ref, events: seq<Ref>)
    requires SubsOk(s.objs, s.subs) && ListsOk(s.objs, s.subs) && o in s.objs
    ensures var objs := s.objs[o := s.objs[o].(events := events)]; SubsOk(objs, s.subs) && ListsOk(objs, s.subs)
  {
    hide ListsOf;
  }

  lemma PatternsGrown(sources: map<Ref, Source>, patterns: seq<Ref>, e: Ref, source: Source)
    requires PatternsOk(sources, patterns) && e !in sources && IsCString(source.key) && forall f :: f in patterns ==>
      f in sources
    ensures PatternsOk(sources[e := source], Inserted(patterns, Place(sources, patterns, source.key), e))
  {
    hide Leq, Distinct, InOrder, NoLater, Place;
    var q, more := Inserted(patterns, Place(sources, patterns, source.key), e), sources[e := source];
    InsertedElements(patterns, Place(sources, patterns, source.key), e);
    StillDistinct(patterns, Place(sources, patterns, source.key), e);
    StillInOrder(sources, patterns, e, source);
  }

  lemma InsertedElements(q: seq<Ref>, i: nat, e: Ref)
    requires i <= |q|
    ensures Elements(Inserted(q, i, e)) == Elements(q) + {e}
  {
    assert q == q[..i] + q[i..];
  }

  lemma StillDistinct(q: seq<Ref>, i: nat, e: Ref)
    requires i <= |q| && Distinct(q) && e !in q
    ensures Distinct(Inserted(q, i, e))
  {
    var r := Inserted(q, i, e);
    forall j, k | 0 <= j < k < |r| ensures r[j] != r[k] {
      var j', k' := Old(i, j), Old(i, k);
      assert j != i ==> r[j] == q[j'] && q[j'] in q;
      assert k != i ==> r[k] == q[k'] && q[k'] in q;
    }
  }

  /** Where an element was before one was inserted */
  function Old(i: nat, j: nat): nat {
    if j <= i then j else j - 1
  }

  lemma StillInOrder(sources: map<Ref, Source>, patterns: seq<Ref>, e: Ref, source: Source)
    requires e !in sources && (forall f :: f in patterns ==> f in sources) && InOrder(sources, patterns)
    ensures var q := Inserted(patterns, Place(sources, patterns, source.key), e);
      (forall f :: f in q ==> f in sources[e := source]) && InOrder(sources[e := source], q)
  {
    hide Leq, Place;
    var i := Place(sources, patterns, source.key);
    var q, more := Inserted(patterns, i, e), sources[e := source];
    forall j | 0 <= j < |q| ensures q[j] in more {
      assert j != i ==> q[j] == patterns[Old(i, j)];
    }
    forall j, k | 0 <= j < k < |q| ensures NoLater(more, q[j], q[k]) {
      if j == i {
        BehindPlace(sources, patterns, source.key, i, k - 1);
      } else if k == i {
        assert q[j] == patterns[j];
      } else {
        var j', k' := Old(i, j), Old(i, k);
        assert q[j] == patterns[j'] && q[k] == patterns[k'] && NoLater(sources, patterns[j'], patterns[k']);
      }
    }
  }

  lemma BehindPlace(sources: map<Ref, Source>, patterns: seq<Ref>, key: string, i: nat, k: nat)
    requires (forall f :: f in patterns ==> f in sources) && InOrder(sources, patterns)
    requires i <= k < |patterns| && !Leq(sources[patterns[i]].key, key)
    ensures Leq(key, sources[patterns[k]].key)
  {
    LeqTotal(key, sources[patterns[i]].key);
    if i < k {
      assert NoLater(sources, patterns[i], patterns[k]);
      LeqTransitive(key, sources[patterns[i]].key, sources[patterns[k]].key);
    }
  }

  lemma AddedOk(s: State, o: Ref, id: nat, pick: Pick, path: Option<string>, client: Option<Ref>)
    requires Inv(s) && Picks(s, pick) && o !in s.objs && id !in s.ids
    requires (client.Some? ==> client.value in s.clients) && (path.Some? ==> path.value !in s.paths)
    ensures Inv(Added(s, o, id, pick, path, client))
  {
    hide IdsOk, PathsOk, KindsOk, OwnersOk, PatternsOk, KindIdsOk, ClientIdsOk, SubsOk, ListsOk, SourcesOk, EventsOk;
    var obj := Obj(id, client, KindOf(pick), path, [], [], []);
    AddedMaps(s.objs, s.ids, s.paths, o, obj);
    AddedKinds(s, o, obj, pick);
    AddedOwner(s.objs, s.clients, s.clientIds, o, obj);
    AddedLists(s, o, obj);
  }

  lemma AddedMaps(objs: map<Ref, Obj>, ids: map<nat, Ref>, paths: map<string, Ref>, o: Ref, obj: Obj)
    requires IdsOk(objs, ids) && PathsOk(objs, paths) && o !in objs && obj.id !in ids
      && (obj.path.Some? ==> obj.path.value !in paths)
    ensures IdsOk(objs[o := obj], ids[obj.id := o])
    ensures PathsOk(objs[o := obj], if obj.path.Some? then paths[obj.path.value := o] else paths)
  {
  }

  lemma AddedKinds(s: State, o: Ref, obj: Obj, pick: Pick)
    requires KindsOk(s.objs, s.kinds) && KindIdsOk(s.kinds, s.kindIds) && Picks(s, pick) && o !in s.objs
      && obj.kind == KindOf(pick)
    ensures var t := Picked(s, pick); KindsOk(s.objs[o := obj], t.kinds) && KindIdsOk(t.kinds, t.kindIds)
  {
    var objs := s.objs[o := obj];
    hide Users;
    forall k: Ref ensures |Users(objs, k)| == |Users(s.objs, k)| + (if obj.kind == Some(k) then 1 else 0) {
      UsersWith(s.objs, o, obj, k);
    }
    if pick.Made? {
      NoUsers(s.objs, s.kinds, pick.k);
    }
  }

  lemma UsersWith(objs: map<Ref, Obj>, o: Ref, obj: Obj, k: Ref)
    requires o !in objs
    ensures |Users(objs[o := obj], k)| == |Users(objs, k)| + (if obj.kind == Some(k) then 1 else 0)
  {
    assert Users(objs[o := obj], k) == Users(objs, k) + (if obj.kind == Some(k) then {o} else {});
  }

  lemma NoUsers(objs: map<Ref, Obj>, kinds: map<Ref, Kind>, k: Ref)
    requires KindsOk(objs, kinds) && k !in kinds
    ensures Users(objs, k) == {}
  {
  }

  lemma AddedOwner(objs: map<Ref, Obj>, clients: map<Ref, Client>, clientIds: map<nat, Ref>, o: Ref, obj: Obj)
    requires OwnersOk(objs, clients) && ClientIdsOk(clients, clientIds) && o !in objs
      && (obj.client.Some? ==> obj.client.value in clients)
    ensures var clients' := if obj.client.Some? then
        clients[obj.client.value := clients[obj.client.value].(objects := [o] + clients[obj.client.value].objects)]
          else clients;
      OwnersOk(objs[o := obj], clients') && ClientIdsOk(clients', clientIds)
  {
  }

  lemma AddedLists(s: State, o: Ref, obj: Obj)
    requires SubsOk(s.objs, s.subs) && ListsOk(s.objs, s.subs) && SourcesOk(s.objs, s.sources)
      && EventsOk(s.objs, s.sources)
    requires o !in s.objs && obj.targets == obj.subscribers == obj.events == []
    ensures var objs := s.objs[o := obj];
      SubsOk(objs, s.subs) && ListsOk(objs, s.subs) && SourcesOk(objs, s.sources) && EventsOk(objs, s.sources)
  {
    hide ListsOf, EventsOf;
    NoLists(o, obj, s.subs, s.sources);
  }

  lemma NoLists(o: Ref, obj: Obj, subs: map<Ref, Sub>, sources: map<Ref, Source>)
    requires obj.targets == obj.subscribers == obj.events == []
    ensures ListsOf(o, obj.targets, obj.subscribers, subs) && EventsOf(o, obj, sources)
  {
  }

  /** An object that is freed right away leaves no trace. */
  lemma AddedAndFreed(s: State, o: Ref, id: nat, pick: Pick)
    requires Inv(s) && Picks(s, pick) && o !in s.objs && id !in s.ids
    ensures Without(Added(s, o, id, pick, None, None), {o}) == s
  {
    hide Inv, Without, Discarded, Unregistered, Unsubscribed, Unref;
    var t := Added(s, o, id, pick, None, None);
    AddedOk(s, o, id, pick, None, None);
    NothingHangsOn(s, o, t);
    UnsubscribedNone(t);
    UnregisteredNone(t);
    WithoutIs(t, {o});
    DiscardedOne(t, o);
    BackAgain(s, o, id, pick);
  }

  lemma NothingHangsOn(s: State, o: Ref, t: State)
    requires Inv(s) && o !in s.objs && t.subs == s.subs && t.sources == s.sources
    ensures SubsOf(t, {o}) == {} && SourcesOf(t, {o}) == {}
  {
  }

  lemma BackAgain(s: State, o: Ref, id: nat, pick: Pick)
    requires Inv(s) && Picks(s, pick) && o !in s.objs && id !in s.ids
    ensures var t := Added(s, o, id, pick, None, None);
      && t.objs - {o} == s.objs && t.ids - {id} == s.ids
      && (pick.NoKind?
          || (Unref(t.kinds, pick.k) == s.kinds
              && (if pick.k in s.kinds then t.kindIds == s.kindIds else t.kindIds - {t.kinds[pick.k].id} == s.kindIds)))
  {
    hide IdsOk, PathsOk, KindsOk, OwnersOk, PatternsOk, KindIdsOk, ClientIdsOk, SubsOk, ListsOk, SourcesOk, EventsOk,
      Users;
    var t := Added(s, o, id, pick, None, None);
    assert t.objs - {o} == s.objs && t.ids - {id} == s.ids;
    match pick
    case NoKind =>
    case Known(k) =>
      assert s.kinds[k].refcount > 0 by { Used(s.objs, s.kinds, k); }
      assert Unref(t.kinds, k) == s.kinds;
    case Made(k, i) =>
      assert Unref(t.kinds, k) == s.kinds && t.kindIds - {i} == s.kindIds;
  }

  lemma Used(objs: map<Ref, Obj>, kinds: map<Ref, Kind>, k: Ref)
    requires KindsOk(objs, kinds) && k in kinds
    ensures kinds[k].refcount > 0
  {
  }
}
