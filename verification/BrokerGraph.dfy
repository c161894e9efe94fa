/** The object graph of the bus daemon: what ubus/ubusd_obj.c, ubus/ubusd_proto.c and ubus/ubusd_event.c keep in their
    trees and lists, as a value. A structure is a record in a store under its address; what is freed is in no store. */
module BrokerGraph {
  import opened JsonValue
  import opened Lists
  import opened Strings
  import EventScan

  type Ref = nat

  /** ubus_object */
  datatype Obj = Obj(id: nat, client: Option<Ref>, kind: Option<Ref>, path: Option<string>,
                     subscribers: seq<Ref>, targets: seq<Ref>, events: seq<Ref>)

  /** ubus_object_type, without its methods */
  datatype Kind = Kind(id: nat, refcount: int)

  /** ubus_subscription */
  datatype Sub = Sub(subscriber: Ref, target: Ref)

  /** event_source */
  type Source = EventScan.Source

  /** ubus_client */
  datatype Client = Client(id: nat, objects: seq<Ref>)

  datatype State = State(objs: map<Ref, Obj>, kinds: map<Ref, Kind>, subs: map<Ref, Sub>, sources: map<Ref, Source>,
                         clients: map<Ref, Client>, ids: map<nat, Ref>, kindIds: map<nat, Ref>,
                         clientIds: map<nat, Ref>, paths: map<string, Ref>, patterns: seq<Ref>)

  const SYSTEM_OBJECT_MAX: nat := 1024

  // ---------- what holds between any two messages

  ghost predicate IdsOk(objs: map<Ref, Obj>, ids: map<nat, Ref>) {
    && (forall o :: o in objs ==> objs[o].id in ids && ids[objs[o].id] == o)
    && forall i :: i in ids ==> ids[i] in objs && objs[ids[i]].id == i
  }

  ghost predicate PathsOk(objs: map<Ref, Obj>, paths: map<string, Ref>) {
    && (forall o :: o in objs && objs[o].path.Some? ==> objs[o].path.value in paths && paths[objs[o].path.value] == o)
    && forall p :: p in paths ==> paths[p] in objs && objs[paths[p]].path == Some(p)
  }

  function Users(objs: map<Ref, Obj>, k: Ref): set<Ref> {
    set o | o in objs && objs[o].kind == Some(k)
  }

  /** A type lives as long as objects use it, and its refcount is their number. */
  ghost predicate KindsOk(objs: map<Ref, Obj>, kinds: map<Ref, Kind>) {
    && (forall o :: o in objs && objs[o].kind.Some? ==> objs[o].kind.value in kinds)
    && forall k :: k in kinds ==> kinds[k].refcount == |Users(objs, k)| > 0
  }

  ghost predicate KindIdsOk(kinds: map<Ref, Kind>, kindIds: map<nat, Ref>) {
    && (forall k :: k in kinds ==> kinds[k].id in kindIds && kindIds[kinds[k].id] == k)
    && forall i :: i in kindIds ==> kindIds[i] in kinds && kinds[kindIds[i]].id == i
  }

  ghost predicate ClientIdsOk(clients: map<Ref, Client>, clientIds: map<nat, Ref>) {
    && (forall c :: c in clients ==> clients[c].id in clientIds && clientIds[clients[c].id] == c)
    && forall i :: i in clientIds ==> clientIds[i] in clients && clients[clientIds[i]].id == i
  }

  /** A subscription is between live objects of different clients. */
  ghost predicate SubsOk(objs: map<Ref, Obj>, subs: map<Ref, Sub>) {
    forall s :: s in subs ==>
      var (x, y) := (subs[s].subscriber, subs[s].target);
      x in objs && y in objs && s in objs[x].targets && s in objs[y].subscribers &&
      objs[x].client.Some? && objs[y].client.Some? && objs[x].client != objs[y].client
  }

  /** The lists of an object hold its subscriptions, each once. */
  ghost predicate ListsOf(o: Ref, targets: seq<Ref>, subscribers: seq<Ref>, subs: map<Ref, Sub>) {
    && Distinct(targets) && Distinct(subscribers)
    && (forall s :: s in targets ==> s in subs && subs[s].subscriber == o)
    && forall s :: s in subscribers ==> s in subs && subs[s].target == o
  }

  ghost predicate ListsOk(objs: map<Ref, Obj>, subs: map<Ref, Sub>) {
    forall o :: o in objs ==> ListsOf(o, objs[o].targets, objs[o].subscribers, subs)
  }

  /** And its patterns, which only objects of clients have, with numbers that are not the system's. */
  ghost predicate EventsOf(o: Ref, obj: Obj, sources: map<Ref, Source>) {
    && Distinct(obj.events)
    && forall e :: e in obj.events ==>
      e in sources && sources[e].obj == o && obj.id >= SYSTEM_OBJECT_MAX && obj.client.Some?
  }

  ghost predicate EventsOk(objs: map<Ref, Obj>, sources: map<Ref, Source>) {
    forall o :: o in objs ==> EventsOf(o, objs[o], sources)
  }

  /** Patterns belong to live objects. */
  ghost predicate SourcesOk(objs: map<Ref, Obj>, sources: map<Ref, Source>) {
    forall e :: e in sources ==> sources[e].obj in objs && e in objs[sources[e].obj].events
  }

  /** One pattern comes no later than another. */
  ghost predicate NoLater(sources: map<Ref, Source>, e: Ref, f: Ref)
    requires e in sources && f in sources
  {
    Leq(sources[e].key, sources[f].key)
  }

  ghost predicate InOrder(sources: map<Ref, Source>, patterns: seq<Ref>)
    requires forall e :: e in patterns ==> e in sources
  {
    forall i, j :: 0 <= i < j < |patterns| ==> NoLater(sources, patterns[i], patterns[j])
  }

  /** The tree of patterns holds them all, in order. */
  ghost predicate PatternsOk(sources: map<Ref, Source>, patterns: seq<Ref>) {
    && Distinct(patterns) && Elements(patterns) == sources.Keys
    && InOrder(sources, patterns) && forall e :: e in sources ==> IsCString(sources[e].key)
  }

  /** Each object with an owner is in the list of its owner, once, and in no other. */
  ghost predicate OwnersOk(objs: map<Ref, Obj>, clients: map<Ref, Client>) {
    && (forall o ::
          o in objs && objs[o].client.Some? ==>
            objs[o].client.value in clients && o in clients[objs[o].client.value].objects)
    && forall c :: c in clients ==> Distinct(clients[c].objects) && forall o :: o in clients[c].objects ==>
      o in objs && objs[o].client == Some(c)
  }

  /** The structures were made before some time. */
  ghost predicate Before(s: State, next: Ref) {
    forall r :: r in s.objs || r in s.kinds || r in s.subs || r in s.sources || r in s.clients ==> r < next
  }

  ghost predicate Inv(s: State) {
    && IdsOk(s.objs, s.ids) && PathsOk(s.objs, s.paths) && KindsOk(s.objs, s.kinds) && KindIdsOk(s.kinds, s.kindIds)
    && ClientIdsOk(s.clients, s.clientIds) && SubsOk(s.objs, s.subs) && ListsOk(s.objs, s.subs)
      && SourcesOk(s.objs, s.sources) && EventsOk(s.objs, s.sources)
    && PatternsOk(s.sources, s.patterns) && OwnersOk(s.objs, s.clients)
  }

  // ---------- what the steps do

  function Unlink(obj: Obj, gone: set<Ref>): Obj {
    obj.(subscribers := Minus(obj.subscribers, gone), targets := Minus(obj.targets, gone))
  }

  function Unlinked(objs: map<Ref, Obj>, gone: set<Ref>): map<Ref, Obj> {
    map o | o in objs :: Unlink(objs[o], gone)
  }

  /** Without some subscriptions */
  function Unsubscribed(s: State, gone: set<Ref>): State {
    s.(objs := Unlinked(s.objs, gone), subs := s.subs - gone)
  }

  function Unhear(obj: Obj, gone: set<Ref>): Obj {
    obj.(events := Minus(obj.events, gone))
  }

  function Unheard(objs: map<Ref, Obj>, gone: set<Ref>): map<Ref, Obj> {
    map o | o in objs :: Unhear(objs[o], gone)
  }

  /** Without some patterns */
  function Unregistered(s: State, gone: set<Ref>): State {
    s.(objs := Unheard(s.objs, gone), sources := s.sources - gone, patterns := Minus(s.patterns, gone))
  }

  function Recounted(objs: map<Ref, Obj>, kinds: map<Ref, Kind>): map<Ref, Kind> {
    map k | k in kinds && Users(objs, k) != {} :: kinds[k].(refcount := |Users(objs, k)|)
  }

  function Only<K(==)>(m: map<K, Ref>, live: set<Ref>): map<K, Ref> {
    map i | i in m && m[i] in live :: m[i]
  }

  function Disowned(clients: map<Ref, Client>, gone: set<Ref>): map<Ref, Client> {
    map c | c in clients :: clients[c].(objects := Minus(clients[c].objects, gone))
  }

  /** Without some objects that have no subscriptions and no patterns */
  function Discarded(s: State, gone: set<Ref>): State {
    var objs := s.objs - gone;
    var kinds := Recounted(objs, s.kinds);
    s.(objs := objs, kinds := kinds, ids := Only(s.ids, objs.Keys), paths := Only(s.paths, objs.Keys),
      kindIds := Only(s.kindIds, kinds.Keys), clients := Disowned(s.clients, gone))
  }

  function SubsOf(s: State, objects: set<Ref>): set<Ref> {
    set x | x in s.subs && (s.subs[x].subscriber in objects || s.subs[x].target in objects)
  }

  function SourcesOf(s: State, objects: set<Ref>): set<Ref> {
    set e | e in s.sources && s.sources[e].obj in objects
  }

  /** Without some objects and all that has to do with them */
  function Without(s: State, gone: set<Ref>): State {
    Discarded(Unregistered(Unsubscribed(s, SubsOf(s, gone)), SourcesOf(s, gone)), gone)
  }

  /** Without a client and all that is his */
  function Disconnected(s: State, c: Ref): State
    requires c in s.clients
  {
    var t := Without(s, Elements(s.clients[c].objects));
    t.(clients := t.clients - {c}, clientIds := Only(t.clientIds, t.clients.Keys - {c}))
  }

  // ---------- they keep what holds

  /** The objects have only changed in their lists. */
  ghost predicate SameFace(objs: map<Ref, Obj>, objs': map<Ref, Obj>) {
    objs'.Keys == objs.Keys && forall o :: o in objs ==>
      objs'[o].id == objs[o].id && objs'[o].client == objs[o].client && objs'[o].kind == objs[o].kind
        && objs'[o].path == objs[o].path
  }

  lemma FaceIds(objs: map<Ref, Obj>, objs': map<Ref, Obj>, ids: map<nat, Ref>)
    requires SameFace(objs, objs') && IdsOk(objs, ids)
    ensures IdsOk(objs', ids)
  {
  }

  lemma FacePaths(objs: map<Ref, Obj>, objs': map<Ref, Obj>, paths: map<string, Ref>)
    requires SameFace(objs, objs') && PathsOk(objs, paths)
    ensures PathsOk(objs', paths)
  {
  }

  lemma FaceKinds(objs: map<Ref, Obj>, objs': map<Ref, Obj>, kinds: map<Ref, Kind>)
    requires SameFace(objs, objs') && KindsOk(objs, kinds)
    ensures KindsOk(objs', kinds)
  {
    forall k | k in kinds ensures Users(objs', k) == Users(objs, k) {
    }
  }

  lemma FaceOwners(objs: map<Ref, Obj>, objs': map<Ref, Obj>, clients: map<Ref, Client>)
    requires SameFace(objs, objs') && OwnersOk(objs, clients)
    ensures OwnersOk(objs', clients)
  {
  }

  lemma UnsubscribedOk(s: State, gone: set<Ref>)
    requires Inv(s)
    ensures Inv(Unsubscribed(s, gone))
  {
    hide IdsOk, PathsOk, KindsOk, OwnersOk, PatternsOk, KindIdsOk, ClientIdsOk, SubsOk, ListsOk, SourcesOk, EventsOk,
      Unlinked, SameFace;
    var t := Unsubscribed(s, gone);
    UnlinkedFace(s.objs, gone);
    FaceIds(s.objs, t.objs, s.ids);
    FacePaths(s.objs, t.objs, s.paths);
    FaceKinds(s.objs, t.objs, s.kinds);
    FaceOwners(s.objs, t.objs, s.clients);
    UnlinkedSubs(s.objs, s.subs, gone);
    UnlinkedLists(s.objs, s.subs, gone);
    UnlinkedEvents(s.objs, s.sources, gone);
  }

  lemma UnlinkedFace(objs: map<Ref, Obj>, gone: set<Ref>)
    ensures SameFace(objs, Unlinked(objs, gone)) && Unlinked(objs, gone).Keys == objs.Keys
  {
  }

  lemma UnlinkedSubs(objs: map<Ref, Obj>, subs: map<Ref, Sub>, gone: set<Ref>)
    requires SubsOk(objs, subs)
    ensures SubsOk(Unlinked(objs, gone), subs - gone)
  {
  }

  lemma UnlinkedLists(objs: map<Ref, Obj>, subs: map<Ref, Sub>, gone: set<Ref>)
    requires ListsOk(objs, subs)
    ensures ListsOk(Unlinked(objs, gone), subs - gone)
  {
    hide ListsOf;
    forall o | o in objs
      ensures ListsOf(o, Minus(objs[o].targets, gone), Minus(objs[o].subscribers, gone), subs - gone)
    {
      UnlinkedList(o, objs[o].targets, objs[o].subscribers, subs, gone);
    }
  }

  lemma UnlinkedList(o: Ref, targets: seq<Ref>, subscribers: seq<Ref>, subs: map<Ref, Sub>, gone: set<Ref>)
    requires ListsOf(o, targets, subscribers, subs)
    ensures ListsOf(o, Minus(targets, gone), Minus(subscribers, gone), subs - gone)
  {
    hide Distinct, Minus;
    MinusDistinct(targets, gone);
    MinusDistinct(subscribers, gone);
  }

  lemma UnlinkedEvents(objs: map<Ref, Obj>, sources: map<Ref, Source>, gone: set<Ref>)
    requires SourcesOk(objs, sources) && EventsOk(objs, sources)
    ensures SourcesOk(Unlinked(objs, gone), sources) && EventsOk(Unlinked(objs, gone), sources)
  {
    hide Distinct, Minus;
  }

  lemma UnregisteredOk(s: State, gone: set<Ref>)
    requires Inv(s)
    ensures Inv(Unregistered(s, gone))
  {
    hide IdsOk, PathsOk, KindsOk, OwnersOk, PatternsOk, KindIdsOk, ClientIdsOk, SubsOk, ListsOk, SourcesOk, EventsOk,
      Unheard, SameFace;
    var t := Unregistered(s, gone);
    UnheardFace(s.objs, gone);
    FaceIds(s.objs, t.objs, s.ids);
    FacePaths(s.objs, t.objs, s.paths);
    FaceKinds(s.objs, t.objs, s.kinds);
    FaceOwners(s.objs, t.objs, s.clients);
    UnheardLists(s.objs, s.subs, gone);
    UnheardSources(s.objs, s.sources, gone);
    UnheardEvents(s.objs, s.sources, gone);
    PatternsLeft(s.sources, s.patterns, gone);
  }

  lemma UnheardFace(objs: map<Ref, Obj>, gone: set<Ref>)
    ensures SameFace(objs, Unheard(objs, gone)) && Unheard(objs, gone).Keys == objs.Keys
  {
  }

  lemma UnheardLists(objs: map<Ref, Obj>, subs: map<Ref, Sub>, gone: set<Ref>)
    requires SubsOk(objs, subs) && ListsOk(objs, subs)
    ensures SubsOk(Unheard(objs, gone), subs) && ListsOk(Unheard(objs, gone), subs)
  {
    hide ListsOf, Minus;
  }

  lemma UnheardSources(objs: map<Ref, Obj>, sources: map<Ref, Source>, gone: set<Ref>)
    requires SourcesOk(objs, sources)
    ensures SourcesOk(Unheard(objs, gone), sources - gone)
  {
  }

  lemma UnheardEvents(objs: map<Ref, Obj>, sources: map<Ref, Source>, gone: set<Ref>)
    requires EventsOk(objs, sources)
    ensures EventsOk(Unheard(objs, gone), sources - gone)
  {
    hide Distinct, Minus;
    forall o | o in objs ensures Distinct(Minus(objs[o].events, gone)) {
      MinusDistinct(objs[o].events, gone);
    }
  }

  lemma {:induction false} OrderLeft(sources: map<Ref, Source>, patterns: seq<Ref>, gone: set<Ref>)
    requires (forall e :: e in patterns ==> e in sources) && InOrder(sources, patterns)
    ensures InOrder(sources, Minus(patterns, gone))
  {
    hide NoLater;
    if patterns != [] {
      OrderLeft(sources, patterns[1..], gone);
      forall e | e in patterns[1..] ensures NoLater(sources, patterns[0], e) {
      }
    }
  }

  lemma PatternsLeft(sources: map<Ref, Source>, patterns: seq<Ref>, gone: set<Ref>)
    requires PatternsOk(sources, patterns)
    ensures PatternsOk(sources - gone, Minus(patterns, gone))
  {
    MinusDistinct(patterns, gone);
    OrderLeft(sources, patterns, gone);
  }

  lemma DiscardedOk(s: State, gone: set<Ref>)
    requires Inv(s) && SubsOf(s, gone) == {} && SourcesOf(s, gone) == {}
    ensures Inv(Discarded(s, gone))
  {
    hide IdsOk, PathsOk, KindsOk, OwnersOk, PatternsOk, KindIdsOk, ClientIdsOk, SourcesOk, SubsOk, ListsOk, EventsOk,
      Only, Recounted, SubsOf, SourcesOf;
    DiscardedMaps(s.objs, s.ids, s.paths, gone);
    DiscardedKinds(s.objs, s.kinds, s.kindIds, gone);
    DiscardedClients(s.objs, s.clients, s.clientIds, gone);
    DiscardedLists(s, gone);
    DiscardedEvents(s, gone);
    RecountedKeys(s.objs - gone, s.kinds);
  }

  lemma RecountedKeys(objs: map<Ref, Obj>, kinds: map<Ref, Kind>)
    ensures Recounted(objs, kinds).Keys <= kinds.Keys
  {
  }

  lemma DiscardedMaps(objs: map<Ref, Obj>, ids: map<nat, Ref>, paths: map<string, Ref>, gone: set<Ref>)
    requires IdsOk(objs, ids) && PathsOk(objs, paths)
    ensures IdsOk(objs - gone, Only(ids, (objs - gone).Keys)) && PathsOk(objs - gone, Only(paths, (objs - gone).Keys))
  {
  }

  lemma DiscardedKinds(objs: map<Ref, Obj>, kinds: map<Ref, Kind>, kindIds: map<nat, Ref>, gone: set<Ref>)
    requires KindsOk(objs, kinds) && KindIdsOk(kinds, kindIds)
    ensures var kinds' := Recounted(objs - gone, kinds);
      KindsOk(objs - gone, kinds') && KindIdsOk(kinds', Only(kindIds, kinds'.Keys))
  {
    var rest := objs - gone;
    forall o | o in rest && rest[o].kind.Some? ensures rest[o].kind.value in Recounted(rest, kinds) {
      assert o in Users(rest, rest[o].kind.value);
    }
  }

  lemma DiscardedClients(objs: map<Ref, Obj>, clients: map<Ref, Client>, clientIds: map<nat, Ref>, gone: set<Ref>)
    requires OwnersOk(objs, clients) && ClientIdsOk(clients, clientIds)
    ensures OwnersOk(objs - gone, Disowned(clients, gone)) && ClientIdsOk(Disowned(clients, gone), clientIds)
  {
    hide Distinct;
    forall c | c in clients ensures Distinct(Minus(clients[c].objects, gone)) {
      MinusDistinct(clients[c].objects, gone);
    }
  }

  lemma DiscardedLists(s: State, gone: set<Ref>)
    requires SubsOk(s.objs, s.subs) && ListsOk(s.objs, s.subs) && SubsOf(s, gone) == {}
    ensures SubsOk(s.objs - gone, s.subs) && ListsOk(s.objs - gone, s.subs)
  {
    hide ListsOf;
    forall x | x in s.subs ensures s.subs[x].subscriber !in gone && s.subs[x].target !in gone {
      assert x !in SubsOf(s, gone);
    }
  }

  lemma DiscardedEvents(s: State, gone: set<Ref>)
    requires SourcesOk(s.objs, s.sources) && EventsOk(s.objs, s.sources) && SourcesOf(s, gone) == {}
    ensures SourcesOk(s.objs - gone, s.sources) && EventsOk(s.objs - gone, s.sources)
  {
    hide EventsOf;
    forall e | e in s.sources ensures s.sources[e].obj !in gone {
      assert e !in SourcesOf(s, gone);
    }
  }

  lemma WithoutOk(s: State, gone: set<Ref>)
    requires Inv(s)
    ensures Inv(Without(s, gone))
  {
    hide *;
    var t := Unsubscribed(s, SubsOf(s, gone));
    UnsubscribedOk(s, SubsOf(s, gone));
    UnregisteredOk(t, SourcesOf(s, gone));
    NoneOf(s, gone);
    DiscardedOk(Unregistered(t, SourcesOf(s, gone)), gone);
    WithoutIs(s, gone);
  }

  lemma WithoutIs(s: State, gone: set<Ref>)
    ensures Without(s, gone) == Discarded(Unregistered(Unsubscribed(s, SubsOf(s, gone)), SourcesOf(s, gone)), gone)
  {
  }

  lemma NoneOf(s: State, gone: set<Ref>)
    ensures var t := Unregistered(Unsubscribed(s, SubsOf(s, gone)), SourcesOf(s, gone));
      SubsOf(t, gone) == {} && SourcesOf(t, gone) == {}
  {
  }

  // ---------- steps one after the other

  lemma UnlinkTwice(obj: Obj, a: set<Ref>, b: set<Ref>)
    ensures Unlink(Unlink(obj, a), b) == Unlink(obj, a + b)
  {
    MinusTwice(obj.targets, a, b);
    MinusTwice(obj.subscribers, a, b);
  }

  lemma UnhearTwice(obj: Obj, a: set<Ref>, b: set<Ref>)
    ensures Unhear(Unhear(obj, a), b) == Unhear(obj, a + b)
  {
    MinusTwice(obj.events, a, b);
  }

  lemma UnlinkNone(obj: Obj, gone: set<Ref>)
    requires (forall s :: s in obj.targets ==> s !in gone) && forall s :: s in obj.subscribers ==> s !in gone
    ensures Unlink(obj, gone) == obj
  {
    MinusNone(obj.targets, gone);
    MinusNone(obj.subscribers, gone);
  }

  lemma UnhearNone(obj: Obj, gone: set<Ref>)
    requires forall e :: e in obj.events ==> e !in gone
    ensures Unhear(obj, gone) == obj
  {
    MinusNone(obj.events, gone);
  }

  lemma SubtractTwice<T>(m: map<Ref, T>, a: set<Ref>, b: set<Ref>)
    ensures m - a - b == m - (a + b)
  {
  }

  lemma UnsubscribedTwice(s: State, a: set<Ref>, b: set<Ref>)
    ensures Unsubscribed(Unsubscribed(s, a), b) == Unsubscribed(s, a + b)
  {
    hide Unlink;
    forall o | o in s.objs ensures Unlink(Unlink(s.objs[o], a), b) == Unlink(s.objs[o], a + b) {
      UnlinkTwice(s.objs[o], a, b);
    }
    SubtractTwice(s.subs, a, b);
    assert Unlinked(Unlinked(s.objs, a), b) == Unlinked(s.objs, a + b);
  }

  lemma UnsubscribedNone(s: State)
    ensures Unsubscribed(s, {}) == s
  {
    hide Unlink;
    forall o | o in s.objs ensures Unlink(s.objs[o], {}) == s.objs[o] {
      UnlinkNone(s.objs[o], {});
    }
    assert s.subs - {} == s.subs;
    assert Unlinked(s.objs, {}) == s.objs;
  }

  lemma UnregisteredTwice(s: State, a: set<Ref>, b: set<Ref>)
    ensures Unregistered(Unregistered(s, a), b) == Unregistered(s, a + b)
  {
    hide Unhear, Minus;
    forall o | o in s.objs ensures Unhear(Unhear(s.objs[o], a), b) == Unhear(s.objs[o], a + b) {
      UnhearTwice(s.objs[o], a, b);
    }
    MinusTwice(s.patterns, a, b);
    SubtractTwice(s.sources, a, b);
    assert Unheard(Unheard(s.objs, a), b) == Unheard(s.objs, a + b);
  }

  lemma UnregisteredNone(s: State)
    ensures Unregistered(s, {}) == s
  {
    hide Unhear, Minus;
    forall o | o in s.objs ensures Unhear(s.objs[o], {}) == s.objs[o] {
      UnhearNone(s.objs[o], {});
    }
    MinusNone(s.patterns, {});
    assert s.sources - {} == s.sources;
    assert Unheard(s.objs, {}) == s.objs;
  }

  /** What is left of an object that stays */
  lemma WithoutObjs(s: State, gone: set<Ref>)
    ensures Without(s, gone).objs.Keys == s.objs.Keys - gone
    ensures forall o :: o in s.objs && o !in gone ==>
      Without(s, gone).objs[o] == Unhear(Unlink(s.objs[o], SubsOf(s, gone)), SourcesOf(s, gone))
  {
    hide Unhear, Unlink, SubsOf, SourcesOf, Recounted, Only, Disowned;
  }

  lemma WithoutObjsTwice(s: State, a: set<Ref>, b: set<Ref>)
    ensures Without(Without(s, a), b).objs == Without(s, a + b).objs
  {
    hide Unhear, Unlink, SubsOf, SourcesOf, Without;
    var t := Without(s, a);
    WithoutObjs(s, a);
    WithoutObjs(t, b);
    WithoutObjs(s, a + b);
    OfTwice(s, a, b);
    forall o | o in s.objs && o !in a + b ensures Without(t, b).objs[o] == Without(s, a + b).objs[o] {
      UnlinkUnhear(s.objs[o], SubsOf(s, a), SourcesOf(s, a), SubsOf(t, b), SourcesOf(t, b));
    }
  }

  lemma UnlinkUnhear(obj: Obj, x: set<Ref>, e: set<Ref>, y: set<Ref>, f: set<Ref>)
    ensures Unhear(Unlink(Unhear(Unlink(obj, x), e), y), f) == Unhear(Unlink(obj, x + y), e + f)
  {
    UnlinkTwice(obj, x, y);
    UnhearTwice(Unlink(obj, x + y), e, f);
  }

  lemma OfTwice(s: State, a: set<Ref>, b: set<Ref>)
    ensures SubsOf(s, a) + SubsOf(Without(s, a), b) == SubsOf(s, a + b)
    ensures SourcesOf(s, a) + SourcesOf(Without(s, a), b) == SourcesOf(s, a + b)
  {
    hide Unlinked, Unheard, Recounted, Only, Disowned, Minus;
  }

  lemma WithoutFields(s: State, gone: set<Ref>)
    ensures var t := Without(s, gone);
      t.subs == s.subs - SubsOf(s, gone) && t.sources == s.sources - SourcesOf(s, gone)
        && t.patterns == Minus(s.patterns, SourcesOf(s, gone))
    ensures var t := Without(s, gone);
      && t.ids == Only(s.ids, t.objs.Keys) && t.paths == Only(s.paths, t.objs.Keys)
      && t.clients == Disowned(s.clients, gone) && t.clientIds == s.clientIds && t.kinds == Recounted(t.objs, s.kinds)
      && t.kindIds == Only(s.kindIds, t.kinds.Keys)
  {
    hide Unlinked, Unheard, Recounted, Only, Disowned, Minus, SubsOf, SourcesOf;
  }

  lemma OnlyTwice<K>(m: map<K, Ref>, more: set<Ref>, fewer: set<Ref>)
    requires fewer <= more
    ensures Only(Only(m, more), fewer) == Only(m, fewer)
  {
  }

  lemma DisownedTwice(clients: map<Ref, Client>, a: set<Ref>, b: set<Ref>)
    ensures Disowned(Disowned(clients, a), b) == Disowned(clients, a + b)
  {
    forall c | c in clients ensures Minus(Minus(clients[c].objects, a), b) == Minus(clients[c].objects, a + b) {
      MinusTwice(clients[c].objects, a, b);
    }
  }

  lemma RecountedTwice(objs: map<Ref, Obj>, objs': map<Ref, Obj>, kinds: map<Ref, Kind>)
    requires objs'.Keys <= objs.Keys && forall o :: o in objs' ==> objs'[o].kind == objs[o].kind
    ensures Recounted(objs', Recounted(objs, kinds)) == Recounted(objs', kinds)
    ensures Recounted(objs', kinds).Keys <= Recounted(objs, kinds).Keys
  {
    forall k ensures Users(objs', k) <= Users(objs, k) {
    }
  }

  /** What is taken out in two steps can be taken out in one. */
  lemma WithoutTwice(s: State, a: set<Ref>, b: set<Ref>)
    ensures Without(Without(s, a), b) == Without(s, a + b)
  {
    hide Without, Recounted, Only, Disowned, Minus, SubsOf, SourcesOf, Unhear, Unlink;
    var t, u := Without(s, a), Without(s, a + b);
    WithoutFields(s, a);
    WithoutFields(t, b);
    WithoutFields(s, a + b);
    WithoutObjsTwice(s, a, b);
    OfTwice(s, a, b);
    SubtractTwice(s.subs, SubsOf(s, a), SubsOf(t, b));
    SubtractTwice(s.sources, SourcesOf(s, a), SourcesOf(t, b));
    MinusTwice(s.patterns, SourcesOf(s, a), SourcesOf(t, b));
    DisownedTwice(s.clients, a, b);
    KeepsKinds(s, a, b);
    RecountedTwice(t.objs, u.objs, s.kinds);
    OnlyTwice(s.ids, t.objs.Keys, u.objs.Keys);
    OnlyTwice(s.paths, t.objs.Keys, u.objs.Keys);
    OnlyTwice(s.kindIds, t.kinds.Keys, u.kinds.Keys);
  }

  lemma KeepsKinds(s: State, a: set<Ref>, b: set<Ref>)
    ensures var objs, objs' := Without(s, a).objs, Without(s, a + b).objs;
      objs'.Keys <= objs.Keys && forall o :: o in objs' ==> objs'[o].kind == objs[o].kind
  {
    hide Without, Minus;
    WithoutObjs(s, a);
    WithoutObjs(s, a + b);
  }

  lemma OnlyAll<K>(m: map<K, Ref>, live: set<Ref>)
    requires forall i :: i in m ==> m[i] in live
    ensures Only(m, live) == m
  {
  }

  lemma RecountedSame(objs: map<Ref, Obj>, kinds: map<Ref, Kind>)
    requires KindsOk(objs, kinds)
    ensures Recounted(objs, kinds) == kinds
  {
  }

  lemma DisownedNone(clients: map<Ref, Client>, gone: set<Ref>)
    requires forall c :: c in clients ==> forall o :: o in clients[c].objects ==> o !in gone
    ensures Disowned(clients, gone) == clients
  {
    hide Minus;
    forall c | c in clients ensures Minus(clients[c].objects, gone) == clients[c].objects {
      MinusNone(clients[c].objects, gone);
    }
  }

  lemma WithoutNoneObjs(s: State)
    ensures Without(s, {}).objs == s.objs && SubsOf(s, {}) == {} && SourcesOf(s, {}) == {}
  {
    hide Without, Minus, Unhear, Unlink;
    WithoutObjs(s, {});
    forall o | o in s.objs ensures Unhear(Unlink(s.objs[o], {}), {}) == s.objs[o] {
      UnlinkNone(s.objs[o], {});
      UnhearNone(s.objs[o], {});
    }
    assert SubsOf(s, {}) == {} && SourcesOf(s, {}) == {};
    assert Without(s, {}).objs == s.objs;
  }

  lemma WithoutNone(s: State)
    requires Inv(s)
    ensures Without(s, {}) == s
  {
    hide Without, Minus, SubsOf, SourcesOf, Only, Recounted, Disowned, SubsOk, ListsOk, EventsOk, SourcesOk, OwnersOk,
      PatternsOk;
    WithoutNoneObjs(s);
    WithoutFields(s, {});
    MinusNone(s.patterns, {});
    DisownedNone(s.clients, {});
    RecountedSame(s.objs, s.kinds);
    OnlyAll(s.ids, s.objs.Keys);
    OnlyAll(s.paths, s.objs.Keys);
    OnlyAll(s.kindIds, s.kinds.Keys);
    assert s.subs - {} == s.subs && s.sources - {} == s.sources;
  }

  // ---------- single steps, in place

  /** An unlinked subscription: only two objects change. */
  lemma UnlinkedOne(objs: map<Ref, Obj>, subs: map<Ref, Sub>, x: Ref)
    requires SubsOk(objs, subs) && ListsOk(objs, subs) && x in subs
    ensures var (a, b) := (subs[x].subscriber, subs[x].target);
      a != b && Unlinked(objs, {x}) == objs[b := objs[b].(subscribers := Minus(objs[b].subscribers, {x}))]
        [a := objs[a].(targets := Minus(objs[a].targets, {x}))]
  {
    hide Minus, Distinct;
    var (a, b) := (subs[x].subscriber, subs[x].target);
    forall o | o in objs
      ensures o != a ==> Minus(objs[o].targets, {x}) == objs[o].targets
      ensures o != b ==> Minus(objs[o].subscribers, {x}) == objs[o].subscribers
    {
      if o != a { MinusNone(objs[o].targets, {x}); }
      if o != b { MinusNone(objs[o].subscribers, {x}); }
    }
  }

  /** An unregistered pattern: only its object changes. */
  lemma UnheardOne(objs: map<Ref, Obj>, sources: map<Ref, Source>, e: Ref)
    requires SourcesOk(objs, sources) && EventsOk(objs, sources) && e in sources
    ensures var o := sources[e].obj;
      Unheard(objs, {e}) == objs[o := objs[o].(events := Minus(objs[o].events, {e}))]
  {
    hide Minus, Distinct;
    forall o | o in objs && o != sources[e].obj ensures Minus(objs[o].events, {e}) == objs[o].events {
      MinusNone(objs[o].events, {e});
    }
  }

  /** A reference to a type is given up. */
  function Unref(kinds: map<Ref, Kind>, k: Ref): map<Ref, Kind>
    requires k in kinds
  {
    if kinds[k].refcount - 1 > 0 then kinds[k := kinds[k].(refcount := kinds[k].refcount - 1)] else kinds - {k}
  }

  lemma UsersWithout(objs: map<Ref, Obj>, o: Ref, k: Ref)
    requires o in objs
    ensures Users(objs - {o}, k) == Users(objs, k) - {o}
    ensures |Users(objs - {o}, k)| == |Users(objs, k)| - (if objs[o].kind == Some(k) then 1 else 0)
  {
    assert Users(objs - {o}, k) == Users(objs, k) - {o};
  }

  lemma RecountedOne(objs: map<Ref, Obj>, kinds: map<Ref, Kind>, o: Ref)
    requires KindsOk(objs, kinds) && o in objs
    ensures Recounted(objs - {o}, kinds) == if objs[o].kind.Some? then Unref(kinds, objs[o].kind.value) else kinds
  {
    hide Users;
    var left := if objs[o].kind.Some? then Unref(kinds, objs[o].kind.value) else kinds;
    forall k | k in kinds
      ensures k in Recounted(objs - {o}, kinds) <==> k in left
      ensures k in left ==> Recounted(objs - {o}, kinds)[k] == left[k]
    {
      UsersWithout(objs, o, k);
    }
  }

  lemma OnlyOne<K>(m: map<K, Ref>, live: set<Ref>, i: K, o: Ref)
    requires i in m && m[i] == o && o !in live && forall j :: j in m && j != i ==> m[j] in live
    ensures Only(m, live) == m - {i}
  {
  }

  /** The object in the list of its owner, if it has one */
  lemma DisownedOne(objs: map<Ref, Obj>, clients: map<Ref, Client>, o: Ref)
    requires OwnersOk(objs, clients) && o in objs
    ensures Disowned(clients, {o}) ==
      match objs[o].client
      case None => clients
      case Some(c) => clients[c := clients[c].(objects := Minus(clients[c].objects, {o}))]
  {
    hide Minus, Distinct;
    forall c | c in clients && objs[o].client != Some(c) ensures Minus(clients[c].objects, {o}) == clients[c].objects {
      MinusNone(clients[c].objects, {o});
    }
  }

  lemma IdsWithout(s: State, o: Ref)
    requires IdsOk(s.objs, s.ids) && o in s.objs
    ensures Only(s.ids, (s.objs - {o}).Keys) == s.ids - {s.objs[o].id}
  {
    OnlyOne(s.ids, (s.objs - {o}).Keys, s.objs[o].id, o);
  }

  lemma PathsWithout(s: State, o: Ref)
    requires PathsOk(s.objs, s.paths) && o in s.objs
    ensures Only(s.paths, (s.objs - {o}).Keys)
        == if s.objs[o].path.Some? then s.paths - {s.objs[o].path.value} else s.paths
  {
    if s.objs[o].path.Some? {
      OnlyOne(s.paths, (s.objs - {o}).Keys, s.objs[o].path.value, o);
    } else {
      OnlyAll(s.paths, (s.objs - {o}).Keys);
    }
  }

  lemma KindIdsWithout(kinds: map<Ref, Kind>, kindIds: map<nat, Ref>, k: Ref)
    requires KindIdsOk(kinds, kindIds) && k in kinds
    ensures Only(kindIds, Unref(kinds, k).Keys) == if k in Unref(kinds, k) then kindIds else kindIds - {kinds[k].id}
  {
    if k in Unref(kinds, k) {
      OnlyAll(kindIds, Unref(kinds, k).Keys);
    } else {
      OnlyOne(kindIds, Unref(kinds, k).Keys, kinds[k].id, k);
    }
  }

  lemma KindIdsAll(kinds: map<Ref, Kind>, kindIds: map<nat, Ref>)
    requires KindIdsOk(kinds, kindIds)
    ensures Only(kindIds, kinds.Keys) == kindIds
  {
  }

  function PathsLess(paths: map<string, Ref>, path: Option<string>): map<string, Ref> {
    if path.Some? then paths - {path.value} else paths
  }

  function ClientsLess(clients: map<Ref, Client>, client: Option<Ref>, o: Ref): map<Ref, Client> {
    if client.Some? && client.value in clients then
      clients[client.value := clients[client.value].(objects := Minus(clients[client.value].objects, {o}))]
    else clients
  }

  function KindsLess(kinds: map<Ref, Kind>, kind: Option<Ref>): map<Ref, Kind> {
    if kind.Some? && kind.value in kinds then Unref(kinds, kind.value) else kinds
  }

  function KindIdsLess(kinds: map<Ref, Kind>, kindIds: map<nat, Ref>, kind: Option<Ref>): map<nat, Ref> {
    if kind.Some? && kind.value in kinds && kind.value !in Unref(kinds, kind.value) then
      kindIds - {kinds[kind.value].id}
    else kindIds
  }

  /** The end of ubusd_free_object: the path, the list of the client, the number, the type and the object itself */
  function Freed(s: State, o: Ref): State
    requires o in s.objs
  {
    var obj := s.objs[o];
    s.(paths := PathsLess(s.paths, obj.path), clients := ClientsLess(s.clients, obj.client, o), ids := s.ids - {obj.id},
      kinds := KindsLess(s.kinds, obj.kind), kindIds := KindIdsLess(s.kinds, s.kindIds, obj.kind), objs := s.objs - {o})
  }

  /** What is referred to is there. */
  predicate PointsOk(s: State, o: Ref)
    requires o in s.objs
  {
    (s.objs[o].kind.Some? ==> s.objs[o].kind.value in s.kinds)
      && (s.objs[o].client.Some? ==> s.objs[o].client.value in s.clients)
  }

  lemma Pointers(s: State, o: Ref)
    requires Inv(s) && o in s.objs
    ensures PointsOk(s, o)
  {
    hide IdsOk, PathsOk, PatternsOk, KindIdsOk, ClientIdsOk, SubsOk, ListsOk, EventsOk, SourcesOk, Distinct;
  }

  lemma KindsWithout(s: State, o: Ref)
    requires KindsOk(s.objs, s.kinds) && KindIdsOk(s.kinds, s.kindIds) && o in s.objs
    ensures var kinds := Recounted(s.objs - {o}, s.kinds);
      kinds == KindsLess(s.kinds, s.objs[o].kind)
        && Only(s.kindIds, kinds.Keys) == KindIdsLess(s.kinds, s.kindIds, s.objs[o].kind)
  {
    hide Recounted, Only, Unref, Users, KindIdsOk;
    RecountedOne(s.objs, s.kinds, o);
    if s.objs[o].kind.Some? {
      KindIdsWithout(s.kinds, s.kindIds, s.objs[o].kind.value);
    } else {
      KindIdsAll(s.kinds, s.kindIds);
    }
  }

  lemma ClientsWithout(s: State, o: Ref)
    requires OwnersOk(s.objs, s.clients) && o in s.objs
    ensures Disowned(s.clients, {o}) == ClientsLess(s.clients, s.objs[o].client, o)
  {
    DisownedOne(s.objs, s.clients, o);
  }

  lemma DiscardedOne(s: State, o: Ref)
    requires Inv(s) && o in s.objs
    ensures Discarded(s, {o}) == Freed(s, o)
  {
    hide Only, Recounted, Disowned, Minus, SubsOk, ListsOk, EventsOk, SourcesOk, PatternsOk, IdsOk, PathsOk, KindIdsOk,
      KindsOk, OwnersOk, KindsLess, KindIdsLess, ClientsLess;
    KindsWithout(s, o);
    ClientsWithout(s, o);
    IdsWithout(s, o);
    PathsWithout(s, o);
  }
}
