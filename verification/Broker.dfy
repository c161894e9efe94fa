/** The requests of clients that change the object graph: ubus/ubusd_obj.c, and their handlers in ubus/ubusd_proto.c and
    ubus/ubusd_event.c. */
module Broker {
  import opened JsonValue
  import opened Lists
  import opened Strings
  import EventScan
  import opened BrokerGraph
  import opened BrokerSteps

  datatype Status = Done | InvalidArgument | NotFound | PermissionDenied

  /** How a request ends: with a status, or in the use of a pointer to nothing, or of memory behind an allocation */
  datatype Outcome = Replied(status: Status) | Fault

  /** Messages to the owners of objects, and the events for those who watch paths */
  datatype Notice = Active(obj: Ref, active: bool) | Ended(subscriber: Ref, target: Ref) | Listed(obj: Ref, added: bool)

  /** What the owner of an object has been told last */
  function LastTold(sent: seq<Notice>, o: Ref): bool {
    if sent == [] then false
    else
      var m := sent[|sent|-1];
      if m.Active? && m.obj == o then m.active else LastTold(sent[..|sent|-1], o)
  }

  /** No notice repeats the one before. */
  ghost predicate NoRepeats(sent: seq<Notice>, next: Ref) {
    forall i :: 0 <= i < |sent| && sent[i].Active? ==>
      sent[i].obj < next && sent[i].active != LastTold(sent[..i], sent[i].obj)
  }

  /** Every owner knows which of its objects have subscribers. */
  ghost predicate Told(objs: map<Ref, Obj>, sent: seq<Notice>) {
    forall o :: o in objs ==> LastTold(sent, o) == (objs[o].subscribers != [])
  }

  lemma OneMore(sent: seq<Notice>, m: Notice, next: Ref)
    requires NoRepeats(sent, next) && (m.Active? ==> m.obj < next && m.active != LastTold(sent, m.obj))
    ensures NoRepeats(sent + [m], next)
    ensures forall o :: LastTold(sent + [m], o) == if m.Active? && m.obj == o then m.active else LastTold(sent, o)
  {
    var more := sent + [m];
    assert more[..|sent|] == sent;
    forall i | 0 <= i < |more| && more[i].Active? ensures more[i].obj < next
      && more[i].active != LastTold(more[..i], more[i].obj) {
      if i < |sent| { assert more[..i] == sent[..i]; }
    }
  }

  lemma {:induction false} NeverTold(sent: seq<Notice>, next: Ref, o: Ref)
    requires NoRepeats(sent, next) && o >= next
    ensures !LastTold(sent, o)
  {
    if sent != [] {
      var less := sent[..|sent|-1];
      forall i | 0 <= i < |less| ensures less[..i] == sent[..i] {
      }
      NeverTold(less, next, o);
    }
  }

  /** The subscribers that were told that their target is gone */
  function Goodbyes(sent: seq<Notice>): seq<Sub> {
    if sent == [] then []
    else
      var m := sent[|sent|-1];
      Goodbyes(sent[..|sent|-1]) + (if m.Ended? then [Sub(m.subscriber, m.target)] else [])
  }

  lemma OneGoodbye(sent: seq<Notice>, m: Notice)
    ensures Goodbyes(sent + [m]) == Goodbyes(sent) + (if m.Ended? then [Sub(m.subscriber, m.target)] else [])
  {
    assert (sent + [m])[..|sent|] == sent;
  }

  /** Facts about a subscription */
  lemma SubFacts(s: State, x: Ref)
    requires Inv(s) && x in s.subs
    ensures var (a, b) := (s.subs[x].subscriber, s.subs[x].target);
      a != b && a in s.objs && b in s.objs && s.objs[b].client.Some? && x in s.objs[b].subscribers
  {
  }

  lemma UnlinkedInPlace(s: State, x: Ref)
    requires Inv(s) && x in s.subs
    ensures var (a, b) := (s.subs[x].subscriber, s.subs[x].target);
      && a in s.objs && b in s.objs
      && Unlinked(s.objs, {x}) == s.objs[b := s.objs[b].(subscribers := Minus(s.objs[b].subscribers, {x}))]
                                        [a := s.objs[a].(targets := Minus(s.objs[a].targets, {x}))]
  {
    hide IdsOk, PathsOk, KindsOk, OwnersOk, PatternsOk, KindIdsOk, ClientIdsOk, SourcesOk, EventsOk;
    UnlinkedOne(s.objs, s.subs, x);
  }

  lemma StartOk()
    ensures Inv(State(map[0 := Obj(1, None, None, None, [], [], [])], map[], map[], map[], map[], map[1 := 0],
                      map[], map[], map[], []))
  {
  }

  lemma TellUnlinked(objs: map<Ref, Obj>, sent: seq<Notice>, next: Ref, x: Ref, b: Ref)
    requires Told(objs, sent) && NoRepeats(sent, next) && b in objs && b < next && x in objs[b].subscribers
    requires forall o :: o in objs && o != b ==> x !in objs[o].subscribers
    ensures var objs' := Unlinked(objs, {x});
      b in objs' && if objs'[b].subscribers == [] then
        Told(objs', sent + [Active(b, false)]) && NoRepeats(sent + [Active(b, false)], next)
      else Told(objs', sent)
  {
    hide Minus, LastTold, NoRepeats;
    forall o | o in objs && o != b ensures Minus(objs[o].subscribers, {x}) == objs[o].subscribers {
      MinusNone(objs[o].subscribers, {x});
    }
    if Minus(objs[b].subscribers, {x}) == [] {
      OneMore(sent, Active(b, false), next);
    }
  }

  lemma EarlierUnsubscribed(s: State, gone: set<Ref>, next: Ref)
    requires Before(s, next)
    ensures Before(Unsubscribed(s, gone), next) && forall o :: o in s.objs ==> o < next
  {
  }

  lemma OnlyThere(s: State, x: Ref)
    requires Inv(s) && x in s.subs
    ensures forall o :: o in s.objs && o != s.subs[x].target ==> x !in s.objs[o].subscribers
  {
  }

  /** What holds between two requests */
  ghost predicate Good(s: State, sent: seq<Notice>, next: Ref) {
    Inv(s) && Before(s, next) && Told(s.objs, sent) && NoRepeats(sent, next)
  }

  lemma UnsubscribeOne(s: State, sent: seq<Notice>, next: Ref, x: Ref)
    requires Good(s, sent, next) && x in s.subs
    ensures var (t, a, b) := (Unsubscribed(s, {x}), s.subs[x].subscriber, s.subs[x].target);
      && a in s.objs && b in s.objs && a != b && s.objs[b].client.Some?
      && t == s.(subs := s.subs - {x},
                 objs := s.objs[b := s.objs[b].(subscribers := Minus(s.objs[b].subscribers, {x}))]
                               [a := s.objs[a].(targets := Minus(s.objs[a].targets, {x}))])
      && Good(t, if Minus(s.objs[b].subscribers, {x}) == [] then sent + [Active(b, false)] else sent, next)
  {
    hide Inv, Before, Told, NoRepeats, Minus, Unlinked;
    SubFacts(s, x);
    UnlinkedInPlace(s, x);
    UnsubscribedOk(s, {x});
    OnlyThere(s, x);
    EarlierUnsubscribed(s, {x}, next);
    TellUnlinked(s.objs, sent, next, x, s.subs[x].target);
  }

  lemma GoodMore(s: State, sent: seq<Notice>, m: Notice, next: Ref)
    requires Good(s, sent, next) && !m.Active?
    ensures Good(s, sent + [m], next)
  {
    hide Inv, Before, NoRepeats, LastTold;
    OneMore(sent, m, next);
  }

  lemma UnregisterOne(s: State, sent: seq<Notice>, next: Ref, e: Ref)
    requires Good(s, sent, next) && e in s.sources
    ensures var (t, o) := (Unregistered(s, {e}), s.sources[e].obj);
      && o in s.objs && Good(t, sent, next)
      && t == s.(sources := s.sources - {e}, patterns := Minus(s.patterns, {e}),
                 objs := s.objs[o := s.objs[o].(events := Minus(s.objs[o].events, {e}))])
  {
    hide IdsOk, PathsOk, KindsOk, OwnersOk, PatternsOk, KindIdsOk, ClientIdsOk, SubsOk, ListsOk, EventsOk, Minus,
      Unheard, NoRepeats, LastTold;
    UnregisteredOk(s, {e});
    UnheardOne(s.objs, s.sources, e);
    UnheardFace(s.objs, {e});
  }

  /** The lists of an object name live subscriptions, each once. */
  lemma KnownSubs(s: State, sent: seq<Notice>, next: Ref, o: Ref)
    requires Good(s, sent, next) && o in s.objs
    ensures Distinct(s.objs[o].targets) && forall x :: x in s.objs[o].targets ==> x in s.subs
    ensures Distinct(s.objs[o].subscribers) && forall x :: x in s.objs[o].subscribers ==> x in s.subs
  {
  }

  lemma KnownEvents(s: State, sent: seq<Notice>, next: Ref, o: Ref)
    requires Good(s, sent, next) && o in s.objs
    ensures Distinct(s.objs[o].events) && forall e :: e in s.objs[o].events ==> e in s.sources
  {
  }

  lemma NextElement(list: seq<Ref>, i: nat)
    requires Distinct(list) && i < |list|
    ensures list[i] !in list[..i] && Elements(list[..i+1]) == Elements(list[..i]) + {list[i]}
  {
  }

  lemma NextSub(s: State, list: seq<Ref>, i: nat)
    requires Distinct(list) && i < |list| && list[i] in s.subs
    ensures list[i] in Unsubscribed(s, Elements(list[..i])).subs
    ensures Unsubscribed(s, Elements(list[..i])).subs[list[i]] == s.subs[list[i]]
    ensures Unsubscribed(Unsubscribed(s, Elements(list[..i])), {list[i]}) == Unsubscribed(s, Elements(list[..i+1]))
  {
    hide Distinct, Unlinked;
    NextElement(list, i);
    UnsubscribedTwice(s, Elements(list[..i]), {list[i]});
  }

  /** The subscriptions in a list */
  function Named(subs: map<Ref, Sub>, list: seq<Ref>): seq<Sub>
    requires forall x :: x in list ==> x in subs
  {
    seq(|list|, i requires 0 <= i < |list| => assert list[i] in list; subs[list[i]])
  }

  lemma NextNamed(subs: map<Ref, Sub>, list: seq<Ref>, i: nat)
    requires i < |list| && forall x :: x in list ==> x in subs
    ensures Named(subs, list[..i+1]) == Named(subs, list[..i]) + [subs[list[i]]]
  {
  }

  lemma NextEvent(s: State, o: Ref, i: nat)
    requires o in s.objs && Distinct(s.objs[o].events) && i < |s.objs[o].events|
      && forall e :: e in s.objs[o].events ==> e in s.sources
    ensures var list := s.objs[o].events;
      && list[i] in Unregistered(s, Elements(list[..i])).sources
      && Unregistered(Unregistered(s, Elements(list[..i])), {list[i]}) == Unregistered(s, Elements(list[..i+1]))
      && o in Unregistered(s, Elements(list[..i+1])).objs
      && Unregistered(s, Elements(list[..i+1])).objs[o].events == list[i+1..]
  {
    hide Distinct, Minus;
    var list := s.objs[o].events;
    NextElement(list, i);
    UnregisteredTwice(s, Elements(list[..i]), {list[i]});
    MinusPrefix(list, i + 1);
  }

  lemma AllSubs(s: State, o: Ref)
    requires Inv(s) && o in s.objs
    ensures var obj := s.objs[o];
      && Elements(obj.targets) + Elements(obj.subscribers) == SubsOf(s, {o})
      && Elements(obj.events) == SourcesOf(s, {o})
      && (forall x :: x in obj.subscribers ==> x in s.subs && x !in Elements(obj.targets))
  {
    hide IdsOk, PathsOk, KindsOk, OwnersOk, PatternsOk, KindIdsOk, ClientIdsOk, Distinct;
  }

  /** The three loops of ubusd_free_object take out all that has to do with the object. */
  lemma FreeSteps(s: State, sent: seq<Notice>, next: Ref, o: Ref)
    requires Good(s, sent, next) && o in s.objs
    ensures var s1 := Unsubscribed(s, Elements(s.objs[o].targets));
      && o in s1.objs && s1.objs[o].subscribers == s.objs[o].subscribers
      && (forall x :: x in s.objs[o].subscribers ==> x in s.subs && x in s1.subs)
      && Named(s1.subs, s.objs[o].subscribers) == Named(s.subs, s.objs[o].subscribers)
      && var s2 := Unsubscribed(s1, Elements(s.objs[o].subscribers));
         && o in s2.objs
         && var s3 := Unregistered(s2, Elements(s2.objs[o].events));
            o in s3.objs && SubsOf(s3, {o}) == {} && SourcesOf(s3, {o}) == {} && Without(s, {o}) == Discarded(s3, {o})
  {
    hide Minus, Unheard, Discarded, Inv, SubsOf, SourcesOf;
    var (a, b) := (Elements(s.objs[o].targets), Elements(s.objs[o].subscribers));
    AllSubs(s, o);
    MinusNone(s.objs[o].subscribers, a);
    UnsubscribedTwice(s, a, b);
    WithoutIs(s, {o});
    NoneOf(s, {o});
    UnheardFace(Unsubscribed(s, a + b).objs, SourcesOf(s, {o}));
  }

  lemma DiscardGood(s: State, sent: seq<Notice>, next: Ref, o: Ref)
    requires Good(s, sent, next) && o in s.objs && SubsOf(s, {o}) == {} && SourcesOf(s, {o}) == {}
    ensures Good(Discarded(s, {o}), sent, next) && PointsOk(s, o) && Discarded(s, {o}) == Freed(s, o)
  {
    hide Inv, Discarded, Freed, Told, Before, NoRepeats, SubsOf, SourcesOf, PointsOk;
    Pointers(s, o);
    DiscardedOne(s, o);
    DiscardedStays(s, sent, next, {o});
  }

  lemma DiscardedStays(s: State, sent: seq<Notice>, next: Ref, gone: set<Ref>)
    requires Good(s, sent, next) && SubsOf(s, gone) == {} && SourcesOf(s, gone) == {}
    ensures Good(Discarded(s, gone), sent, next)
  {
    hide Inv, Only, SubsOf, SourcesOf, NoRepeats, LastTold, Minus, Recounted;
    DiscardedOk(s, gone);
    RecountedKeys(s.objs - gone, s.kinds);
  }

  /** A reference to a type is given up, and with the last one the type. */
  function Released(s: State, k: Ref): State
    requires k in s.kinds
  {
    s.(kinds := KindsLess(s.kinds, Some(k)), kindIds := KindIdsLess(s.kinds, s.kindIds, Some(k)))
  }

  lemma UpdatedAndRemoved(kinds: map<Ref, Kind>, k: Ref, kind: Kind)
    ensures kinds[k := kind] - {k} == kinds - {k}
  {
  }

  lemma MadeAndReleased(s: State, k: Ref, id: nat)
    requires k !in s.kinds && id !in s.kindIds
    ensures Released(Picked(s, Made(k, id)), k) == s
  {
    var t := Picked(s, Made(k, id));
    assert Unref(t.kinds, k) == s.kinds && t.kindIds - {id} == s.kindIds;
  }

  /** A new object that has no owner and no path, and a reference to a type */
  function Bare(s: State, o: Ref, id: nat, kind: Option<Ref>): State
    requires kind.Some? ==> kind.value in s.kinds
  {
    s.(objs := s.objs[o := Obj(id, None, kind, None, [], [], [])], ids := s.ids[id := o],
       kinds := if kind.Some? then
                  s.kinds[kind.value := s.kinds[kind.value].(refcount := s.kinds[kind.value].refcount + 1)]
                else s.kinds)
  }

  /** The type of a new object, if one at address k can be made */
  function Choose(s: State, objtype: Option<nat>, signature: Option<bool>, kindNumbers: seq<nat>, k: Ref): Pick {
    if objtype.Some? then (if objtype.value in s.kindIds then Known(s.kindIds[objtype.value]) else NoKind)
    else if signature == Some(true) then
      match FirstFree(s.kindIds, kindNumbers)
      case Some(id) => Made(k, id)
      case None => NoKind
    else NoKind
  }

  lemma CreateFacts(s: State, sent: seq<Notice>, next: Ref)
    requires Good(s, sent, next)
    ensures next !in s.kinds && forall o :: o in s.objs ==> o < next
    ensures (forall i :: i in s.kindIds ==> s.kindIds[i] in s.kinds) && forall k :: k in s.kinds ==>
      s.kinds[k].refcount > 0
  {
  }

  /** The reference that is held while an object is made is given up again. */
  lemma KindSteps(s: State, pick: Pick, o: Ref, id: nat)
    requires Picks(s, pick) && (forall i :: i in s.kindIds ==> s.kindIds[i] in s.kinds)
      && (forall k :: k in s.kinds ==> s.kinds[k].refcount > 0)
    ensures var t := Picked(s, pick);
      if pick.NoKind? then t == s && Bare(t, o, id, None) == Added(s, o, id, pick, None, None)
      else
        (pick.k in t.kinds && Released(t, pick.k) == s && pick.k in Bare(t, o, id, Some(pick.k)).kinds
         && Released(Bare(t, o, id, Some(pick.k)), pick.k) == Added(s, o, id, pick, None, None))
  {
    match pick
    case NoKind =>
    case Known(k) =>
      assert Unref(Picked(s, pick).kinds, k) == s.kinds;
    case Made(k, i) =>
      assert Unref(Picked(s, pick).kinds, k) == s.kinds && Picked(s, pick).kindIds - {i} == s.kindIds;
  }

  lemma PickedIds(s: State, pick: Pick)
    requires Picks(s, pick)
    ensures Picked(s, pick).ids == s.ids
  {
  }

  lemma LaterGood(s: State, sent: seq<Notice>, next: Ref, later: Ref)
    requires Good(s, sent, next) && next <= later
    ensures Good(s, sent, later)
  {
    hide Inv;
  }

  lemma BareGood(s: State, sent: seq<Notice>, next: Ref, later: Ref, o: Ref, id: nat, pick: Pick)
    requires Good(s, sent, next) && Picks(s, pick) && next <= o < later && id !in s.ids
      && (pick.Made? ==> pick.k < later)
    ensures Good(Added(s, o, id, pick, None, None), sent, later)
  {
    hide Inv;
    AddedOk(s, o, id, pick, None, None);
    NeverTold(sent, next, o);
  }

  /** An object gets its path and its owner after it is made. */
  lemma AddedParts(s: State, o: Ref, id: nat, pick: Pick, path: Option<string>, cl: Ref)
    requires Picks(s, pick) && cl in s.clients
    ensures var t := Added(s, o, id, pick, None, None);
      && t.paths == s.paths && t.clients == s.clients && o in t.objs && t.objs[o].path == None
      && Added(s, o, id, pick, path, Some(cl))
           == t.(objs := t.objs[o := t.objs[o].(path := path, client := Some(cl))],
                paths := if path.Some? then t.paths[path.value := o] else t.paths,
                clients := t.clients[cl := t.clients[cl].(objects := [o] + t.clients[cl].objects)])
  {
  }

  lemma UpdatedTwice(objs: map<Ref, Obj>, o: Ref, a: Obj, b: Obj)
    ensures objs[o := a][o := b] == objs[o := b]
  {
  }

  lemma AddedGood(s: State, sent: seq<Notice>, from: Ref, next: Ref, o: Ref, id: nat, pick: Pick, path: Option<string>,
      cl: Ref)
    requires Good(s, sent, from) && Picks(s, pick) && o !in s.objs && id !in s.ids && cl in s.clients
    requires Good(Added(s, o, id, pick, None, None), sent, next)
    ensures Without(Added(s, o, id, pick, None, None), {o}) == s
    ensures path.None? || path.value !in s.paths ==>
      Good(Added(s, o, id, pick, path, Some(cl)), if path.Some? then sent + [Listed(o, true)] else sent, next)
  {
    hide Inv, Without, NoRepeats, Told, Before, Added;
    AddedAndFreed(s, o, id, pick);
    if path.None? || path.value !in s.paths {
      AddedOk(s, o, id, pick, path, Some(cl));
      AddedTold(s, sent, next, o, id, pick, path, cl);
    }
  }

  lemma AddedTold(s: State, sent: seq<Notice>, next: Ref, o: Ref, id: nat, pick: Pick, path: Option<string>, cl: Ref)
    requires Picks(s, pick) && cl in s.clients
    requires var t := Added(s, o, id, pick, None, None); Told(t.objs, sent) && Before(t, next) && NoRepeats(sent, next)
    ensures var t, more := Added(s, o, id, pick, path, Some(cl)), if path.Some? then sent + [Listed(o, true)] else sent;
      Told(t.objs, more) && Before(t, next) && NoRepeats(more, next)
  {
    hide Picked, NoRepeats, LastTold;
    OneMore(sent, Listed(o, true), next);
  }

  lemma SubscribedGood(s: State, sent: seq<Notice>, next: Ref, obj: Ref, target: Ref)
    requires Good(s, sent, next) && obj in s.objs && target in s.objs
    requires s.objs[obj].client.Some? && s.objs[target].client.Some? && s.objs[obj].client != s.objs[target].client
    ensures next !in s.subs
      && var t := Subscribed(s, next, obj, target);
         && Good(t, if s.objs[target].subscribers == [] then sent + [Active(target, true)] else sent, next + 1)
         && t.objs[target].subscribers != []
  {
    hide Inv, NoRepeats, LastTold;
    SubscribedOk(s, next, obj, target);
    Patient(sent, next);
    if s.objs[target].subscribers == [] {
      OneMore(sent, Active(target, true), next + 1);
    }
  }

  lemma Patient(sent: seq<Notice>, next: Ref)
    requires NoRepeats(sent, next)
    ensures NoRepeats(sent, next + 1)
  {
    hide LastTold;
  }

  lemma RegisteredGood(s: State, sent: seq<Notice>, next: Ref, o: Ref, key: string, partial: bool)
    requires Good(s, sent, next) && o in s.objs && s.objs[o].client.Some? && s.objs[o].id >= SYSTEM_OBJECT_MAX
      && IsCString(key)
    ensures next !in s.sources && (forall f :: f in s.patterns ==> f in s.sources)
      && Good(Registered(s, next, o, key, partial), sent, next + 1)
  {
    hide IdsOk, PathsOk, KindsOk, OwnersOk, PatternsOk, KindIdsOk, ClientIdsOk, SubsOk, ListsOk, SourcesOk, EventsOk,
      NoRepeats, LastTold;
    KnownPatterns(s);
    RegisteredOk(s, next, o, key, partial);
    Patient(sent, next);
  }

  lemma ConnectedGood(s: State, sent: seq<Notice>, next: Ref, id: nat)
    requires Good(s, sent, next) && id !in s.clientIds
    ensures next !in s.clients
      && Good(s.(clients := s.clients[next := Client(id, [])], clientIds := s.clientIds[id := next]), sent, next + 1)
  {
    hide IdsOk, PathsOk, KindsOk, PatternsOk, KindIdsOk, SubsOk, ListsOk, SourcesOk, EventsOk, NoRepeats, LastTold;
    Patient(sent, next);
  }

  lemma OwnedFacts(s: State, sent: seq<Notice>, next: Ref, c: Ref)
    requires Good(s, sent, next) && c in s.clients
    ensures Without(s, {}) == s && Distinct(s.clients[c].objects) && forall o :: o in s.clients[c].objects ==>
      o in s.objs
  {
    hide IdsOk, PathsOk, KindsOk, PatternsOk, KindIdsOk, ClientIdsOk, SubsOk, ListsOk, SourcesOk, EventsOk, Distinct,
      Without;
    WithoutNone(s);
  }

  lemma NextOwned(s: State, c: Ref, i: nat)
    requires c in s.clients && Distinct(s.clients[c].objects) && i < |s.clients[c].objects|
    requires forall o :: o in s.clients[c].objects ==> o in s.objs
    ensures var list := s.clients[c].objects;
      && list[i] in Without(s, Elements(list[..i])).objs
      && Without(Without(s, Elements(list[..i])), {list[i]}) == Without(s, Elements(list[..i+1]))
      && c in Without(s, Elements(list[..i+1])).clients
      && Without(s, Elements(list[..i+1])).clients[c].objects == list[i+1..]
  {
    hide Distinct, Minus, Without, Unhear, Unlink, Recounted, Only;
    var list := s.clients[c].objects;
    NextElement(list, i);
    WithoutTwice(s, Elements(list[..i]), {list[i]});
    WithoutObjs(s, Elements(list[..i]));
    WithoutFields(s, Elements(list[..i+1]));
    MinusPrefix(list, i + 1);
  }

  lemma GoodIs(s: State, sent: seq<Notice>, next: Ref)
    requires Good(s, sent, next)
    ensures Inv(s)
  {
  }

  /** A client that owns nothing can go. */
  lemma ClientGone(t: State, c: Ref)
    requires Inv(t) && c in t.clients && t.clients[c].objects == []
    ensures Inv(t.(clients := t.clients - {c}, clientIds := t.clientIds - {t.clients[c].id}))
    ensures Only(t.clientIds, t.clients.Keys - {c}) == t.clientIds - {t.clients[c].id}
  {
    hide IdsOk, PathsOk, KindsOk, PatternsOk, KindIdsOk, SubsOk, ListsOk, SourcesOk, EventsOk, Distinct, Only;
    OnlyOne(t.clientIds, t.clients.Keys - {c}, t.clients[c].id, c);
  }

  lemma LeaveOk(s: State, c: Ref)
    requires Inv(s) && c in s.clients
    ensures var t := Without(s, Elements(s.clients[c].objects));
      && c in t.clients && t.clients[c].id == s.clients[c].id && Inv(Disconnected(s, c))
      && Disconnected(s, c) == t.(clients := t.clients - {c}, clientIds := t.clientIds - {t.clients[c].id})
  {
    hide Inv, Distinct, Without, Only, Minus, Recounted;
    var gone := Elements(s.clients[c].objects);
    WithoutOk(s, gone);
    WithoutFields(s, gone);
    MinusAll(s.clients[c].objects, gone);
    ClientGone(Without(s, gone), c);
  }

  lemma LeaveGood(s: State, t: State, sent: seq<Notice>, next: Ref, c: Ref)
    requires Inv(s) && Good(t, sent, next) && c in s.clients && t == Without(s, Elements(s.clients[c].objects))
    ensures c in t.clients && Good(Disconnected(s, c), sent, next)
    ensures Disconnected(s, c) == t.(clients := t.clients - {c}, clientIds := t.clientIds - {t.clients[c].id})
  {
    hide Inv, NoRepeats, LastTold, Distinct, Without, Disconnected;
    LeaveOk(s, c);
  }

  class Broker {
    /** The trees and lists of the daemon */
    var g: State
    /** The next address */
    var next: Ref
    var sent: seq<Notice>

    ghost predicate Valid()
      reads this
    {
      Good(g, sent, next)
    }

    /** ubusd_event_init: at first there is only the system's object for events. */
    constructor ()
      ensures Valid() && g.clients == map[] && g.objs == map[0 := Obj(1, None, None, None, [], [], [])]
    {
      StartOk();
      g := State(map[0 := Obj(1, None, None, None, [], [], [])], map[], map[], map[], map[], map[1 := 0], map[], map[],
        map[], []);
      next, sent := 1, [];
    }

    method Send(m: Notice)
      modifies this`sent
      ensures sent == old(sent) + [m]
    {
      sent := sent + [m];
    }

    /** ubus_notify_subscription: the owner, which must be there, is told whether the object has subscribers. */
    method NotifySubscription(o: Ref)
      requires o in g.objs && g.objs[o].client.Some?
      modifies this`sent
      ensures sent == old(sent) + [Active(o, g.objs[o].subscribers != [])]
    {
      Send(Active(o, g.objs[o].subscribers != []));
    }

    /** ubus_unsubscribe */
    method Unsubscribe(x: Ref)
      requires Valid() && x in g.subs
      modifies this`g, this`sent
      ensures Valid() && g == Unsubscribed(old(g), {x})
      ensures Goodbyes(sent) == Goodbyes(old(sent))
    {
      hide Good, Unsubscribed, Minus, Goodbyes;
      UnsubscribeOne(g, sent, next, x);
      OneGoodbye(sent, Active(g.subs[x].target, false));
      var Sub(obj, target) := g.subs[x];
      g := g.(objs := g.objs[target := g.objs[target].(subscribers := Minus(g.objs[target].subscribers, {x}))]);
      g := g.(objs := g.objs[obj := g.objs[obj].(targets := Minus(g.objs[obj].targets, {x}))]);
      g := g.(subs := g.subs - {x});
      if g.objs[target].subscribers == [] {
        NotifySubscription(target);
      }
    }

    /** ubus_notify_unsubscribe */
    method NotifyUnsubscribe(x: Ref)
      requires Valid() && x in g.subs
      modifies this`g, this`sent
      ensures Valid() && g == Unsubscribed(old(g), {x})
      ensures Goodbyes(sent) == Goodbyes(old(sent)) + [old(g).subs[x]]
    {
      hide Good, Unsubscribed, Goodbyes;
      var m := Ended(g.subs[x].subscriber, g.subs[x].target);
      GoodMore(g, sent, m, next);
      OneGoodbye(sent, m);
      Send(m);
      Unsubscribe(x);
    }

    /** ubusd_delete_event_source */
    method DeleteEventSource(e: Ref)
      requires Valid() && e in g.sources
      modifies this`g
      ensures Valid() && g == Unregistered(old(g), {e})
    {
      hide Good, Unregistered, Minus;
      UnregisterOne(g, sent, next, e);
      var o := g.sources[e].obj;
      g := g.(objs := g.objs[o := g.objs[o].(events := Minus(g.objs[o].events, {e}))]);
      g := g.(patterns := Minus(g.patterns, {e}));
      g := g.(sources := g.sources - {e});
    }

    /** The first loop of ubusd_free_object: the subscriptions of the object */
    method UnsubscribeAll(o: Ref)
      requires Valid() && o in g.objs
      modifies this`g, this`sent
      ensures Valid() && g == Unsubscribed(old(g), Elements(old(g).objs[o].targets))
      ensures Goodbyes(sent) == Goodbyes(old(sent))
    {
      hide Good, Unsubscribed, Goodbyes, Distinct;
      ghost var s := g;
      var list := g.objs[o].targets;
      KnownSubs(s, sent, next, o);
      UnsubscribedNone(s);
      assert Elements(list[..0]) == {};
      for i := 0 to |list|
        invariant Valid() && g == Unsubscribed(s, Elements(list[..i]))
        invariant Goodbyes(sent) == Goodbyes(old(sent))
      {
        NextSub(s, list, i);
        Unsubscribe(list[i]);
      }
      assert list[..|list|] == list;
    }

    /** The second loop: its subscribers */
    method DismissAll(o: Ref)
      requires Valid() && o in g.objs
      modifies this`g, this`sent
      ensures Valid() && g == Unsubscribed(old(g), Elements(old(g).objs[o].subscribers))
      ensures (forall x :: x in old(g).objs[o].subscribers ==> x in old(g).subs)
        && Goodbyes(sent) == Goodbyes(old(sent)) + Named(old(g).subs, old(g).objs[o].subscribers)
    {
      hide Good, Unsubscribed, Goodbyes, Distinct;
      ghost var s := g;
      var list := g.objs[o].subscribers;
      KnownSubs(s, sent, next, o);
      UnsubscribedNone(s);
      assert Elements(list[..0]) == {};
      for i := 0 to |list|
        invariant Valid() && g == Unsubscribed(s, Elements(list[..i]))
        invariant Goodbyes(sent) == Goodbyes(old(sent)) + Named(s.subs, list[..i])
      {
        NextSub(s, list, i);
        NextNamed(s.subs, list, i);
        NotifyUnsubscribe(list[i]);
      }
      assert list[..|list|] == list;
    }

    /** ubusd_event_cleanup_object */
    method CleanupEvents(o: Ref)
      requires Valid() && o in g.objs
      modifies this`g
      ensures Valid() && g == Unregistered(old(g), Elements(old(g).objs[o].events))
    {
      hide Good, Unregistered, Distinct;
      ghost var s := g;
      ghost var list := g.objs[o].events;
      ghost var i := 0;
      KnownEvents(s, sent, next, o);
      UnregisteredNone(s);
      assert Elements(list[..0]) == {};
      while g.objs[o].events != []
        invariant i <= |list| && Valid() && g == Unregistered(s, Elements(list[..i]))
        invariant o in g.objs && g.objs[o].events == list[i..]
        decreases |list| - i
      {
        NextEvent(s, o, i);
        DeleteEventSource(g.objs[o].events[0]);
        i := i + 1;
      }
      assert list[..i] == list;
    }

    /** ubus_unref_object_type */
    method UnrefKind(k: Ref)
      requires k in g.kinds
      modifies this`g
      ensures g == Released(old(g), k)
    {
      UpdatedAndRemoved(g.kinds, k, g.kinds[k].(refcount := g.kinds[k].refcount - 1));
      g := g.(kinds := g.kinds[k := g.kinds[k].(refcount := g.kinds[k].refcount - 1)]);
      if g.kinds[k].refcount > 0 {
        return;
      }
      g := g.(kindIds := g.kindIds - {g.kinds[k].id});
      g := g.(kinds := g.kinds - {k});

    }

    /** Those who watch are told, and the path is free. */
    method DropPath(o: Ref)
      requires o in g.objs
      modifies this`g, this`sent
      ensures sent == if old(g).objs[o].path.Some? then old(sent) + [Listed(o, false)] else old(sent)
      ensures g == old(g).(paths := PathsLess(old(g).paths, old(g).objs[o].path))
    {
      if g.objs[o].path.Some? {
        Send(Listed(o, false));
        g := g.(paths := g.paths - {g.objs[o].path.value});
      }
    }

    /** list_del, if the object is in the list of a client */
    method LeaveClient(o: Ref)
      requires o in g.objs && (g.objs[o].client.Some? ==> g.objs[o].client.value in g.clients)
      modifies this`g
      ensures g == old(g).(clients := ClientsLess(old(g).clients, old(g).objs[o].client, o))
    {
      if g.objs[o].client.Some? {
        var c := g.objs[o].client.value;
        g := g.(clients := g.clients[c := g.clients[c].(objects := Minus(g.clients[c].objects, {o}))]);
      }
    }

    method DropKind(o: Ref)
      requires o in g.objs && (g.objs[o].kind.Some? ==> g.objs[o].kind.value in g.kinds)
      modifies this`g
      ensures g == old(g).(kinds := KindsLess(old(g).kinds, old(g).objs[o].kind),
                           kindIds := KindIdsLess(old(g).kinds, old(g).kindIds, old(g).objs[o].kind))
    {
      if g.objs[o].kind.Some? {
        UnrefKind(g.objs[o].kind.value);
      }
    }

    /** The rest of ubusd_free_object: the path, the list of the client, the number, the type and the object itself */
    method Discard(o: Ref)
      requires Valid() && o in g.objs && SubsOf(g, {o}) == {} && SourcesOf(g, {o}) == {}
      modifies this
      ensures Valid() && g == Discarded(old(g), {o}) && next == old(next)
      ensures Goodbyes(sent) == Goodbyes(old(sent))
    {
      hide Good, Discarded, Goodbyes, SubsOf, SourcesOf, PathsLess, ClientsLess, KindsLess, KindIdsLess;
      var obj := g.objs[o];
      GoodMore(g, sent, Listed(o, false), next);
      OneGoodbye(sent, Listed(o, false));
      DiscardGood(g, if obj.path.Some? then sent + [Listed(o, false)] else sent, next, o);
      DropPath(o);
      LeaveClient(o);
      g := g.(ids := g.ids - {obj.id});
      DropKind(o);
      g := g.(objs := g.objs - {o});
    }

    /** ubusd_free_object: it takes out the object and all that has to do with it, and tells its subscribers. */
    method FreeObject(o: Ref)
      requires Valid() && o in g.objs
      modifies this
      ensures Valid() && g == Without(old(g), {o}) && next == old(next)
      ensures (forall x :: x in old(g).objs[o].subscribers ==> x in old(g).subs)
        && Goodbyes(sent) == Goodbyes(old(sent)) + Named(old(g).subs, old(g).objs[o].subscribers)
    {
      hide Good, Unsubscribed, Unregistered, Discarded, Without, Goodbyes, Minus, Named, SubsOf, SourcesOf;
      FreeSteps(g, sent, next, o);
      UnsubscribeAll(o);
      DismissAll(o);
      CleanupEvents(o);
      Discard(o);
    }

    // ---------- new objects

    /** ubus_alloc_id, with the numbers that the random device gives */
    static method AllocId(used: map<nat, Ref>, numbers: seq<nat>) returns (id: Option<nat>)
      ensures id == FirstFree(used, numbers)
    {
      var i := 0;
      while i < |numbers|
        invariant i <= |numbers| && InUse(used, numbers) == i + InUse(used, numbers[i..])
      {
        assert numbers[i..][1..] == numbers[i+1..];
        if numbers[i] !in used {
          return Some(numbers[i]);
        }
        i := i + 1;
      }
      return None;
    }

    /** ubus_get_obj_type */
    method GetKind(id: nat) returns (k: Option<Ref>)
      requires forall i :: i in g.kindIds ==> g.kindIds[i] in g.kinds
      modifies this`g
      ensures k == if id in g.kindIds then Some(g.kindIds[id]) else None
      ensures if k.Some? then Picks(old(g), Known(k.value)) && g == Picked(old(g), Known(k.value)) else g == old(g)
    {
      if id !in g.kindIds {
        return None;
      }
      k := Some(g.kindIds[id]);
      g := g.(kinds := g.kinds[k.value := g.kinds[k.value].(refcount := g.kinds[k.value].refcount + 1)]);
    }

    /** ubus_create_obj_type, for a signature whose attributes are well formed or not */
    method CreateKind(wellFormed: bool, numbers: seq<nat>) returns (k: Option<Ref>)
      requires next !in g.kinds
      modifies this`g, this`next
      ensures next == old(next) + 1
      ensures var id := FirstFree(old(g).kindIds, numbers);
        if wellFormed && id.Some? then k == Some(old(next)) && g == Picked(old(g), Made(old(next), id.value))
        else k == None && g == old(g)
    {
      hide Released, FirstFree;
      var address := next;
      next := next + 1;
      var id := AllocId(g.kindIds, numbers);
      if id.None? {
        return None;
      }
      MadeAndReleased(g, address, id.value);
      g := g.(kinds := g.kinds[address := Kind(id.value, 1)]);
      g := g.(kindIds := g.kindIds[id.value := address]);
      if !wellFormed {
        UnrefKind(address);
        return None;
      }
      return Some(address);
    }

    /** ubusd_create_object_internal, for a number to be found */
    method CreateObjectInternal(kind: Option<Ref>, numbers: seq<nat>) returns (o: Option<Ref>)
      requires kind.Some? ==> kind.value in g.kinds
      modifies this`g, this`next
      ensures next == old(next) + 1
      ensures match FirstFree(old(g).ids, numbers)
        case None => o == None && g == old(g)
        case Some(id) => o == Some(old(next)) && g == Bare(old(g), old(next), id, kind)
    {
      var address := next;
      next := next + 1;
      var id := AllocId(g.ids, numbers);
      if id.None? {
        return None;
      }
      g := g.(ids := g.ids[id.value := address]);
      g := g.(objs := g.objs[address := Obj(id.value, None, kind, None, [], [], [])]);
      if kind.Some? {
        g := g.(kinds := g.kinds[kind.value := g.kinds[kind.value].(refcount := g.kinds[kind.value].refcount + 1)]);
      }
      return Some(address);
    }

    /** The type for a new object, one reference of which is held */
    method PickKind(objtype: Option<nat>, signature: Option<bool>, kindNumbers: seq<nat>) returns (kind: Option<Ref>)
      requires Valid()
      modifies this`g, this`next
      ensures old(next) <= next <= old(next) + 1
      ensures var pick := Choose(old(g), objtype, signature, kindNumbers, old(next));
        Picks(old(g), pick) && g == Picked(old(g), pick) && kind == KindOf(pick) && (pick.Made? ==> pick.k < next)
    {
      hide Good, Inv, FirstFree;
      CreateFacts(g, sent, next);
      kind := None;
      if objtype.Some? {
        kind := GetKind(objtype.value);
      } else if signature.Some? {
        kind := CreateKind(signature.value, kindNumbers);
      }
    }

    /** The object of that type; the reference is given up. */
    method CreateWith(kind: Option<Ref>, numbers: seq<nat>, ghost s: State, ghost pick: Pick, ghost from: Ref)
      returns (o: Option<Ref>)
      requires Good(s, sent, from) && from <= next && Picks(s, pick) && (pick.Made? ==> pick.k < next)
      requires g == Picked(s, pick) && kind == KindOf(pick)
      modifies this`g, this`next
      ensures Valid() && next == old(next) + 1
      ensures match FirstFree(s.ids, numbers)
        case None => o == None && g == s
        case Some(id) => o == Some(old(next)) && g == Added(s, old(next), id, pick, None, None)
    {
      hide Good, Inv, Picked, FirstFree, Added, Released, Bare;
      CreateFacts(s, sent, from);
      PickedIds(s, pick);
      KindSteps(s, pick, next, if FirstFree(s.ids, numbers).Some? then FirstFree(s.ids, numbers).value else 0);
      if FirstFree(s.ids, numbers).Some? {
        BareGood(s, sent, from, next + 1, next, FirstFree(s.ids, numbers).value, pick);
      } else {
        LaterGood(s, sent, from, next + 1);
      }
      o := CreateObjectInternal(kind, numbers);
      if kind.Some? {
        UnrefKind(kind.value);
      }
    }

    /** The start of ubusd_create_object: an object that has no owner and no path yet */
    method CreateBare(objtype: Option<nat>, signature: Option<bool>, kindNumbers: seq<nat>, numbers: seq<nat>)
      returns (o: Option<Ref>)
      requires Valid()
      modifies this`g, this`next
      ensures Valid() && old(next) <= next
      ensures var pick := Choose(old(g), objtype, signature, kindNumbers, old(next));
        && Picks(old(g), pick)
        && match FirstFree(old(g).ids, numbers)
           case None => o == None && g == old(g)
           case Some(id) => o.Some? && o.value !in old(g).objs && g == Added(old(g), o.value, id, pick, None, None)
    {
      hide Good, Inv, Picked, FirstFree, Choose, Added;
      ghost var s, from := g, next;
      CreateFacts(s, sent, next);
      var kind := PickKind(objtype, signature, kindNumbers);
      o := CreateWith(kind, numbers, s, Choose(s, objtype, signature, kindNumbers, from), from);
    }

    /** ubusd_create_object: when no number or the path is not free, nothing has changed. */
    method CreateObject(cl: Ref, objtype: Option<nat>, signature: Option<bool>, path: Option<string>,
        kindNumbers: seq<nat>, numbers: seq<nat>)
      returns (o: Option<Ref>)
      requires Valid() && cl in g.clients
      modifies this
      ensures Valid()
      ensures var pick := Choose(old(g), objtype, signature, kindNumbers, old(next));
        && Picks(old(g), pick)
        && var id := FirstFree(old(g).ids, numbers);
           if id.None? || (path.Some? && path.value in old(g).paths) then o == None && g == old(g)
           else o.Some? && o.value !in old(g).objs && g == Added(old(g), o.value, id.value, pick, path, Some(cl))
    {
      hide Good, FirstFree, Choose, Added, Without;
      ghost var s, pick := g, Choose(g, objtype, signature, kindNumbers, next);
      ghost var id := FirstFree(g.ids, numbers);
      o := CreateBare(objtype, signature, kindNumbers, numbers);
      if o.None? {
        return None;
      }
      ghost var t := g;
      AddedParts(s, o.value, id.value, pick, path, cl);
      AddedGood(s, sent, old(next), next, o.value, id.value, pick, path, cl);
      if path.Some? {
        if path.value in g.paths {
          FreeObject(o.value);
          return None;
        }
        g := g.(paths := g.paths[path.value := o.value], objs := g.objs[o.value := g.objs[o.value].(path := path)]);
        Send(Listed(o.value, true));
      }
      UpdatedTwice(t.objs, o.value, g.objs[o.value], g.objs[o.value].(client := Some(cl)));
      g := g.(objs := g.objs[o.value := g.objs[o.value].(client := Some(cl))],
              clients := g.clients[cl := g.clients[cl].(objects := [o.value] + g.clients[cl].objects)]);
    }

    /** ubus_subscribe */
    method Subscribe(obj: Ref, target: Ref)
      requires Valid() && obj in g.objs && target in g.objs
      requires g.objs[obj].client.Some? && g.objs[target].client.Some? && g.objs[obj].client != g.objs[target].client
      modifies this
      ensures Valid() && old(next) !in old(g).subs && g == Subscribed(old(g), old(next), obj, target)
    {
      hide Good;
      SubscribedGood(g, sent, next, obj, target);
      var first := g.objs[target].subscribers == [];
      var x := next;
      next := next + 1;
      g := g.(subs := g.subs[x := Sub(obj, target)],
              objs := g.objs[target := g.objs[target].(subscribers := [x] + g.objs[target].subscribers)]);
      g := g.(objs := g.objs[obj := g.objs[obj].(targets := [x] + g.objs[obj].targets)]);
      if first {
        NotifySubscription(target);
      }
    }

    /** The end of ubusd_alloc_event_pattern */
    method AddEventSource(o: Ref, key: string, partial: bool)
      requires Valid() && o in g.objs && g.objs[o].client.Some? && g.objs[o].id >= SYSTEM_OBJECT_MAX && IsCString(key)
      modifies this
      ensures Valid() && old(next) !in old(g).sources && (forall f :: f in old(g).patterns ==> f in old(g).sources)
      ensures g == Registered(old(g), old(next), o, key, partial)
    {
      hide Good;
      RegisteredGood(g, sent, next, o, key, partial);
      var e := next;
      next := next + 1;
      var i := Place(g.sources, g.patterns, key);
      g := g.(objs := g.objs[o := g.objs[o].(events := [e] + g.objs[o].events)],
              sources := g.sources[e := EventScan.Source(key, partial, o)], patterns := Inserted(g.patterns, i, e));
    }

    /** ubusd_proto_new_client */
    method NewClient(numbers: seq<nat>) returns (c: Option<Ref>)
      requires Valid()
      modifies this
      ensures Valid()
      ensures match FirstFree(old(g).clientIds, numbers)
        case None => c == None && g == old(g)
        case Some(id) =>
          && c.Some? && c.value !in old(g).clients
          && g == old(g).(clients := old(g).clients[c.value := Client(id, [])],
                          clientIds := old(g).clientIds[id := c.value])
    {
      hide Good, FirstFree;
      var id := AllocId(g.clientIds, numbers);
      if id.None? {
        return None;
      }
      ConnectedGood(g, sent, next, id.value);
      c := Some(next);
      next := next + 1;
      g := g.(clients := g.clients[c.value := Client(id.value, [])], clientIds := g.clientIds[id.value := c.value]);
    }

    /** ubusd_proto_free_client: nothing of the client is left. */
    method FreeClient(c: Ref)
      requires Valid() && c in g.clients
      modifies this
      ensures Valid() && g == Disconnected(old(g), c)
    {
      hide Good, Inv, Without, Disconnected, Distinct;
      ghost var s := g;
      GoodIs(s, sent, next);
      ghost var list := g.clients[c].objects;
      ghost var i := 0;
      OwnedFacts(s, sent, next, c);
      assert Elements(list[..0]) == {};
      while g.clients[c].objects != []
        invariant i <= |list| && Valid() && g == Without(s, Elements(list[..i]))
        invariant c in g.clients && g.clients[c].objects == list[i..]
        decreases |list| - i
      {
        var o := g.clients[c].objects[0];
        NextOwned(s, c, i);
        FreeObject(o);
        i := i + 1;
      }
      assert list[..i] == list;
      LeaveGood(s, g, sent, next, c);
      g := g.(clientIds := g.clientIds - {g.clients[c].id});
      g := g.(clients := g.clients - {c});
    }
  }
}
