/** The handlers of ubus/ubusd_proto.c and ubus/ubusd_event.c that change the object graph. */
module BrokerProto {
  import opened JsonValue
  import opened Lists
  import opened Strings
  import EventScan
  import opened BrokerGraph
  import opened BrokerSteps
  import opened Broker

  /** ubusd_find_object */
  function FindObject(s: State, id: nat): (o: Option<Ref>)
    ensures IdsOk(s.objs, s.ids) ==> (o.Some? <==> exists x :: x in s.objs && s.objs[x].id == id)
    ensures IdsOk(s.objs, s.ids) && o.Some? ==> o.value in s.objs && s.objs[o.value].id == id
  {
    if id in s.ids then Some(s.ids[id]) else None
  }

  lemma Found(s: State, sent: seq<Notice>, next: Ref, id: nat)
    requires Good(s, sent, next)
    ensures FindObject(s, id).Some? ==> FindObject(s, id).value in s.objs
  {
  }

  // ---------- what a request for a new object means

  /** The new object, field by field: it can be found by its number and its path, it belongs to the client, and it has
      the type that was asked for, or a new one for its signature. */
  ghost predicate IsNew(s: State, t: State, o: Ref, cl: Ref, objtype: Option<nat>, signature: Option<bool>,
      path: Option<string>, kindNumbers: seq<nat>, numbers: seq<nat>) {
    && o !in s.objs && o in t.objs && cl in t.clients && o in t.clients[cl].objects
    && t.objs[o].client == Some(cl) && t.objs[o].path == path
    && t.objs[o].subscribers == t.objs[o].targets == t.objs[o].events == []
    && t.objs[o].id in numbers && t.objs[o].id !in s.ids && FindObject(t, t.objs[o].id) == Some(o)
    && (path.Some? ==> path.value !in s.paths && path.value in t.paths && t.paths[path.value] == o)
    && HasType(s, t, t.objs[o].kind, objtype, signature, kindNumbers)
    && forall x :: x in s.objs ==> x in t.objs && t.objs[x] == s.objs[x]
  }

  ghost predicate HasType(s: State, t: State, kind: Option<Ref>, objtype: Option<nat>, signature: Option<bool>,
      kindNumbers: seq<nat>) {
    if objtype.Some? && objtype.value in s.kindIds then
      kind.Some? && kind.value in s.kinds && kind.value in t.kinds && t.kinds[kind.value].id == objtype.value
    else if objtype.None? && signature == Some(true) && exists i :: i in kindNumbers && i !in s.kindIds then
      && kind.Some? && kind.value !in s.kinds && kind.value in t.kinds
      && t.kinds[kind.value].id in kindNumbers && t.kinds[kind.value].id !in s.kindIds
    else kind.None?
  }

  lemma AddedIsNew(s: State, sent: seq<Notice>, next: Ref, o: Ref, cl: Ref, objtype: Option<nat>,
      signature: Option<bool>, path: Option<string>, kindNumbers: seq<nat>, numbers: seq<nat>)
    requires Good(s, sent, next) && cl in s.clients && o !in s.objs && FirstFree(s.ids, numbers).Some?
    requires path.Some? ==> path.value !in s.paths
    ensures var pick := Choose(s, objtype, signature, kindNumbers, next);
      && Picks(s, pick)
      && IsNew(s, Added(s, o, FirstFree(s.ids, numbers).value, pick, path, Some(cl)), o, cl, objtype, signature, path,
           kindNumbers, numbers)
  {
    hide Good, FirstFree, Choose, Picked, HasType;
    AddedType(s, sent, next, objtype, signature, kindNumbers);
    OnlyKinds(s, Choose(s, objtype, signature, kindNumbers, next));
    TypeIs(s, Choose(s, objtype, signature, kindNumbers, next), o, FirstFree(s.ids, numbers).value, path, cl, objtype,
      signature, kindNumbers);
  }

  lemma OnlyKinds(s: State, pick: Pick)
    requires Picks(s, pick)
    ensures var t := Picked(s, pick); t.objs == s.objs && t.clients == s.clients && t.ids == s.ids && t.paths == s.paths
  {
  }

  lemma TypeIs(s: State, pick: Pick, o: Ref, id: nat, path: Option<string>, cl: Ref, objtype: Option<nat>,
      signature: Option<bool>, kindNumbers: seq<nat>)
    requires Picks(s, pick) && cl in s.clients
      && HasType(s, Picked(s, pick), KindOf(pick), objtype, signature, kindNumbers)
    ensures HasType(s, Added(s, o, id, pick, path, Some(cl)), KindOf(pick), objtype, signature, kindNumbers)
  {
    hide Picked, KindOf;
  }

  lemma AddedType(s: State, sent: seq<Notice>, next: Ref, objtype: Option<nat>, signature: Option<bool>,
      kindNumbers: seq<nat>)
    requires Good(s, sent, next)
    ensures var pick := Choose(s, objtype, signature, kindNumbers, next);
      Picks(s, pick) && HasType(s, Picked(s, pick), KindOf(pick), objtype, signature, kindNumbers)
  {
    hide FirstFree, Told, NoRepeats, IdsOk, PathsOk, OwnersOk, PatternsOk, ClientIdsOk, SubsOk, ListsOk, SourcesOk,
      EventsOk, KindsOk;
    CreateFacts(s, sent, next);
  }

  /** ubusd_handle_add_object: the reply to a request with a signature reads the type, so it fails when there is
      none. */
  method HandleAddObject(b: Broker, cl: Ref, objtype: Option<nat>, signature: Option<bool>, path: Option<string>,
      kindNumbers: seq<nat>, numbers: seq<nat>) returns (outcome: Outcome, ghost o: Option<Ref>)
    requires b.Valid() && cl in b.g.clients
    modifies b
    ensures b.Valid()
    ensures var pick := Choose(old(b.g), objtype, signature, kindNumbers, old(b.next));
      && Picks(old(b.g), pick)
      && var id := FirstFree(old(b.g).ids, numbers);
         if id.None? || (path.Some? && path.value in old(b.g).paths) then
           outcome == Replied(InvalidArgument) && b.g == old(b.g)
         else
           (o.Some? && o.value !in old(b.g).objs && b.g == Added(old(b.g), o.value, id.value, pick, path, Some(cl))
            && outcome == if signature.Some? && pick == NoKind then Fault else Replied(Done))
    ensures outcome != Replied(InvalidArgument) ==>
      o.Some? && IsNew(old(b.g), b.g, o.value, cl, objtype, signature, path, kindNumbers, numbers)
  {
    hide Good, FirstFree, Choose, Picked, IsNew;
    ghost var s, sent, next := b.g, b.sent, b.next;
    var obj := b.CreateObject(cl, objtype, signature, path, kindNumbers, numbers);
    o := obj;
    if obj.None? {
      return Replied(InvalidArgument), o;
    }
    AddedIsNew(s, sent, next, obj.value, cl, objtype, signature, path, kindNumbers, numbers);
    if signature.Some? && b.g.objs[obj.value].kind.None? {
      return Fault, o;
    }
    return Replied(Done), o;
  }

  /** ubusd_handle_remove_object, with the number of the type that went with the object */
  method HandleRemoveObject(b: Broker, cl: Ref, objid: Option<nat>) returns (outcome: Outcome, kind: Option<nat>)
    requires b.Valid()
    modifies b
    ensures b.Valid()
    ensures var o := if objid.Some? then FindObject(old(b.g), objid.value) else None;
      if objid.None? then outcome == Replied(InvalidArgument) && b.g == old(b.g)
      else if o.None? then outcome == Replied(NotFound) && b.g == old(b.g)
      else
        (o.value in old(b.g).objs
         && if old(b.g).objs[o.value].client != Some(cl) then outcome == Replied(PermissionDenied) && b.g == old(b.g)
            else
              (outcome == Replied(Done) && b.g == Without(old(b.g), {o.value})
               && forall i :: kind == Some(i) <==> i in old(b.g).kindIds && i !in b.g.kindIds))
  {
    hide Good, FindObject, Without;
    kind := None;
    if objid.None? {
      return Replied(InvalidArgument), kind;
    }
    var obj := FindObject(b.g, objid.value);
    Found(b.g, b.sent, b.next, objid.value);
    if obj.None? {
      return Replied(NotFound), kind;
    }
    if b.g.objs[obj.value].client != Some(cl) {
      return Replied(PermissionDenied), kind;
    }
    LastUser(b.g, b.sent, b.next, obj.value);
    var k := b.g.objs[obj.value].kind;
    if k.Some? && b.g.kinds[k.value].refcount == 1 {
      kind := Some(b.g.kinds[k.value].id);
    }
    b.FreeObject(obj.value);
    return Replied(Done), kind;
  }

  /** The type of an object goes with it exactly when nobody else uses it. */
  lemma LastUser(s: State, sent: seq<Notice>, next: Ref, o: Ref)
    requires Good(s, sent, next) && o in s.objs
    ensures var k := s.objs[o].kind;
      && (k.Some? ==> k.value in s.kinds)
      && forall i ::
           i in s.kindIds && i !in Without(s, {o}).kindIds <==>
             k.Some? && s.kinds[k.value].refcount == 1 && i == s.kinds[k.value].id
  {
    hide IdsOk, PathsOk, OwnersOk, PatternsOk, ClientIdsOk, SubsOk, ListsOk, SourcesOk, EventsOk, Without, Unhear,
      Unlink, Users, Minus, NoRepeats, Told;
    WithoutFields(s, {o});
    WithoutObjs(s, {o});
    forall k | k in s.kinds
      ensures |Users(Without(s, {o}).objs, k)| == |Users(s.objs, k)| - (if s.objs[o].kind == Some(k) then 1 else 0)
    {
      UsersAfter(s, o, k);
    }
  }

  lemma UsersAfter(s: State, o: Ref, k: Ref)
    requires o in s.objs
    ensures |Users(Without(s, {o}).objs, k)| == |Users(s.objs, k)| - (if s.objs[o].kind == Some(k) then 1 else 0)
  {
    hide Without, Minus;
    WithoutObjs(s, {o});
    UsersWithout(s.objs, o, k);
    assert Users(Without(s, {o}).objs, k) == Users(s.objs - {o}, k);
  }

  /** a has a subscription to t. */
  ghost predicate Watches(s: State, a: Ref, t: Ref) {
    exists x :: x in s.subs && s.subs[x].subscriber == a && s.subs[x].target == t
  }

  lemma SubscribedWatches(s: State, x: Ref, o: Ref, t: Ref)
    requires x !in s.subs && o in s.objs && t in s.objs && o != t
    ensures forall a, b :: Watches(Subscribed(s, x, o, t), a, b) <==> Watches(s, a, b) || (a == o && b == t)
  {
    var r := Subscribed(s, x, o, t);
    assert forall y :: y in r.subs <==> y == x || y in s.subs;
    assert forall y :: y in s.subs ==> r.subs[y] == s.subs[y];
  }

  /** ubusd_handle_add_watch: the notice of the first subscription goes to the owner of the target, so it fails when
      there is none. */
  method HandleAddWatch(b: Broker, cl: Ref, objid: Option<nat>, targetid: Option<nat>) returns (outcome: Outcome)
    requires b.Valid()
    modifies b
    ensures b.Valid()
    ensures if objid.None? || targetid.None? then outcome == Replied(InvalidArgument) && b.g == old(b.g)
      else
        var (o, t) := (FindObject(old(b.g), objid.value), FindObject(old(b.g), targetid.value));
        if o.None? then outcome == Replied(NotFound) && b.g == old(b.g)
        else if old(b.g).objs[o.value].client != Some(cl) then outcome == Replied(InvalidArgument) && b.g == old(b.g)
        else if t.None? then outcome == Replied(NotFound) && b.g == old(b.g)
        else if old(b.g).objs[t.value].client == Some(cl) then outcome == Replied(InvalidArgument) && b.g == old(b.g)
        else if old(b.g).objs[t.value].client.None? then outcome == Fault
        else
          && outcome == Replied(Done) && old(b.next) !in old(b.g).subs
          && b.g == Subscribed(old(b.g), old(b.next), o.value, t.value)
          && forall a, c :: Watches(b.g, a, c) <==> Watches(old(b.g), a, c) || (a == o.value && c == t.value)
  {
    hide Good, FindObject, Watches;
    if objid.None? || targetid.None? {
      return Replied(InvalidArgument);
    }
    var obj := FindObject(b.g, objid.value);
    Found(b.g, b.sent, b.next, objid.value);
    if obj.None? {
      return Replied(NotFound);
    }
    if Some(cl) != b.g.objs[obj.value].client {
      return Replied(InvalidArgument);
    }
    var target := FindObject(b.g, targetid.value);
    Found(b.g, b.sent, b.next, targetid.value);
    if target.None? {
      return Replied(NotFound);
    }
    if Some(cl) == b.g.objs[target.value].client {
      return Replied(InvalidArgument);
    }
    if b.g.objs[target.value].client.None? {
      return Fault;
    }
    ghost var s, x := b.g, b.next;
    b.Subscribe(obj.value, target.value);
    SubscribedWatches(s, x, obj.value, target.value);
    return Replied(Done);
  }

  /** An object of the system has no subscribers, so the notice of the first one is always due. */
  lemma SystemUnwatched(s: State, t: Ref)
    requires Inv(s) && t in s.objs && s.objs[t].client.None?
    ensures s.objs[t].subscribers == [] && s.objs[t].targets == [] && s.objs[t].events == []
  {
    hide IdsOk, PathsOk, KindsOk, OwnersOk, KindIdsOk, ClientIdsOk, SourcesOk, PatternsOk, Distinct;
    var obj := s.objs[t];
    SomeElement(obj.subscribers);
    SomeElement(obj.targets);
    SomeElement(obj.events);
  }

  lemma SomeElement(q: seq<Ref>)
    ensures q == [] || exists x :: x in q
  {
    if q != [] { assert q[0] in q; }
  }

  /** Where the list of an object names a target first */
  function FirstTo(s: State, list: seq<Ref>, id: nat): (i: nat)
    requires forall x :: x in list ==> x in s.subs && s.subs[x].target in s.objs
    ensures i <= |list| && (forall j :: 0 <= j < i ==> s.objs[s.subs[list[j]].target].id != id)
    ensures i < |list| ==> s.objs[s.subs[list[i]].target].id == id
  {
    if list == [] || s.objs[s.subs[list[0]].target].id == id then 0 else 1 + FirstTo(s, list[1..], id)
  }

  lemma KnownTargets(s: State, sent: seq<Notice>, next: Ref, o: Ref)
    requires Good(s, sent, next) && o in s.objs
    ensures forall x :: x in s.objs[o].targets ==>
      x in s.subs && s.subs[x].target in s.objs && s.subs[x].subscriber == o
  {
  }

  /** A subscription of o to an object with that number ends, and no other. */
  ghost predicate Ends(s: State, t: State, o: Ref, targetid: nat) {
    exists x :: x in s.subs && s.subs[x].subscriber == o && s.subs[x].target in s.objs
      && s.objs[s.subs[x].target].id == targetid && t.subs == s.subs - {x}
  }

  lemma UnsubscribedEnds(s: State, x: Ref, o: Ref, targetid: nat)
    requires x in s.subs && s.subs[x].subscriber == o && s.subs[x].target in s.objs
      && s.objs[s.subs[x].target].id == targetid
    ensures Ends(s, Unsubscribed(s, {x}), o, targetid)
  {
  }

  /** ubusd_handle_remove_watch: the youngest subscription to the target ends. */
  method HandleRemoveWatch(b: Broker, cl: Ref, objid: Option<nat>, targetid: Option<nat>) returns (outcome: Outcome)
    requires b.Valid()
    modifies b
    ensures b.Valid()
    ensures if objid.None? || targetid.None? then outcome == Replied(InvalidArgument) && b.g == old(b.g)
      else
        var o := FindObject(old(b.g), objid.value);
        if o.None? then outcome == Replied(NotFound) && b.g == old(b.g)
        else if old(b.g).objs[o.value].client != Some(cl) then outcome == Replied(InvalidArgument) && b.g == old(b.g)
        else
          (var list := old(b.g).objs[o.value].targets;
           && (forall x :: x in list ==> x in old(b.g).subs && old(b.g).subs[x].target in old(b.g).objs)
           && var i := FirstTo(old(b.g), list, targetid.value);
              if i == |list| then outcome == Replied(NotFound) && b.g == old(b.g)
              else outcome == Replied(Done) && b.g == Unsubscribed(old(b.g), {list[i]}))
    ensures outcome == Replied(Done) ==>
      && objid.Some? && targetid.Some? && FindObject(old(b.g), objid.value).Some?
      && Ends(old(b.g), b.g, FindObject(old(b.g), objid.value).value, targetid.value)
  {
    hide Good, FindObject, Unsubscribed, Ends;
    if objid.None? || targetid.None? {
      return Replied(InvalidArgument);
    }
    var obj := FindObject(b.g, objid.value);
    Found(b.g, b.sent, b.next, objid.value);
    if obj.None? {
      return Replied(NotFound);
    }
    if Some(cl) != b.g.objs[obj.value].client {
      return Replied(InvalidArgument);
    }
    KnownTargets(b.g, b.sent, b.next, obj.value);
    var list := b.g.objs[obj.value].targets;
    var i := 0;
    while i < |list|
      invariant i <= |list| && FirstTo(b.g, list, targetid.value) == i + FirstTo(b.g, list[i..], targetid.value)
    {
      assert list[i..][1..] == list[i+1..];
      if b.g.objs[b.g.subs[list[i]].target].id == targetid.value {
        UnsubscribedEnds(b.g, list[i], obj.value, targetid.value);
        b.Unsubscribe(list[i]);
        return Replied(Done);
      }
      i := i + 1;
    }
    return Replied(NotFound);
  }

  /** What the code takes for the last character of a string: with an empty one, the byte in front of it */
  function Last(s: string, before: char): char {
    if s == "" then before else s[|s|-1]
  }

  // ---------- who gets events

  /** The patterns of a graph, in order, as the scan for receivers walks through them */
  ghost function Patterns(s: State): (es: seq<Source>)
    requires Inv(s)
    ensures EventScan.Sorted(es) && forall e :: e in es ==> e.obj in s.objs && IsCString(e.key)
  {
    ScanReady(s);
    seq(|s.patterns|, i requires 0 <= i < |s.patterns| => s.sources[s.patterns[i]])
  }

  ghost function Owners(s: State): map<Ref, Option<Ref>> {
    map o | o in s.objs :: s.objs[o].client
  }

  /** An object is among those who get an event. */
  ghost predicate Receives(s: State, o: Ref, id: string, sender: Option<Ref>)
    requires Inv(s)
  {
    o in EventScan.Receivers(Patterns(s), id, Owners(s), sender, {})
  }

  /** What an application means by a pattern: a text, or the beginning of a text and a star */
  predicate Matches(pattern: string, id: string) {
    pattern == id || (pattern != "" && pattern[|pattern|-1] == '*' && pattern[..|pattern|-1] <= id)
  }

  lemma ReceivesIs(s: State, o: Ref, id: string, sender: Option<Ref>)
    requires Inv(s)
    ensures Receives(s, o, id, sender) <==>
      && o in s.objs && s.objs[o].client != sender
      && exists e :: e in s.sources && s.sources[e].obj == o && EventScan.Concerns(id, s.sources[e])
  {
    hide IdsOk, PathsOk, KindsOk, OwnersOk, KindIdsOk, ClientIdsOk, SubsOk, ListsOk, EventsOk, Distinct, InOrder,
      EventScan.Concerns, EventScan.Receivers;
    var es := Patterns(s);
    EventScan.ReceiversAreRight(es, id, Owners(s), sender, {});
    if e :| e in s.sources && s.sources[e].obj == o && EventScan.Concerns(id, s.sources[e]) {
      var i := IndexOf(s.patterns, e);
      assert es[i] == s.sources[e] && es[i] in es;
    }
    if e :| e in es && e.obj == o && EventScan.Concerns(id, e) {
      var i: nat :| i < |es| && es[i] == e;
      assert s.patterns[i] in s.patterns && s.sources[s.patterns[i]] == e;
    }
  }

  lemma IndexOf(q: seq<Ref>, e: Ref) returns (i: nat)
    requires e in Elements(q)
    ensures i < |q| && q[i] == e
  {
    i :| i < |q| && q[i] == e;
  }

  /** A pattern that is registered brings the events it is meant for, and changes nothing for other objects. */
  lemma RegisteredReceives(s: State, e: Ref, o: Ref, pattern: string, before: char, x: Ref, id: string,
                           sender: Option<Ref>)
    requires Inv(s) && e !in s.sources && o in s.objs && s.objs[o].client.Some? && s.objs[o].id >= SYSTEM_OBJECT_MAX
    requires IsCString(pattern) && (pattern != "" || before != '*') && forall f :: f in s.patterns ==> f in s.sources
    ensures var partial := Last(pattern, before) == '*';
      var t := Registered(s, e, o, if partial then pattern[..|pattern|-1] else pattern, partial);
      && Inv(t)
      && (Receives(t, x, id, sender) <==>
            Receives(s, x, id, sender) || (x == o && s.objs[o].client != sender && Matches(pattern, id)))
  {
    hide Inv, Receives;
    var partial := Last(pattern, before) == '*';
    var key := if partial then pattern[..|pattern|-1] else pattern;
    var t := Registered(s, e, o, key, partial);
    RegisteredOk(s, e, o, key, partial);
    ReceivesIs(s, x, id, sender);
    ReceivesIs(t, x, id, sender);
    assert EventScan.Concerns(id, t.sources[e]) <==> Matches(pattern, id);
    assert forall f :: f in t.sources <==> f == e || f in s.sources;
    assert forall f :: f in s.sources ==> t.sources[f] == s.sources[f];
  }

  /** Objects that go take their patterns along, and leave those of others. */
  lemma FreedReceive(s: State, gone: set<Ref>, x: Ref, id: string, sender: Option<Ref>)
    requires Inv(s)
    ensures Inv(Without(s, gone))
    ensures Receives(Without(s, gone), x, id, sender) <==> x !in gone && Receives(s, x, id, sender)
  {
    hide Inv, Receives, Without, EventScan.Concerns;
    var t := Without(s, gone);
    WithoutOk(s, gone);
    WithoutFields(s, gone);
    WithoutObjs(s, gone);
    ReceivesIs(s, x, id, sender);
    ReceivesIs(t, x, id, sender);
    assert forall e :: e in t.sources <==> e in s.sources && s.sources[e].obj !in gone;
    assert forall e :: e in t.sources ==> t.sources[e] == s.sources[e];
  }

  /** ubusd_alloc_event_pattern; before is the byte in front of the pattern. An empty pattern behind a star is copied to
      where there is no room for it. */
  method AllocEventPattern(b: Broker, cl: Ref, objid: Option<nat>, pattern: Option<string>, before: char)
    returns (outcome: Outcome)
    requires b.Valid() && (pattern.Some? ==> IsCString(pattern.value))
    modifies b
    ensures b.Valid()
    ensures if objid.None? || pattern.None? then outcome == Replied(InvalidArgument) && b.g == old(b.g)
      else if objid.value < SYSTEM_OBJECT_MAX then outcome == Replied(PermissionDenied) && b.g == old(b.g)
      else
        var o := FindObject(old(b.g), objid.value);
        if o.None? then outcome == Replied(NotFound) && b.g == old(b.g)
        else if old(b.g).objs[o.value].client != Some(cl) then outcome == Replied(PermissionDenied) && b.g == old(b.g)
        else if pattern.value == "" && before == '*' then outcome == Fault
        else
          (outcome == Replied(Done) && old(b.next) !in old(b.g).sources
           && (forall f :: f in old(b.g).patterns ==> f in old(b.g).sources)
           && var partial := Last(pattern.value, before) == '*';
              var name := if partial then pattern.value[..|pattern.value|-1] else pattern.value;
              b.g == Registered(old(b.g), old(b.next), o.value, name, partial))
    ensures Inv(old(b.g)) && Inv(b.g)
    ensures outcome == Replied(Done) ==>
      && objid.Some? && pattern.Some? && var o := FindObject(old(b.g), objid.value);
      && o.Some? && o.value in old(b.g).objs && old(b.g).objs[o.value].client == Some(cl)
      && forall x, id, sender ::
           Receives(b.g, x, id, sender) <==>
             Receives(old(b.g), x, id, sender) || (x == o.value && Some(cl) != sender && Matches(pattern.value, id))
  {
    hide Good, Registered, Receives, Matches, Inv;
    GoodIs(b.g, b.sent, b.next);
    if objid.None? || pattern.None? {
      return Replied(InvalidArgument);
    }
    if objid.value < SYSTEM_OBJECT_MAX {
      return Replied(PermissionDenied);
    }
    var obj := FindObject(b.g, objid.value);
    NumberOf(b.g, b.sent, b.next, objid.value);
    if obj.None? {
      return Replied(NotFound);
    }
    if b.g.objs[obj.value].client != Some(cl) {
      return Replied(PermissionDenied);
    }
    var name, partial := pattern.value, false;
    if Last(name, before) == '*' {
      if name == "" {
        return Fault;
      }
      partial := true;
      name := name[..|name| - 1];
    }
    ghost var s, e := b.g, b.next;
    b.AddEventSource(obj.value, name, partial);
    GoodIs(b.g, b.sent, b.next);
    forall x, id, sender ensures Receives(b.g, x, id, sender) <==>
      Receives(s, x, id, sender) || (x == obj.value && Some(cl) != sender && Matches(pattern.value, id))
    {
      RegisteredReceives(s, e, obj.value, pattern.value, before, x, id, sender);
    }
    return Replied(Done);
  }

  lemma NumberOf(s: State, sent: seq<Notice>, next: Ref, id: nat)
    requires Good(s, sent, next)
    ensures FindObject(s, id).Some? ==> FindObject(s, id).value in s.objs && s.objs[FindObject(s, id).value].id == id
  {
  }

  // ---------- what follows

  /** After a client is gone, nothing names it, its objects, their paths, their subscriptions or their patterns. */
  lemma NothingLeft(s: State, c: Ref)
    requires Inv(s) && c in s.clients
    ensures var t := Disconnected(s, c);
      && Inv(t) && c !in t.clients && s.clients[c].id !in t.clientIds
      && (forall o :: o in t.objs ==> t.objs[o].client != Some(c))
      && forall o ::
           o in s.objs && s.objs[o].client == Some(c) ==>
             && o !in t.objs && o !in t.ids.Values && o !in t.paths.Values
             && (forall x :: x in t.subs ==> t.subs[x].subscriber != o && t.subs[x].target != o)
             && forall e :: e in t.sources ==> t.sources[e].obj != o
  {
    hide Without, Unhear, Unlink, KindsOk, KindIdsOk, ClientIdsOk, EventsOk, PatternsOk, ListsOk, Disconnected,
      Recounted, Only, Minus, Distinct;
    var gone := Elements(s.clients[c].objects);
    LeaveOk(s, c);
    WithoutObjs(s, gone);
  }

  /** And the objects of others keep all but what bound them to it. */
  lemma OthersStay(s: State, c: Ref, o: Ref)
    requires Inv(s) && c in s.clients && o in s.objs && s.objs[o].client != Some(c)
    ensures var t := Disconnected(s, c);
      && o in t.objs && t.objs[o].id == s.objs[o].id && t.objs[o].path == s.objs[o].path
      && t.objs[o].client == s.objs[o].client && t.objs[o].kind == s.objs[o].kind
      && t.objs[o].events == s.objs[o].events
      && t.objs[o].targets == Minus(s.objs[o].targets, SubsOf(s, Elements(s.clients[c].objects)))
      && t.objs[o].subscribers == Minus(s.objs[o].subscribers, SubsOf(s, Elements(s.clients[c].objects)))
  {
    hide Without, PathsOk, KindsOk, KindIdsOk, PatternsOk, Minus, SubsOk, ListsOk, IdsOk, ClientIdsOk, Only;
    var gone := Elements(s.clients[c].objects);
    WithoutObjs(s, gone);
    MinusNone(s.objs[o].events, SourcesOf(s, gone));
  }

  /** A subscription that is taken back leaves no trace. */
  lemma SubscribedAndUnsubscribed(s: State, x: Ref, obj: Ref, target: Ref)
    requires Inv(s) && x !in s.subs && obj in s.objs && target in s.objs && obj != target
    ensures Unsubscribed(Subscribed(s, x, obj, target), {x}) == s
  {
    hide IdsOk, PathsOk, KindsOk, OwnersOk, PatternsOk, KindIdsOk, ClientIdsOk, SubsOk, SourcesOk, EventsOk, Distinct,
      Unlink;
    var t := Subscribed(s, x, obj, target);
    forall o | o in s.objs ensures Unlink(t.objs[o], {x}) == s.objs[o] {
      Unlinked1(s.objs[o], x, o == obj, o == target);
    }
    assert Unlinked(t.objs, {x}) == s.objs;
    assert t.subs - {x} == s.subs;
  }

  lemma Unlinked1(obj: Obj, x: Ref, subscriber: bool, target: bool)
    requires x !in obj.targets && x !in obj.subscribers
    ensures Unlink(obj.(targets := if subscriber then [x] + obj.targets else obj.targets,
      subscribers := if target then [x] + obj.subscribers else obj.subscribers), {x}) == obj
  {
    MinusNone(obj.targets, {x});
    MinusNone(obj.subscribers, {x});
    assert ([x] + obj.targets)[1..] == obj.targets && ([x] + obj.subscribers)[1..] == obj.subscribers;
  }

  /** The patterns as the scan for receivers walks through them: it may rely on what it needs. */
  lemma ScanReady(s: State)
    requires Inv(s)
    ensures (forall e :: e in s.patterns ==> e in s.sources)
      && var es := seq(|s.patterns|, i requires 0 <= i < |s.patterns| => s.sources[s.patterns[i]]);
         EventScan.Sorted(es) && forall e :: e in es ==> e.obj in s.objs && IsCString(e.key)
  {
    hide IdsOk, PathsOk, KindsOk, OwnersOk, KindIdsOk, ClientIdsOk, SubsOk, ListsOk, EventsOk, Distinct, Leq;
    KnownPatterns(s);
    assert s.patterns != [] ==> s.patterns[0] in s.patterns;
    forall i, j | 0 <= i <= j < |s.patterns| ensures Leq(s.sources[s.patterns[i]].key, s.sources[s.patterns[j]].key) {
      LeqReflexive(s.sources[s.patterns[i]].key);
      assert i < j ==> NoLater(s.sources, s.patterns[i], s.patterns[j]);
    }
  }
}
