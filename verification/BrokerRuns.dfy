/** Runs of the bus daemon: what no request, however many come, can do to an object that stays. */
module BrokerRuns {
  import opened JsonValue
  import opened Lists
  import opened Strings
  import EventScan
  import opened BrokerGraph
  import opened BrokerSteps
  import opened Broker
  import opened BrokerProto

  /** What the handlers do to the graph */
  datatype Change =
    | Connect(c: Ref, id: nat)
    | Leave(c: Ref)
    | Add(o: Ref, id: nat, pick: Pick, path: Option<string>, client: Option<Ref>)
    | Remove(o: Ref)
    | Subscribe(x: Ref, obj: Ref, target: Ref)
    | Unsubscribe(x: Ref)
    | Register(e: Ref, o: Ref, key: string, partial: bool)

  ghost predicate Allowed(s: State, ch: Change) {
    match ch
    case Connect(c, id) => c !in s.clients && id !in s.clientIds
    case Leave(c) => c in s.clients
    case Add(o, id, pick, path, client) =>
      && Picks(s, pick) && o !in s.objs && id !in s.ids
      && (client.Some? ==> client.value in s.clients) && (path.Some? ==> path.value !in s.paths)
    case Remove(o) => o in s.objs
    case Subscribe(x, obj, target) =>
      && x !in s.subs && obj in s.objs && target in s.objs
      && s.objs[obj].client.Some? && s.objs[target].client.Some? && s.objs[obj].client != s.objs[target].client
    case Unsubscribe(x) => x in s.subs
    case Register(e, o, key, partial) =>
      && e !in s.sources && o in s.objs && s.objs[o].client.Some? && s.objs[o].id >= SYSTEM_OBJECT_MAX && IsCString(key)
      && forall f :: f in s.patterns ==> f in s.sources
  }

  ghost function Apply(s: State, ch: Change): State
    requires Allowed(s, ch)
  {
    match ch
    case Connect(c, id) => s.(clients := s.clients[c := Client(id, [])], clientIds := s.clientIds[id := c])
    case Leave(c) => Disconnected(s, c)
    case Add(o, id, pick, path, client) => Added(s, o, id, pick, path, client)
    case Remove(o) => Without(s, {o})
    case Subscribe(x, obj, target) => Subscribed(s, x, obj, target)
    case Unsubscribe(x) => Unsubscribed(s, {x})
    case Register(e, o, key, partial) => Registered(s, e, o, key, partial)
  }

  /** Every change keeps the graph consistent. */
  lemma ChangeKeeps(s: State, ch: Change)
    requires Inv(s) && Allowed(s, ch)
    ensures Inv(Apply(s, ch))
  {
    hide Inv, Without, Disconnected, Subscribed, Unsubscribed, Registered, Added;
    match ch
    case Connect(c, id) => ConnectedOk(s, c, id);
    case Leave(c) => LeaveOk(s, c);
    case Add(o, id, pick, path, client) => AddedOk(s, o, id, pick, path, client);
    case Remove(o) => WithoutOk(s, {o});
    case Subscribe(x, obj, target) => SubscribedOk(s, x, obj, target);
    case Unsubscribe(x) => UnsubscribedOk(s, {x});
    case Register(e, o, key, partial) => RegisteredOk(s, e, o, key, partial);
  }

  lemma ConnectedOk(s: State, c: Ref, id: nat)
    requires Inv(s) && c !in s.clients && id !in s.clientIds
    ensures Inv(s.(clients := s.clients[c := Client(id, [])], clientIds := s.clientIds[id := c]))
  {
    hide IdsOk, PathsOk, KindsOk, PatternsOk, KindIdsOk, SubsOk, ListsOk, SourcesOk, EventsOk;
  }

  /** An object that stays keeps its number, its owner, its path and its type. */
  ghost predicate SameObject(s: State, t: State, o: Ref) {
    && o in s.objs && o in t.objs && t.objs[o].id == s.objs[o].id && t.objs[o].client == s.objs[o].client
    && t.objs[o].path == s.objs[o].path && t.objs[o].kind == s.objs[o].kind
  }

  lemma ChangeSpares(s: State, ch: Change, o: Ref)
    requires Allowed(s, ch) && o in s.objs && o in Apply(s, ch).objs
    ensures SameObject(s, Apply(s, ch), o)
  {
    hide Without, Minus, Picked;
    if ch.Leave? { WithoutObjs(s, Elements(s.clients[ch.c].objects)); }
    if ch.Remove? { WithoutObjs(s, {ch.o}); }
  }

  ghost predicate IsRun(run: seq<State>, changes: seq<Change>) {
    && |run| == |changes| + 1 && Inv(run[0])
    && forall i :: 0 <= i < |changes| ==> Step(run[i], changes[i], run[i+1])
  }

  ghost predicate Step(s: State, ch: Change, t: State) {
    Allowed(s, ch) && t == Apply(s, ch)
  }

  /** As long as it is there, an object keeps its number and its owner. */
  lemma {:induction false} NumberStays(run: seq<State>, changes: seq<Change>, o: Ref)
    requires IsRun(run, changes) && forall i :: 0 <= i < |run| ==> o in run[i].objs
    ensures Inv(run[|changes|]) && SameObject(run[0], run[|changes|], o)
    decreases |changes|
  {
    hide Inv, Allowed, Apply;
    var n := |changes|;
    if n > 0 {
      assert forall i :: 0 <= i < n - 1 ==> Step(run[i], changes[i], run[i+1]);
      NumberStays(run[..n], changes[..n-1], o);
      assert run[..n][n-1] == run[n-1] && Step(run[n-1], changes[n-1], run[n]);
      ChangeKeeps(run[n-1], changes[n-1]);
      ChangeSpares(run[n-1], changes[n-1], o);
    }
  }

  /** An object with a number of the system never has a pattern. */
  lemma NoPatterns(s: State, o: Ref)
    requires Inv(s) && o in s.objs && s.objs[o].id < SYSTEM_OBJECT_MAX
    ensures forall e :: e in s.sources ==> s.sources[e].obj != o
  {
    hide IdsOk, PathsOk, KindsOk, PatternsOk, KindIdsOk, SubsOk, ListsOk, OwnersOk, ClientIdsOk;
  }

  /** An object that came by a number of the system is deaf for ever: it gets no event in any state of any run. */
  lemma DeafForEver(run: seq<State>, changes: seq<Change>, o: Ref, id: string, clients: map<Ref, Option<Ref>>,
                    sender: Option<Ref>)
    requires IsRun(run, changes)
      && (forall i :: 0 <= i < |run| ==> o in run[i].objs)
      && run[0].objs[o].id < SYSTEM_OBJECT_MAX
    requires clients.Keys == run[|changes|].objs.Keys
    ensures Inv(run[|changes|]) && run[|changes|].objs[o].id < SYSTEM_OBJECT_MAX
    ensures (forall e :: e in Patterns(run[|changes|]) ==> e.obj in clients)
      && o !in EventScan.Receivers(Patterns(run[|changes|]), id, clients, sender, {})
  {
    hide Inv, EventScan.Sorted, EventScan.Concerns;
    NumberStays(run, changes, o);
    var s := run[|changes|];
    NoPatterns(s, o);
    ScanReady(s);
    EventScan.ReceiversAreRight(Patterns(s), id, clients, sender, {});
  }

  /** A client adds an object and registers a pattern for it: it is refused if and only if the first free number that
      was read is one of the system's. */
  method NumberDecides(b: Broker, cl: Ref, objtype: Option<nat>, signature: Option<bool>, path: Option<string>,
      kindNumbers: seq<nat>, numbers: seq<nat>, pattern: string, before: char)
    returns (outcome: Outcome)
    requires b.Valid() && cl in b.g.clients && FirstFree(b.g.ids, numbers).Some?
    requires (path.Some? ==> path.value !in b.g.paths) && IsCString(pattern) && (pattern != "" || before != '*')
    modifies b
    ensures b.Valid()
    ensures outcome
        == Replied(if FirstFree(old(b.g).ids, numbers).value < SYSTEM_OBJECT_MAX then PermissionDenied else Done)
  {
    hide Good, FirstFree, Registered, Choose, Picked;
    var id := FirstFree(b.g.ids, numbers).value;
    ghost var o;
    var added;
    added, o := HandleAddObject(b, cl, objtype, signature, path, kindNumbers, numbers);
    outcome := AllocEventPattern(b, cl, Some(id), Some(pattern), before);
  }
}
