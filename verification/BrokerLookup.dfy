/** The lookups of ubus/ubusd_proto.c: which objects are sent, and where the type of one is missing. */
module BrokerLookup {
  import opened JsonValue
  import opened Lists
  import opened Strings
  import opened BrokerGraph
  import opened BrokerSteps
  import opened Broker
  import opened BrokerProto

  // ---------- the paths that a lookup is for

  /** The paths that start with the prefix */
  function WithPrefix(paths: seq<string>, prefix: string): (r: seq<string>)
    ensures forall p :: p in r <==> p in paths && StartsWith(p, prefix)
  {
    if paths == [] then []
    else (if StartsWith(paths[0], prefix) then [paths[0]] else []) + WithPrefix(paths[1..], prefix)
  }

  lemma {:induction false} WithPrefixConcat(a: seq<string>, b: seq<string>, prefix: string)
    ensures WithPrefix(a + b, prefix) == WithPrefix(a, prefix) + WithPrefix(b, prefix)
  {
    if a == [] {
      assert a + b == b;
    } else {
      assert (a + b)[1..] == a[1..] + b;
      WithPrefixConcat(a[1..], b, prefix);
    }
  }

  lemma {:induction false} WithPrefixNone(paths: seq<string>, prefix: string)
    requires forall p :: p in paths ==> !StartsWith(p, prefix)
    ensures WithPrefix(paths, prefix) == []
  {
    if paths != [] { WithPrefixNone(paths[1..], prefix); }
  }

  /** avl_find_ge_element: the first path that comes no earlier than the key */
  function FirstFrom(paths: seq<string>, key: string): (n: nat)
    ensures n <= |paths| && (forall i :: 0 <= i < n ==> !Leq(key, paths[i])) && (n < |paths| ==> Leq(key, paths[n]))
  {
    if paths == [] || Leq(key, paths[0]) then 0 else 1 + FirstFrom(paths[1..], key)
  }

  /** Paths before the first, and behind one that lacks the prefix, lack it too. */
  lemma LacksPrefix(paths: seq<string>, prefix: string, g: nat, i: nat, j: nat)
    requires Ascending(paths) && g == FirstFrom(paths, prefix) && i < |paths| && j < |paths|
      && StartsWith(paths[j], prefix)
    ensures g <= j && (g <= i <= j ==> StartsWith(paths[i], prefix))
  {
    PrefixLeq(prefix, paths[j]);
    if g <= i <= j {
      LeqTransitive(prefix, paths[g], paths[i]);
      PrefixBetween(prefix, paths[i], paths[j]);
    }
  }

  lemma HeadLacks(paths: seq<string>, prefix: string, g: nat)
    requires Ascending(paths) && g == FirstFrom(paths, prefix)
    ensures WithPrefix(paths, prefix) == WithPrefix(paths[g..], prefix)
  {
    hide Ascending, WithPrefix, StartsWith, FirstFrom;
    forall p | p in paths[..g] ensures !StartsWith(p, prefix) {
      var j :| 0 <= j < g && paths[j] == p;
      if StartsWith(p, prefix) { LacksPrefix(paths, prefix, g, j, j); }
    }
    WithPrefixNone(paths[..g], prefix);
    WithPrefixConcat(paths[..g], paths[g..], prefix);
    assert paths == paths[..g] + paths[g..];
  }

  lemma TailLacks(paths: seq<string>, prefix: string, g: nat, i: nat)
    requires Ascending(paths) && g == FirstFrom(paths, prefix) && g <= i <= |paths|
    requires i < |paths| ==> !StartsWith(paths[i], prefix)
    ensures WithPrefix(paths[g..], prefix) == WithPrefix(paths[g..i], prefix)
  {
    hide Ascending, WithPrefix, StartsWith, FirstFrom;
    forall p | p in paths[i..] ensures !StartsWith(p, prefix) {
      var j :| i <= j < |paths| && paths[j] == p;
      if StartsWith(p, prefix) { LacksPrefix(paths, prefix, g, i, j); }
    }
    WithPrefixNone(paths[i..], prefix);
    WithPrefixConcat(paths[g..i], paths[i..], prefix);
    assert paths[g..] == paths[g..i] + paths[i..];
  }

  lemma SendOne(paths: seq<string>, prefix: string, g: nat, i: nat)
    requires g <= i < |paths| && StartsWith(paths[i], prefix)
    ensures WithPrefix(paths[g..i+1], prefix) == WithPrefix(paths[g..i], prefix) + [paths[i]]
    ensures WithPrefix(paths[g..], prefix)
         == WithPrefix(paths[g..i], prefix) + [paths[i]] + WithPrefix(paths[i+1..], prefix)
  {
    assert paths[g..i+1] == paths[g..i] + [paths[i]] && paths[g..] == paths[g..i+1] + paths[i+1..];
    WithPrefixConcat(paths[g..i], [paths[i]], prefix);
    WithPrefixConcat(paths[g..i+1], paths[i+1..], prefix);
    assert WithPrefix([paths[i]], prefix) == [paths[i]];
  }

  // ---------- the tree of paths

  /** The tree of paths holds those of the graph, in the order of strcmp. */
  ghost predicate IsTree(order: seq<string>, paths: map<string, Ref>) {
    Ascending(order) && Distinct(order) && forall p :: p in order <==> p in paths
  }

  /** Every set of paths can be put in order. */
  lemma {:induction false} CanBeListed(paths: map<string, Ref>) returns (order: seq<string>)
    ensures IsTree(order, paths)
    decreases |paths.Keys|
  {
    hide IsTree;
    if paths.Keys == {} {
      order := [];
      NoPaths(paths);
    } else {
      var p :| p in paths;
      assert (paths - {p}).Keys == paths.Keys - {p};
      var rest := CanBeListed(paths - {p});
      var i := FirstFrom(rest, p);
      order := rest[..i] + [p] + rest[i..];
      InPlace(rest, p, i, paths);
    }
  }

  lemma NoPaths(paths: map<string, Ref>)
    requires paths.Keys == {}
    ensures IsTree([], paths)
  {
    assert forall p :: p !in paths.Keys;
  }

  lemma InPlace(rest: seq<string>, p: string, i: nat, paths: map<string, Ref>)
    requires IsTree(rest, paths - {p}) && p in paths && i == FirstFrom(rest, p)
    ensures IsTree(rest[..i] + [p] + rest[i..], paths)
  {
    hide Ascending, Distinct;
    Between(rest, p, i);
    PutMembers(rest, p, i);
    PutDistinct(rest, p, i);
  }

  lemma PutMembers(rest: seq<string>, p: string, i: nat)
    requires i <= |rest|
    ensures forall q :: q in rest[..i] + [p] + rest[i..] <==> q in rest || q == p
  {
    assert rest == rest[..i] + rest[i..];
  }

  lemma PutDistinct(rest: seq<string>, p: string, i: nat)
    requires i <= |rest| && Distinct(rest) && p !in rest
    ensures Distinct(rest[..i] + [p] + rest[i..])
  {
    var order := rest[..i] + [p] + rest[i..];
    forall k, l | 0 <= k < l < |order| ensures order[k] != order[l] {
      assert k != i ==> order[k] == rest[if k < i then k else k - 1];
      assert l != i ==> order[l] == rest[if l < i then l else l - 1];
    }
  }

  lemma Between(rest: seq<string>, p: string, i: nat)
    requires Ascending(rest) && i == FirstFrom(rest, p)
    ensures Ascending(rest[..i] + [p] + rest[i..])
  {
    var order := rest[..i] + [p] + rest[i..];
    forall k, l | 0 <= k <= l < |order| ensures Leq(order[k], order[l]) {
      LeqReflexive(p);
      if k < i == l { LeqTotal(rest[k], p); }
      if k == i < l { LeqTransitive(p, rest[i], rest[l-1]); }
    }
  }

  // ---------- ubusd_handle_lookup

  /** The paths that a lookup is for. An empty string with a star in front is compared as a whole. */
  function Wanted(order: seq<string>, objpath: Option<string>, before: char): seq<string> {
    if objpath.None? then order
    else
      var p := objpath.value;
      if p == "" || Last(p, before) != '*' then (if p in order then [p] else []) else WithPrefix(order, p[..|p|-1])
  }

  lemma WantedAreThere(order: seq<string>, objpath: Option<string>, before: char)
    ensures forall p :: p in Wanted(order, objpath, before) ==> p in order
  {
  }

  /** The objects of some paths */
  function Objects(s: State, ps: seq<string>): (r: seq<Ref>)
    requires forall p :: p in ps ==> p in s.paths
    ensures |r| == |ps| && forall i :: 0 <= i < |ps| ==> r[i] == s.paths[ps[i]]
  {
    seq(|ps|, i requires 0 <= i < |ps| => s.paths[ps[i]])
  }

  /** An object has a type that can be sent. */
  predicate Typed(s: State, o: Ref) {
    o in s.objs && s.objs[o].kind.Some?
  }

  /** How far the objects can be sent: up to the first one that has no type */
  function Sendable(s: State, list: seq<Ref>): (n: nat)
    ensures n <= |list| && (forall i :: 0 <= i < n ==> Typed(s, list[i])) && (n < |list| ==> !Typed(s, list[n]))
  {
    if list == [] || !Typed(s, list[0]) then 0 else 1 + Sendable(s, list[1..])
  }

  lemma {:induction false} SendableIs(s: State, list: seq<Ref>, n: nat)
    requires n <= |list| && (forall i :: 0 <= i < n ==> Typed(s, list[i])) && (n < |list| ==> !Typed(s, list[n]))
    ensures Sendable(s, list) == n
  {
    if n > 0 {
      assert Typed(s, list[0]) && forall i :: 0 <= i < n - 1 ==> list[1..][i] == list[i+1];
      SendableIs(s, list[1..], n - 1);
    }
  }

  /** The tree of paths leads to objects. */
  lemma PathsLead(b: Broker, order: seq<string>)
    requires b.Valid() && IsTree(order, b.g.paths)
    ensures forall p ::
        p in order ==> p in b.g.paths && b.g.paths[p] in b.g.objs && b.g.objs[b.g.paths[p]].path == Some(p)
  {
    hide IdsOk, KindsOk, OwnersOk, PatternsOk, KindIdsOk, ClientIdsOk, SubsOk, ListsOk, SourcesOk, EventsOk, NoRepeats,
      Told, Ascending;
  }

  /** ubusd_send_obj: it reads the type of the object, which may not be there. */
  method SendObj(b: Broker, o: Ref, sent: seq<Ref>) returns (sent': seq<Ref>, ok: bool)
    requires o in b.g.objs
    ensures ok == Typed(b.g, o) && sent' == if ok then sent + [o] else sent
  {
    if b.g.objs[o].kind.None? {
      return sent, false;
    }
    return sent + [o], true;
  }

  lemma InTree(tree: seq<string>, prefix: string)
    ensures forall p :: p in WithPrefix(tree, prefix) ==> p in tree
    ensures forall i, j, p :: 0 <= i <= j <= |tree| && p in WithPrefix(tree[i..j], prefix) ==> p in tree
  {
  }

  /** What is sent for some paths, in order, and how it ends */
  ghost predicate Sends(s: State, ps: seq<string>, sent: seq<Ref>, ok: bool)
    requires forall p :: p in ps ==> p in s.paths
  {
    var list := Objects(s, ps);
    var n := Sendable(s, list);
    sent == list[..n] && ok == (n == |list|)
  }

  /** One more path: it is sent, or it is the first that cannot be. */
  lemma SendsMore(s: State, ps: seq<string>, sent: seq<Ref>, p: string, more: seq<string>)
    requires (forall q :: q in ps || q in more ==> q in s.paths) && p in s.paths && Sends(s, ps, sent, true)
    ensures forall q :: q in ps + [p] + more ==> q in s.paths
    ensures Typed(s, s.paths[p]) ==> Sends(s, ps + [p], sent + [s.paths[p]], true)
    ensures !Typed(s, s.paths[p]) ==> Sends(s, ps + [p] + more, sent, false)
  {
    hide Typed;
    var list, all := Objects(s, ps), Objects(s, ps + [p] + more);
    assert all[..|ps|] == list && all[|ps|] == s.paths[p] && list[..|list|] == list;
    if Typed(s, s.paths[p]) {
      var list' := Objects(s, ps + [p]);
      assert list' == list + [s.paths[p]] && list'[..|list'|] == list';
      SendableIs(s, list', |ps| + 1);
    } else {
      forall i | 0 <= i < |ps| ensures Typed(s, all[i]) { assert all[i] == list[i]; }
      SendableIs(s, all, |ps|);
    }
  }

  /** The first branch of ubusd_handle_lookup: all objects that have a path */
  method SendAll(b: Broker, tree: seq<string>) returns (sent: seq<Ref>, ok: bool)
    requires b.Valid() && IsTree(tree, b.g.paths)
    ensures (forall p :: p in tree ==> p in b.g.paths) && Sends(b.g, tree, sent, ok)
  {
    hide Sends, Ascending, Inv;
    PathsLead(b, tree);
    NothingSent(b.g);
    sent, ok := [], true;
    var i := 0;
    assert tree[..0] == [];
    while i < |tree|
      invariant i <= |tree| && ok && Sends(b.g, tree[..i], sent, true)
    {
      assert tree[..i+1] == tree[..i] + [tree[i]] && tree == tree[..i] + [tree[i]] + tree[i+1..];
      SendsMore(b.g, tree[..i], sent, tree[i], tree[i+1..]);
      sent, ok := SendObj(b, b.g.paths[tree[i]], sent);
      if !ok {
        return;
      }
      i := i + 1;
    }
    assert tree[..|tree|] == tree;
  }

  lemma NothingSent(s: State)
    ensures Sends(s, [], [], true)
  {
  }

  /** The last branch, for a path that ends in a star: the walk starts at the first path that comes no earlier than the
      prefix, and stops at the first one without it. */
  method SendPrefix(b: Broker, tree: seq<string>, prefix: string) returns (sent: seq<Ref>, ok: bool, found: bool)
    requires b.Valid() && IsTree(tree, b.g.paths)
    ensures (forall p :: p in WithPrefix(tree, prefix) ==> p in b.g.paths)
      && Sends(b.g, WithPrefix(tree, prefix), sent, ok)
    ensures found <==> WithPrefix(tree, prefix) != []
  {
    hide Sends, Ascending, Inv, WithPrefix, FirstFrom, StartsWith;
    PathsLead(b, tree);
    NothingSent(b.g);
    sent, ok, found := [], true, false;
    var g := FirstFrom(tree, prefix);
    InTree(tree, prefix);
    HeadLacks(tree, prefix, g);
    WithPrefixNone(tree[g..g], prefix);
    if g == |tree| {
      assert tree[g..] == tree[g..g];
      return;
    }
    var i := g;
    while StartsWith(tree[i], prefix)
      invariant g <= i < |tree| && ok && Sends(b.g, WithPrefix(tree[g..i], prefix), sent, true)
      invariant found <==> WithPrefix(tree[g..i], prefix) != []
      decreases |tree| - i
    {
      found := true;
      SendOne(tree, prefix, g, i);
      SendsMore(b.g, WithPrefix(tree[g..i], prefix), sent, tree[i], WithPrefix(tree[i+1..], prefix));
      sent, ok := SendObj(b, b.g.paths[tree[i]], sent);
      if !ok {
        return;
      }
      if i == |tree| - 1 {
        TailLacks(tree, prefix, g, i + 1);
        return;
      }
      i := i + 1;
    }
    TailLacks(tree, prefix, g, i);
  }

  /** ubusd_handle_lookup. The objects that are wanted are sent, in order, up to the first one without a type, where it
      fails. Before is the byte in front of the string that is looked up. */
  method HandleLookup(b: Broker, tree: seq<string>, objpath: Option<string>, before: char)
    returns (outcome: Outcome, sent: seq<Ref>)
    requires b.Valid() && IsTree(tree, b.g.paths)
    ensures forall p :: p in Wanted(tree, objpath, before) ==> p in b.g.paths
    ensures Sends(b.g, Wanted(tree, objpath, before), sent, outcome != Fault)
    ensures outcome != Fault ==>
      outcome == Replied(if objpath.Some? && Wanted(tree, objpath, before) == [] then NotFound else Done)
  {
    hide Sends, Ascending, Inv, WithPrefix;
    PathsLead(b, tree);
    WantedAreThere(tree, objpath, before);
    NothingSent(b.g);
    var ok;
    if objpath.None? {
      sent, ok := SendAll(b, tree);
      return if ok then Replied(Done) else Fault, sent;
    }
    var p := objpath.value;
    if p == "" || Last(p, before) != '*' {
      if p !in b.g.paths {
        return Replied(NotFound), [];
      }
      sent, ok := SendObj(b, b.g.paths[p], []);
      SendsMore(b.g, [], [], p, []);
      assert [] + [p] == [p] && [p] + [] == [p];
      return if ok then Replied(Done) else Fault, sent;
    }
    var found;
    sent, ok, found := SendPrefix(b, tree, p[..|p|-1]);
    return if !ok then Fault else if found then Replied(Done) else Replied(NotFound), sent;
  }

  // ---------- when lookups fail

  /** Every path leads to an object with a type. */
  ghost predicate AllTyped(s: State) {
    forall p :: p in s.paths ==> Typed(s, s.paths[p])
  }

  lemma {:induction false} SendableAll(s: State, list: seq<Ref>)
    ensures Sendable(s, list) == |list| <==> forall o :: o in list ==> Typed(s, o)
  {
    var n := Sendable(s, list);
    if n < |list| { assert list[n] in list; }
  }

  /** No lookup can fail if and only if every object with a path has a type; otherwise the lookup without a path
      does. */
  lemma WhenLookupsFail(s: State, tree: seq<string>)
    requires IsTree(tree, s.paths)
    ensures AllTyped(s) <==> Sendable(s, Objects(s, tree)) == |tree|
    ensures AllTyped(s) ==> forall objpath, before :: SendsAll(s, Wanted(tree, objpath, before))
  {
    hide Ascending, Typed, WithPrefix;
    var all := Objects(s, tree);
    SendableAll(s, all);
    assert forall i :: 0 <= i < |tree| ==> all[i] in all;
    forall objpath, before | AllTyped(s) ensures SendsAll(s, Wanted(tree, objpath, before)) {
      WantedAreThere(tree, objpath, before);
      SendableAll(s, Objects(s, Wanted(tree, objpath, before)));
    }
  }

  ghost predicate SendsAll(s: State, ps: seq<string>) {
    (forall p :: p in ps ==> p in s.paths) && Sendable(s, Objects(s, ps)) == |ps|
  }

  /** A request to add an object gives it a path and no type, if it has neither a signature nor the number of a type
      that is there; the answer is that all is well, and the next lookup of the path fails. */
  method AddUntyped(b: Broker, cl: Ref, objtype: Option<nat>, path: string, numbers: seq<nat>, tree: seq<string>)
    returns (added: Outcome, looked: Outcome)
    requires b.Valid() && cl in b.g.clients && path !in b.g.paths && (objtype.Some? ==> objtype.value !in b.g.kindIds)
    requires FirstFree(b.g.ids, numbers).Some? && path != "" && path[|path|-1] != '*' && IsTree(tree, b.g.paths)
    modifies b
    ensures b.Valid() && added == Replied(Done) && looked == Fault
  {
    hide Good, FirstFree, Ascending;
    ghost var paths := b.g.paths;
    ghost var o;
    added, o := HandleAddObject(b, cl, objtype, None, Some(path), [], numbers);
    var i := FirstFrom(tree, path);
    assert b.g.paths - {path} == paths;
    InPlace(tree, path, i, b.g.paths);
    var sent;
    looked, sent := HandleLookup(b, tree[..i] + [path] + tree[i..], Some(path), NUL);
    Untyped(b.g, path);
  }

  lemma Untyped(s: State, p: string)
    requires p in s.paths && !Typed(s, s.paths[p])
    ensures forall sent, ok :: Sends(s, [p], sent, ok) ==> !ok
  {
    assert Objects(s, [p])[0] == s.paths[p];
  }
}
