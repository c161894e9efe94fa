/** safe_list_for_each of libubox/safe_list.c, with callbacks that delete and add nodes and walk the list again. */
module SafeWalk {
  import opened SafeList
  import opened WalkLog

  /** What a callback may do: change the list, and walk it; the k-th call of a walk does what the k-th of its callbacks
      says. */
  datatype Op = Delete(n: Node) | Append(n: Node) | Prepend(n: Node) | Walk(callbacks: seq<Callback>)

  /** stop says that the callback returns something other than 0. */
  datatype Callback = Callback(ops: seq<Op>, stop: bool)

  // ---------- what the log of an operation, of a callback and of a walk is

  ghost predicate Did(op: Op, head: Node, before: set<Node>, log: seq<Event>, depth: nat)
    decreases op, 0, 0
  {
    match op
    case Delete(n) => log == if n in before then [Left(n)] else []
    case Append(n) => log == if n in before || n == head then [] else [Joined(n)]
    case Prepend(n) => log == if n in before || n == head then [] else [Joined(n)]
    case Walk(callbacks) => exists k: nat :: DidWalk(callbacks, k, head, before, log, depth)
  }

  ghost predicate DidAll(ops: seq<Op>, head: Node, before: set<Node>, log: seq<Event>, depth: nat)
    decreases ops, 0, 0
  {
    if ops == [] then log == []
    else
      exists i: nat :: i <= |log| && Did(ops[0], head, before, log[..i], depth)
        && DidAll(ops[1..], head, After(before, log[..i]), log[i..], depth)
  }

  /** k visits, and what the callbacks of the walk do on each */
  ghost predicate DidWalk(callbacks: seq<Callback>, k: nat, head: Node, before: set<Node>, log: seq<Event>, depth: nat)
    decreases callbacks, 1, k
  {
    if k == 0 then log == []
    else
      exists i: nat :: i < |log| && log[i].Seen? && log[i].depth == depth
        && DidWalk(callbacks, k - 1, head, before, log[..i], depth)
        && if k - 1 < |callbacks| then
             DidAll(callbacks[k-1].ops, head, After(before, log[..i]), log[i+1..], depth + 1)
           else i + 1 == |log|
  }

  lemma DidMore(ops: seq<Op>, head: Node, before: set<Node>, a: seq<Event>, b: seq<Event>, depth: nat)
    requires ops != [] && Did(ops[0], head, before, a, depth) && DidAll(ops[1..], head, After(before, a), b, depth)
    ensures DidAll(ops, head, before, a + b, depth)
  {
    assert (a + b)[..|a|] == a && (a + b)[|a|..] == b;
  }

  lemma DidVisit(callbacks: seq<Callback>, k: nat, head: Node, before: set<Node>, a: seq<Event>, n: Node, b: seq<Event>,
                 depth: nat)
    requires DidWalk(callbacks, k, head, before, a, depth)
    requires if k < |callbacks| then DidAll(callbacks[k].ops, head, After(before, a), b, depth + 1) else b == []
    ensures DidWalk(callbacks, k + 1, head, before, a + [Seen(n, depth)] + b, depth)
  {
    var log := a + [Seen(n, depth)] + b;
    assert log[..|a|] == a && log[|a|+1..] == b && log[|a|] == Seen(n, depth);
  }

  /** What the log of a walk says while it goes on */
  ghost predicate Told(callbacks: seq<Callback>, visited: seq<Node>, head: Node, before: set<Node>, log: seq<Event>,
      after: set<Node>, gone: set<Node>, depth: nat) {
    && Logged(before, log, after, gone, depth) && SeenAt(log, depth) == visited
    && DidWalk(callbacks, |visited|, head, before, log, depth)
  }

  lemma DidNothing(callbacks: seq<Callback>, head: Node, before: set<Node>, depth: nat)
    ensures DidWalk(callbacks, 0, head, before, [], depth) && DidAll([], head, before, [], depth)
  {
  }

  /** The k-th call says that the walk ends; so does a call for which nothing is said. */
  predicate Stops(callbacks: seq<Callback>, k: nat) {
    k >= |callbacks| || callbacks[k].stop
  }

  /** None of the first n calls does. */
  ghost predicate NoneStops(callbacks: seq<Callback>, n: nat) {
    forall k: nat :: k < n ==> !Stops(callbacks, k)
  }

  lemma NoneYet(callbacks: seq<Callback>)
    ensures NoneStops(callbacks, 0)
  {
  }

  lemma OneMoreGoesOn(callbacks: seq<Callback>, k: nat)
    requires NoneStops(callbacks, k) && !Stops(callbacks, k)
    ensures NoneStops(callbacks, k + 1) && k < |callbacks|
  {
  }

  // ---------- sequences

  /** The members of s that are to be kept in view */
  ghost function Only<T>(s: seq<T>, keep: set<T>): seq<T> {
    if s == [] then [] else if s[0] in keep then [s[0]] + Only(s[1..], keep) else Only(s[1..], keep)
  }

  lemma {:induction false} OnlyMembers<T>(s: seq<T>, keep: set<T>)
    ensures (forall x :: x in Only(s, keep) ==> x in s && x in keep) && forall x :: x in s && x in keep ==>
      x in Only(s, keep)
  {
    if s != [] { OnlyMembers(s[1..], keep); }
  }

  lemma {:induction false} OnlyConcat<T>(a: seq<T>, b: seq<T>, keep: set<T>)
    ensures Only(a + b, keep) == Only(a, keep) + Only(b, keep)
  {
    if a == [] {
      assert a + b == b;
    } else {
      OnlyConcat(a[1..], b, keep);
      assert (a + b)[1..] == a[1..] + b;
    }
  }

  lemma {:induction false} OnlyTwice<T>(s: seq<T>, keep: set<T>, fewer: set<T>)
    requires fewer <= keep
    ensures Only(Only(s, keep), fewer) == Only(s, fewer)
  {
    if s != [] {
      OnlyTwice(s[1..], keep, fewer);
      if s[0] in keep {
        assert Only(s, keep)[1..] == Only(s[1..], keep);
      } else {
        assert Only(s, keep) == Only(s[1..], keep);
      }
    }
  }

  lemma OnlyFewer<T>(s: seq<T>, s': seq<T>, keep: set<T>, fewer: set<T>)
    requires fewer <= keep && Only(s, keep) == Only(s', keep)
    ensures Only(s, fewer) == Only(s', fewer)
  {
    OnlyTwice(s, keep, fewer);
    OnlyTwice(s', keep, fewer);
  }

  lemma {:induction false} OnlyDistinct<T>(s: seq<T>, keep: set<T>)
    requires NoRepeats(s)
    ensures NoRepeats(Only(s, keep))
  {
    if s != [] {
      assert NoRepeats(s[1..]) && s[0] !in s[1..];
      OnlyDistinct(s[1..], keep);
      OnlyMembers(s[1..], keep);
    }
  }

  lemma OnlyOne<T>(x: T, keep: set<T>)
    ensures Only([x], keep) == if x in keep then [x] else []
  {
  }

  /** What is in front of a node; the head is behind all of them. */
  ghost function Front(order: seq<Node>, n: Node): seq<Node> {
    order[..Pos(order, n)]
  }

  lemma PosIs<T>(s: seq<T>, k: nat)
    requires NoRepeats(s) && k < |s|
    ensures Pos(s, s[k]) == k
  {
  }

  lemma FrontDeleted(order: seq<Node>, head: Node, x: Node, n: Node, keep: set<Node>)
    requires NoRepeats(order) && x in order && head !in order && x !in keep && (n in order || n == head)
    ensures var k := Pos(order, x) + 1; var next := if k < |order| then order[k] else head;
      Only(Front(Without(order, x), if n == x then next else n), keep) == Only(Front(order, n), keep)
  {
    hide Only, Pos, Without, NoRepeats;
    var d, p, o' := Pos(order, x), Pos(order, n), Without(order, x);
    var next := if d + 1 < |order| then order[d+1] else head;
    var n' := if n == x then next else n;
    var q := if p <= d then p else p - 1;
    WithoutAt(order, head, x, n);
    if p > d {
      OneTaken(order, d, p, keep);
      assert o'[..q] == order[..d] + order[d+1..p];
    }
  }

  lemma OneTaken(order: seq<Node>, d: nat, p: nat, keep: set<Node>)
    requires d < p <= |order| && order[d] !in keep
    ensures Only(order[..d] + order[d+1..p], keep) == Only(order[..p], keep)
  {
    hide Only;
    var a, b := order[..d], order[d+1..p];
    assert order[..p] == a + [order[d]] + b;
    OnlyConcat(a, b, keep);
    OnlyConcat(a + [order[d]], b, keep);
    OnlyConcat(a, [order[d]], keep);
    OnlyOne(order[d], keep);
    assert Only(a, keep) + [] == Only(a, keep);
  }

  lemma WithoutAt(order: seq<Node>, head: Node, x: Node, n: Node)
    requires NoRepeats(order) && x in order && head !in order && (n in order || n == head)
    ensures var d, p, o' := Pos(order, x), Pos(order, n), Without(order, x);
      var n' := if n == x then (if d + 1 < |order| then order[d+1] else head) else n;
      && o' == order[..d] + order[d+1..] && Pos(o', n') == (if p <= d then p else p - 1)
      && (p <= d ==> o'[..p] == order[..p])
  {
    var d, p, o' := Pos(order, x), Pos(order, n), Without(order, x);
    var n' := if n == x then (if d + 1 < |order| then order[d+1] else head) else n;
    var q := if p <= d then p else p - 1;
    WithoutFacts(order, x);
    if n' != head {
      assert o'[q] == n';
      PosIs(o', q);
    }
  }

  lemma FrontAppended(order: seq<Node>, head: Node, x: Node, n: Node, keep: set<Node>)
    requires NoRepeats(order + [x]) && head !in order + [x] && x !in keep && (n in order || n == head)
    ensures Only(Front(order + [x], n), keep) == Only(Front(order, n), keep)
  {
    var p, o' := Pos(order, n), order + [x];
    if n in order {
      assert o'[p] == n;
      PosIs(o', p);
      assert o'[..p] == order[..p];
    } else {
      assert Front(o', n) == order + [x] && Front(order, n) == order;
      OnlyConcat(order, [x], keep);
      OnlyOne(x, keep);
    }
  }

  lemma FrontPrepended(order: seq<Node>, head: Node, x: Node, n: Node, keep: set<Node>)
    requires NoRepeats([x] + order) && head !in [x] + order && x !in keep && (n in order || n == head)
    ensures Only(Front([x] + order, n), keep) == Only(Front(order, n), keep)
  {
    var p, o' := Pos(order, n), [x] + order;
    if n in order {
      assert o'[p+1] == n;
      PosIs(o', p + 1);
    }
    assert Front(o', n) == [x] + Front(order, n);
    OnlyConcat([x], Front(order, n), keep);
    OnlyOne(x, keep);
  }

  ghost function Members(s: seq<Node>): set<Node> {
    set n | n in s
  }

  /** The nodes a callback may add */
  ghost function Mentioned(ops: seq<Op>): set<Node>
    decreases ops
  {
    if ops == [] then {} else Named(ops[0]) + Mentioned(ops[1..])
  }

  ghost function Named(op: Op): set<Node>
    decreases op
  {
    match op
    case Delete(n) => {}
    case Append(n) => {n}
    case Prepend(n) => {n}
    case Walk(callbacks) => NamedIn(callbacks)
  }

  ghost function NamedIn(callbacks: seq<Callback>): set<Node>
    decreases callbacks
  {
    if callbacks == [] then {} else Mentioned(callbacks[0].ops) + NamedIn(callbacks[1..])
  }

  /** Where the iterators point */
  ghost function Nexts(l: List): map<Walker, Node>
    reads l`chain, All(l.chain)`next
  {
    map x | x in All(l.chain) :: x.next
  }

  /** Nodes that stay keep their places: in the list, and in front of where each iterator points. */
  ghost predicate Kept(order: seq<Node>, nexts: map<Walker, Node>, order': seq<Node>, nexts': map<Walker, Node>,
      gone: set<Node>) {
    var keep := Members(order) - gone;
    && keep <= Members(order') && Only(order', keep) == Only(order, keep)
    && forall x ::
         x in nexts ==> x in nexts' && Only(Front(order', nexts'[x]), keep) == Only(Front(order, nexts[x]), keep)
  }

  /** What a callback does: safe_list_del, safe_list_add, safe_list_add_first, and walks. Whatever would break the list,
      like adding a node twice, is left out. */
  method Do(l: List, op: Op, ghost depth: nat) returns (ghost gone: set<Node>, ghost log: seq<Event>)
    requires l.Valid()
    modifies l`chain, l`order, l.Nodes()`i, All(l.chain), Named(op)`i
    ensures l.Valid() && All(l.chain) == All(old(l.chain)) && l.Nodes() <= old(l.Nodes()) + Named(op)
    ensures Kept(old(l.order), old(Nexts(l)), l.order, Nexts(l), gone)
    ensures Logged(old(Members(l.order)), log, Members(l.order), gone, depth)
    ensures Did(op, l.head, old(Members(l.order)), log, depth)
    ensures op.Append? && op.n !in old(l.Nodes()) ==> l.order == old(l.order) + [op.n]
    ensures op.Prepend? && op.n !in old(l.Nodes()) ==> l.order == [op.n] + old(l.order)
    decreases op, 0
  {
    hide Kept, ChainOk, LinkOk, Apart, NoRepeats, Logged, DidWalk, DidAll;
    gone, log := {}, [];
    LoggedNothing(Members(l.order), depth);
    KeptSame(l.order, Nexts(l));
    match op {
      case Delete(n) =>
        if n in l.order {
          gone, log := {n}, [Left(n)];
          LoggedOne(Members(l.order), Left(n), depth);
          DoDelete(l, n);
        }
      case Append(n) =>
        if n !in l.order && n != l.head {
          log := [Joined(n)];
          LoggedOne(Members(l.order), Joined(n), depth);
          DoAppend(l, n);
        }
      case Prepend(n) =>
        if n !in l.order && n != l.head {
          log := [Joined(n)];
          LoggedOne(Members(l.order), Joined(n), depth);
          DoPrepend(l, n);
        }
      case Walk(callbacks) =>
        var visited, all;
        visited, all, gone, log := ForEach(l, callbacks, depth);
    }
  }

  lemma KeptDeleted(order: seq<Node>, head: Node, nexts: map<Walker, Node>, nexts': map<Walker, Node>, n: Node)
    requires NoRepeats(order) && n in order && head !in order && nexts'.Keys == nexts.Keys
    requires forall x :: x in nexts ==> nexts[x] in order || nexts[x] == head
    requires var k := Pos(order, n) + 1; var next := if k < |order| then order[k] else head;
      forall x :: x in nexts ==> nexts'[x] == if nexts[x] == n then next else nexts[x]
    ensures Kept(order, nexts, Without(order, n), nexts', {n})
  {
    hide Only, Front, Pos, Without, NoRepeats;
    var keep := Members(order) - {n};
    WithoutFacts(order, n);
    FrontDeleted(order, head, n, head, keep);
    WholeFront(order, head);
    WholeFront(Without(order, n), head);
    forall x | x in nexts
      ensures Only(Front(Without(order, n), nexts'[x]), keep) == Only(Front(order, nexts[x]), keep)
    {
      FrontDeleted(order, head, n, nexts[x], keep);
    }
  }

  lemma WholeFront(order: seq<Node>, head: Node)
    requires head !in order
    ensures Front(order, head) == order
  {
  }

  lemma KeptAppended(order: seq<Node>, head: Node, nexts: map<Walker, Node>, n: Node)
    requires NoRepeats(order + [n]) && head !in order + [n]
    requires forall x :: x in nexts ==> nexts[x] in order || nexts[x] == head
    ensures Kept(order, nexts, order + [n], nexts, {})
  {
    hide Only, Front, Pos;
    var keep := Members(order);
    forall k | 0 <= k < |order| ensures order[k] != n {
      assert (order + [n])[k] == order[k] && (order + [n])[|order|] == n;
    }
    FrontAppended(order, head, n, head, keep);
    WholeFront(order, head);
    WholeFront(order + [n], head);
    forall x | x in nexts ensures Only(Front(order + [n], nexts[x]), keep) == Only(Front(order, nexts[x]), keep) {
      FrontAppended(order, head, n, nexts[x], keep);
    }
    assert keep - {} == keep;
  }

  lemma KeptPrepended(order: seq<Node>, head: Node, nexts: map<Walker, Node>, n: Node)
    requires NoRepeats([n] + order) && head !in [n] + order
    requires forall x :: x in nexts ==> nexts[x] in order || nexts[x] == head
    ensures Kept(order, nexts, [n] + order, nexts, {})
  {
    hide Only, Front, Pos;
    var keep := Members(order);
    forall k | 0 <= k < |order| ensures order[k] != n {
      assert ([n] + order)[k+1] == order[k] && ([n] + order)[0] == n;
    }
    FrontPrepended(order, head, n, head, keep);
    WholeFront(order, head);
    WholeFront([n] + order, head);
    forall x | x in nexts ensures Only(Front([n] + order, nexts[x]), keep) == Only(Front(order, nexts[x]), keep) {
      FrontPrepended(order, head, n, nexts[x], keep);
    }
    assert keep - {} == keep;
  }

  lemma AllHanded(chain: map<Node, seq<Walker>>, n: Node, m: Node)
    requires n in chain && m in chain && n != m
    ensures All((chain - {n})[m := chain[n] + chain[m]]) == All(chain)
  {
    var chain' := (chain - {n})[m := chain[n] + chain[m]];
    forall x | x in All(chain) ensures x in All(chain') {
      var k: Node :| k in chain && x in chain[k];
      assert x in chain'[if k == n then m else k];
    }
    forall x | x in All(chain') ensures x in All(chain) {
      var k: Node :| k in chain' && x in chain'[k];
      assert k == m ==> x in chain[n] || x in chain[m];
    }
  }

  /** Where all iterators point is in the list, or the head. */
  lemma NextsKnown(l: List)
    requires l.Valid()
    ensures NoRepeats(l.order) && l.head !in l.order
    ensures forall x :: x in Nexts(l) ==>
      (Nexts(l)[x] in l.order || Nexts(l)[x] == l.head) && Nexts(l)[x] in l.chain && x in l.chain[Nexts(l)[x]]
  {
    hide NoRepeats, ChainOk, Apart;
    forall x | x in Nexts(l)
      ensures (x.next in l.order || x.next == l.head) && x.next in l.chain && x in l.chain[x.next]
    {
      l.Target(x);
    }
  }

  lemma Retargeted(l: List, nexts: map<Walker, Node>, n: Node, next: Node)
    requires l.Valid() && nexts.Keys == All(l.chain)
    requires forall x :: x in nexts ==>
      var m := if nexts[x] == n then next else nexts[x]; m in l.chain && x in l.chain[m]
    ensures Nexts(l).Keys == nexts.Keys
      && forall x :: x in nexts ==> Nexts(l)[x] == if nexts[x] == n then next else nexts[x]
  {
    forall x | x in nexts ensures x in Nexts(l) && Nexts(l)[x] == if nexts[x] == n then next else nexts[x] {
      l.TargetIs(x, if nexts[x] == n then next else nexts[x]);
    }
  }

  method DoDelete(l: List, n: Node)
    requires l.Valid() && n in l.order
    modifies l`chain, l`order, l.Nodes()`i, All(l.chain)`head, All(l.chain)`nextI, All(l.chain)`next
    ensures l.Valid() && All(l.chain) == All(old(l.chain)) && l.Nodes() <= old(l.Nodes())
    ensures Members(l.order) == old(Members(l.order)) - {n}
    ensures Kept(old(l.order), old(Nexts(l)), l.order, Nexts(l), {n})
  {
    hide Only, Front, NoRepeats, Pos, Without, ChainOk, LinkOk, Apart, Kept;
    ghost var order, chain, next, nexts := l.order, l.chain, l.Next(n), Nexts(l);
    NextsKnown(l);
    l.InNodes(n);
    l.NextDiffers(n);
    AllHanded(chain, n, next);
    WithoutFacts(order, n);
    ghost var k := Pos(order, n) + 1;
    assert next == if k < |order| then order[k] else l.head;
    l.Del(n);
    Retargeted(l, nexts, n, next);
    KeptDeleted(order, l.head, nexts, Nexts(l), n);
  }

  method DoAppend(l: List, n: Node)
    requires l.Valid() && n !in l.Nodes()
    modifies l`chain, l`order, n`i
    ensures l.Valid() && All(l.chain) == All(old(l.chain)) && l.Nodes() == old(l.Nodes()) + {n}
    ensures Members(l.order) == old(Members(l.order)) + {n} && l.order == old(l.order) + [n]
    ensures Kept(old(l.order), old(Nexts(l)), l.order, Nexts(l), {})
  {
    hide ChainOk, LinkOk, Apart, Kept, NoRepeats;
    ghost var nexts := Nexts(l);
    NextsKnown(l);
    AllAdded(l.chain, n);
    l.Add(n);
    assert Nexts(l) == nexts;
    KeptAppended(old(l.order), l.head, nexts, n);
  }

  lemma AllAdded(chain: map<Node, seq<Walker>>, n: Node)
    requires n !in chain
    ensures All(chain[n := []]) == All(chain)
  {
    var chain' := chain[n := []];
    forall x | x in All(chain) ensures x in All(chain') {
      var k: Node :| k in chain && x in chain[k];
      assert x in chain'[k];
    }
  }

  method DoPrepend(l: List, n: Node)
    requires l.Valid() && n !in l.Nodes()
    modifies l`chain, l`order, n`i
    ensures l.Valid() && All(l.chain) == All(old(l.chain)) && l.Nodes() == old(l.Nodes()) + {n}
    ensures Members(l.order) == old(Members(l.order)) + {n} && l.order == [n] + old(l.order)
    ensures Kept(old(l.order), old(Nexts(l)), l.order, Nexts(l), {})
  {
    hide ChainOk, LinkOk, Apart, Kept, NoRepeats;
    ghost var nexts := Nexts(l);
    NextsKnown(l);
    AllAdded(l.chain, n);
    l.AddFirst(n);
    assert Nexts(l) == nexts;
    KeptPrepended(old(l.order), l.head, nexts, n);
  }

  /** The operations of one callback */
  method DoAll(l: List, ops: seq<Op>, ghost depth: nat) returns (ghost gone: set<Node>, ghost log: seq<Event>)
    requires l.Valid()
    modifies l`chain, l`order, l.Nodes()`i, All(l.chain), Mentioned(ops)`i
    ensures l.Valid() && All(l.chain) == All(old(l.chain)) && l.Nodes() <= old(l.Nodes()) + Mentioned(ops)
    ensures Kept(old(l.order), old(Nexts(l)), l.order, Nexts(l), gone)
    ensures Logged(old(Members(l.order)), log, Members(l.order), gone, depth)
    ensures DidAll(ops, l.head, old(Members(l.order)), log, depth)
    decreases ops, 0
  {
    hide Only, Front, Kept, ChainOk, LinkOk, Apart, NoRepeats, Logged, Did, DidAll, DidWalk;
    if ops == [] {
      gone, log := {}, [];
      DidNothing([], l.head, Members(l.order), depth);
      LoggedNothing(Members(l.order), depth);
      KeptSame(l.order, Nexts(l));
      return;
    }
    gone, log := Do(l, ops[0], depth);
    ghost var order, nexts, more, rest := l.order, Nexts(l), gone, log;
    more, rest := DoAll(l, ops[1..], depth);
    KeptOn(old(l.order), old(Nexts(l)), order, nexts, gone, l.order, Nexts(l), more);
    LoggedBoth(old(Members(l.order)), log, Members(order), gone, rest, Members(l.order), more, depth);
    LoggedTo(old(Members(l.order)), log, Members(order), gone, depth);
    DidMore(ops, l.head, old(Members(l.order)), log, rest, depth);
    gone, log := gone + more, log + rest;
  }

  lemma KeptSame(order: seq<Node>, nexts: map<Walker, Node>)
    ensures Kept(order, nexts, order, nexts, {})
  {
  }

  lemma KeptOn(o0: seq<Node>, m0: map<Walker, Node>, o1: seq<Node>, m1: map<Walker, Node>, gone: set<Node>,
               o2: seq<Node>, m2: map<Walker, Node>, more: set<Node>)
    requires Kept(o0, m0, o1, m1, gone) && Kept(o1, m1, o2, m2, more)
    ensures Kept(o0, m0, o2, m2, gone + more)
  {
    hide Only, Front;
    var keep, keep1 := Members(o0) - (gone + more), Members(o1) - more;
    OnlyFewer(o0, o1, Members(o0) - gone, keep);
    OnlyFewer(o1, o2, keep1, keep);
    forall x | x in m0 ensures x in m2 && Only(Front(o2, m2[x]), keep) == Only(Front(o0, m0[x]), keep) {
      OnlyFewer(Front(o0, m0[x]), Front(o1, m1[x]), Members(o0) - gone, keep);
      OnlyFewer(Front(o1, m1[x]), Front(o2, m2[x]), keep1, keep);
    }
  }

  /** safe_list_for_each; all says that it came to the end of the list. Of the nodes that were there all the time, it
      visited those up to some point, or all, in order and once each. The log says what it visits, and what the
      callbacks delete, add and visit: no walk ever visits a node that is not in the list. */
  method ForEach(l: List, callbacks: seq<Callback>, ghost depth: nat)
    returns (visited: seq<Node>, all: bool, ghost gone: set<Node>, ghost log: seq<Event>)
    requires l.Valid()
    modifies l`chain, l`order, l.Nodes()`i, All(l.chain), NamedIn(callbacks)`i
    ensures l.Valid() && All(l.chain) == All(old(l.chain)) && l.Nodes() <= old(l.Nodes()) + NamedIn(callbacks)
    ensures Kept(old(l.order), old(Nexts(l)), l.order, Nexts(l), gone)
    ensures var keep := Members(old(l.order)) - gone;
      Only(visited, keep) <= Only(old(l.order), keep) && (all ==> Only(visited, keep) == Only(old(l.order), keep))
    ensures Logged(old(Members(l.order)), log, Members(l.order), gone, depth) && SeenAt(log, depth) == visited
    ensures all ==> NoneStops(callbacks, |visited|)
    ensures !all ==> visited != [] && Stops(callbacks, |visited| - 1) && NoneStops(callbacks, |visited| - 1)
    ensures DidWalk(callbacks, |visited|, l.head, old(Members(l.order)), log, depth)
    decreases callbacks, 2
  {
    hide Only, Front, Kept, ChainOk, LinkOk, Apart, NoRepeats, Pos, Walking, Logged, Keys, Stops, NoneStops, DidWalk;
    ghost var order, nexts, upto := l.order, Nexts(l), l.head;
    LoggedNothing(Members(order), depth);
    DidNothing(callbacks, l.head, Members(order), depth);
    var cur := l.Next(l.head);
    var w := new Walker(cur);
    Begin(l, cur, w);
    visited, all, gone, log, upto := Rounds(l, cur, callbacks, w, order, nexts, depth);
    End(l, w, order, nexts, gone, visited, upto);
  }

  /** The loop of safe_list_for_each */
  method Rounds(l: List, first: Node, callbacks: seq<Callback>, w: Walker, ghost order: seq<Node>,
                ghost nexts: map<Walker, Node>, ghost depth: nat)
    returns (visited: seq<Node>, all: bool, ghost gone: set<Node>, ghost log: seq<Event>, ghost upto: Node)
    requires l.Valid() && w in All(l.chain) && w !in nexts && first in l.Nodes() && w.next == l.Next(first)
    requires Walking(l, order, nexts, {}, [], first)
      && Told(callbacks, [], l.head, Members(order), [], Members(l.order), {}, depth)
    modifies l`chain, l`order, l.Nodes()`i, All(l.chain), NamedIn(callbacks)`i
    ensures l.Valid() && All(l.chain) == All(old(l.chain)) && l.Nodes() <= old(l.Nodes()) + NamedIn(callbacks)
    ensures upto in l.Nodes() && Walking(l, order, nexts, gone, visited, upto) && (all ==> upto == l.head)
    ensures Told(callbacks, visited, l.head, Members(order), log, Members(l.order), gone, depth)
    ensures all ==> NoneStops(callbacks, |visited|)
    ensures !all ==> visited != [] && Stops(callbacks, |visited| - 1) && NoneStops(callbacks, |visited| - 1)
    decreases callbacks, 1
  {
    hide Only, Front, Kept, ChainOk, LinkOk, Apart, NoRepeats, Pos, Walking, Told, Keys, Stops, NoneStops, All, Members,
      Nexts, NamedIn, Mentioned, Named, SafeList.List.Valid;
    visited, gone, log := [], {}, [];
    NoneYet(callbacks);
    var cur := first;
    var k := 0;
    while cur != l.head
      invariant l.Valid() && All(l.chain) == All(old(l.chain)) && k <= |callbacks|
      invariant l.Nodes() <= old(l.Nodes()) + NamedIn(callbacks) && cur in l.Nodes() && w.next == l.Next(cur)
      invariant Walking(l, order, nexts, gone, visited, cur)
      invariant Told(callbacks, visited, l.head, Members(order), log, Members(l.order), gone, depth)
      invariant |visited| == k && NoneStops(callbacks, k)
      decreases |callbacks| - k
    {
      var stop;
      InOrder(l, cur);
      stop, gone, log := Visit(l, cur, callbacks, k, w, order, nexts, gone, log, visited, depth);
      visited := visited + [cur];
      if stop {
        return visited, false, gone, log, w.next;
      }
      OneMoreGoesOn(callbacks, k);
      cur := w.next;
      GoOn(l, cur, w, order, nexts, gone, visited);
      k := k + 1;
    }
    return visited, true, gone, log, cur;
  }

  /** The walk has visited what is in front of upto, as far as it was there from the start and still is. */
  ghost predicate Walking(l: List, order: seq<Node>, nexts: map<Walker, Node>, gone: set<Node>, visited: seq<Node>,
      upto: Node)
    reads l, All(l.chain)
  {
    var keep := Members(order) - gone;
    Kept(order, nexts, l.order, Nexts(l), gone) && Only(visited, keep) == Only(Front(l.order, upto), keep)
  }

  lemma InOrder(l: List, n: Node)
    requires n in l.Nodes() && n != l.head
    ensures n in l.order
  {
  }

  method Begin(l: List, cur: Node, w: Walker)
    requires l.Valid() && cur == l.Next(l.head) && w !in All(l.chain)
    modifies l`chain, w, l.Nodes()`i, All(l.chain)`head
    ensures l.Valid() && All(l.chain) == All(old(l.chain)) + {w} && cur in l.Nodes() && w.next == l.Next(cur)
    ensures Walking(l, old(l.order), old(Nexts(l)), {}, [], cur)
  {
    hide Only, Front, Kept, ChainOk, LinkOk, Apart, NoRepeats, Pos;
    l.InNodes(l.head);
    ghost var nexts := Nexts(l);
    Attach(l, cur, w);
    KeptAttached(l.order, nexts, l.order, Nexts(l), w);
    NothingInFront(l, Members(l.order) - {});
  }

  /** ret = cb(ctx, cur), for a node that is in the list */
  method Visit(l: List, cur: Node, callbacks: seq<Callback>, k: nat, w: Walker, ghost order: seq<Node>,
               ghost nexts: map<Walker, Node>, ghost gone: set<Node>, ghost log: seq<Event>, ghost visited: seq<Node>,
               ghost depth: nat)
    returns (stop: bool, ghost gone': set<Node>, ghost log': seq<Event>)
    requires l.Valid() && cur in l.order && w in All(l.chain) && w.next == l.Next(cur)
    requires Walking(l, order, nexts, gone, visited, cur)
    requires |visited| == k && Told(callbacks, visited, l.head, Members(order), log, Members(l.order), gone, depth)
    modifies l`chain, l`order, l.Nodes()`i, All(l.chain), NamedIn(callbacks)`i
    ensures l.Valid() && All(l.chain) == All(old(l.chain)) && l.Nodes() <= old(l.Nodes()) + NamedIn(callbacks)
    ensures w.next in l.Nodes() && Walking(l, order, nexts, gone', visited + [cur], w.next)
    ensures Told(callbacks, visited + [cur], l.head, Members(order), log', Members(l.order), gone', depth)
    ensures stop == Stops(callbacks, k)
    decreases callbacks, 0
  {
    hide Only, Front, Kept, ChainOk, LinkOk, Apart, NoRepeats, Pos, Logged, Keys, DidWalk, DidAll, SafeList.List.Valid,
      All, NamedIn, Mentioned, Named, After, SeenAt;
    LoggedTo(Members(order), log, Members(l.order), gone, depth);
    PassedOver(l, visited, cur, Members(order) - gone);
    ghost var order1, nexts1 := l.order, Nexts(l);
    l.Target(w);
    if k >= |callbacks| {
      LoggedNothing(Members(l.order), depth + 1);
      LoggedVisit(Members(order), log, Members(l.order), gone, cur, [], Members(l.order), {}, depth);
      assert gone + {} == gone;
      DidVisit(callbacks, k, l.head, Members(order), log, cur, [], depth);
      return true, gone, log + [Seen(cur, depth)] + [];
    }
    NamedThere(callbacks, k);
    ghost var more, rest := DoAll(l, callbacks[k].ops, depth + 1);
    Carried(order, nexts, order1, nexts1, gone, l.order, Nexts(l), more, visited + [cur], w);
    LoggedVisit(Members(order), log, Members(order1), gone, cur, rest, Members(l.order), more, depth);
    DidVisit(callbacks, k, l.head, Members(order), log, cur, rest, depth);
    l.Target(w);
    return callbacks[k].stop, gone + more, log + [Seen(cur, depth)] + rest;
  }

  /** cur = i.next, and the iterator moves on. */
  method GoOn(l: List, cur: Node, w: Walker, ghost order: seq<Node>, ghost nexts: map<Walker, Node>,
      ghost gone: set<Node>, ghost visited: seq<Node>)
    requires l.Valid() && w in All(l.chain) && cur == w.next && cur in l.Nodes() && w !in nexts
    requires Walking(l, order, nexts, gone, visited, cur)
    modifies l`chain, w, l.Nodes()`i, All(l.chain)`head, All(l.chain)`nextI
    ensures l.Valid() && All(l.chain) == All(old(l.chain)) && w.next == l.Next(cur)
    ensures Walking(l, order, nexts, gone, visited, cur)
  {
    hide Only, Front, Kept, ChainOk, LinkOk, Apart, NoRepeats, Pos;
    ghost var nexts1 := Nexts(l);
    Move(l, cur, w);
    KeptButOne(order, nexts, l.order, nexts1, gone, Nexts(l), w);
  }

  method End(l: List, w: Walker, ghost order: seq<Node>, ghost nexts: map<Walker, Node>, ghost gone: set<Node>,
      ghost visited: seq<Node>, ghost upto: Node)
    requires l.Valid() && w in All(l.chain) && w !in nexts && upto in l.Nodes()
      && Walking(l, order, nexts, gone, visited, upto)
    modifies l`chain, l.Nodes()`i, All(l.chain)`head, All(l.chain)`nextI
    ensures l.Valid() && All(l.chain) == All(old(l.chain)) - {w}
    ensures Kept(order, nexts, l.order, Nexts(l), gone)
    ensures var keep := Members(order) - gone;
      Only(visited, keep) <= Only(order, keep) && (upto == l.head ==> Only(visited, keep) == Only(order, keep))
  {
    hide Only, Front, Kept, ChainOk, LinkOk, Apart, NoRepeats, Pos;
    FrontIsPrefix(l, upto, Members(order) - gone);
    ghost var nexts1 := Nexts(l);
    Detach(l, w);
    KeptButOne(order, nexts, l.order, nexts1, gone, Nexts(l), w);
    KeptOrder(order, nexts, l.order, Nexts(l), gone);
  }

  lemma NothingInFront(l: List, keep: set<Node>)
    requires l.Valid()
    ensures Only([], keep) == Only(Front(l.order, l.Next(l.head)), keep)
  {
  }

  /** The walk has visited one more. */
  lemma PassedOver(l: List, visited: seq<Node>, cur: Node, keep: set<Node>)
    requires l.Valid() && cur in l.order && Only(visited, keep) == Only(Front(l.order, cur), keep)
    ensures Only(visited + [cur], keep) == Only(Front(l.order, l.Next(cur)), keep)
  {
    hide Only, ChainOk, Apart;
    var p := Pos(l.order, cur);
    if p + 1 < |l.order| { PosIs(l.order, p + 1); }
    assert Front(l.order, l.Next(cur)) == Front(l.order, cur) + [cur];
    OnlyConcat(visited, [cur], keep);
    OnlyConcat(Front(l.order, cur), [cur], keep);
  }

  /** What a callback does leaves the nodes that stay either visited or to be visited. */
  lemma Carried(o0: seq<Node>, m0: map<Walker, Node>, o1: seq<Node>, m1: map<Walker, Node>, gone: set<Node>,
                o2: seq<Node>, m2: map<Walker, Node>, more: set<Node>, visited: seq<Node>, w: Walker)
    requires Kept(o0, m0, o1, m1, gone) && Kept(o1, m1, o2, m2, more) && w in m1
    requires Only(visited, Members(o0) - gone) == Only(Front(o1, m1[w]), Members(o0) - gone)
    ensures Kept(o0, m0, o2, m2, gone + more) && w in m2
    ensures Only(visited, Members(o0) - (gone + more)) == Only(Front(o2, m2[w]), Members(o0) - (gone + more))
  {
    hide Only, Front;
    KeptOn(o0, m0, o1, m1, gone, o2, m2, more);
    var keep := Members(o0) - (gone + more);
    OnlyFewer(visited, Front(o1, m1[w]), Members(o0) - gone, keep);
    OnlyFewer(Front(o1, m1[w]), Front(o2, m2[w]), Members(o1) - more, keep);
  }

  lemma KeptButOne(order: seq<Node>, nexts: map<Walker, Node>, order': seq<Node>, nexts': map<Walker, Node>,
      gone: set<Node>,
                   nexts'': map<Walker, Node>, w: Walker)
    requires Kept(order, nexts, order', nexts', gone) && w !in nexts
    requires forall x :: x in nexts' && x != w ==> x in nexts'' && nexts''[x] == nexts'[x]
    ensures Kept(order, nexts, order', nexts'', gone)
  {
    hide Only, Front;
  }

  lemma KeptOrder(order: seq<Node>, nexts: map<Walker, Node>, order': seq<Node>, nexts': map<Walker, Node>,
      gone: set<Node>)
    requires Kept(order, nexts, order', nexts', gone)
    ensures Only(order', Members(order) - gone) == Only(order, Members(order) - gone)
  {
  }

  lemma FrontIsPrefix(l: List, n: Node, keep: set<Node>)
    requires l.Valid() && n in l.Nodes()
    ensures Only(Front(l.order, n), keep) <= Only(l.order, keep)
    ensures n == l.head ==> Front(l.order, n) == l.order
  {
    hide Only, ChainOk, Apart, NoRepeats;
    var p := Pos(l.order, n);
    assert l.order == l.order[..p] + l.order[p..];
    OnlyConcat(l.order[..p], l.order[p..], keep);
  }

  lemma {:induction false} NamedThere(callbacks: seq<Callback>, k: nat)
    requires k < |callbacks|
    ensures Mentioned(callbacks[k].ops) <= NamedIn(callbacks)
    decreases k
  {
    if k > 0 { NamedThere(callbacks[1..], k - 1); }
  }

  method Attach(l: List, cur: Node, w: Walker)
    requires l.Valid() && cur in l.Nodes() && w !in All(l.chain)
    modifies l`chain, w, l.Nodes()`i, All(l.chain)`head
    ensures l.Valid() && All(l.chain) == All(old(l.chain)) + {w} && Nexts(l) == old(Nexts(l))[w := l.Next(cur)]
      && w.next == l.Next(cur)
  {
    hide ChainOk, LinkOk, Apart, NoRepeats, Pos;
    l.InNodes(cur);
    AllPushed(l.chain, l.Next(cur), w);
    l.SetWalker(cur, w);
    l.TargetIs(w, l.Next(cur));
  }

  method Move(l: List, cur: Node, w: Walker)
    requires l.Valid() && cur in l.Nodes() && w in All(l.chain)
    modifies l`chain, w, l.Nodes()`i, All(l.chain)`head, All(l.chain)`nextI
    ensures l.Valid() && All(l.chain) == All(old(l.chain)) && w.next == l.Next(cur)
    ensures forall x :: x in old(Nexts(l)) && x != w ==> x in Nexts(l) && Nexts(l)[x] == old(Nexts(l)[x])
  {
    hide ChainOk, LinkOk, Apart, NoRepeats, Pos, Keys;
    l.Target(w);
    ghost var c := l.chain[w.next];
    ghost var k :| 0 <= k < |c| && c[k] == w;
    ghost var chain := l.chain[w.next := c[..k] + c[k+1..]];
    l.InNodes(cur);
    AllDropped(l.chain, w.next, k);
    AllPushed(chain, l.Next(cur), w);
    l.MoveWalker(cur, w, w.next, k);
    l.TargetIs(w, l.Next(cur));
  }

  method Detach(l: List, w: Walker)
    requires l.Valid() && w in All(l.chain)
    modifies l`chain, l.Nodes()`i, All(l.chain)`head, All(l.chain)`nextI
    ensures l.Valid() && All(l.chain) == All(old(l.chain)) - {w} && Nexts(l) == old(Nexts(l)) - {w}
  {
    hide ChainOk, LinkOk, NoRepeats, Pos;
    l.Target(w);
    ghost var c := l.chain[w.next];
    ghost var k :| 0 <= k < |c| && c[k] == w;
    AllDropped(l.chain, w.next, k);
    l.DelWalker(w, w.next, k);
  }

  lemma AllPushed(chain: map<Node, seq<Walker>>, n: Node, w: Walker)
    requires n in chain
    ensures All(chain[n := [w] + chain[n]]) == All(chain) + {w}
  {
    var chain' := chain[n := [w] + chain[n]];
    assert w in chain'[n];
    forall x | x in All(chain) ensures x in All(chain') {
      var k: Node :| k in chain && x in chain[k];
      assert x in chain'[k];
    }
  }

  lemma AllDropped(chain: map<Node, seq<Walker>>, n: Node, k: nat)
    requires Apart(chain) && n in chain && k < |chain[n]|
    ensures All(chain[n := chain[n][..k] + chain[n][k+1..]]) == All(chain) - {chain[n][k]}
  {
    var c := chain[n];
    var chain' := chain[n := c[..k] + c[k+1..]];
    Removed(chain, n, k);
    forall x | x in All(chain) && x != c[k] ensures x in All(chain') {
      var m: Node :| m in chain && x in chain[m];
      assert x in chain'[m];
    }
    forall x | x in All(chain') ensures x in All(chain) {
      var m: Node :| m in chain' && x in chain'[m];
      assert x in chain[m];
    }
  }

  lemma KeptAttached(order: seq<Node>, nexts: map<Walker, Node>, order': seq<Node>, nexts': map<Walker, Node>,
      w: Walker)
    requires order' == order && w !in nexts && (forall x :: x in nexts ==> x in nexts' && nexts'[x] == nexts[x])
    ensures Kept(order, nexts, order', nexts', {})
  {
  }

  /** A node that stays is visited once by a walk that comes to the end. */
  lemma VisitedOnce(order: seq<Node>, visited: seq<Node>, gone: set<Node>, n: Node)
    requires NoRepeats(order) && n in order && n !in gone
    requires Only(visited, Members(order) - gone) == Only(order, Members(order) - gone)
    ensures multiset(visited)[n] == 1
  {
    OnlyFewer(visited, order, Members(order) - gone, {n});
    OnlyCounts(visited, n);
    OnlyCounts(order, n);
    OnceIn(order, n);
  }

  lemma {:induction false} OnlyCounts(s: seq<Node>, n: Node)
    ensures |Only(s, {n})| == multiset(s)[n]
  {
    if s != [] {
      OnlyCounts(s[1..], n);
      assert s == [s[0]] + s[1..];
    }
  }

  lemma {:induction false} OnceIn(s: seq<Node>, n: Node)
    requires NoRepeats(s) && n in s
    ensures multiset(s)[n] == 1
  {
    assert s == [s[0]] + s[1..] && NoRepeats(s[1..]);
    if s[0] == n {
      assert n !in s[1..];
    } else {
      OnceIn(s[1..], n);
    }
  }
}
