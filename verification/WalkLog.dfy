/** What happens to a list of libubox/safe_list.c while it is walked, in order: what the walks visit, at which depth,
    and which nodes leave and join the list. */
module WalkLog {
  import opened SafeList

  datatype Event = Seen(n: Node, depth: nat) | Left(n: Node) | Joined(n: Node)

  /** What is in the list after the events */
  ghost function After(members: set<Node>, log: seq<Event>): set<Node> {
    if log == [] then members else Changed(After(members, log[..|log|-1]), log[|log|-1])
  }

  ghost function Changed(members: set<Node>, e: Event): set<Node> {
    if e.Left? then members - {e.n} else if e.Joined? then members + {e.n} else members
  }

  /** Only nodes that are in the list are visited, and leave it; only others join it. */
  ghost predicate Legal(members: set<Node>, log: seq<Event>) {
    forall k :: 0 <= k < |log| ==> LegalAt(members, log, k)
  }

  ghost predicate LegalAt(members: set<Node>, log: seq<Event>, k: nat)
    requires k < |log|
  {
    (log[k].n in After(members, log[..k])) != log[k].Joined?
  }

  ghost function Deleted(log: seq<Event>): set<Node> {
    set e | e in log && e.Left? :: e.n
  }

  /** What the walk of a depth visits */
  ghost function SeenAt(log: seq<Event>, depth: nat): seq<Node> {
    if log == [] then []
    else SeenAt(log[..|log|-1], depth) + OneSeen(log[|log|-1], depth)
  }

  ghost function OneSeen(e: Event, depth: nat): seq<Node> {
    if e.Seen? && e.depth == depth then [e.n] else []
  }

  /** The log of what changes the list from before to after, by walks of that depth or more */
  ghost predicate Logged(before: set<Node>, log: seq<Event>, after: set<Node>, gone: set<Node>, depth: nat) {
    && Legal(before, log) && After(before, log) == after && Deleted(log) == gone
    && forall e :: e in log && e.Seen? ==> e.depth >= depth
  }

  /** A node that has left is not visited, unless it joins again before. */
  lemma {:induction false} DeletedNotSeen(before: set<Node>, log: seq<Event>, j: nat, k: nat)
    requires Legal(before, log) && j < k < |log| && log[j].Left? && log[k].Seen? && log[k].n == log[j].n
    ensures exists i :: j < i < k && log[i] == Joined(log[j].n)
  {
    var n := log[j].n;
    assert LegalAt(before, log, k);
    assert log[..j+1][..j] == log[..j];
    var i := j + 1;
    while i < k && log[i] != Joined(n)
      invariant j < i <= k && n !in After(before, log[..i])
    {
      assert log[..i+1][..i] == log[..i];
      i := i + 1;
    }
  }

  lemma {:induction false} AfterBoth(members: set<Node>, a: seq<Event>, b: seq<Event>)
    ensures After(members, a + b) == After(After(members, a), b)
  {
    if b == [] {
      assert a + b == a;
    } else {
      assert (a + b)[..|a+b|-1] == a + b[..|b|-1] && (a + b)[|a+b|-1] == b[|b|-1];
      AfterBoth(members, a, b[..|b|-1]);
    }
  }

  lemma {:induction false} SeenBoth(a: seq<Event>, b: seq<Event>, depth: nat)
    ensures SeenAt(a + b, depth) == SeenAt(a, depth) + SeenAt(b, depth)
  {
    if b == [] {
      assert a + b == a;
    } else {
      assert (a + b)[..|a+b|-1] == a + b[..|b|-1] && (a + b)[|a+b|-1] == b[|b|-1];
      SeenBoth(a, b[..|b|-1], depth);
    }
  }

  lemma {:induction false} NotSeenAt(log: seq<Event>, depth: nat)
    requires forall e :: e in log && e.Seen? ==> e.depth != depth
    ensures SeenAt(log, depth) == []
  {
    if log != [] {
      assert log[|log|-1] in log;
      NotSeenAt(log[..|log|-1], depth);
    }
  }

  lemma LegalBoth(members: set<Node>, a: seq<Event>, b: seq<Event>)
    requires Legal(members, a) && Legal(After(members, a), b)
    ensures Legal(members, a + b)
  {
    forall k | 0 <= k < |a + b| ensures LegalAt(members, a + b, k) {
      if k < |a| {
        assert (a + b)[..k] == a[..k] && LegalAt(members, a, k);
      } else {
        assert (a + b)[..k] == a + b[..k-|a|] && LegalAt(After(members, a), b, k - |a|);
        AfterBoth(members, a, b[..k-|a|]);
      }
    }
  }

  lemma LoggedBoth(before: set<Node>, a: seq<Event>, mid: set<Node>, gone: set<Node>, b: seq<Event>, after: set<Node>,
      more: set<Node>,
                   depth: nat)
    requires Logged(before, a, mid, gone, depth) && Logged(mid, b, after, more, depth)
    ensures Logged(before, a + b, after, gone + more, depth)
  {
    hide After, Legal;
    LegalBoth(before, a, b);
    AfterBoth(before, a, b);
    assert forall e :: e in a + b <==> e in a || e in b;
  }

  lemma LoggedTo(before: set<Node>, log: seq<Event>, after: set<Node>, gone: set<Node>, depth: nat)
    requires Logged(before, log, after, gone, depth)
    ensures After(before, log) == after
  {
  }

  lemma LoggedNothing(members: set<Node>, depth: nat)
    ensures Logged(members, [], members, {}, depth)
  {
  }

  lemma LoggedOne(members: set<Node>, e: Event, depth: nat)
    requires (e.n in members) != e.Joined? && (e.Seen? ==> e.depth >= depth)
    ensures Logged(members, [e], After(members, [e]), if e.Left? then {e.n} else {}, depth)
    ensures After(members, [e]) == Changed(members, e)
  {
    assert [e][..0] == [];
  }

  /** A walk visits a node, and the callback does the rest, walking one level deeper. */
  lemma LoggedVisit(before: set<Node>, log: seq<Event>, mid: set<Node>, gone: set<Node>, cur: Node, b: seq<Event>,
      after: set<Node>,
                    more: set<Node>, depth: nat)
    requires Logged(before, log, mid, gone, depth) && cur in mid && Logged(mid, b, after, more, depth + 1)
    ensures Logged(before, log + [Seen(cur, depth)] + b, after, gone + more, depth)
    ensures SeenAt(log + [Seen(cur, depth)] + b, depth) == SeenAt(log, depth) + [cur]
  {
    hide After, Legal, SeenAt;
    LoggedOne(mid, Seen(cur, depth), depth);
    LoggedBoth(before, log, mid, gone, [Seen(cur, depth)], mid, {}, depth);
    LoggedBoth(before, log + [Seen(cur, depth)], mid, gone + {}, b, after, more, depth);
    assert gone + {} == gone;
    SeenBoth(log + [Seen(cur, depth)], b, depth);
    SeenBoth(log, [Seen(cur, depth)], depth);
    SeenOne(cur, depth);
    NotSeenAt(b, depth);
  }

  lemma SeenOne(cur: Node, depth: nat)
    ensures SeenAt([Seen(cur, depth)], depth) == [cur]
  {
    assert [Seen(cur, depth)][..0] == [];
  }
}
