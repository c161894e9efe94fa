/** The order in which libubox/avl.c keeps its nodes in a list: by key, equal keys in the order they came,
    the first node of each run of equal keys being its leader. */
module AvlOrder {
  import S = AvlShape
  import opened AvlLinks

  type Comparator = (Key, Key) -> int

  /** What a comparator must be: a total order, up to keys it calls equal. */
  ghost predicate IsOrder(comp: Comparator) {
    && (forall a, b :: comp(a, b) < 0 <==> comp(b, a) > 0)
    && (forall a, b, c :: comp(a, b) <= 0 && comp(b, c) <= 0 ==> comp(a, c) <= 0)
  }

  lemma OrderFacts(comp: Comparator, a: Key, b: Key, c: Key)
    requires IsOrder(comp)
    ensures comp(a, a) == 0 && (comp(a, b) == 0 <==> comp(b, a) == 0) && (comp(a, b) <= 0 <==> comp(b, a) >= 0)
    ensures comp(a, b) <= 0 && comp(b, c) <= 0 ==> comp(a, c) <= 0
    ensures comp(a, b) < 0 && comp(b, c) <= 0 ==> comp(a, c) < 0
    ensures comp(a, b) <= 0 && comp(b, c) < 0 ==> comp(a, c) < 0
  {
  }

  ghost predicate Sorted(s: seq<Node>, comp: Comparator) {
    forall i, j :: 0 <= i < j < |s| ==> comp(s[i].key, s[j].key) <= 0
  }

  ghost predicate NoRepeats(s: seq<Node>) {
    forall i, j :: 0 <= i < j < |s| ==> s[i] != s[j]
  }

  /** The leaders are the nodes whose key is greater than the one before. */
  ghost predicate LeadRuns(s: seq<Node>, lead: set<Node>, comp: Comparator) {
    && (s != [] ==> s[0] in lead)
    && forall i :: 0 < i < |s| ==> (s[i] in lead <==> comp(s[i-1].key, s[i].key) < 0)
  }

  ghost function Leaders(s: seq<Node>, lead: set<Node>): seq<Node> {
    if s == [] then []
    else
      var n := s[|s|-1];
      Leaders(s[..|s|-1], lead) + if n in lead then [n] else []
  }

  lemma {:induction false} LeadersConcat(s: seq<Node>, t: seq<Node>, lead: set<Node>)
    ensures Leaders(s + t, lead) == Leaders(s, lead) + Leaders(t, lead)
  {
    if t == [] {
      assert s + t == s;
    } else {
      assert (s + t)[..|s + t| - 1] == s + t[..|t| - 1];
      LeadersConcat(s, t[..|t| - 1], lead);
    }
  }

  lemma {:induction false} LeadersSame(s: seq<Node>, lead: set<Node>, lead': set<Node>)
    requires forall n :: n in s ==> (n in lead <==> n in lead')
    ensures Leaders(s, lead) == Leaders(s, lead')
  {
    if s != [] { LeadersSame(s[..|s|-1], lead, lead'); }
  }

  /** How many leaders there are up to position i: i is in the run of the last of them. */
  ghost function Rank(s: seq<Node>, lead: set<Node>, i: nat): nat
    requires i <= |s|
  {
    |Leaders(s[..i], lead)|
  }

  lemma RankPrefix(s: seq<Node>, lead: set<Node>, i: nat)
    requires i <= |s|
    ensures Leaders(s, lead) == Leaders(s[..i], lead) + Leaders(s[i..], lead)
    ensures Rank(s, lead, i) <= |Leaders(s, lead)|
  {
    assert s == s[..i] + s[i..];
    LeadersConcat(s[..i], s[i..], lead);
  }

  lemma RankStep(s: seq<Node>, lead: set<Node>, i: nat)
    requires i < |s|
    ensures Rank(s, lead, i + 1) == Rank(s, lead, i) + if s[i] in lead then 1 else 0
    ensures s[i] in lead ==> Rank(s, lead, i) < |Leaders(s, lead)| && Leaders(s, lead)[Rank(s, lead, i)] == s[i]
  {
    assert s[..i+1][..i] == s[..i] && s[..i+1][i] == s[i];
    RankPrefix(s, lead, i + 1);
  }

  lemma {:induction false} RankMonotone(s: seq<Node>, lead: set<Node>, i: nat, j: nat)
    requires i <= j <= |s|
    ensures Rank(s, lead, i) <= Rank(s, lead, j)
    decreases j
  {
    if i < j {
      RankMonotone(s, lead, i, j - 1);
      RankStep(s, lead, j - 1);
    }
  }

  /** Every node has the key of the leader of its run. */
  lemma {:induction false} RunKey(s: seq<Node>, lead: set<Node>, comp: Comparator, i: nat)
    requires IsOrder(comp) && Sorted(s, comp) && LeadRuns(s, lead, comp) && i < |s|
    ensures 1 <= Rank(s, lead, i + 1) <= |Leaders(s, lead)|
    ensures comp(Leaders(s, lead)[Rank(s, lead, i + 1) - 1].key, s[i].key) == 0
  {
    RankStep(s, lead, i);
    RankPrefix(s, lead, i + 1);
    assert s[i] in lead <==> i == 0 || comp(s[i-1].key, s[i].key) < 0;
    if s[i] !in lead {
      RunKey(s, lead, comp, i - 1);
      var k := Leaders(s, lead)[Rank(s, lead, i) - 1].key;
      assert comp(s[i-1].key, s[i].key) == 0;
      OrderFacts(comp, k, s[i-1].key, s[i].key);
      OrderFacts(comp, s[i].key, s[i-1].key, k);
      OrderFacts(comp, k, s[i].key, k);
      OrderFacts(comp, k, s[i-1].key, k);
      OrderFacts(comp, s[i].key, s[i-1].key, k);
    } else {
      OrderFacts(comp, s[i].key, s[i].key, s[i].key);
    }
  }

  /** A node goes behind all nodes with keys up to its own. */
  ghost function Inserted(s: seq<Node>, n: Node, comp: Comparator): seq<Node> {
    if s == [] then [n]
    else if comp(s[0].key, n.key) <= 0 then [s[0]] + Inserted(s[1..], n, comp)
    else [n] + s
  }

  lemma {:induction false} InsertedAt(s: seq<Node>, n: Node, comp: Comparator, p: nat)
    requires p <= |s| && (forall i :: 0 <= i < p ==> comp(s[i].key, n.key) <= 0)
    requires forall i :: p <= i < |s| ==> comp(s[i].key, n.key) > 0
    ensures Inserted(s, n, comp) == s[..p] + [n] + s[p..]
  {
    if p > 0 {
      assert s[1..][..p-1] == s[..p][1..] && s[1..][p-1..] == s[p..];
      InsertedAt(s[1..], n, comp, p - 1);
      assert [s[0]] + (s[1..][..p-1] + [n] + s[p..]) == s[..p] + [n] + s[p..];
    }
  }

  /** A list that keeps all the promises about order. */
  ghost predicate InOrderList(s: seq<Node>, lead: set<Node>, comp: Comparator) {
    IsOrder(comp) && Sorted(s, comp) && NoRepeats(s) && LeadRuns(s, lead, comp)
  }

  /** s with n put in at position p. */
  ghost function Put(s: seq<Node>, n: Node, p: nat): (r: seq<Node>)
    requires p <= |s|
    ensures |r| == |s| + 1
    ensures forall i :: 0 <= i < |r| ==> r[i] == if i < p then s[i] else if i == p then n else s[i-1]
  {
    s[..p] + [n] + s[p..]
  }

  /** Position p is the one for n. */
  ghost predicate Fits(s: seq<Node>, n: Node, comp: Comparator, p: nat) {
    && p <= |s|
    && (forall i :: 0 <= i < p ==> comp(s[i].key, n.key) <= 0)
    && (forall i :: p <= i < |s| ==> comp(s[i].key, n.key) > 0)
  }

  lemma PutSorted(s: seq<Node>, n: Node, comp: Comparator, p: nat)
    requires IsOrder(comp) && Sorted(s, comp) && Fits(s, n, comp, p)
    ensures Sorted(Put(s, n, p), comp)
  {
    hide IsOrder;
    var s' := Put(s, n, p);
    forall i, j | 0 <= i < j < |s'| ensures comp(s'[i].key, s'[j].key) <= 0 {
      if i == p { OrderFacts(comp, n.key, s[j-1].key, n.key); }
    }
  }

  lemma PutNoRepeats(s: seq<Node>, n: Node, p: nat)
    requires NoRepeats(s) && n !in s && p <= |s|
    ensures NoRepeats(Put(s, n, p))
  {
  }

  lemma PutLeaderRuns(s: seq<Node>, lead: set<Node>, n: Node, comp: Comparator, p: nat)
    requires IsOrder(comp) && LeadRuns(s, lead, comp) && Fits(s, n, comp, p) && n !in s
    requires p > 0 ==> comp(s[p-1].key, n.key) < 0
    ensures LeadRuns(Put(s, n, p), lead + {n}, comp)
  {
    hide IsOrder;
    var s' := Put(s, n, p);
    forall i | 0 <= i < |s'|
      ensures s'[i] in lead + {n} <==> i == 0 || comp(s'[i-1].key, s'[i].key) < 0
    {
      if i == p + 1 {
        OrderFacts(comp, n.key, s[p].key, n.key);
        if p > 0 {
          OrderFacts(comp, s[p-1].key, n.key, s[p].key);
        }
      }
    }
  }

  lemma PutDuplicateRuns(s: seq<Node>, lead: set<Node>, n: Node, comp: Comparator, p: nat)
    requires IsOrder(comp) && LeadRuns(s, lead, comp) && Fits(s, n, comp, p) && n !in s && n !in lead
    requires p > 0 && comp(s[p-1].key, n.key) == 0
    ensures LeadRuns(Put(s, n, p), lead, comp)
  {
    hide IsOrder;
    var s' := Put(s, n, p);
    forall i | 0 <= i < |s'|
      ensures s'[i] in lead <==> i == 0 || comp(s'[i-1].key, s'[i].key) < 0
    {
      if i == p + 1 {
        OrderFacts(comp, n.key, s[p].key, n.key);
        OrderFacts(comp, s[p-1].key, n.key, s[p].key);
      }
    }
  }

  lemma PutLeaders(s: seq<Node>, lead: set<Node>, n: Node, p: nat)
    requires p <= |s| && n !in s
    ensures Leaders(Put(s, n, p), lead + {n}) == Leaders(s[..p], lead) + [n] + Leaders(s[p..], lead)
  {
    LeadersConcat(s[..p] + [n], s[p..], lead + {n});
    LeadersConcat(s[..p], [n], lead + {n});
    LeadersSame(s[..p], lead, lead + {n});
    LeadersSame(s[p..], lead, lead + {n});
    assert [n][..0] == [];
  }

  lemma OneLeader(n: Node, lead: set<Node>)
    ensures Leaders([n], lead) == if n in lead then [n] else []
  {
    assert [n][..0] == [];
  }

  lemma PutSameLeaders(s: seq<Node>, lead: set<Node>, n: Node, p: nat)
    requires p <= |s| && n !in lead
    ensures Leaders(Put(s, n, p), lead) == Leaders(s, lead)
  {
    hide Leaders;
    LeadersConcat(s[..p] + [n], s[p..], lead);
    LeadersConcat(s[..p], [n], lead);
    OneLeader(n, lead);
    RankPrefix(s, lead, p);
    assert Leaders(s[..p], lead) + [] == Leaders(s[..p], lead);
  }

  /** A node with a new key becomes the leader of a new run. */
  lemma InsertedLeader(s: seq<Node>, lead: set<Node>, n: Node, comp: Comparator, p: nat)
    requires InOrderList(s, lead, comp) && n !in s && Fits(s, n, comp, p)
    requires p > 0 ==> comp(s[p-1].key, n.key) < 0
    ensures Inserted(s, n, comp) == Put(s, n, p) && InOrderList(Put(s, n, p), lead + {n}, comp)
  {
    InsertedAt(s, n, comp, p);
    PutSorted(s, n, comp, p);
    PutNoRepeats(s, n, p);
    PutLeaderRuns(s, lead, n, comp, p);
  }

  /** A node with a key that is there already joins its run, at the end. */
  lemma InsertedDuplicate(s: seq<Node>, lead: set<Node>, n: Node, comp: Comparator, p: nat)
    requires InOrderList(s, lead, comp) && n !in s && n !in lead && Fits(s, n, comp, p)
    requires p > 0 && comp(s[p-1].key, n.key) == 0
    ensures Inserted(s, n, comp) == Put(s, n, p) && InOrderList(Put(s, n, p), lead, comp)
  {
    InsertedAt(s, n, comp, p);
    PutSorted(s, n, comp, p);
    PutNoRepeats(s, n, p);
    PutDuplicateRuns(s, lead, n, comp, p);
  }

  ghost function Without(s: seq<Node>, k: nat): (r: seq<Node>)
    requires k < |s|
    ensures |r| == |s| - 1
    ensures forall i :: 0 <= i < |r| ==> r[i] == s[if i < k then i else i + 1]
  {
    s[..k] + s[k+1..]
  }

  /** Taking out a node: a leader hands its place to the next node of its run, if there is one. */
  ghost function LeadWithout(s: seq<Node>, lead: set<Node>, k: nat): set<Node>
    requires k < |s|
  {
    if s[k] !in lead then lead
    else if k + 1 < |s| && s[k+1] !in lead then lead - {s[k]} + {s[k+1]}
    else lead - {s[k]}
  }

  lemma WithoutRuns(s: seq<Node>, lead: set<Node>, comp: Comparator, k: nat)
    requires IsOrder(comp) && Sorted(s, comp) && NoRepeats(s) && LeadRuns(s, lead, comp) && k < |s|
    ensures LeadRuns(Without(s, k), LeadWithout(s, lead, k), comp)
  {
    hide IsOrder;
    var s', lead' := Without(s, k), LeadWithout(s, lead, k);
    forall i | 0 <= i < |s'|
      ensures s'[i] in lead' <==> i == 0 || comp(s'[i-1].key, s'[i].key) < 0
    {
      if i == k > 0 {
        assert s[k+1] in lead <==> comp(s[k].key, s[k+1].key) < 0;
        assert comp(s[k-1].key, s[k].key) <= 0 && comp(s[k].key, s[k+1].key) <= 0;
        OrderFacts(comp, s[k-1].key, s[k].key, s[k+1].key);
        if comp(s[k-1].key, s[k].key) == 0 == comp(s[k].key, s[k+1].key) {
          NotLess(comp, s[k-1].key, s[k].key, s[k+1].key);
        }
      } else if i > k {
        assert s[i+1] in lead <==> comp(s[i].key, s[i+1].key) < 0;
      }
    }
  }

  lemma NotLess(comp: Comparator, a: Key, b: Key, c: Key)
    requires IsOrder(comp) && comp(a, b) == 0 && comp(b, c) == 0
    ensures comp(a, c) == 0
  {
    OrderFacts(comp, a, b, c);
    OrderFacts(comp, c, b, a);
    OrderFacts(comp, a, c, a);
  }

  lemma WithoutInOrder(s: seq<Node>, lead: set<Node>, comp: Comparator, k: nat)
    requires InOrderList(s, lead, comp) && k < |s|
    ensures InOrderList(Without(s, k), LeadWithout(s, lead, k), comp)
  {
    WithoutRuns(s, lead, comp, k);
    hide IsOrder;
  }

  lemma LeadersSplit(s: seq<Node>, lead: set<Node>, k: nat)
    requires k < |s| && s[k] in lead
    ensures var r, ls := Rank(s, lead, k), Leaders(s, lead);
      r < |ls| && ls[r] == s[k] && ls[..r] == Leaders(s[..k], lead) && ls[r+1..] == Leaders(s[k+1..], lead)
  {
    LeadersConcat(s[..k] + [s[k]], s[k+1..], lead);
    LeadersConcat(s[..k], [s[k]], lead);
    assert s == s[..k] + [s[k]] + s[k+1..] && [s[k]][..0] == [];
  }

  lemma WithoutLeaders(s: seq<Node>, lead: set<Node>, k: nat)
    requires NoRepeats(s) && k < |s| && s[k] in lead
    ensures var r, ls := Rank(s, lead, k), Leaders(s, lead);
      && r < |ls| && ls[r] == s[k]
      && Leaders(Without(s, k), LeadWithout(s, lead, k))
           == ls[..r] + ((if k + 1 < |s| && s[k+1] !in lead then [s[k+1]] else []) + ls[r+1..])
  {
    LeadersSplit(s, lead, k);
    var lead' := LeadWithout(s, lead, k);
    var a, b := s[..k], s[k+1..];
    assert Without(s, k) == a + b;
    LeadersConcat(a, b, lead');
    LeadersAround(s, lead, k);
    hide *;
  }

  lemma LeadersAround(s: seq<Node>, lead: set<Node>, k: nat)
    requires NoRepeats(s) && k < |s| && s[k] in lead
    ensures var lead' := LeadWithout(s, lead, k);
      && Leaders(s[..k], lead') == Leaders(s[..k], lead)
      && Leaders(s[k+1..], lead') == (if k + 1 < |s| && s[k+1] !in lead then [s[k+1]] else []) + Leaders(s[k+1..], lead)
  {
    hide Leaders;
    var a, b, lead' := s[..k], s[k+1..], LeadWithout(s, lead, k);
    assert forall n :: n in a ==> (n in lead <==> n in lead');
    LeadersSame(a, lead, lead');
    if k + 1 < |s| && s[k+1] !in lead {
      assert forall i :: 0 < i < |b| ==> b[i] == s[k+1+i] != s[k+1] && b[i] != s[k];
      FirstLeader(b, lead, lead');
    } else {
      assert forall n :: n in b ==> n != s[k];
      LeadersSame(b, lead, lead');
    }
  }

  lemma FirstLeader(s: seq<Node>, lead: set<Node>, lead': set<Node>)
    requires s != [] && s[0] !in lead && s[0] in lead'
    requires forall i :: 0 < i < |s| ==> (s[i] in lead <==> s[i] in lead')
    ensures Leaders(s, lead') == [s[0]] + Leaders(s, lead)
  {
    assert s == [s[0]] + s[1..] && [s[0]][..0] == [];
    LeadersConcat([s[0]], s[1..], lead);
    LeadersConcat([s[0]], s[1..], lead');
    LeadersSame(s[1..], lead, lead');
  }

  lemma WithoutSameLeaders(s: seq<Node>, lead: set<Node>, k: nat)
    requires k < |s| && s[k] !in lead
    ensures Leaders(Without(s, k), lead) == Leaders(s, lead)
  {
    LeadersConcat(s[..k], s[k+1..], lead);
    assert s == s[..k] + [s[k]] + s[k+1..] && [s[k]][..0] == [];
    LeadersConcat(s[..k] + [s[k]], s[k+1..], lead);
    LeadersConcat(s[..k], [s[k]], lead);
  }

  ghost predicate Strict(s: seq<Node>, comp: Comparator) {
    forall i, j :: 0 <= i < j < |s| ==> comp(s[i].key, s[j].key) < 0
  }

  lemma {:induction false} LeadersAreMembers(s: seq<Node>, lead: set<Node>)
    ensures forall n :: n in Leaders(s, lead) <==> n in s && n in lead
  {
    if s != [] {
      LeadersAreMembers(s[..|s|-1], lead);
      assert s == s[..|s|-1] + [s[|s|-1]];
    }
  }

  lemma {:induction false} LeaderPosition(s: seq<Node>, lead: set<Node>, r: nat) returns (i: nat)
    requires r < |Leaders(s, lead)|
    ensures i < |s| && s[i] in lead && Rank(s, lead, i) == r && s[i] == Leaders(s, lead)[r]
  {
    var t := s[..|s|-1];
    if r < |Leaders(t, lead)| {
      i := LeaderPosition(t, lead, r);
      assert t[..i] == s[..i];
    } else {
      i := |s| - 1;
    }
  }

  lemma LeadersStrict(s: seq<Node>, lead: set<Node>, comp: Comparator)
    requires IsOrder(comp) && Sorted(s, comp) && LeadRuns(s, lead, comp)
    ensures Strict(Leaders(s, lead), comp)
  {
    hide IsOrder, Leaders, Rank;
    var ls := Leaders(s, lead);
    forall a, b | 0 <= a < b < |ls| ensures comp(ls[a].key, ls[b].key) < 0 {
      var i := LeaderPosition(s, lead, a);
      var j := LeaderPosition(s, lead, b);
      if j <= i { RankMonotone(s, lead, j, i); }
      assert comp(s[j-1].key, s[j].key) < 0;
      if i < j - 1 { OrderFacts(comp, s[i].key, s[j-1].key, s[j].key); }
    }
  }

  /** A node compares with a key as the leader of its run does. */
  lemma RunCompare(s: seq<Node>, lead: set<Node>, comp: Comparator, i: nat, key: Key)
    requires IsOrder(comp) && Sorted(s, comp) && LeadRuns(s, lead, comp) && i < |s|
    ensures 1 <= Rank(s, lead, i + 1) <= |Leaders(s, lead)|
    ensures var l := Leaders(s, lead)[Rank(s, lead, i + 1) - 1];
      (comp(s[i].key, key) < 0 <==> comp(l.key, key) < 0) && (comp(s[i].key, key) > 0 <==> comp(l.key, key) > 0)
  {
    RunKey(s, lead, comp, i);
    var l := Leaders(s, lead)[Rank(s, lead, i + 1) - 1];
    EqualCompare(comp, l.key, s[i].key, key);
  }

  lemma EqualCompare(comp: Comparator, a: Key, b: Key, key: Key)
    requires IsOrder(comp) && comp(a, b) == 0
    ensures (comp(b, key) < 0 <==> comp(a, key) < 0) && (comp(b, key) > 0 <==> comp(a, key) > 0)
  {
    hide IsOrder;
    OrderFacts(comp, a, b, key);
    OrderFacts(comp, b, a, key);
    OrderFacts(comp, key, a, b);
    OrderFacts(comp, key, b, a);
    OrderFacts(comp, a, key, a);
    OrderFacts(comp, b, key, a);
  }

  /** The leaders before rank j are not above the key of n, the others are. */
  ghost predicate RankFits(s: seq<Node>, lead: set<Node>, comp: Comparator, n: Node, j: nat) {
    && j <= |Leaders(s, lead)|
    && (forall i :: 0 <= i < j ==> comp(Leaders(s, lead)[i].key, n.key) <= 0)
    && (forall i :: j <= i < |Leaders(s, lead)| ==> comp(Leaders(s, lead)[i].key, n.key) > 0)
  }

  lemma NodeFits(s: seq<Node>, lead: set<Node>, comp: Comparator, n: Node, k: nat, i: nat)
    requires IsOrder(comp) && Sorted(s, comp) && LeadRuns(s, lead, comp) && k <= |s| && i < |s|
    requires (k < |s| ==> s[k] in lead) && RankFits(s, lead, comp, n, Rank(s, lead, k))
    ensures if i < k then comp(s[i].key, n.key) <= 0 else comp(s[i].key, n.key) > 0
  {
    hide IsOrder, LeadRuns, Sorted, Leaders, Rank;
    RunCompare(s, lead, comp, i, n.key);
    if i < k {
      RankMonotone(s, lead, i + 1, k);
    } else {
      RankStep(s, lead, k);
      RankMonotone(s, lead, k + 1, i + 1);
    }
  }

  /** A position at the start of a run fits if its rank does. */
  lemma PositionFits(s: seq<Node>, lead: set<Node>, comp: Comparator, n: Node, k: nat)
    requires IsOrder(comp) && Sorted(s, comp) && LeadRuns(s, lead, comp) && k <= |s|
    requires (k < |s| ==> s[k] in lead) && RankFits(s, lead, comp, n, Rank(s, lead, k))
    ensures Fits(s, n, comp, k) && (k > 0 ==> 0 < Rank(s, lead, k) <= |Leaders(s, lead)|)
    ensures k > 0 ==> (comp(s[k-1].key, n.key) < 0 <==> comp(Leaders(s, lead)[Rank(s, lead, k) - 1].key, n.key) < 0)
  {
    hide IsOrder, LeadRuns, Sorted, Leaders, Rank;
    forall i | 0 <= i < |s| ensures if i < k then comp(s[i].key, n.key) <= 0 else comp(s[i].key, n.key) > 0 {
      NodeFits(s, lead, comp, n, k, i);
    }
    if k > 0 { RunCompare(s, lead, comp, k - 1, n.key); }
  }

  lemma {:induction false} RankFlat(s: seq<Node>, lead: set<Node>, i: nat, j: nat)
    requires i <= j <= |s| && forall k :: i <= k < j ==> s[k] !in lead
    ensures Rank(s, lead, i) == Rank(s, lead, j)
    decreases j
  {
    if i < j {
      RankFlat(s, lead, i, j - 1);
      RankStep(s, lead, j - 1);
    }
  }

  lemma PutInMiddle<T>(a: seq<T>, b: seq<T>, c: seq<T>, x: T, q: nat, j: nat)
    requires q <= |b| && j == |a| + q
    ensures a + (b[..q] + [x] + b[q..]) + c == (a + b + c)[..j] + [x] + (a + b + c)[j..]
  {
    assert (a + b + c)[..j] == a + b[..q];
    assert (a + b + c)[j..] == b[q..] + c;
  }

  /** The in-order walk of the tree and the leaders of the list stay the same when a new leader goes into both. */
  lemma InsertedInTree(s: seq<Node>, lead: set<Node>, n: Node, k: nat, q: nat,
                       c: S.Ctx<Node>, t0: S.Shape<Node>, t1: S.Shape<Node>, t: S.Shape<Node>)
    requires k <= |s| && n !in s
    requires S.InOrder(S.Plug(c, t0)) == Leaders(s, lead)
    requires q <= |S.InOrder(t0)| && S.InOrder(t1) == S.InOrder(t0)[..q] + [n] + S.InOrder(t0)[q..]
    requires Rank(s, lead, k) == |S.Before(c)| + q && S.Rearranged(S.Plug(c, t1), t)
    ensures S.InOrder(t) == Leaders(Put(s, n, k), lead + {n})
  {
    hide S.InOrder, Leaders;
    S.PlugInOrder(c, t0);
    S.PlugInOrder(c, t1);
    PutInMiddle(S.Before(c), S.InOrder(t0), S.After(c), n, q, Rank(s, lead, k));
    PutLeaders(s, lead, n, k);
    RankPrefix(s, lead, k);
    var ls, j := Leaders(s, lead), Rank(s, lead, k);
    assert ls[..j] == Leaders(s[..k], lead) && ls[j..] == Leaders(s[k..], lead);
  }

  lemma StrictParts(a: seq<Node>, n: Node, b: seq<Node>, comp: Comparator)
    requires Strict(a + [n] + b, comp)
    ensures Strict(a, comp) && Strict(b, comp)
    ensures (forall m :: m in a ==> comp(m.key, n.key) < 0) && (forall m :: m in b ==> comp(n.key, m.key) < 0)
  {
    var s := a + [n] + b;
    forall i | 0 <= i < |a| ensures s[i] == a[i] && comp(a[i].key, n.key) < 0 { assert comp(s[i].key, s[|a|].key) < 0; }
    forall i | 0 <= i < |b| ensures s[|a| + 1 + i] == b[i] && comp(n.key, b[i].key) < 0 {
      assert comp(s[|a|].key, s[|a| + 1 + i].key) < 0;
    }
    forall i, j | 0 <= i < j < |a| ensures comp(a[i].key, a[j].key) < 0 { assert comp(s[i].key, s[j].key) < 0; }
    forall i, j | 0 <= i < j < |b| ensures comp(b[i].key, b[j].key) < 0 {
      assert comp(s[|a| + 1 + i].key, s[|a| + 1 + j].key) < 0;
    }
  }

  /** Everything right of a node above a key is above it, everything left of one below it is below it. */
  lemma StrictSides(a: seq<Node>, n: Node, b: seq<Node>, comp: Comparator, key: Key)
    requires IsOrder(comp) && Strict(a + [n] + b, comp)
    ensures comp(key, n.key) <= 0 ==> forall m :: m in b ==> comp(m.key, key) > 0
    ensures comp(key, n.key) >= 0 ==> forall m :: m in a ==> comp(m.key, key) < 0
    ensures (comp(key, n.key) < 0 <==> comp(n.key, key) > 0) && (comp(key, n.key) > 0 <==> comp(n.key, key) < 0)
  {
    hide IsOrder;
    StrictParts(a, n, b, comp);
    OrderFacts(comp, key, n.key, key);
    OrderFacts(comp, n.key, key, n.key);
    if comp(key, n.key) <= 0 {
      forall m | m in b ensures comp(m.key, key) > 0 {
        OrderFacts(comp, key, n.key, m.key);
        OrderFacts(comp, key, m.key, key);
        OrderFacts(comp, m.key, key, key);
        Opposite(comp, key, m.key);
      }
    }
    if comp(key, n.key) >= 0 {
      forall m | m in a ensures comp(m.key, key) < 0 { OrderFacts(comp, m.key, n.key, key); }
    }
  }

  lemma Opposite(comp: Comparator, a: Key, b: Key)
    requires IsOrder(comp)
    ensures comp(a, b) < 0 <==> comp(b, a) > 0
  {
  }

  lemma LeafFilled(l: S.Shape<Node>, node: Node, r: S.Shape<Node>, n: Node)
    ensures var t, i := S.Fork(l, node, r), S.InOrder(S.Fork(l, node, r));
      && (l.Leaf? ==> S.InOrder(t.(left := S.Fork(S.Leaf, n, S.Leaf))) == i[..0] + [n] + i[0..])
      && |i| == |S.InOrder(l)| + 1 + |S.InOrder(r)|
      && (r.Leaf? ==>
            S.InOrder(t.(right := S.Fork(S.Leaf, n, S.Leaf)))
              == i[..|S.InOrder(l)| + 1] + [n] + i[|S.InOrder(l)| + 1..])
  {
    assert S.InOrder(S.Fork(S.Leaf, n, S.Leaf)) == [n];
  }

  /** A new leader in the list, and in the tree as the left, or right, child of node. */
  lemma LeftChildInserted(s: seq<Node>, lead: set<Node>, comp: Comparator, n: Node, k: nat,
                          c: S.Ctx<Node>, node: Node, r: S.Shape<Node>, t: S.Shape<Node>)
    requires InOrderList(s, lead, comp) && n !in s && Fits(s, n, comp, k) && (k > 0 ==> comp(s[k-1].key, n.key) < 0)
    requires S.InOrder(S.Plug(c, S.Fork(S.Leaf, node, r))) == Leaders(s, lead) && Rank(s, lead, k) == |S.Before(c)|
    requires S.Rearranged(S.Plug(c, S.Fork(S.Fork(S.Leaf, n, S.Leaf), node, r)), t)
    ensures Inserted(s, n, comp) == Put(s, n, k) && InOrderList(Put(s, n, k), lead + {n}, comp)
    ensures S.InOrder(t) == Leaders(Put(s, n, k), lead + {n})
  {
    hide InOrderList, IsOrder, Sorted, LeadRuns, NoRepeats, Leaders, Rank, S.InOrder, S.Plug, S.Rearranged, Inserted;
    InsertedLeader(s, lead, n, comp, k);
    var t0, t1 := S.Fork(S.Leaf, node, r), S.Fork(S.Fork(S.Leaf, n, S.Leaf), node, r);
    LeafFilled(S.Leaf, node, r, n);
    InsertedInTree(s, lead, n, k, 0, c, t0, t1, t);
  }

  lemma RightChildInserted(s: seq<Node>, lead: set<Node>, comp: Comparator, n: Node, k: nat,
                           c: S.Ctx<Node>, l: S.Shape<Node>, node: Node, t: S.Shape<Node>)
    requires InOrderList(s, lead, comp) && n !in s && Fits(s, n, comp, k) && (k > 0 ==> comp(s[k-1].key, n.key) < 0)
    requires S.InOrder(S.Plug(c, S.Fork(l, node, S.Leaf))) == Leaders(s, lead)
    requires Rank(s, lead, k) == |S.Before(c)| + |S.InOrder(l)| + 1
    requires S.Rearranged(S.Plug(c, S.Fork(l, node, S.Fork(S.Leaf, n, S.Leaf))), t)
    ensures Inserted(s, n, comp) == Put(s, n, k) && InOrderList(Put(s, n, k), lead + {n}, comp)
    ensures S.InOrder(t) == Leaders(Put(s, n, k), lead + {n})
  {
    hide InOrderList, IsOrder, Sorted, LeadRuns, NoRepeats, Leaders, Rank, S.InOrder, S.Plug, S.Rearranged, Inserted;
    InsertedLeader(s, lead, n, comp, k);
    var t0, t1 := S.Fork(l, node, S.Leaf), S.Fork(l, node, S.Fork(S.Leaf, n, S.Leaf));
    var q := |S.InOrder(l)| + 1;
    LeafFilled(l, node, S.Leaf, n);
    InsertedInTree(s, lead, n, k, q, c, t0, t1, t);
  }

  /** What a search for the key of n that ended at a leader says about the whole list: k is where the
      leader is, e where its run ends. */
  lemma FoundPosition(s: seq<Node>, lead: set<Node>, comp: Comparator, n: Node,
                      a: seq<Node>, node: Node, b: seq<Node>, k: nat, e: nat)
    requires InOrderList(s, lead, comp) && Leaders(s, lead) == a + [node] + b
    requires k < e <= |s| && s[k] == node && Rank(s, lead, k) == |a| && Rank(s, lead, e) == |a| + 1
    requires node in lead && (e < |s| ==> s[e] in lead)
    requires comp(n.key, node.key) < 0 ==> forall m :: m in a ==> comp(m.key, n.key) < 0
    requires comp(n.key, node.key) > 0 ==> forall m :: m in b ==> comp(m.key, n.key) > 0
    ensures comp(n.key, node.key) < 0 ==> Fits(s, n, comp, k) && (k > 0 ==> comp(s[k-1].key, n.key) < 0)
    ensures comp(n.key, node.key) >= 0 ==> Fits(s, n, comp, e)
    ensures comp(n.key, node.key) > 0 ==> comp(s[e-1].key, n.key) < 0
    ensures comp(n.key, node.key) == 0 ==> comp(s[e-1].key, n.key) == 0
  {
    hide Leaders, Rank, IsOrder, Sorted, LeadRuns, NoRepeats, Fits;
    LeadersStrict(s, lead, comp);
    StrictSides(a, node, b, comp, n.key);
    if comp(n.key, node.key) < 0 {
      assert RankFits(s, lead, comp, n, |a|);
      PositionFits(s, lead, comp, n, k);
    } else {
      assert RankFits(s, lead, comp, n, |a| + 1);
      PositionFits(s, lead, comp, n, e);
      RunCompare(s, lead, comp, e - 1, n.key);
    }
  }

  /** There is a node with an equal key only where the position says so. */
  lemma EqualKeys(s: seq<Node>, comp: Comparator, n: Node, p: nat)
    requires IsOrder(comp) && Sorted(s, comp) && Fits(s, n, comp, p)
    ensures (exists m :: m in s && comp(n.key, m.key) == 0) <==> p > 0 && comp(s[p-1].key, n.key) == 0
  {
    hide IsOrder;
    if m :| m in s && comp(n.key, m.key) == 0 {
      var i :| 0 <= i < |s| && s[i] == m;
      OrderFacts(comp, n.key, m.key, n.key);
      assert i < p;
      if i < p - 1 {
        assert comp(s[i].key, s[p-1].key) <= 0;
        OrderFacts(comp, s[i].key, s[p-1].key, n.key);
        OrderFacts(comp, n.key, s[i].key, s[p-1].key);
        OrderFacts(comp, s[p-1].key, n.key, s[i].key);
      }
    }
    if p > 0 && comp(s[p-1].key, n.key) == 0 {
      OrderFacts(comp, s[p-1].key, n.key, n.key);
      assert s[p-1] in s && comp(n.key, s[p-1].key) == 0;
    }
  }

  /** What a search for the key of n that ended at a leader says about the whole list and the run of the leader */
  lemma FoundFits(s: seq<Node>, lead: set<Node>, comp: Comparator, n: Node,
                  a: seq<Node>, node: Node, b: seq<Node>, k: nat, e: nat)
    requires InOrderList(s, lead, comp) && Leaders(s, lead) == a + [node] + b
    requires k < e <= |s| && s[k] == node && Rank(s, lead, k) == |a| && node in lead
    requires (forall i :: k < i < e ==> s[i] !in lead) && (e < |s| ==> s[e] in lead)
    requires comp(n.key, node.key) < 0 ==> forall m :: m in a ==> comp(m.key, n.key) < 0
    requires comp(n.key, node.key) > 0 ==> forall m :: m in b ==> comp(m.key, n.key) > 0
    ensures Rank(s, lead, e) == |a| + 1
    ensures var diff := comp(n.key, node.key);
      && (diff < 0 ==> Fits(s, n, comp, k) && (k > 0 ==> comp(s[k-1].key, n.key) < 0))
      && (diff >= 0 ==> Fits(s, n, comp, e))
      && (diff > 0 ==> comp(s[e-1].key, n.key) < 0)
      && (diff == 0 ==> comp(s[e-1].key, n.key) == 0)
      && (diff == 0 <==> exists m :: m in s && comp(n.key, m.key) == 0)
  {
    hide Leaders, Rank, NoRepeats, IsOrder, Sorted, LeadRuns, Fits;
    RankStep(s, lead, k);
    RankFlat(s, lead, k + 1, e);
    FoundPosition(s, lead, comp, n, a, node, b, k, e);
    EqualKeys(s, comp, n, if comp(n.key, node.key) < 0 then k else e);
  }

  lemma LeadersDiffer(s: seq<Node>, lead: set<Node>, comp: Comparator, r: nat)
    requires IsOrder(comp) && Sorted(s, comp) && LeadRuns(s, lead, comp) && r < |Leaders(s, lead)|
    ensures var ls := Leaders(s, lead); ls[r] !in ls[..r] && ls[r] !in ls[r+1..]
  {
    hide IsOrder, Leaders, Sorted, LeadRuns;
    LeadersStrict(s, lead, comp);
    var ls := Leaders(s, lead);
    OrderFacts(comp, ls[r].key, ls[r].key, ls[r].key);
  }

  /** When the leader of a run of several nodes goes, the tree only has the next of them in its place. */
  lemma RunHandedOver(s: seq<Node>, lead: set<Node>, comp: Comparator, k: nat, t: S.Shape<Node>)
    requires InOrderList(s, lead, comp) && k + 1 < |s| && s[k] in lead && s[k+1] !in lead
    requires S.InOrder(t) == Leaders(s, lead)
    ensures S.InOrder(S.Renamed(t, s[k], s[k+1])) == Leaders(Without(s, k), LeadWithout(s, lead, k))
  {
    hide Leaders, IsOrder, Sorted, LeadRuns, S.InOrder, S.Renamed, Without, Rank;
    WithoutLeaders(s, lead, k);
    S.RenamedInOrder(t, s[k], s[k+1]);
    var r, ls := Rank(s, lead, k), Leaders(s, lead);
    LeadersDiffer(s, lead, comp, r);
    assert ls == ls[..r] + [s[k]] + ls[r+1..];
    S.SwappedAt(ls[..r], s[k], ls[r+1..], s[k+1]);
    assert ls[..r] + [s[k+1]] + ls[r+1..] == ls[..r] + ([s[k+1]] + ls[r+1..]);
  }

  /** When the only node of a run goes, one leader less is left. */
  lemma WithoutLeader(s: seq<Node>, lead: set<Node>, k: nat, a: seq<Node>, b: seq<Node>)
    requires NoRepeats(s) && k < |s| && s[k] in lead && (k + 1 < |s| ==> s[k+1] in lead)
    requires Leaders(s, lead) == a + [s[k]] + b && Rank(s, lead, k) == |a|
    ensures Leaders(Without(s, k), LeadWithout(s, lead, k)) == a + b
  {
    hide Leaders, NoRepeats, Without, Rank;
    WithoutLeaders(s, lead, k);
    var r, ls := Rank(s, lead, k), Leaders(s, lead);
    assert ls[..r] == a && ls[r+1..] == b && [] + b == b;
  }

  /** What a search that ended without finding the key says about the whole list. */
  lemma KeyMissing(s: seq<Node>, lead: set<Node>, comp: Comparator, key: Key, a: seq<Node>, node: Node, b: seq<Node>)
    requires InOrderList(s, lead, comp) && Leaders(s, lead) == a + [node] + b && comp(key, node.key) != 0
    requires comp(key, node.key) < 0 ==> forall m :: m in a ==> comp(m.key, key) < 0
    requires comp(key, node.key) > 0 ==> forall m :: m in b ==> comp(m.key, key) > 0
    ensures forall m :: m in s ==> comp(key, m.key) != 0
  {
    hide Leaders, Rank, IsOrder, Sorted, LeadRuns, NoRepeats;
    LeadersStrict(s, lead, comp);
    StrictSides(a, node, b, comp, key);
    forall m | m in s ensures comp(key, m.key) != 0 {
      var i :| 0 <= i < |s| && s[i] == m;
      RunCompare(s, lead, comp, i, key);
      var l := Leaders(s, lead)[Rank(s, lead, i + 1) - 1];
      assert l in a || l == node || l in b;
      Opposite(comp, key, m.key);
      Opposite(comp, m.key, key);
    }
  }

  /** What one comparison says about the nodes on either side. */
  lemma Around(s: seq<Node>, comp: Comparator, key: Key, i: nat)
    requires IsOrder(comp) && Sorted(s, comp) && i < |s|
    ensures comp(key, s[i].key) >= 0 ==> forall j :: 0 <= j <= i ==> comp(s[j].key, key) <= 0
    ensures comp(key, s[i].key) > 0 ==> forall j :: 0 <= j <= i ==> comp(s[j].key, key) < 0
    ensures comp(key, s[i].key) <= 0 ==> forall j :: i <= j < |s| ==> comp(s[j].key, key) >= 0
    ensures comp(key, s[i].key) < 0 ==> forall j :: i <= j < |s| ==> comp(s[j].key, key) > 0
  {
    hide IsOrder;
    forall j | 0 <= j < |s|
      ensures j <= i && comp(key, s[i].key) >= 0 ==> comp(s[j].key, key) <= 0
      ensures j <= i && comp(key, s[i].key) > 0 ==> comp(s[j].key, key) < 0
      ensures j >= i && comp(key, s[i].key) <= 0 ==> comp(s[j].key, key) >= 0
      ensures j >= i && comp(key, s[i].key) < 0 ==> comp(s[j].key, key) > 0
    {
      OrderFacts(comp, s[i].key, s[i].key, key);
      OrderFacts(comp, s[j].key, s[i].key, key);
      OrderFacts(comp, key, s[i].key, s[j].key);
      OrderFacts(comp, key, s[j].key, key);
      Opposite(comp, key, s[i].key);
      Opposite(comp, s[i].key, key);
      Opposite(comp, key, s[j].key);
      Opposite(comp, s[j].key, key);
    }
  }

  /** The last node, counting duplicates, with a key up to this one is at position i. */
  ghost predicate LastUpTo(s: seq<Node>, comp: Comparator, key: Key, i: int) {
    -1 <= i < |s| && forall j :: 0 <= j < |s| ==> (comp(s[j].key, key) <= 0 <==> j <= i)
  }

  /** The first node with a key from this one on is at position i. */
  ghost predicate FirstFrom(s: seq<Node>, comp: Comparator, key: Key, i: int) {
    0 <= i <= |s| && forall j :: 0 <= j < |s| ==> (comp(s[j].key, key) >= 0 <==> j >= i)
  }

  lemma LastFound(s: seq<Node>, comp: Comparator, key: Key, i: int)
    requires IsOrder(comp) && Sorted(s, comp) && -1 <= i < |s|
    requires (i >= 0 ==> comp(key, s[i].key) >= 0) && (i + 1 < |s| ==> comp(key, s[i+1].key) < 0)
    ensures LastUpTo(s, comp, key, i)
  {
    hide IsOrder, Sorted;
    if i >= 0 { Around(s, comp, key, i); }
    if i + 1 < |s| { Around(s, comp, key, i + 1); }
  }

  lemma FirstFound(s: seq<Node>, comp: Comparator, key: Key, i: int)
    requires IsOrder(comp) && Sorted(s, comp) && 0 <= i <= |s|
    requires (i > 0 ==> comp(key, s[i-1].key) > 0) && (i < |s| ==> comp(key, s[i].key) <= 0)
    ensures FirstFrom(s, comp, key, i)
  {
    hide IsOrder, Sorted;
    if i > 0 { Around(s, comp, key, i - 1); }
    if i < |s| { Around(s, comp, key, i); }
  }
}
