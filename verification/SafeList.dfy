/** libubox/safe_list.c: a list whose nodes can be deleted while it is walked, at any depth. Each walk has an iterator,
    here a Walker, which is chained to the node the walk visits next. */
module SafeList {

  class Node {
    var i: Walker?

    constructor ()
      ensures i == null
    {
      i := null;
    }
  }

  /** Where a pointer to a pointer to an iterator points: to the one in a node, or in another iterator */
  datatype Slot = OfNode(node: Node) | OfWalker(walker: Walker)

  /** safe_list_iterator */
  class Walker {
    var head: Slot
    var nextI: Walker?
    var next: Node

    constructor (n: Node)
    {
      head, nextI, next := OfNode(n), null, n;
    }
  }

  // ---------- a chain of iterators

  ghost function Nth(c: seq<Walker>, k: int): Walker? {
    if 0 <= k < |c| then c[k] else null
  }

  ghost function SlotOf(n: Node, c: seq<Walker>, k: int): Slot {
    if 0 < k <= |c| then OfWalker(c[k-1]) else OfNode(n)
  }

  ghost predicate LinkOk(n: Node, c: seq<Walker>, k: nat)
    requires k < |c|
    reads c
  {
    c[k].next == n && c[k].nextI == Nth(c, k + 1) && c[k].head == SlotOf(n, c, k)
  }

  ghost predicate ChainOk(n: Node, c: seq<Walker>)
    reads n, c
  {
    n.i == Nth(c, 0) && forall k :: 0 <= k < |c| ==> LinkOk(n, c, k)
  }

  lemma EmptyChain(n: Node, c: seq<Walker>)
    requires ChainOk(n, c)
    ensures n.i == null <==> c == []
  {
  }

  ghost predicate NoRepeats<T>(c: seq<T>) {
    forall k, l :: 0 <= k < l < |c| ==> c[k] != c[l]
  }

  /** No iterator is in two chains. */
  ghost predicate Apart(chain: map<Node, seq<Walker>>) {
    && (forall n :: n in chain ==> NoRepeats(chain[n]))
    && (forall n, m :: n in chain && m in chain && n != m ==> forall x :: x in chain[n] ==> x !in chain[m])
  }

  ghost function All(chain: map<Node, seq<Walker>>): (r: set<Walker>)
    ensures forall n, x :: n in chain && x in chain[n] ==> x in r
  {
    set n, x | n in chain && x in chain[n] :: x
  }

  function Pos<T(==)>(s: seq<T>, x: T): (k: nat)
    ensures k <= |s| && (k < |s| ==> s[k] == x) && forall j :: 0 <= j < k ==> s[j] != x
    ensures k < |s| <==> x in s
  {
    if s == [] || s[0] == x then 0 else 1 + Pos(s[1..], x)
  }

  function Without<T(==)>(s: seq<T>, x: T): seq<T> {
    var k := Pos(s, x);
    if k < |s| then s[..k] + s[k+1..] else s
  }

  lemma WithoutFacts(s: seq<Node>, x: Node)
    requires NoRepeats(s)
    ensures NoRepeats(Without(s, x)) && forall y :: y in Without(s, x) <==> y in s && y != x
  {
  }

  ghost function Keys(order: seq<Node>, head: Node): set<Node> {
    (set n | n in order) + {head}
  }

  lemma HandedKeys(chain: map<Node, seq<Walker>>, order: seq<Node>, head: Node, n: Node, m: Node, c: seq<Walker>)
    requires chain.Keys == Keys(order, head) && NoRepeats(order) && n in order && head !in order && m in chain && m != n
    ensures (chain - {n})[m := c].Keys == Keys(Without(order, n), head) && head !in Without(order, n)
  {
    WithoutFacts(order, n);
    var chain' := (chain - {n})[m := c];
    assert forall y :: y in chain' <==> y in chain && y != n;
  }

  class List {
    const head: Node
    var order: seq<Node>
    ghost var chain: map<Node, seq<Walker>>

    ghost function Nodes(): set<Node>
      reads this
    {
      Keys(order, head)
    }

    ghost predicate Valid()
      reads this, chain.Keys, All(chain)
    {
      && head !in order && NoRepeats(order) && chain.Keys == Nodes() && Apart(chain)
      && forall n :: n in chain ==> ChainOk(n, chain[n])
    }

    /** INIT_SAFE_LIST */
    constructor ()
      ensures Valid() && order == [] && chain == map[head := []] && fresh(head)
    {
      head := new Node();
      order := [];
      new;
      chain := map[head := []];
    }

    /** The node behind another, or the first one behind the head */
    function Next(n: Node): (next: Node)
      reads this
    {
      var k := if n == head then 0 else Pos(order, n) + 1;
      if k < |order| then order[k] else head
    }

    /** __safe_list_set_iterator */
    method SetWalker(list: Node, w: Walker)
      requires Valid() && list in Nodes() && w !in All(chain)
      modifies this`chain, w, Nodes()`i, All(chain)`head
      ensures Valid() && chain == old(chain)[Next(list) := [w] + old(chain[Next(list)])]
    {
      hide NoRepeats;
      var next := Next(list);
      InNodes(list);
      Chained(next);
      ghost var was := chain;
      Push(next, w, chain[next]);
      chain := chain[next := [w] + chain[next]];
      ApartPush(was, next, w);
      forall m | m in was && m != next ensures ChainOk(m, was[m]) {
        Elsewhere(was, m, next);
        assert old(ChainOk(m, was[m]));
        forall k | 0 <= k < |was[m]| ensures LinkOk(m, was[m], k) { assert was[m][k] in was[m]
          && old(LinkOk(m, was[m], k)); }
      }
    }

    /** The lines of __safe_list_set_iterator that change the chain c of the node */
    static method Push(next: Node, w: Walker, ghost c: seq<Walker>)
      requires ChainOk(next, c) && NoRepeats(c) && w !in c
      modifies next`i, w, c`head
      ensures ChainOk(next, [w] + c)
    {
      var nextI := next.i;
      next.i := w;
      w.next := next;
      w.head := OfNode(next);
      w.nextI := nextI;
      if nextI != null {
        nextI.head := OfWalker(w);
      }
      forall k | 0 <= k < |c| + 1 ensures LinkOk(next, [w] + c, k) {
        if k > 0 { assert old(LinkOk(next, c, k - 1)); }
      }
    }

    /** Assigns to what a pointer to a pointer points to. */
    static method Store(slot: Slot, value: Walker?)
      modifies (if slot.OfNode? then {slot.node} else {})`i, (if slot.OfWalker? then {slot.walker} else {})`nextI
      ensures slot.OfNode? ==> slot.node.i == value
      ensures slot.OfWalker? ==> slot.walker.nextI == value
    {
      match slot {
        case OfNode(node) => node.i := value;
        case OfWalker(walker) => walker.nextI := value;
      }
    }

    /** __safe_list_del_iterator */
    method DelWalker(w: Walker, ghost n: Node, ghost k: nat)
      requires Valid() && n in chain && k < |chain[n]| && chain[n][k] == w
      modifies this`chain, Nodes()`i, All(chain)`head, All(chain)`nextI
      ensures Valid() && chain == old(chain)[n := old(chain[n])[..k] + old(chain[n])[k+1..]]
    {
      hide NoRepeats;
      ghost var was := chain;
      Chained(n);
      TakeOff(w, n, chain[n], k);
      chain := chain[n := chain[n][..k] + chain[n][k+1..]];
      ApartDrop(was, n, k);
      forall m | m in was && m != n ensures ChainOk(m, was[m]) {
        Elsewhere(was, m, n);
        assert old(ChainOk(m, was[m]));
        forall j | 0 <= j < |was[m]| ensures LinkOk(m, was[m], j) { assert was[m][j] in was[m]
          && old(LinkOk(m, was[m], j)); }
      }
    }

    static method TakeOff(w: Walker, ghost n: Node, ghost c: seq<Walker>, ghost k: nat)
      requires ChainOk(n, c) && NoRepeats(c) && k < |c| && c[k] == w
      modifies n`i, c`head, c`nextI
      ensures ChainOk(n, c[..k] + c[k+1..])
    {
      ghost var c' := c[..k] + c[k+1..];
      assert LinkOk(n, c, k) && (k > 0 ==> LinkOk(n, c, k - 1)) && (k < |c| - 1 ==> LinkOk(n, c, k + 1));
      Store(w.head, w.nextI);
      if w.nextI != null {
        w.nextI.head := w.head;
      }
      forall j | 0 <= j < |c'| ensures LinkOk(n, c', j) {
        assert c'[j] == c[if j < k then j else j + 1];
        assert old(LinkOk(n, c, if j < k then j else j + 1));
      }
    }

    /** __safe_list_move_iterator */
    method MoveWalker(list: Node, w: Walker, ghost n: Node, ghost k: nat)
      requires Valid() && list in Nodes() && n in chain && k < |chain[n]| && chain[n][k] == w
      modifies this`chain, w, Nodes()`i, All(chain)`head, All(chain)`nextI
      ensures Valid()
      ensures var was := old(chain)[n := old(chain[n])[..k] + old(chain[n])[k+1..]];
        chain == was[Next(list) := [w] + was[Next(list)]]
    {
      hide ChainOk, NoRepeats;
      Removed(chain, n, k);
      InNodes(list);
      DelWalker(w, n, k);
      SetWalker(list, w);
    }

    /** safe_list_add */
    method Add(list: Node)
      requires Valid() && list !in Nodes()
      modifies this`chain, this`order, list`i
      ensures Valid() && order == old(order) + [list] && chain == old(chain)[list := []]
    {
      list.i := null;
      order := order + [list];
      chain := chain[list := []];
    }

    /** safe_list_add_first */
    method AddFirst(list: Node)
      requires Valid() && list !in Nodes()
      modifies this`chain, this`order, list`i
      ensures Valid() && order == [list] + old(order) && chain == old(chain)[list := []]
    {
      list.i := null;
      order := [list] + order;
      chain := chain[list := []];
    }

    /** The chain of a node goes to the next one. */
    ghost function Handed(n: Node): map<Node, seq<Walker>>
      requires n in chain && Next(n) in chain
      reads this
    {
      (chain - {n})[Next(n) := chain[n] + chain[Next(n)]]
    }

    /** safe_list_del */
    method Del(list: Node)
      requires Valid() && list in order
      modifies this`chain, this`order, Nodes()`i, All(chain)`head, All(chain)`nextI, All(chain)`next
      ensures Valid() && order == Without(old(order), list) && old(Next(list)) in old(Nodes())
        && chain == old(Handed(list))
    {
      hide NoRepeats, Without, Pos, ChainOk;
      var next := Next(list);
      InNodes(list);
      NextDiffers(list);
      ApartJoin(chain, list, next);
      WithoutFacts(order, list);
      ghost var chain' := Handed(list);
      HandedKeys(chain, order, head, list, next, chain'[next]);
      HandOver(list, next);
      order := Without(order, list);
      chain := chain';
      assert ChainOk(next, chain[next]);
      assert forall m :: m in chain && m != next ==> ChainOk(m, chain[m]);
    }

    /** Its second part: the iterators of the node go to the next one. */
    method HandOver(list: Node, next: Node)
      requires Valid() && list in chain && next in chain && list != next
      modifies Nodes()`i, All(chain)`head, All(chain)`nextI, All(chain)`next
      ensures ChainOk(next, chain[list] + chain[next]) && forall m :: m in chain && m != next && m != list ==>
        ChainOk(m, chain[m])
    {
      Chained(list);
      Chained(next);
      EmptyChain(list, chain[list]);
      if list.i == null {
        assert chain[list] + chain[next] == chain[next];
        return;
      }
      Elsewhere(chain, list, next);
      Relink(list, next, chain[list], chain[next]);
      forall m | m in chain && m != next && m != list ensures ChainOk(m, chain[m]) {
        Elsewhere(chain, m, next);
        Elsewhere(chain, m, list);
        assert old(ChainOk(m, chain[m]));
        forall k | 0 <= k < |chain[m]| ensures LinkOk(m, chain[m], k) { assert chain[m][k] in chain[m]
          && old(LinkOk(m, chain[m], k)); }
      }
    }

    /** The loop of safe_list_del: all iterators of the node point to the next one; tail is where the chain ends. */
    static method Retarget(list: Node, next: Node, ghost c: seq<Walker>) returns (tail: Slot)
      requires ChainOk(list, c) && NoRepeats(c)
      modifies c`next
      ensures (forall j :: 0 <= j < |c| ==> c[j].next == next) && tail == SlotOf(next, c, |c|)
    {
      tail := OfNode(next);
      var i := list.i;
      ghost var k := 0;
      while i != null
        invariant k <= |c| && i == Nth(c, k) && tail == SlotOf(next, c, k)
        invariant forall j :: 0 <= j < k ==> c[j].next == next
        decreases |c| - k
      {
        assert old(LinkOk(list, c, k));
        tail := OfWalker(i);
        i.next := next;
        i := i.nextI;
        k := k + 1;
      }
    }

    /** The rest of safe_list_del, where the iterators of the node go in front of those of the next one */
    static method Relink(list: Node, next: Node, ghost c: seq<Walker>, ghost d: seq<Walker>)
      requires list != next && list.i != null && ChainOk(list, c) && ChainOk(next, d)
      requires NoRepeats(c) && NoRepeats(d) && forall x :: x in c ==> x !in d
      modifies list`i, next`i, c`next, c`head, c`nextI, d`head
      ensures ChainOk(next, c + d)
    {
      var nextI := next.i;
      var tail := Retarget(list, next, c);
      next.i := list.i;
      list.i.head := OfNode(next);
      Store(tail, nextI);
      if nextI != null {
        nextI.head := tail;
      }
      list.i := null;
      ghost var e := c + d;
      forall j | 0 <= j < |c| ensures LinkOk(next, e, j) {
        assert c[j] in c && old(LinkOk(list, c, j));
        assert j < |c| - 1 ==> c[j] != c[|c|-1] && e[j+1] == c[j+1];
        assert j > 0 ==> c[j] != c[0] && e[j-1] == c[j-1];
      }
      forall k | |c| <= k < |e| ensures LinkOk(next, e, k) {
        var j := k - |c|;
        assert d[j] in d && old(LinkOk(next, d, j));
        assert e[k] == d[j] && (j > 0 ==> d[j] != d[0] && e[k-1] == d[j-1]);
        assert j < |d| - 1 ==> e[k+1] == d[j+1];
      }
    }

    /** An iterator points to the node whose chain it is in. */
    lemma Target(x: Walker)
      requires Valid() && x in All(chain)
      ensures x.next in chain && x in chain[x.next] && x.next in Nodes()
    {
      var n, k :| n in chain && 0 <= k < |chain[n]| && chain[n][k] == x;
      assert LinkOk(n, chain[n], k);
    }

    lemma TargetIs(x: Walker, n: Node)
      requires Valid() && n in chain && x in chain[n]
      ensures x in All(chain) && x.next == n
    {
      var k :| 0 <= k < |chain[n]| && chain[n][k] == x;
      assert LinkOk(n, chain[n], k);
    }

    lemma NextDiffers(n: Node)
      requires Valid() && n in order
      ensures Next(n) != n
    {
    }

    lemma InNodes(n: Node)
      requires n in Nodes()
      ensures Next(n) in Nodes()
    {
    }

    /** The iterators of a chain are known. */
    lemma Chained(n: Node)
      requires Valid() && n in chain
      ensures n in Nodes() && ChainOk(n, chain[n]) && forall x :: x in chain[n] ==> x in All(chain)
    {
    }
  }

  lemma Elsewhere(chain: map<Node, seq<Walker>>, n: Node, m: Node)
    requires Apart(chain) && n in chain && m in chain && n != m
    ensures forall x :: x in chain[n] ==> x !in chain[m] && x in All(chain)
  {
  }

  lemma ApartPush(chain: map<Node, seq<Walker>>, n: Node, w: Walker)
    requires Apart(chain) && n in chain && w !in All(chain)
    ensures Apart(chain[n := [w] + chain[n]])
  {
    var chain' := chain[n := [w] + chain[n]];
    assert forall m, x :: m in chain && x in chain[m] ==> x in All(chain);
    assert NoRepeats(chain'[n]);
  }

  lemma ApartDrop(chain: map<Node, seq<Walker>>, n: Node, k: nat)
    requires Apart(chain) && n in chain && k < |chain[n]|
    ensures Apart(chain[n := chain[n][..k] + chain[n][k+1..]])
  {
    var c := chain[n];
    var c' := c[..k] + c[k+1..];
    assert NoRepeats(c);
    assert NoRepeats(c') && forall x :: x in c' ==> x in c;
  }

  lemma ApartJoin(chain: map<Node, seq<Walker>>, n: Node, m: Node)
    requires Apart(chain) && n in chain && m in chain && n != m
    ensures Apart((chain - {n})[m := chain[n] + chain[m]])
  {
    var c := chain[n] + chain[m];
    Elsewhere(chain, n, m);
    assert NoRepeats(chain[n]) && NoRepeats(chain[m]);
    assert forall x :: x in c <==> x in chain[n] || x in chain[m];
    forall k, l | 0 <= k < l < |c| ensures c[k] != c[l] {
      if k < |chain[n]| <= l { assert c[k] in chain[n] && c[l] in chain[m]; }
    }
  }

  /** Once it is out of its chain, an iterator is in none. */
  lemma Removed(chain: map<Node, seq<Walker>>, n: Node, k: nat)
    requires Apart(chain) && n in chain && k < |chain[n]|
    ensures chain[n][k] !in All(chain[n := chain[n][..k] + chain[n][k+1..]])
  {
    var c := chain[n];
    assert NoRepeats(c);
    forall m | m in chain && m != n ensures c[k] !in chain[m] { Elsewhere(chain, n, m); }
  }
}
