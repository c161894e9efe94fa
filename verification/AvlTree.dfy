/** libubox/avl.c: a balanced tree of nodes that are also kept in a doubly linked list. */
module AvlTree {
  import opened AvlShape
  import opened AvlLinks
  import opened AvlOrder

  ghost function Some(p: Node?): set<Node> {
    if p == null then {} else {p}
  }

  /** The list head, the nodes in order, and the list head again. */
  ghost function Ring(head: Node, order: seq<Node>): (r: seq<Node>)
    ensures |r| == |order| + 2 && r[0] == head && r[|order|+1] == head
    ensures forall i :: 0 <= i < |order| ==> r[i+1] == order[i]
  {
    [head] + order + [head]
  }

  ghost predicate Chained(ring: seq<Node>)
    reads ring`next, ring`prev
  {
    forall i :: 0 <= i < |ring| - 1 ==> ring[i].next == ring[i+1] && ring[i+1].prev == ring[i]
  }

  /** Only the head occurs twice in the ring. */
  lemma RingDistinct(head: Node, order: seq<Node>, i: nat, j: nat)
    requires head !in order && NoRepeats(order) && i < j < |order| + 2 && (i > 0 || j <= |order|)
    ensures Ring(head, order)[i] != Ring(head, order)[j]
  {
  }

  /** No other node has the successor, or the predecessor, that the i-th has. */
  lemma AloneInRing(head: Node, order: seq<Node>, i: nat)
    requires head !in order && NoRepeats(order) && i < |order| + 2
    ensures var r := Ring(head, order);
      && (i <= |order| ==> forall j :: 0 <= j <= |order| && j != i ==> r[j] != r[i])
      && (i > 0 ==> forall j :: 0 < j < |r| && j != i ==> r[j] != r[i])
  {
    hide NoRepeats;
    forall j | 0 <= j < |order| + 2 && j != i && ((i <= |order| && j <= |order|) || (i > 0 && j > 0))
      ensures Ring(head, order)[j] != Ring(head, order)[i]
    {
      if j < i { RingDistinct(head, order, j, i); } else { RingDistinct(head, order, i, j); }
    }
  }

  lemma PutRing(head: Node, order: seq<Node>, n: Node, k: nat, i: nat)
    requires k <= |order| && i <= |order| + 2
    ensures Ring(head, Put(order, n, k))[i]
        == if i <= k then Ring(head, order)[i] else if i == k + 1 then n else Ring(head, order)[i-1]
  {
  }

  lemma NotInRing(head: Node, order: seq<Node>, n: Node)
    requires n != head && n !in order
    ensures n !in Ring(head, order)
  {
  }

  lemma WithoutRing(head: Node, order: seq<Node>, k: nat, i: nat)
    requires k < |order| && i <= |order|
    ensures Ring(head, Without(order, k))[i] == if i <= k then Ring(head, order)[i] else Ring(head, order)[i+1]
  {
  }

  ghost function Set(order: seq<Node>): set<Node> {
    set n | n in order
  }

  lemma PutSet(order: seq<Node>, n: Node, k: nat)
    requires k <= |order|
    ensures Set(Put(order, n, k)) == Set(order) + {n} && |Put(order, n, k)| == |order| + 1
    ensures forall m :: m in Put(order, n, k) <==> m in order || m == n
  {
    assert order == order[..k] + order[k..];
  }

  ghost function Leading(order: seq<Node>): set<Node>
    reads Set(order)`leader
  {
    set n | n in order && n.leader
  }

  lemma WithoutSet(order: seq<Node>, k: nat)
    requires k < |order| && NoRepeats(order)
    ensures Set(Without(order, k)) == Set(order) - {order[k]} && |Without(order, k)| == |order| - 1
    ensures forall m :: m in Without(order, k) <==> m in order && m != order[k]
  {
    var rest := Without(order, k);
    forall m | m in order && m != order[k] ensures m in rest {
      var i :| 0 <= i < |order| && order[i] == m;
      assert rest[if i < k then i else i - 1] == m;
    }
  }

  ghost predicate AllLead(order: seq<Node>)
    reads Set(order)`leader
  {
    forall n :: n in order ==> n.leader
  }

  lemma PutLeading(order: seq<Node>, n: Node, k: nat)
    requires k <= |order|
    ensures Leading(Put(order, n, k)) == Leading(order) + if n.leader then {n} else {}
    ensures AllLead(Put(order, n, k)) <==> AllLead(order) && n.leader
  {
    PutSet(order, n, k);
    assert forall m :: m in Put(order, n, k) <==> m in order || m == n;
  }

  class Tree {
    const head: Node
    const allowDups: bool
    const comp: Comparator
    var root: Node?
    var count: nat
    ghost var order: seq<Node>
    ghost var shape: Shape<Node>

    ghost predicate ListOk()
      reads this`order, Ring(head, order)`next, Ring(head, order)`prev
    {
      head !in order && NoRepeats(order) && Chained(Ring(head, order))
    }

    ghost predicate TreeOk()
      reads this`order, this`shape, this`root, Set(order)`parent, Set(order)`left, Set(order)`right, Set(order)`balance
    {
      Rep(shape, root, null, Snap(Set(order))) && Balanced(shape) && Distinct(shape)
    }

    ghost predicate OrderOk()
      reads this`order, this`shape, Set(order)`leader
    {
      && InOrderList(order, Leading(order), comp)
      && InOrder(shape) == Leaders(order, Leading(order))
      && (!allowDups ==> AllLead(order))
    }

    ghost predicate Valid()
      reads this, Ring(head, order)
    {
      ListOk() && TreeOk() && OrderOk() && count == |order|
    }

    /** avl_init */
    constructor (comp: Comparator, allowDups: bool)
      requires IsOrder(comp)
      ensures Valid() && order == [] && this.comp == comp && this.allowDups == allowDups && fresh(head)
    {
      var h := new Node("");
      this.head, this.comp, this.allowDups := h, comp, allowDups;
      root, count, order, shape := null, 0, [], Leaf;
      new;
      head.next, head.prev := head, head;
    }

    /** _list_add, at position k of the list */
    method ListAdd(new_: Node, prev: Node, next: Node, ghost k: nat)
      requires ListOk() && k <= |order| && prev == Ring(head, order)[k] && next == Ring(head, order)[k+1]
      requires new_ !in order && new_ != head
      modifies prev`next, next`prev, new_`next, new_`prev
      ensures Chained(Ring(head, Put(order, new_, k)))
    {
      hide NoRepeats, Ring, Put, Without;
      ghost var r, r' := Ring(head, order), Ring(head, Put(order, new_, k));
      AloneInRing(head, order, k);
      AloneInRing(head, order, k + 1);
      NotInRing(head, order, new_);
      next.prev := new_;
      new_.next := next;
      new_.prev := prev;
      prev.next := new_;

      forall i | 0 <= i < |r'| - 1 ensures r'[i].next == r'[i+1] && r'[i+1].prev == r'[i] {
        PutRing(head, order, new_, k, i);
        assert i <= k ==> r[i] in r && r[i+1] in r;
        assert i > k + 1 ==> r[i-1] in r && r[i] in r;
        PutRing(head, order, new_, k, i + 1);
      }
    }

    /** list_del, of the node at position k */
    method ListDel(node: Node, ghost k: nat)
      requires ListOk() && k < |order| && node == order[k]
      modifies node`next, node`prev, Some(node.prev)`next, Some(node.next)`prev
      ensures Chained(Ring(head, Without(order, k)))
    {
      hide NoRepeats, Ring, Put, Without;
      ghost var r, r' := Ring(head, order), Ring(head, Without(order, k));
      assert r[k].next == node && r[k+1].next == r[k+2] && r[k+1].prev == r[k];
      AloneInRing(head, order, k);
      AloneInRing(head, order, k + 1);
      AloneInRing(head, order, k + 2);
      node.next.prev := node.prev;
      node.prev.next := node.next;
      node.next, node.prev := null, null;

      forall i | 0 <= i < |r'| - 1 ensures r'[i].next == r'[i+1] && r'[i+1].prev == r'[i] {
        WithoutRing(head, order, k, i);
        WithoutRing(head, order, k, i + 1);
      }
    }

    /** avl_rotate_right, field by field. */
    method RotateRight(node: Node)
      requires node.left != null
      requires node.left != node && node.parent != node && node.left != node.parent
      requires node.left.right != null ==> node.left.right !in [node, node.left, node.parent]
      modifies this`root, node`parent, node`left, node`balance
      modifies node.left`parent, node.left`right, node.left`balance, Some(node.left.right)`parent
      modifies Some(node.parent)`left, Some(node.parent)`right
      ensures var l, p := old(node.left), old(node.parent);
        && l.parent == p && node.parent == l && node.left == old(node.left.right) && l.right == node
        && (node.left != null ==> node.left.parent == node)
        && node.balance == old(node.balance) + 1 - Min(old(node.left.balance), 0)
        && l.balance == old(node.left.balance) + 1 + Max(node.balance, 0)
        && root == (if p == null then l else old(root))
        && (p != null ==>
              if old(p.left) == node then p.left == l && p.right == old(p.right)
              else p.right == l && p.left == old(p.left))
    {
      var left := node.left;
      var parent := node.parent;

      left.parent := parent;
      node.parent := left;

      if parent == null {
        root := left;
      } else if parent.left == node {
        parent.left := left;
      } else {
        parent.right := left;
      }

      node.left := left.right;
      left.right := node;

      if node.left != null {
        node.left.parent := node;
      }

      node.balance := node.balance + (1 - Min(left.balance, 0));
      left.balance := left.balance + (1 + Max(node.balance, 0));
    }

    /** The same, seen on a set of nodes. */
    method RotateRightAmong(node: Node, ghost s: set<Node>)
      requires node in s && CanRotateRight(Snap(s), node)
      modifies this`root, s`parent, s`left, s`right, s`balance
      ensures IsRotatedRight(old(Snap(s)), Snap(s), node)
      ensures root == if old(node.parent) == null then old(node.left) else old(root)
    {
      RotateRight(node);
    }

    /** avl_rotate_right on the tree t in the hole of c. */
    method RotateRightIn(node: Node, ghost s: set<Node>, ghost c: Ctx<Node>, ghost h: int, ghost t: Shape<Node>)
      requires node in s && InPlace(c, h, t, node, node.parent, root, Snap(s)) && t.left.Fork?
      modifies this`root, s`parent, s`left, s`right, s`balance
      ensures var l := t.left.node;
        l in s && InPlace(c, h, AvlShape.RotateRight(t), l, l.parent, root, Snap(s)) && l.parent == old(node.parent)
          && node.parent == l
    {
      ghost var m, par, root0 := Snap(s), node.parent, root;
      CanRotateRightIn(c, h, t, node, par, root, m);
      RotateRightAmong(node, s);
      RotatedRightInPlace(c, h, t, node, par, root0, m, Snap(s));
    }

    /** avl_rotate_right on the right subtree of t, when that keeps its height. */
    method RotateRightBelow(node: Node, ghost s: set<Node>, ghost c: Ctx<Node>, ghost h: int, ghost t: Shape<Node>,
        ghost p: Node)
      requires p in s && InPlace(c, h, t, p, p.parent, root, Snap(s)) && t.right.Fork? && t.right.left.Fork?
      requires node == t.right.node && Height(AvlShape.RotateRight(t.right)) == Height(t.right)
      modifies s`parent, s`left, s`right, s`balance, this`root
      ensures InPlace(c, h, t.(right := AvlShape.RotateRight(t.right)), p, p.parent, root, Snap(s))
      ensures root == old(root) && p.parent == old(p.parent)
      ensures node.parent == t.right.left.node && node.parent.parent == p
    {
      ghost var m, par := Snap(s), p.parent;
      CanRotateRightBelow(c, h, t, p, par, root, m);
      RotateRightAmong(node, s);
      RotatedRightBelow(c, h, t, p, par, root, m, Snap(s));
    }

    /** avl_rotate_left, field by field. */
    method RotateLeft(node: Node)
      requires node.right != null
      requires node.right != node && node.parent != node && node.right != node.parent
      requires node.right.left != null ==> node.right.left !in [node, node.right, node.parent]
      modifies this`root, node`parent, node`right, node`balance
      modifies node.right`parent, node.right`left, node.right`balance, Some(node.right.left)`parent
      modifies Some(node.parent)`right, Some(node.parent)`left
      ensures var r, p := old(node.right), old(node.parent);
        && r.parent == p && node.parent == r && node.right == old(node.right.left) && r.left == node
        && (node.right != null ==> node.right.parent == node)
        && node.balance == old(node.balance) - 1 - Max(old(node.right.balance), 0)
        && r.balance == old(node.right.balance) - 1 + Min(node.balance, 0)
        && root == (if p == null then r else old(root))
        && (p != null ==>
              if old(p.left) == node then p.left == r && p.right == old(p.right)
              else p.right == r && p.left == old(p.left))
    {
      var right := node.right;
      var parent := node.parent;

      right.parent := parent;
      node.parent := right;

      if parent == null {
        root := right;
      } else if parent.left == node {
        parent.left := right;
      } else {
        parent.right := right;
      }

      node.right := right.left;
      right.left := node;

      if node.right != null {
        node.right.parent := node;
      }

      node.balance := node.balance - (1 + Max(right.balance, 0));
      right.balance := right.balance - (1 - Min(node.balance, 0));
    }

    /** The same, seen on a set of nodes. */
    method RotateLeftAmong(node: Node, ghost s: set<Node>)
      requires node in s && CanRotateLeft(Snap(s), node)
      modifies this`root, s`parent, s`right, s`left, s`balance
      ensures IsRotatedLeft(old(Snap(s)), Snap(s), node)
      ensures root == if old(node.parent) == null then old(node.right) else old(root)
    {
      RotateLeft(node);
    }

    /** avl_rotate_left on the tree t in the hole of c. */
    method RotateLeftIn(node: Node, ghost s: set<Node>, ghost c: Ctx<Node>, ghost h: int, ghost t: Shape<Node>)
      requires node in s && InPlace(c, h, t, node, node.parent, root, Snap(s)) && t.right.Fork?
      modifies this`root, s`parent, s`right, s`left, s`balance
      ensures var r := t.right.node;
        r in s && InPlace(c, h, AvlShape.RotateLeft(t), r, r.parent, root, Snap(s)) && r.parent == old(node.parent)
          && node.parent == r
    {
      ghost var m, par, root0 := Snap(s), node.parent, root;
      CanRotateLeftIn(c, h, t, node, par, root, m);
      RotateLeftAmong(node, s);
      RotatedLeftInPlace(c, h, t, node, par, root0, m, Snap(s));
    }

    /** avl_rotate_left on the left subtree of t, when that keeps its height. */
    method RotateLeftBelow(node: Node, ghost s: set<Node>, ghost c: Ctx<Node>, ghost h: int, ghost t: Shape<Node>,
        ghost p: Node)
      requires p in s && InPlace(c, h, t, p, p.parent, root, Snap(s)) && t.left.Fork? && t.left.right.Fork?
      requires node == t.left.node && Height(AvlShape.RotateLeft(t.left)) == Height(t.left)
      modifies s`parent, s`right, s`left, s`balance, this`root
      ensures InPlace(c, h, t.(left := AvlShape.RotateLeft(t.left)), p, p.parent, root, Snap(s))
      ensures root == old(root) && p.parent == old(p.parent)
      ensures node.parent == t.left.right.node && node.parent.parent == p
    {
      ghost var m, par := Snap(s), p.parent;
      CanRotateLeftBelow(c, h, t, p, par, root, m);
      RotateLeftAmong(node, s);
      RotatedLeftBelow(c, h, t, p, par, root, m, Snap(s));
    }

    /** The two rotations for a tree t that is two too high on its left, its left subtree being right-heavy. */
    method DoubleRotateRight(node: Node, parent: Node, ghost s: set<Node>, ghost c: Ctx<Node>, ghost h: int,
        ghost t: Shape<Node>)
      requires parent in s && InPlace(c, h, t, parent, parent.parent, root, Snap(s)) && t.left.Fork?
        && t.left.right.Fork?
      requires node == t.left.node && Height(AvlShape.RotateLeft(t.left)) == Height(t.left)
      modifies this`root, s`parent, s`left, s`right, s`balance
      ensures var t' := FixLeftHeavy(t, false);
        && t'.node in s && InPlace(c, h, t', t'.node, t'.node.parent, root, Snap(s))
        && t'.node.parent == old(parent.parent) && parent.parent == t'.node
    {
      RotateLeftBelow(node, s, c, h, t, parent);
      RotateRightIn(node.parent.parent, s, c, h, t.(left := AvlShape.RotateLeft(t.left)));
    }

    /** The two rotations for a tree t that is two too high on its right, its right subtree being left-heavy. */
    method DoubleRotateLeft(node: Node, parent: Node, ghost s: set<Node>, ghost c: Ctx<Node>, ghost h: int,
        ghost t: Shape<Node>)
      requires parent in s && InPlace(c, h, t, parent, parent.parent, root, Snap(s)) && t.right.Fork?
        && t.right.left.Fork?
      requires node == t.right.node && Height(AvlShape.RotateRight(t.right)) == Height(t.right)
      modifies this`root, s`parent, s`right, s`left, s`balance
      ensures var t' := FixRightHeavy(t, false);
        && t'.node in s && InPlace(c, h, t', t'.node, t'.node.parent, root, Snap(s))
        && t'.node.parent == old(parent.parent) && parent.parent == t'.node
    {
      RotateRightBelow(node, s, c, h, t, parent);
      RotateLeftIn(node.parent.parent, s, c, h, t.(right := AvlShape.RotateRight(t.right)));
    }

    /** Stores in parent the balance that fits the tree t that is now its left subtree. */
    method SetBalanceLeft(parent: Node, balance: int, ghost s: set<Node>, ghost r: Shape<Node>, ghost up: Ctx<Node>,
        ghost h: int, ghost t: Shape<Node>, ghost p: Node?)
      requires parent in s && InPlace(InLeft(parent, r, up), h, t, p, parent, root, Snap(s))
      requires balance == Height(r) - Height(t)
      modifies parent`balance
      ensures parent.balance == balance
      ensures InPlace(up, 1 + Max(h, Height(r)), Fork(t, parent, r), parent, parent.parent, root, Snap(s))
    {
      ghost var m := Snap(s);
      parent.balance := balance;
      ZipLeft(parent, r, up, h, t, p, root, m, Snap(s));
    }

    /** Stores in parent the balance that fits the tree t that is now its right subtree. */
    method SetBalanceRight(parent: Node, balance: int, ghost s: set<Node>, ghost l: Shape<Node>, ghost up: Ctx<Node>,
        ghost h: int, ghost t: Shape<Node>, ghost p: Node?)
      requires parent in s && InPlace(InRight(l, parent, up), h, t, p, parent, root, Snap(s))
      requires balance == Height(t) - Height(l)
      modifies parent`balance
      ensures parent.balance == balance
      ensures InPlace(up, 1 + Max(Height(l), h), Fork(l, parent, t), parent, parent.parent, root, Snap(s))
    {
      ghost var m := Snap(s);
      parent.balance := balance;
      ZipRight(l, parent, up, h, t, p, root, m, Snap(s));
    }

    /** post_insert's rotations, once the parent is two too high on its left. */
    method PostInsertRotateRight(node: Node, parent: Node, ghost s: set<Node>, ghost c: Ctx<Node>, ghost h: int,
        ghost t: Shape<Node>)
      requires parent in s && InPlace(c, h, t, parent, parent.parent, root, Snap(s))
      requires t.left.Fork? && node == t.left.node && node.balance == Balance(t.left) != 0
      requires Balance(t) == -2 && Balanced(t.left) && Balanced(t.right) && h == Height(t) - 1
      modifies this`root, s`parent, s`left, s`right, s`balance
      ensures t.left.Fork? && (Balance(t.left) == 1 ==> t.left.right.Fork?)
      ensures Rep(Plug(c, FixLeftHeavy(t, Balance(t.left) == -1)), root, null, Snap(s))
    {
      LeftHeavyFixed(t, Balance(t.left) == -1);
      if node.balance == -1 {
        RotateRightIn(parent, s, c, h, t);
      } else {
        DoubleRotateRight(node, parent, s, c, h, t);
      }
      ghost var t' := FixLeftHeavy(t, Balance(t.left) == -1);
      PlugRep(c, t', t'.node, t'.node.parent, root, Snap(s));
    }

    /** post_insert's rotations, once the parent is two too high on its right. */
    method PostInsertRotateLeft(node: Node, parent: Node, ghost s: set<Node>, ghost c: Ctx<Node>, ghost h: int,
        ghost t: Shape<Node>)
      requires parent in s && InPlace(c, h, t, parent, parent.parent, root, Snap(s))
      requires t.right.Fork? && node == t.right.node && node.balance == Balance(t.right) != 0
      requires Balance(t) == 2 && Balanced(t.right) && Balanced(t.left) && h == Height(t) - 1
      modifies this`root, s`parent, s`right, s`left, s`balance
      ensures t.right.Fork? && (Balance(t.right) == -1 ==> t.right.left.Fork?)
      ensures Rep(Plug(c, FixRightHeavy(t, Balance(t.right) == 1)), root, null, Snap(s))
    {
      RightHeavyFixed(t, Balance(t.right) == 1);
      if node.balance == 1 {
        RotateLeftIn(parent, s, c, h, t);
      } else {
        DoubleRotateLeft(node, parent, s, c, h, t);
      }
      ghost var t' := FixRightHeavy(t, Balance(t.right) == 1);
      PlugRep(c, t', t'.node, t'.node.parent, root, Snap(s));
    }

    method PostInsert(node: Node, ghost s: set<Node>, ghost c: Ctx<Node>, ghost h: nat, ghost t: Shape<Node>)
      requires h == Height(t) - 1 && node in s && InPlace(c, h, t, node, node.parent, root, Snap(s))
      requires t.Fork? && Balance(t) != 0 && Balanced(t) && BalancedCtx(c, Height(t) - 1)
      modifies this`root, s`parent, s`left, s`right, s`balance
      ensures Rep(Grown(c, t), root, null, Snap(s))
      decreases c, 1
    {
      var parent := node.parent;
      InPlaceParent(c, Height(t) - 1, t, node, parent, root, Snap(s));
      if parent == null {
        return;
      }
      ParentSide(c, Height(t) - 1, t, node, parent, root, Snap(s));
      if node == parent.left {
        PostInsertLeft(node, parent, s, c.right, c.up, h, t);
      } else {
        PostInsertRight(node, parent, s, c.left, c.up, h, t);
      }
    }

    /** post_insert where node is the left child: the tree t at node has grown by one level. */
    method PostInsertLeft(node: Node, parent: Node, ghost s: set<Node>, ghost r: Shape<Node>, ghost up: Ctx<Node>,
        ghost h: nat, ghost t: Shape<Node>)
      requires node in s && parent in s && InPlace(InLeft(parent, r, up), h, t, node, parent, root, Snap(s))
      requires t.Fork? && Balance(t) != 0 && Balanced(t) && BalancedCtx(InLeft(parent, r, up), h) && h == Height(t) - 1
      modifies this`root, s`parent, s`left, s`right, s`balance
      ensures Rep(Grown(InLeft(parent, r, up), t), root, null, Snap(s))
      decreases InLeft(parent, r, up), 0
    {
      hide Height, Balanced, BalancedCtx, Grown;
      ghost var t', h' := Fork(t, parent, r), 1 + Max(h, Height(r));
      assert node.balance == Balance(t) && parent.balance == Height(r) - h && node != parent;
      GrownLeftCases(parent, r, up, h, t);
      SetBalanceLeft(parent, parent.balance - 1, s, r, up, h, t, node);
      if parent.balance == 0 {
        PlugRep(up, t', parent, parent.parent, root, Snap(s));
        return;
      }
      if parent.balance == -1 {
        PostInsert(parent, s, up, h', t');
        return;
      }
      PostInsertRotateRight(node, parent, s, up, h', t');
    }

    /** post_insert where node is the right child: the tree t at node has grown by one level. */
    method PostInsertRight(node: Node, parent: Node, ghost s: set<Node>, ghost l: Shape<Node>, ghost up: Ctx<Node>,
        ghost h: nat, ghost t: Shape<Node>)
      requires node in s && parent in s && InPlace(InRight(l, parent, up), h, t, node, parent, root, Snap(s))
      requires t.Fork? && Balance(t) != 0 && Balanced(t) && BalancedCtx(InRight(l, parent, up), h) && h == Height(t) - 1
      modifies this`root, s`parent, s`right, s`left, s`balance
      ensures Rep(Grown(InRight(l, parent, up), t), root, null, Snap(s))
      decreases InRight(l, parent, up), 0
    {
      hide Height, Balanced, BalancedCtx, Grown;
      ghost var t', h' := Fork(l, parent, t), 1 + Max(Height(l), h);
      assert node.balance == Balance(t) && parent.balance == h - Height(l) && node != parent;
      GrownRightCases(l, parent, up, h, t);
      SetBalanceRight(parent, parent.balance + 1, s, l, up, h, t, node);
      if parent.balance == 0 {
        PlugRep(up, t', parent, parent.parent, root, Snap(s));
        return;
      }
      if parent.balance == 1 {
        PostInsert(parent, s, up, h', t');
        return;
      }
      PostInsertRotateLeft(node, parent, s, up, h', t');
    }

    method PostDelete(node: Node, ghost s: set<Node>, ghost c: Ctx<Node>, ghost h: nat, ghost t: Shape<Node>)
      requires node in s && InPlace(c, h, t, node, node.parent, root, Snap(s))
      requires Balanced(t) && BalancedCtx(c, h) && h == Height(t) + 1
      modifies this`root, s`parent, s`left, s`right, s`balance
      ensures Rep(Shrunk(c, t), root, null, Snap(s))
      decreases c, 1
    {
      var parent := node.parent;
      InPlaceParent(c, h, t, node, parent, root, Snap(s));
      if parent == null {
        return;
      }
      ParentSide(c, h, t, node, parent, root, Snap(s));
      if node == parent.left {
        PostDeleteLeft(parent, s, c.right, c.up, h, t, node);
      } else {
        PostDeleteRight(parent, s, c.left, c.up, h, t, node);
      }
    }

    /** avl_post_delete, or the end of avl_delete_worker, where the left subtree t of parent has shrunk by one level. */
    method PostDeleteLeft(parent: Node, ghost s: set<Node>, ghost r: Shape<Node>, ghost up: Ctx<Node>, ghost h: nat,
        ghost t: Shape<Node>, ghost p: Node?)
      requires parent in s && InPlace(InLeft(parent, r, up), h, t, p, parent, root, Snap(s))
      requires Balanced(t) && BalancedCtx(InLeft(parent, r, up), h) && h == Height(t) + 1
      modifies this`root, s`parent, s`left, s`right, s`balance
      ensures Rep(Shrunk(InLeft(parent, r, up), t), root, null, Snap(s))
      decreases InLeft(parent, r, up), 0
    {
      hide Height, Balanced, BalancedCtx, Shrunk;
      ghost var t', h' := Fork(t, parent, r), 1 + Max(h, Height(r));
      assert parent.balance == Height(r) - h;
      ShrunkLeftCases(parent, r, up, h, t);
      SetBalanceLeft(parent, parent.balance + 1, s, r, up, h, t, p);
      if parent.balance == 0 {
        PostDelete(parent, s, up, h', t');
        return;
      }
      if parent.balance == 1 {
        PlugRep(up, t', parent, parent.parent, root, Snap(s));
        return;
      }
      PostDeleteRotateLeft(parent, s, up, h', t', Shrunk(InLeft(parent, r, up), t));
    }

    /** The rotations once parent is two too high on its right. */
    method PostDeleteRotateLeft(parent: Node, ghost s: set<Node>, ghost c: Ctx<Node>, ghost h: nat,
        ghost t: Shape<Node>, ghost done: Shape<Node>)
      requires parent in s && InPlace(c, h, t, parent, parent.parent, root, Snap(s)) && t.right.Fork?
      requires Balance(t) == 2 && Balanced(t.left) && Balanced(t.right) && h == Height(t)
      requires Balance(t.right) >= 0 || t.right.left.Fork?
      requires Balance(t.right) == 0 ==> done == Plug(c, FixRightHeavy(t, true))
      requires Balance(t.right) != 0 ==>
        var t' := FixRightHeavy(t, Balance(t.right) == 1);
        Balanced(t') && BalancedCtx(c, Height(t') + 1) && done == Shrunk(c, t')
      modifies this`root, s`parent, s`left, s`right, s`balance
      ensures Rep(done, root, null, Snap(s))
      decreases c, 2
    {
      hide Height, Balanced, BalancedCtx, Shrunk;
      RightHeavyFixed(t, Balance(t.right) >= 0);
      ghost var t' := FixRightHeavy(t, Balance(t.right) >= 0);
      LeftChild(t, parent, parent.parent, Snap(s));
      if parent.right.balance == 0 {
        RotateLeftIn(parent, s, c, h, t);
        PlugRep(c, t', t'.node, t'.node.parent, root, Snap(s));
        return;
      }
      if parent.right.balance == 1 {
        RotateLeftIn(parent, s, c, h, t);
      } else {
        DoubleRotateLeft(parent.right, parent, s, c, h, t);
      }
      assert parent.parent == t'.node;
      PostDelete(parent.parent, s, c, h, t');
    }

    /** avl_post_delete, or the end of avl_delete_worker, where the right subtree t of parent has shrunk by one
        level. */
    method PostDeleteRight(parent: Node, ghost s: set<Node>, ghost l: Shape<Node>, ghost up: Ctx<Node>, ghost h: nat,
        ghost t: Shape<Node>, ghost p: Node?)
      requires parent in s && InPlace(InRight(l, parent, up), h, t, p, parent, root, Snap(s))
      requires Balanced(t) && BalancedCtx(InRight(l, parent, up), h) && h == Height(t) + 1
      modifies this`root, s`parent, s`right, s`left, s`balance
      ensures Rep(Shrunk(InRight(l, parent, up), t), root, null, Snap(s))
      decreases InRight(l, parent, up), 0
    {
      hide Height, Balanced, BalancedCtx, Shrunk;
      ghost var t', h' := Fork(l, parent, t), 1 + Max(Height(l), h);
      assert parent.balance == h - Height(l);
      ShrunkRightCases(l, parent, up, h, t);
      SetBalanceRight(parent, parent.balance - 1, s, l, up, h, t, p);
      if parent.balance == 0 {
        PostDelete(parent, s, up, h', t');
        return;
      }
      if parent.balance == -1 {
        PlugRep(up, t', parent, parent.parent, root, Snap(s));
        return;
      }
      PostDeleteRotateRight(parent, s, up, h', t', Shrunk(InRight(l, parent, up), t));
    }

    /** The rotations once parent is two too high on its left. */
    method PostDeleteRotateRight(parent: Node, ghost s: set<Node>, ghost c: Ctx<Node>, ghost h: nat,
        ghost t: Shape<Node>, ghost done: Shape<Node>)
      requires parent in s && InPlace(c, h, t, parent, parent.parent, root, Snap(s)) && t.left.Fork?
      requires Balance(t) == -2 && Balanced(t.right) && Balanced(t.left) && h == Height(t)
      requires Balance(t.left) <= 0 || t.left.right.Fork?
      requires Balance(t.left) == 0 ==> done == Plug(c, FixLeftHeavy(t, true))
      requires Balance(t.left) != 0 ==>
        var t' := FixLeftHeavy(t, Balance(t.left) == -1);
        Balanced(t') && BalancedCtx(c, Height(t') + 1) && done == Shrunk(c, t')
      modifies this`root, s`parent, s`right, s`left, s`balance
      ensures Rep(done, root, null, Snap(s))
      decreases c, 2
    {
      hide Height, Balanced, BalancedCtx, Shrunk;
      LeftHeavyFixed(t, Balance(t.left) <= 0);
      ghost var t' := FixLeftHeavy(t, Balance(t.left) <= 0);
      RightChild(t, parent, parent.parent, Snap(s));
      if parent.left.balance == 0 {
        RotateRightIn(parent, s, c, h, t);
        PlugRep(c, t', t'.node, t'.node.parent, root, Snap(s));
        return;
      }
      if parent.left.balance == -1 {
        RotateRightIn(parent, s, c, h, t);
      } else {
        DoubleRotateRight(parent.left, parent, s, c, h, t);
      }
      assert parent.parent == t'.node;
      PostDelete(parent.parent, s, c, h, t');
    }

    lemma Here(c: Ctx<Node>, h: int, t: Shape<Node>, n: Node, p: Node?, par: Node?, root: Node?, s: set<Node>)
      requires t.Fork? && t.node == n && n in s && Rep(t, p, par, Snap(s)) && RepCtx(c, h, p, par, root, Snap(s))
        && Apart(c, t)
      ensures p == n && par == n.parent && InPlace(c, h, t, n, n.parent, root, Snap(s)) && n in Snap(s)
    {
    }

    /** Hangs new_ below node as its left child, where there was none. */
    method AttachLeft(new_: Node, node: Node, ghost s: set<Node>, ghost c: Ctx<Node>, ghost h: int,
        ghost r: Shape<Node>)
      requires new_ in s && node in s && InPlace(c, h, Fork(Leaf, node, r), node, node.parent, root, Snap(s))
      requires new_ !in CtxNodes(c) && new_ !in Nodes(Fork(Leaf, node, r))
      requires new_.left == null && new_.right == null && new_.balance == 0
      modifies new_`parent, node`left, node`balance
      ensures node.balance == old(node.balance) - 1 && node.parent == old(node.parent)
      ensures InPlace(c, h, Fork(Fork(Leaf, new_, Leaf), node, r), node, node.parent, root, Snap(s))
    {
      ghost var m := Snap(s);
      node.balance := node.balance - 1;
      new_.parent := node;
      node.left := new_;
      AttachedLeftInPlace(c, h, node, r, new_, Height(r) - 1, node.parent, root, m, Snap(s));
    }

    /** Hangs new_ below node on its left, and restores the balance from there. */
    method AddLeft(new_: Node, node: Node, ghost s: set<Node>, ghost c: Ctx<Node>, ghost r: Shape<Node>)
      requires new_ in s && node in s && Rep(Plug(c, Fork(Leaf, node, r)), root, null, Snap(s))
      requires Distinct(Plug(c, Fork(Leaf, node, r))) && Balanced(Plug(c, Fork(Leaf, node, r)))
      requires new_ !in Nodes(Plug(c, Fork(Leaf, node, r)))
      requires new_.left == null && new_.right == null && new_.balance == 0
      modifies this`root, s`parent, s`left, s`right, s`balance
      ensures Rep(Hung(c, Leaf, node, r, new_, true), root, null, Snap(s))
    {
      hide Plug, Distinct, Nodes, CtxNodes, Rep, RepCtx, InPlace, Apart, Balanced, BalancedCtx, Grown, Hung, Balance;
      ghost var t0, t1 := Fork(Leaf, node, r), Fork(Fork(Leaf, new_, Leaf), node, r);
      ghost var h := Height(t0);
      ghost var p, par := UnplugRep(c, t0, root, Snap(s));
      HungFits(c, Leaf, node, r, new_, true);
      Here(c, h, t0, node, p, par, root, s);
      AttachLeft(new_, node, s, c, h, r);
      InPlaceBalance(c, h, t1, node, node.parent, root, Snap(s));
      if node.balance == 0 {
        PlugRep(c, t1, node, node.parent, root, Snap(s));
      } else {
        PostInsert(node, s, c, h, t1);
      }
    }

    /** Hangs new_ below node as its right child, where there was none. */
    method AttachRight(new_: Node, node: Node, ghost s: set<Node>, ghost c: Ctx<Node>, ghost h: int,
        ghost l: Shape<Node>)
      requires new_ in s && node in s && InPlace(c, h, Fork(l, node, Leaf), node, node.parent, root, Snap(s))
      requires new_ !in CtxNodes(c) && new_ !in Nodes(Fork(l, node, Leaf))
      requires new_.right == null && new_.left == null && new_.balance == 0
      modifies new_`parent, node`right, node`balance
      ensures node.balance == old(node.balance) + 1 && node.parent == old(node.parent)
      ensures InPlace(c, h, Fork(l, node, Fork(Leaf, new_, Leaf)), node, node.parent, root, Snap(s))
    {
      ghost var m := Snap(s);
      node.balance := node.balance + 1;
      new_.parent := node;
      node.right := new_;
      AttachedRightInPlace(c, h, node, l, new_, 1 - Height(l), node.parent, root, m, Snap(s));
    }

    /** Hangs new_ below node on its right, and restores the balance from there. */
    method AddRight(new_: Node, node: Node, ghost s: set<Node>, ghost c: Ctx<Node>, ghost l: Shape<Node>)
      requires new_ in s && node in s && Rep(Plug(c, Fork(l, node, Leaf)), root, null, Snap(s))
      requires Distinct(Plug(c, Fork(l, node, Leaf))) && Balanced(Plug(c, Fork(l, node, Leaf)))
      requires new_ !in Nodes(Plug(c, Fork(l, node, Leaf)))
      requires new_.right == null && new_.left == null && new_.balance == 0
      modifies this`root, s`parent, s`right, s`left, s`balance
      ensures Rep(Hung(c, l, node, Leaf, new_, false), root, null, Snap(s))
    {
      hide Plug, Distinct, Nodes, CtxNodes, Rep, RepCtx, InPlace, Apart, Balanced, BalancedCtx, Grown, Hung, Balance;
      ghost var t0, t1 := Fork(l, node, Leaf), Fork(l, node, Fork(Leaf, new_, Leaf));
      ghost var h := Height(t0);
      ghost var p, par := UnplugRep(c, t0, root, Snap(s));
      HungFits(c, l, node, Leaf, new_, false);
      Here(c, h, t0, node, p, par, root, s);
      AttachRight(new_, node, s, c, h, l);
      InPlaceBalance(c, h, t1, node, node.parent, root, Snap(s));
      if node.balance == 0 {
        PlugRep(c, t1, node, node.parent, root, Snap(s));
      } else {
        PostInsert(node, s, c, h, t1);
      }
    }

    /** Makes the pointer to node in its parent, or the root, point to child instead. */
    method SpliceOut(node: Node, child: Node?)
      requires child != node && node.parent != node && (child != null ==> child != node.parent)
      modifies this`root, Some(child)`parent, Some(node.parent)`left, Some(node.parent)`right
      ensures child != null ==> child.parent == node.parent
      ensures var p := node.parent;
        && root == (if p == null then child else old(root))
        && (p != null ==>
              if old(p.left) == node then p.left == child && p.right == old(p.right)
              else p.right == child && p.left == old(p.left))
    {
      var parent := node.parent;
      if child != null {
        child.parent := parent;
      }
      if parent == null {
        root := child;
      } else if parent.left == node {
        parent.left := child;
      } else {
        parent.right := child;
      }
    }

    method SpliceOutAmong(node: Node, child: Node?, ghost s: set<Node>)
      requires node in s && (node.parent != null ==> node.parent in s) && (child != null ==> child in s)
      requires child != node && node.parent != node && (child != null ==> child != node.parent)
      modifies this`root, s`parent, s`left, s`right
      ensures forall x :: x in s && x != node ==> Snap(s)[x] == SplicedOut(old(Snap(s)), node, child, x)
      ensures root == (if old(node.parent) == null then child else old(root)) && node.parent == old(node.parent)
    {
      SpliceOut(node, child);
    }

    /** avl_delete_worker for a node with at most one child. */
    method DeleteOne(node: Node, child: Node?, ghost s: set<Node>, ghost c: Ctx<Node>, ghost h: nat,
        ghost t: Shape<Node>, ghost other: Shape<Node>)
      requires node in s && InPlace(c, h, t, node, node.parent, root, Snap(s))
      requires t == Fork(Leaf, node, other) || t == Fork(other, node, Leaf)
      requires child == if other.Leaf? then null else other.node
      requires Balanced(other) && BalancedCtx(c, h) && h == Height(other) + 1
      modifies this`root, s`parent, s`left, s`right, s`balance
      ensures Rep(Shrunk(c, other), root, null, Snap(s))
    {
      ghost var m, root0 := Snap(s), root;
      var parent := node.parent;
      InPlaceParent(c, h, t, node, parent, root, m);
      OnlyChild(t, node, parent, other, m);
      if parent != null { ParentSide(c, h, t, node, parent, root, m); }
      var isLeft := parent != null && parent.left == node;
      SpliceOutAmong(node, child, s);
      SplicedOutRep(c, h, node, t, other, child, parent, root0, m, Snap(s));
      hide Height, Balanced, BalancedCtx, Shrunk;
      DeleteOneDone(child, parent, isLeft, s, c, h, other);
    }

    method DeleteOneDone(child: Node?, parent: Node?, isLeft: bool, ghost s: set<Node>, ghost c: Ctx<Node>,
        ghost h: nat, ghost t: Shape<Node>)
      requires InPlace(c, h, t, child, parent, root, Snap(s))
      requires parent != null ==> parent in s && parent == c.node && (isLeft <==> c.InLeft?)
      requires Balanced(t) && BalancedCtx(c, h) && h == Height(t) + 1
      modifies this`root, s`parent, s`left, s`right, s`balance
      ensures Rep(Shrunk(c, t), root, null, Snap(s))
    {
      InPlaceParent(c, h, t, child, parent, root, Snap(s));
      if parent == null {
        return;
      }
      if child != null {
        RepNodes(t, child, parent, Snap(s));
        PostDelete(child, s, c, h, t);
      } else if isLeft {
        PostDeleteLeft(parent, s, c.right, c.up, h, t, null);
      } else {
        PostDeleteRight(parent, s, c.left, c.up, h, t, null);
      }
    }

    /** Gives next the links of node, and makes the nodes around it point to next. */
    method TakePlace(next: Node, node: Node)
      requires next != node && node.left != next && node.right != next && node.parent != next
      requires node.left != node && node.right != node && node.parent != node
      requires node.left != null ==> node.left != node.parent && node.left != node.right
      requires node.right != null ==> node.right != node.parent
      modifies this`root, next`parent, next`left, next`right, next`balance
      modifies Some(node.left)`parent, Some(node.right)`parent, Some(node.parent)`left, Some(node.parent)`right
      ensures next.parent == node.parent && next.left == node.left && next.right == node.right
        && next.balance == node.balance
      ensures (node.left != null ==> node.left.parent == next) && (node.right != null ==> node.right.parent == next)
      ensures var p := node.parent;
        && root == (if p == null then next else old(root))
        && (p != null ==>
              if old(p.left) == node then p.left == next && p.right == old(p.right)
              else p.right == next && p.left == old(p.left))
    {
      var parent := node.parent;
      next.balance := node.balance;
      next.parent := parent;
      next.left := node.left;
      next.right := node.right;
      if next.left != null {
        next.left.parent := next;
      }
      if next.right != null {
        next.right.parent := next;
      }
      if parent == null {
        root := next;
      } else if parent.left == node {
        parent.left := next;
      } else {
        parent.right := next;
      }
    }

    method TakePlaceAmong(next: Node, node: Node, ghost s: set<Node>)
      requires next in s && node in s && CanTakePlace(Snap(s), node, next)
      modifies this`root, s`parent, s`left, s`right, s`balance
      ensures forall x :: x in s && x != node ==> Snap(s)[x] == PlaceTaken(old(Snap(s)), node, next, x)
      ensures root == if old(node.parent) == null then next else old(root)
    {
      TakePlace(next, node);
    }

    /** next takes the place of node in the whole tree. */
    method TakePlaceIn(next: Node, node: Node, ghost s: set<Node>, ghost t: Shape<Node>)
      requires next in s && node in Nodes(t) && next !in Nodes(t)
      requires Rep(t, root, null, Snap(s)) && Distinct(t)
      modifies this`root, s`parent, s`left, s`right, s`balance
      ensures Rep(Renamed(t, node, next), root, null, Snap(s))
    {
      ghost var m, root0 := Snap(s), root;
      ghost var c, l, r := Locate(Top, t, node);
      ghost var p, par := UnplugRep(c, Fork(l, node, r), root, m);
      PlugDistinct(c, Fork(l, node, r));
      PlugNodes(c, Fork(l, node, r));
      CanTakePlaceIn(c, l, node, r, next, root, m);
      TakePlaceAmong(next, node, s);
      PlaceTakenRep(c, l, node, r, next, root0, m, Snap(s));
      RenamedPlug(c, Fork(l, node, r), node, next);
      RenamedSame(l, node, next);
      RenamedSame(r, node, next);
    }

    /** avl_local_min */
    method LocalMin(node: Node, ghost s: set<Node>, ghost c: Ctx<Node>, ghost t: Shape<Node>, ghost par: Node?)
      returns (min: Node)
      requires node in s && Rep(t, node, par, Snap(s))
      ensures t.Fork? && min in s && min == MinCtx(c, t).1
    {
      min := node;
      ghost var c', t', par' := c, t, par;
      while min.left != null
        invariant min in s && Rep(t', min, par', Snap(s)) && MinCtx(c, t) == MinCtx(c', t')
        decreases t'
      {
        c', t', par' := InLeft(t'.node, t'.right, c'), t'.left, min;
        min := min.left;
      }
    }

    /** avl_delete_worker */
    method DeleteWorker(node: Node, ghost s: set<Node>, ghost c: Ctx<Node>, ghost l: Shape<Node>, ghost r: Shape<Node>)
      requires node in s && Rep(Plug(c, Fork(l, node, r)), root, null, Snap(s)) && Distinct(Plug(c, Fork(l, node, r)))
      requires Balanced(Fork(l, node, r)) && BalancedCtx(c, Height(Fork(l, node, r)))
      modifies this`root, s`parent, s`left, s`right, s`balance
      ensures Rep(Removed(c, l, node, r), root, null, Snap(s))
      decreases if l.Leaf? || r.Leaf? then 0 else 2
    {
      ghost var t, m := Fork(l, node, r), Snap(s);
      ghost var p, par := UnplugRep(c, t, root, m);
      PlugDistinct(c, t);
      RepNodes(l, node.left, node, m);
      RepNodes(r, node.right, node, m);
      if node.left == null {
        DeleteOne(node, node.right, s, c, Height(t), t, r);
        return;
      }
      if node.right == null {
        DeleteOne(node, node.left, s, c, Height(t), t, l);
        return;
      }
      var min := LocalMin(node.right, s, InRight(l, node, c), r, node);
      DeleteWithMin(node, min, s, c, l, r);
    }

    method DeleteWithMin(node: Node, min: Node, ghost s: set<Node>, ghost c: Ctx<Node>, ghost l: Shape<Node>,
        ghost r: Shape<Node>)
      requires node in s && min in s && Rep(Plug(c, Fork(l, node, r)), root, null, Snap(s))
        && Distinct(Plug(c, Fork(l, node, r)))
      requires Balanced(Fork(l, node, r)) && BalancedCtx(c, Height(Fork(l, node, r)))
      requires l.Fork? && r.Fork? && min == MinCtx(InRight(l, node, c), r).1
      modifies this`root, s`parent, s`left, s`right, s`balance
      ensures Rep(Removed(c, l, node, r), root, null, Snap(s))
      decreases 1
    {
      hide *;
      RemovedTwo(c, l, node, r);
      ghost var (c', _, mr) := MinCtx(InRight(l, node, c), r);
      DeleteWorker(min, s, c', Leaf, mr);
      TakePlaceIn(min, node, s, Shrunk(c', mr));
    }

    /** A path of n nodes takes a tree of at least Fib(n + 2) - 1 leaders. */
    lemma Shallow(n: nat)
      requires Valid() && n <= Height(shape)
      ensures Fib(n + 2) <= Fib(Height(shape) + 2) <= |Leading(order)| + 1
    {
      hide Rep, Leaders, InOrder, Nodes, Balanced, Distinct, Chained, InOrderList, Fib, Height;
      TreeNodes();
      assert Nodes(shape) == Leading(order);
      EnoughNodes(shape);
      CountNodes(shape);
      FibGrows(n + 2, Height(shape) + 2);
    }

    /** avl_find_rec; it compares once on each level at most. */
    method FindRec(node: Node, key: Key, ghost s: set<Node>, ghost c: Ctx<Node>, ghost t: Shape<Node>, ghost par: Node?)
      returns (found: Node, diff: int, ghost c': Ctx<Node>, ghost l: Shape<Node>, ghost r: Shape<Node>,
               ghost steps: nat)
      requires node in s && Rep(t, node, par, Snap(s)) && IsOrder(comp) && Strict(InOrder(t), comp)
      requires forall n :: n in AvlShape.Before(c) ==> comp(n.key, key) < 0
      requires forall n :: n in After(c) ==> comp(n.key, key) > 0
      ensures found in s && diff == comp(key, found.key) && Plug(c', Fork(l, found, r)) == Plug(c, t)
      ensures (diff < 0 ==> l.Leaf?) && (diff > 0 ==> r.Leaf?) && steps <= Height(t)
      ensures forall n :: n in AvlShape.Before(c') ==> comp(n.key, key) < 0
      ensures forall n :: n in After(c') ==> comp(n.key, key) > 0
      decreases t
    {
      diff := comp(key, node.key);
      found, c', l, r, steps := node, c, t.left, t.right, 1;
      StrictParts(InOrder(t.left), node, InOrder(t.right), comp);
      StrictSides(InOrder(t.left), node, InOrder(t.right), comp, key);
      if diff < 0 {
        if node.left != null {
          found, diff, c', l, r, steps := FindRec(node.left, key, s, InLeft(node, t.right, c), t.left, node);
          steps := steps + 1;
        }
      } else if diff > 0 {
        if node.right != null {
          found, diff, c', l, r, steps := FindRec(node.right, key, s, InRight(t.left, node, c), t.right, node);
          steps := steps + 1;
        }
      }
    }

    /** The last node of the run that starts with node. */
    method RunEnd(node: Node, ghost k: nat) returns (last: Node, ghost e: nat)
      requires ListOk() && k < |order| && order[k] == node
      ensures k < e <= |order| && last == order[e-1] && (e < |order| ==> order[e].leader)
      ensures forall i :: k < i < e ==> !order[i].leader
    {
      last, e := node, k + 1;
      while last.next != head
        invariant k < e <= |order| && last == order[e-1]
        invariant forall i :: k < i < e ==> !order[i].leader
        decreases |order| - e
      {
        assert last == Ring(head, order)[e] && last.next == Ring(head, order)[e+1];
        var next := last.next;
        if next.leader {
          break;
        }
        last, e := next, e + 1;
      }
      assert last == Ring(head, order)[e] && last.next == Ring(head, order)[e+1];
    }

    /** avl_insert_before, where node is at position k of the list */
    method InsertBefore(node: Node, new_: Node, ghost k: nat)
      requires ListOk() && k < |order| && order[k] == node && new_ !in order && new_ != head
      modifies this`count, Ring(head, order)`next, Ring(head, order)`prev, new_`next, new_`prev
      ensures Chained(Ring(head, Put(order, new_, k))) && count == old(count) + 1
    {
      assert node == Ring(head, order)[k+1] && node.prev == Ring(head, order)[k];
      ListAdd(new_, node.prev, node, k);
      count := count + 1;
    }

    /** avl_insert_after, where node is at position k - 1 of the list */
    method InsertAfter(node: Node, new_: Node, ghost k: nat)
      requires ListOk() && 0 < k <= |order| && order[k-1] == node && new_ !in order && new_ != head
      modifies this`count, Ring(head, order)`next, Ring(head, order)`prev, new_`next, new_`prev
      ensures Chained(Ring(head, Put(order, new_, k))) && count == old(count) + 1
    {
      assert node == Ring(head, order)[k] && node.next == Ring(head, order)[k+1];
      ListAdd(new_, node, node.next, k);
      count := count + 1;
    }

    ghost predicate IsLeaf(n: Node)
      reads n`left, n`right, n`balance
    {
      n.left == null && n.right == null && n.balance == 0
    }

    /** All is done but the links of the tree. */
    ghost predicate ReadyFor(order': seq<Node>, s: set<Node>, lead: set<Node>, t: Shape<Node>)
      reads this`count, Ring(head, order')`next, Ring(head, order')`prev, Ring(head, order')`leader
    {
      && head !in order' && Chained(Ring(head, order')) && count == |order'|
      && s == Set(order') && lead == Leading(order')
      && InOrderList(order', lead, comp) && InOrder(t) == Leaders(order', lead)
      && Balanced(t) && Distinct(t)
      && (!allowDups ==> AllLead(order'))
    }

    /** The tree holds the leaders. */
    lemma TreeNodes()
      requires Valid()
      ensures forall n :: n in Nodes(shape) <==> n in order && n.leader
      ensures Nodes(shape) <= Set(order)
    {
      hide Rep, Leaders, InOrder, Nodes, Balanced, Distinct, Chained, InOrderList;
      RepNodes(shape, root, null, Snap(Set(order)));
      NodesInOrder(shape);
      LeadersAreMembers(order, Leading(order));
    }

    /** The list and the tree have been changed: record it. */
    ghost method Commit(order': seq<Node>, t: Shape<Node>, s: set<Node>, lead: set<Node>)
      requires head !in order' && Chained(Ring(head, order')) && count == |order'|
      requires s == Set(order') && Rep(t, root, null, Snap(s)) && Balanced(t) && Distinct(t)
      requires lead == Leading(order') && InOrderList(order', lead, comp) && InOrder(t) == Leaders(order', lead)
      requires !allowDups ==> AllLead(order')
      modifies this`order, this`shape
      ensures Valid() && order == order' && shape == t
    {
      hide Rep, Leaders, InOrder, Balanced, Distinct, Chained, Sorted, LeadRuns, IsOrder, NoRepeats;
      order, shape := order', t;
    }

    ghost predicate IsNew(n: Node)
      reads this`order, n`left, n`right, n`balance
    {
      n !in order && n != head && IsLeaf(n)
    }

    /** Into the tree as the left child of node, once it is in the list. */
    method HangLeft(new_: Node, node: Node, ghost c: Ctx<Node>, ghost r: Shape<Node>,
                    ghost order': seq<Node>, ghost s: set<Node>, ghost lead: set<Node>)
      requires new_ in s && node in s && IsLeaf(new_)
      requires shape == Plug(c, Fork(Leaf, node, r)) && Rep(shape, root, null, Snap(s))
      requires Distinct(shape) && Balanced(shape) && new_ !in Nodes(shape)
      requires ReadyFor(order', s, lead, Hung(c, Leaf, node, r, new_, true))
      modifies this`root, this`order, this`shape, s`parent, s`left, s`right, s`balance
      ensures Valid() && order == order'
    {
      hide Chained, Rep, Distinct, Balanced, Nodes, Plug, Hung, InOrderList, InOrder, Leaders;
      ghost var ring, t := Ring(head, order'), Hung(c, Leaf, node, r, new_, true);
      assert Chained(ring);
      AddLeft(new_, node, s, c, r);
      assert Chained(ring);
      Commit(order', t, s, lead);
    }

    /** Into the tree as the right child of node, once it is in the list. */
    method HangRight(new_: Node, node: Node, ghost c: Ctx<Node>, ghost l: Shape<Node>,
                    ghost order': seq<Node>, ghost s: set<Node>, ghost lead: set<Node>)
      requires new_ in s && node in s && IsLeaf(new_)
      requires shape == Plug(c, Fork(l, node, Leaf)) && Rep(shape, root, null, Snap(s))
      requires Distinct(shape) && Balanced(shape) && new_ !in Nodes(shape)
      requires ReadyFor(order', s, lead, Hung(c, l, node, Leaf, new_, false))
      modifies this`root, this`order, this`shape, s`parent, s`left, s`right, s`balance
      ensures Valid() && order == order'
    {
      hide Chained, Rep, Distinct, Balanced, Nodes, Plug, Hung, InOrderList, InOrder, Leaders;
      ghost var ring, t := Ring(head, order'), Hung(c, l, node, Leaf, new_, false);
      assert Chained(ring);
      AddRight(new_, node, s, c, l);
      assert Chained(ring);
      Commit(order', t, s, lead);
    }

    /** The list with one more node has the right members. */
    ghost predicate ListWith(n: Node, k: nat)
      requires k <= |order|
      reads this`order
    {
      var order' := Put(order, n, k);
      Set(order') == Set(order) + {n} && |order'| == |order| + 1 && head !in order'
    }

    lemma LeftReady(new_: Node, node: Node, k: nat, c: Ctx<Node>, r: Shape<Node>)
      requires Valid() && IsNew(new_) && new_.leader
      requires k < |order| && order[k] == node && shape == Plug(c, Fork(Leaf, node, r))
      requires Rank(order, Leading(order), k) == |AvlShape.Before(c)| && Fits(order, new_, comp, k)
      requires k > 0 ==> comp(order[k-1].key, new_.key) < 0
      ensures var order', lead, t := Put(order, new_, k), Leading(order) + {new_}, Hung(c, Leaf, node, r, new_, true);
        && Balanced(t) && Distinct(t) && InOrder(t) == Leaders(order', lead) && InOrderList(order', lead, comp)
        && Inserted(order, new_, comp) == order' && Leading(order') == lead && (!allowDups ==> AllLead(order'))
      ensures Distinct(shape) && Balanced(shape) && new_ !in Nodes(shape) && ListWith(new_, k)
      ensures Rep(shape, root, null, Snap(Set(order) + {new_})) && node in order && ListOk() && IsLeaf(new_)
        && new_ !in order && new_ != head && count == |order|
    {
      hide InOrderList, Leaders, Rank, InOrder, Rep, Balanced, Distinct, Nodes, CtxNodes, Plug, Rearranged, Fits, Hung,
        Chained, Put, Inserted, Leading, AllLead;
      TreeNodes();
      HungIsBalanced(c, Leaf, node, r, new_, true);
      HungIsDistinct(c, Leaf, node, r, new_, true);
      LeftChildInserted(order, Leading(order), comp, new_, k, c, node, r, Hung(c, Leaf, node, r, new_, true));
      RepFrame(shape, root, null, Snap(Set(order)), Snap(Set(order) + {new_}));
      PutSet(order, new_, k);
      PutLeading(order, new_, k);
    }

    /** Into the list in front of node, and into the tree as its left child. */
    method InsertLeftOf(new_: Node, node: Node, ghost k: nat, ghost c: Ctx<Node>, ghost r: Shape<Node>)
      requires Valid() && IsNew(new_) && new_.leader
      requires k < |order| && order[k] == node && shape == Plug(c, Fork(Leaf, node, r))
      requires Rank(order, Leading(order), k) == |AvlShape.Before(c)| && Fits(order, new_, comp, k)
      requires k > 0 ==> comp(order[k-1].key, new_.key) < 0
      modifies this`root, this`count, this`order, this`shape, new_, Ring(head, order)
      ensures Valid() && order == Put(old(order), new_, k) == Inserted(old(order), new_, comp)
    {
      hide InOrderList, Leaders, Rank, InOrder, Rep, Balanced, Distinct, Nodes, Plug, Fits, Hung, Chained, Put,
        Inserted, Leading, AllLead, Valid, ListOk, Snap, IsNew, Height;
      ghost var order', s, lead := Put(order, new_, k), Set(order) + {new_}, Leading(order) + {new_};
      LeftReady(new_, node, k, c, r);
      InsertBefore(node, new_, k);
      assert Leading(order') == lead;
      HangLeft(new_, node, c, r, order', s, lead);
    }

    lemma RightReady(new_: Node, node: Node, k: nat, c: Ctx<Node>, l: Shape<Node>)
      requires Valid() && IsNew(new_) && new_.leader
      requires 0 < k <= |order| && node in order && shape == Plug(c, Fork(l, node, Leaf))
      requires Rank(order, Leading(order), k) == |AvlShape.Before(c)| + |InOrder(l)| + 1 && Fits(order, new_, comp, k)
      requires comp(order[k-1].key, new_.key) < 0
      ensures var order', lead, t := Put(order, new_, k), Leading(order) + {new_}, Hung(c, l, node, Leaf, new_, false);
        && Balanced(t) && Distinct(t) && InOrder(t) == Leaders(order', lead) && InOrderList(order', lead, comp)
        && Inserted(order, new_, comp) == order' && Leading(order') == lead && (!allowDups ==> AllLead(order'))
      ensures Distinct(shape) && Balanced(shape) && new_ !in Nodes(shape) && ListWith(new_, k)
      ensures Rep(shape, root, null, Snap(Set(order) + {new_})) && node in order && ListOk() && IsLeaf(new_)
        && new_ !in order && new_ != head && count == |order|
    {
      hide InOrderList, Leaders, Rank, InOrder, Rep, Balanced, Distinct, Nodes, CtxNodes, Plug, Rearranged, Fits, Hung,
        Chained, Put, Inserted, Leading, AllLead;
      TreeNodes();
      HungIsBalanced(c, l, node, Leaf, new_, false);
      HungIsDistinct(c, l, node, Leaf, new_, false);
      RightChildInserted(order, Leading(order), comp, new_, k, c, l, node, Hung(c, l, node, Leaf, new_, false));
      RepFrame(shape, root, null, Snap(Set(order)), Snap(Set(order) + {new_}));
      PutSet(order, new_, k);
      PutLeading(order, new_, k);
    }

    /** Into the list behind the run of node, and into the tree as its right child. */
    method InsertRightOf(new_: Node, node: Node, last: Node, ghost k: nat, ghost c: Ctx<Node>, ghost l: Shape<Node>)
      requires Valid() && IsNew(new_) && new_.leader
      requires 0 < k <= |order| && order[k-1] == last && node in order && shape == Plug(c, Fork(l, node, Leaf))
      requires Rank(order, Leading(order), k) == |AvlShape.Before(c)| + |InOrder(l)| + 1 && Fits(order, new_, comp, k)
      requires comp(last.key, new_.key) < 0
      modifies this`root, this`count, this`order, this`shape, new_, Ring(head, order)
      ensures Valid() && order == Put(old(order), new_, k) == Inserted(old(order), new_, comp)
    {
      hide InOrderList, Leaders, Rank, InOrder, Rep, Balanced, Distinct, Nodes, Plug, Fits, Hung, Chained, Put,
        Inserted, Leading, AllLead, Valid, ListOk, Snap, IsNew, Height;
      ghost var order', s, lead := Put(order, new_, k), Set(order) + {new_}, Leading(order) + {new_};
      RightReady(new_, node, k, c, l);
      InsertAfter(last, new_, k);
      assert Leading(order') == lead;
      HangRight(new_, node, c, l, order', s, lead);
    }

    /** Into an empty tree. */
    method InsertFirst(new_: Node)
      requires Valid() && IsNew(new_) && new_.leader && new_.parent == null && order == [] && shape == Leaf
        && root == null
      modifies this`root, this`count, this`order, this`shape, new_, head
      ensures Valid() && order == [new_] == Inserted(old(order), new_, comp)
    {
      hide IsOrder;
      assert Put(order, new_, 0) == [new_];
      assert head == Ring(head, order)[0] && head.next == Ring(head, order)[1];
      ListAdd(new_, head, head.next, 0);
      root := new_;
      count := 1;
      assert [new_][..0] == [];
      assert Leaders([new_], {new_}) == [new_];
      assert NoRepeats([new_]);
      Commit([new_], Fork(Leaf, new_, Leaf), {new_}, {new_});
    }

    /** Behind the nodes with the same key. */
    method InsertDuplicate(new_: Node, last: Node, ghost k: nat)
      requires Valid() && new_ !in order && new_ != head && !new_.leader && allowDups
      requires 0 < k <= |order| && order[k-1] == last && Fits(order, new_, comp, k) && comp(last.key, new_.key) == 0
      modifies this`count, this`order, this`shape, new_, Ring(head, order)
      ensures Valid() && order == Put(old(order), new_, k) == Inserted(old(order), new_, comp)
    {
      hide InOrderList, Leaders, InOrder, Rep, Balanced, Distinct, Nodes, Fits, Chained, Put, Inserted, Height, Rank;
      ghost var s, lead, order' := Set(order) + {new_}, Leading(order), Put(order, new_, k);
      TreeNodes();
      InsertedDuplicate(order, lead, new_, comp, k);
      PutSameLeaders(order, lead, new_, k);
      RepFrame(shape, root, null, Snap(Set(order)), Snap(s));
      PutSet(order, new_, k);
      PutLeading(order, new_, k);
      InsertAfter(last, new_, k);
      Commit(order', shape, s, lead);
    }

    /** The node gets the links of one in no tree. */
    method Clear(n: Node)
      requires Valid() && n !in order && n != head
      modifies n`parent, n`left, n`right, n`balance, n`leader
      ensures Valid() && IsNew(n) && n.leader && n.parent == null
    {
      hide InOrderList, Leaders, InOrder, Rep, Balanced, Distinct, Chained, NoRepeats;
      assert n !in Ring(head, order);
      n.parent := null;
      n.left, n.right := null, null;
      n.balance := 0;
      n.leader := true;
    }

    lemma EmptyTree()
      requires Valid() && root == null
      ensures order == [] && shape == Leaf
    {
      hide Leaders, Balanced, Distinct, Chained, NoRepeats, Sorted, IsOrder;
      LeadersAreMembers(order, Leading(order));
    }

    /** The leaders' keys are all different, so the tree can be searched. */
    lemma Searchable()
      requires Valid()
      ensures IsOrder(comp) && Strict(InOrder(shape), comp) && Rep(shape, root, null, Snap(Set(order)))
      ensures Sorted(order, comp) && ListOk() && (root != null ==> root in order)
    {
      RepNodes(shape, root, null, Snap(Set(order)));
      hide Rep, Balanced, Distinct, Chained, IsOrder, Sorted, LeadRuns, NoRepeats;
      LeadersStrict(order, Leading(order), comp);
    }

    /** Where in the list a leader is. */
    lemma FoundAt(node: Node, c: Ctx<Node>, l: Shape<Node>, r: Shape<Node>) returns (k: nat)
      requires Valid() && shape == Plug(c, Fork(l, node, r))
      ensures k < |order| && order[k] == node && node.leader
      ensures Rank(order, Leading(order), k) == |AvlShape.Before(c)| + |InOrder(l)|
      ensures Leaders(order, Leading(order)) == (AvlShape.Before(c) + InOrder(l)) + [node] + (InOrder(r) + After(c))
    {
      hide InOrderList, Leaders, Rank, Rep, Balanced, Distinct, Chained, NoRepeats, Plug;
      PlugInOrder(c, Fork(l, node, r));
      Regroup(AvlShape.Before(c), InOrder(l), [node], InOrder(r), After(c));
      k := LeaderPosition(order, Leading(order), |AvlShape.Before(c)| + |InOrder(l)|);
    }

    lemma FoundFitsHere(n: Node, node: Node, c: Ctx<Node>, l: Shape<Node>, r: Shape<Node>, k: nat, e: nat)
      requires InOrderList(order, Leading(order), comp) && k < e <= |order| && order[k] == node && node.leader
      requires Rank(order, Leading(order), k) == |AvlShape.Before(c)| + |InOrder(l)|
      requires Leaders(order, Leading(order)) == (AvlShape.Before(c) + InOrder(l)) + [node] + (InOrder(r) + After(c))
      requires (forall i :: k < i < e ==> !order[i].leader) && (e < |order| ==> order[e].leader)
      requires comp(n.key, node.key) < 0 ==> l.Leaf?
      requires comp(n.key, node.key) > 0 ==> r.Leaf?
      requires forall m :: m in AvlShape.Before(c) ==> comp(m.key, n.key) < 0
      requires forall m :: m in After(c) ==> comp(m.key, n.key) > 0
      ensures Rank(order, Leading(order), e) == |AvlShape.Before(c)| + |InOrder(l)| + 1
      ensures var diff := comp(n.key, node.key);
        && (diff < 0 ==> Fits(order, n, comp, k) && (k > 0 ==> comp(order[k-1].key, n.key) < 0))
        && (diff >= 0 ==> Fits(order, n, comp, e))
        && (diff > 0 ==> comp(order[e-1].key, n.key) < 0)
        && (diff == 0 ==> comp(order[e-1].key, n.key) == 0)
        && (diff == 0 <==> exists m :: m in order && comp(n.key, m.key) == 0)
    {
      hide InOrderList, Leaders, Rank, Fits, AvlShape.Before, After;
      FoundFits(order, Leading(order), comp, n, AvlShape.Before(c) + InOrder(l), node, InOrder(r) + After(c), k, e);
    }

    /** A node that leans to one side has a child there, so the search went to the other side. */
    lemma Leaning(node: Node, c: Ctx<Node>, l: Shape<Node>, r: Shape<Node>)
      requires Valid() && shape == Plug(c, Fork(l, node, r))
      ensures node in order && node.balance == Height(r) - Height(l)
      ensures (node.balance == 1 ==> r.Fork?) && (node.balance == -1 ==> l.Fork?)
    {
      hide Leaders, InOrderList, Balanced, Distinct, Chained, NoRepeats, Plug;
      var p, par := UnplugRep(c, Fork(l, node, r), root, Snap(Set(order)));
    }

    /** avl_find_rec from the root: where it ends, after how many comparisons */
    method Descend(key: Key)
      returns (node: Node, diff: int, ghost c: Ctx<Node>, ghost l: Shape<Node>, ghost r: Shape<Node>, ghost k: nat,
               ghost steps: nat)
      requires Valid() && root != null
      ensures diff == comp(key, node.key) && shape == Plug(c, Fork(l, node, r))
      ensures k < |order| && order[k] == node && node.leader
        && Rank(order, Leading(order), k) == |AvlShape.Before(c)| + |InOrder(l)|
      ensures Leaders(order, Leading(order)) == (AvlShape.Before(c) + InOrder(l)) + [node] + (InOrder(r) + After(c))
      ensures (diff < 0 ==> l.Leaf?) && (diff > 0 ==> r.Leaf?)
      ensures forall n :: n in AvlShape.Before(c) ==> comp(n.key, key) < 0
      ensures forall n :: n in After(c) ==> comp(n.key, key) > 0
      ensures Fib(steps + 2) <= |Leading(order)| + 1
    {
      hide InOrderList, Leaders, InOrder, Rep, Balanced, Distinct, Chained, NoRepeats, Rank, Strict, Sorted, IsOrder;
      Searchable();
      node, diff, c, l, r, steps := FindRec(root, key, Set(order), Top, shape, null);
      Shallow(steps);
      k := FoundAt(node, c, l, r);
    }

    /** avl_insert: 0, or -1 if there is a node with an equal key already and the tree takes no duplicates. */
    method Insert(new_: Node) returns (result: int)
      requires Valid() && new_ !in order && new_ != head
      modifies this`root, this`count, this`order, this`shape, new_, Ring(head, order)
      ensures Valid() && result in {0, -1}
      ensures result == -1 <==> !allowDups && exists n :: n in old(order) && comp(new_.key, n.key) == 0
      ensures order == if result == -1 then old(order) else Inserted(old(order), new_, comp)
    {
      hide InOrderList, Leaders, InOrder, Rep, Balanced, Distinct, Nodes, Fits, Chained, NoRepeats, Rank, Strict,
        Sorted, IsOrder, Inserted, Snap, Height, Fib, AllLead;
      Clear(new_);
      if root == null {
        EmptyTree();
        InsertFirst(new_);
        return 0;
      }
      var node, diff;
      ghost var c, l, r, k, steps;
      node, diff, c, l, r, k, steps := Descend(new_.key);
      var last;
      ghost var e;
      last, e := RunEnd(node, k);
      FoundFitsHere(new_, node, c, l, r, k, e);
      result := InsertAt(new_, node, last, c, l, r, k, e);
    }

    /** The rest of avl_insert, once the search has ended at node, and last is the end of its run. */
    method InsertAt(new_: Node, node: Node, last: Node, ghost c: Ctx<Node>, ghost l: Shape<Node>, ghost r: Shape<Node>,
        ghost k: nat, ghost e: nat)
      returns (result: int)
      requires Valid() && IsNew(new_) && new_.leader && shape == Plug(c, Fork(l, node, r))
      requires k < e <= |order| && order[k] == node && order[e-1] == last
      requires Rank(order, Leading(order), k) == |AvlShape.Before(c)| + |InOrder(l)|
      requires Rank(order, Leading(order), e) == |AvlShape.Before(c)| + |InOrder(l)| + 1
      requires comp(new_.key, node.key) < 0 ==>
        l.Leaf? && Fits(order, new_, comp, k) && (k > 0 ==> comp(order[k-1].key, new_.key) < 0)
      requires comp(new_.key, node.key) > 0 ==> r.Leaf? && Fits(order, new_, comp, e) && comp(last.key, new_.key) < 0
      requires comp(new_.key, node.key) == 0 ==> Fits(order, new_, comp, e) && comp(last.key, new_.key) == 0
      modifies this`root, this`count, this`order, this`shape, new_, Ring(head, order)
      ensures Valid() && result == if comp(new_.key, node.key) == 0 && !allowDups then -1 else 0
      ensures order == if result == -1 then old(order) else Inserted(old(order), new_, comp)
    {
      hide InOrderList, Leaders, Rep, Balanced, Distinct, Nodes, Fits, Chained, NoRepeats, Rank, Put, Inserted;
      Leaning(node, c, l, r);
      var diff := comp(new_.key, node.key);
      if diff == 0 {
        if !allowDups {
          return -1;
        }
        BecomeDuplicate(new_);
        InsertDuplicate(new_, last, e);
        return 0;
      }
      if node.balance == 1 {
        InsertLeftOf(new_, node, k, c, r);
        return 0;
      }
      if node.balance == -1 {
        InsertRightOf(new_, node, last, e, c, l);
        return 0;
      }
      if diff < 0 {
        InsertLeftOf(new_, node, k, c, r);
        return 0;
      }
      InsertRightOf(new_, node, last, e, c, l);
      return 0;
    }

    method BecomeDuplicate(new_: Node)
      requires Valid() && new_ !in order && new_ != head
      modifies new_`leader
      ensures Valid() && !new_.leader
    {
      hide InOrderList, Leaders, InOrder, Rep, Balanced, Distinct, Chained, NoRepeats;
      assert new_ !in Ring(head, order);
      new_.leader := false;
    }

    /** avl_remove, of the node at position k of the list */
    method Remove(node: Node, ghost k: nat)
      requires ListOk() && k < |order| && node == order[k] && count == |order|
      modifies this`count, Ring(head, order)`next, Ring(head, order)`prev
      ensures Chained(Ring(head, Without(order, k))) && count == |Without(order, k)|
    {
      ghost var ring := Ring(head, order);
      assert ring[k].next == node && ring[k+1].next == ring[k+2] && ring[k+1].prev == ring[k];
      ListDel(node, k);
      count := count - 1;
    }

    /** A tree without the node does not need it in memory. */
    lemma OutOfTree(node: Node, k: nat, t: Shape<Node>)
      requires ListOk() && k < |order| && node == order[k] && node !in Nodes(t) && Rep(t, root, null, Snap(Set(order)))
      ensures Rep(t, root, null, Snap(Set(Without(order, k)))) && head !in Without(order, k)
    {
      hide Chained, Rep, Nodes, Without;
      var m := Snap(Set(order));
      WithoutSet(order, k);
      RepNodes(t, root, null, m);
      RepFrame(t, root, null, m, Snap(Set(Without(order, k))));
    }

    /** The end of every deletion: node is no longer in the tree t, and now leaves the list. */
    method Finish(node: Node, ghost k: nat, ghost t: Shape<Node>, ghost lead: set<Node>)
      requires ListOk() && k < |order| && node == order[k] && count == |order|
      requires Rep(t, root, null, Snap(Set(order))) && Balanced(t) && Distinct(t)
      requires node !in Nodes(t) && lead == Leading(Without(order, k))
      requires InOrderList(Without(order, k), lead, comp) && InOrder(t) == Leaders(Without(order, k), lead)
      requires !allowDups ==> AllLead(Without(order, k))
      modifies this`count, this`order, this`shape, Ring(head, order)`next, Ring(head, order)`prev
      ensures Valid() && order == Without(old(order), k)
    {
      hide Chained, Rep, Distinct, Balanced, Nodes, InOrderList, InOrder, Leaders, Without, ListOk, TreeOk, OrderOk,
        Valid, AllLead, Snap, Height, Leading;
      ghost var order' := Without(order, k);
      ghost var s := Set(order');
      OutOfTree(node, k, t);
      Remove(node, k);
      Commit(order', t, s, lead);
    }

    /** avl_delete of a node that leads no run */
    method DeleteFollower(node: Node, ghost k: nat)
      requires Valid() && k < |order| && order[k] == node && !node.leader
      modifies this`count, this`order, this`shape, Ring(head, order)`next, Ring(head, order)`prev
      ensures Valid() && order == Without(old(order), k)
    {
      hide Chained, Rep, Distinct, Balanced, Nodes, InOrderList, InOrder, Leaders, Without, Sorted, LeadRuns;
      ghost var lead := Leading(order);
      WithoutInOrder(order, lead, comp, k);
      WithoutSameLeaders(order, lead, k);
      WithoutSet(order, k);
      TreeNodes();
      assert lead == Leading(Without(order, k));
      Finish(node, k, shape, lead);
    }

    /** The next node of a run becomes its leader. */
    method Promote(node: Node, next: Node, ghost k: nat)
      requires NoRepeats(order) && k + 1 < |order| && order[k] == node && order[k+1] == next && node.leader
        && !next.leader
      modifies next`leader
      ensures Leading(Without(order, k)) == LeadWithout(order, old(Leading(order)), k)
    {
      hide Without;
      WithoutSet(order, k);
      next.leader := true;
    }

    /** avl_delete of the leader of a run of several nodes: the next node of the run takes its place. */
    method HandOver(node: Node, next: Node, ghost k: nat)
      requires Valid() && k + 1 < |order| && order[k] == node && order[k+1] == next && node.leader && !next.leader
      modifies this, Ring(head, order)
      ensures Valid() && order == Without(old(order), k)
    {
      hide Chained, Rep, Distinct, Balanced, Nodes, InOrderList, InOrder, Leaders, Without, Renamed, TreeOk, OrderOk,
        AllLead, LeadWithout, NoRepeats;
      ghost var lead, t, s := Leading(order), Renamed(shape, node, next), Set(order);
      ghost var lead' := LeadWithout(order, lead, k);
      HandedOver(node, next, k);
      ghost var ring := Ring(head, order);
      Promote(node, next, k);
      assert Chained(ring);
      TakePlaceIn(next, node, s, shape);
      assert Chained(ring);
      Finish(node, k, t, lead');
    }

    /** avl_delete of a leader with no other node in its run */
    method DeleteAlone(node: Node, ghost k: nat)
      requires Valid() && k < |order| && order[k] == node && node.leader && (k + 1 < |order| ==> order[k+1].leader)
      modifies this, Ring(head, order)
      ensures Valid() && order == Without(old(order), k)
    {
      hide Chained, Rep, Distinct, Balanced, BalancedCtx, Nodes, InOrderList, InOrder, Leaders, Without, Sorted,
        LeadRuns, Removed, Plug, Rank, Snap, Height;
      ghost var lead, s := Leading(order), Set(order);
      ghost var lead' := LeadWithout(order, lead, k);
      WithoutInOrder(order, lead, comp, k);
      WithoutSet(order, k);
      TreeNodes();
      ghost var c, l, r := LocateIn(shape, node);
      ghost var t := LeaderGone(node, k, c, l, r);
      assert lead' == Leading(Without(order, k));
      ghost var ring := Ring(head, order);
      assert Chained(ring);
      DeleteWorker(node, s, c, l, r);
      assert Chained(ring);
      Finish(node, k, t, lead');
    }

    /** The same on shapes and lists. */
    lemma LeaderGone(node: Node, k: nat, c: Ctx<Node>, l: Shape<Node>, r: Shape<Node>) returns (t: Shape<Node>)
      requires Valid() && k < |order| && order[k] == node && node.leader && (k + 1 < |order| ==> order[k+1].leader)
      requires shape == Plug(c, Fork(l, node, r))
      ensures Balanced(Fork(l, node, r)) && BalancedCtx(c, Height(Fork(l, node, r))) && t == Removed(c, l, node, r)
      ensures Balanced(t) && Distinct(t) && Nodes(t) == Nodes(shape) - {node}
      ensures InOrder(t) == Leaders(Without(order, k), LeadWithout(order, Leading(order), k))
    {
      hide Chained, Rep, Distinct, Balanced, BalancedCtx, Nodes, InOrderList, InOrder, Leaders, Without, Sorted,
        LeadRuns, Removed, Plug, Rank;
      var k' := FoundAt(node, c, l, r);
      assert k == k';
      PlugBalanced(c, Fork(l, node, r));
      t := Removed(c, l, node, r);
      RemovedIsBalanced(c, l, node, r);
      RemovedNodes(c, l, node, r);
      RemovedOrder(c, l, node, r);
      WithoutLeader(order, Leading(order), k, AvlShape.Before(c) + InOrder(l), InOrder(r) + After(c));
      assert AvlShape.Before(c) + InOrder(l) + InOrder(r) + After(c)
          == (AvlShape.Before(c) + InOrder(l)) + (InOrder(r) + After(c));
    }

    lemma HandedOver(node: Node, next: Node, k: nat)
      requires Valid() && k + 1 < |order| && order[k] == node && order[k+1] == next && node.leader && !next.leader
      ensures var t := Renamed(shape, node, next);
        && Balanced(t) && Distinct(t) && node !in Nodes(t) && node in Nodes(shape) && next !in Nodes(shape)
        && InOrder(t) == Leaders(Without(order, k), LeadWithout(order, Leading(order), k))
        && InOrderList(Without(order, k), LeadWithout(order, Leading(order), k), comp)
      ensures NoRepeats(order) && allowDups && Distinct(shape) && Rep(shape, root, null, Snap(Set(order)))
    {
      hide Chained, Rep, Distinct, Balanced, Nodes, InOrder, Leaders, Without, Sorted, LeadRuns, Renamed, NoRepeats,
        IsOrder;
      WithoutInOrder(order, Leading(order), comp, k);
      TreeNodes();
      RenamedBalanced(shape, node, next);
      RenamedDistinct(shape, node, next);
      RunHandedOver(order, Leading(order), comp, k, shape);
    }

    /** What follows a node in the list. */
    lemma NextInRing(node: Node, k: nat)
      requires Valid() && k < |order| && order[k] == node
      ensures node.next != null && (node.next == head <==> k + 1 == |order|)
      ensures k + 1 < |order| ==> node.next == order[k+1]
      ensures !allowDups ==> AllLead(order)
    {
      hide Rep, Distinct, Balanced, InOrderList, InOrder, Leaders;
      assert Ring(head, order)[k+1] == node && node.next == Ring(head, order)[k+2];
    }

    lemma OnlyAt(node: Node, k: nat)
      requires Valid() && k < |order| && order[k] == node
      ensures forall j :: 0 <= j < |order| && order[j] == node ==> j == k
    {
    }

    /** avl_delete */
    method Delete(node: Node)
      requires Valid() && node in order
      modifies this, Ring(head, order)
      ensures Valid() && forall k :: 0 <= k < |old(order)| && old(order)[k] == node ==> order == Without(old(order), k)
    {
      hide Chained, Rep, Distinct, Balanced, Nodes, InOrderList, InOrder, Leaders, Without, NoRepeats;
      ghost var k :| 0 <= k < |order| && order[k] == node;
      OnlyAt(node, k);
      NextInRing(node, k);
      if node.leader {
        if allowDups && node.next != head && !node.next.leader {
          HandOver(node, node.next, k);
        } else {
          DeleteAlone(node, k);
        }
      } else {
        DeleteFollower(node, k);
      }
    }

    /** node is at position i of the list. */
    ghost predicate At(node: Node, i: int)
      reads this`order
    {
      0 <= i < |order| && order[i] == node
    }

    lemma Neighbours(node: Node, i: int)
      requires Valid() && At(node, i)
      ensures node.prev != null && node.next != null
      ensures if i == 0 then node.prev == head else node.prev != head && At(node.prev, i - 1)
      ensures if i + 1 == |order| then node.next == head else node.next != head && At(node.next, i + 1)
    {
      hide Rep, Distinct, Balanced, InOrderList, InOrder, Leaders;
      assert Ring(head, order)[i+1] == node && node.next == Ring(head, order)[i+2] && node.prev == Ring(head, order)[i];
    }

    /** avl_find: the leader of the run with this key */
    method Find(key: Key) returns (result: Node?, ghost steps: nat)
      requires Valid()
      ensures result != null ==> result in order && result.leader && comp(key, result.key) == 0
      ensures result == null <==> forall n :: n in order ==> comp(key, n.key) != 0
      ensures Fib(steps + 2) <= |Leading(order)| + 1
    {
      hide InOrderList, Leaders, InOrder, Rep, Balanced, Distinct, Chained, NoRepeats, Rank, Strict, Sorted, IsOrder;
      steps := 0;
      Shallow(0);
      if root == null {
        EmptyTree();
        return null, 0;
      }
      var node, diff;
      ghost var c, l, r, k;
      node, diff, c, l, r, k, steps := Descend(key);
      if diff == 0 {
        return node, steps;
      }
      Missing(key, node, c, l, r);
      return null, steps;
    }

    lemma Missing(key: Key, node: Node, c: Ctx<Node>, l: Shape<Node>, r: Shape<Node>)
      requires Valid() && comp(key, node.key) != 0
      requires Leaders(order, Leading(order)) == (AvlShape.Before(c) + InOrder(l)) + [node] + (InOrder(r) + After(c))
      requires (comp(key, node.key) < 0 ==> l.Leaf?) && (comp(key, node.key) > 0 ==> r.Leaf?)
      requires forall n :: n in AvlShape.Before(c) ==> comp(n.key, key) < 0
      requires forall n :: n in After(c) ==> comp(n.key, key) > 0
      ensures forall m :: m in order ==> comp(key, m.key) != 0
    {
      hide Leaders, Rep, Balanced, Distinct, Chained, InOrderList;
      KeyMissing(order, Leading(order), comp, key, AvlShape.Before(c) + InOrder(l), node, InOrder(r) + After(c));
    }

    /** Where avl_find_rec ends, in the list. */
    method Search(key: Key) returns (node: Node, diff: int, ghost i: int)
      requires Valid() && root != null
      ensures At(node, i) && diff == comp(key, node.key)
    {
      ghost var c, l, r, steps;
      node, diff, c, l, r, i, steps := Descend(key);
    }

    lemma SortedList()
      requires Valid()
      ensures IsOrder(comp) && Sorted(order, comp)
    {
      hide Rep, Balanced, Distinct, Chained, LeadRuns, Leaders, NoRepeats;
    }

    /** avl_find_lessequal */
    method FindLessEqual(key: Key) returns (result: Node?)
      requires Valid()
      ensures exists i :: LastUpTo(order, comp, key, i) && result == if i == -1 then null else order[i]
    {
      hide InOrderList, Leaders, InOrder, Rep, Balanced, Distinct, Chained, NoRepeats, IsOrder, Sorted, LastUpTo;
      SortedList();
      if root == null {
        EmptyTree();
        LastFound(order, comp, key, -1);
        return null;
      }
      var node: Node, diff: int;
      ghost var i: int;
      node, diff, i := Search(key);
      while diff < 0
        invariant Valid() && At(node, i) && diff == comp(key, node.key)
        decreases i
      {
        Neighbours(node, i);
        if node.prev == head {
          LastFound(order, comp, key, -1);
          return null;
        }
        node, i := node.prev, i - 1;
        diff := comp(key, node.key);
      }
      var next: Node := node;
      ghost var e := i;
      while diff >= 0
        invariant Valid() && At(node, i) && At(next, e) && comp(key, node.key) >= 0 && diff == comp(key, next.key)
        invariant diff < 0 ==> e == i + 1
        decreases |order| - e, diff >= 0
      {
        node, i := next, e;
        Neighbours(node, i);
        if node.next == head {
          break;
        }
        next, e := node.next, e + 1;
        diff := comp(key, next.key);
      }
      LastFound(order, comp, key, i);
      return node;
    }

    /** avl_find_greaterequal */
    method FindGreaterEqual(key: Key) returns (result: Node?)
      requires Valid()
      ensures exists i :: FirstFrom(order, comp, key, i) && result == if i == |order| then null else order[i]
    {
      hide InOrderList, Leaders, InOrder, Rep, Balanced, Distinct, Chained, NoRepeats, IsOrder, Sorted, FirstFrom;
      SortedList();
      if root == null {
        EmptyTree();
        FirstFound(order, comp, key, 0);
        return null;
      }
      var node: Node, diff: int;
      ghost var i: int;
      node, diff, i := Search(key);
      while diff > 0
        invariant Valid() && At(node, i) && diff == comp(key, node.key)
        decreases |order| - i
      {
        Neighbours(node, i);
        if node.next == head {
          FirstFound(order, comp, key, |order|);
          return null;
        }
        node, i := node.next, i + 1;
        diff := comp(key, node.key);
      }
      var next: Node := node;
      ghost var e := i;
      while diff <= 0
        invariant Valid() && At(node, i) && At(next, e) && comp(key, node.key) <= 0 && diff == comp(key, next.key)
        invariant diff > 0 ==> e == i - 1
        decreases e, diff <= 0
      {
        node, i := next, e;
        Neighbours(node, i);
        if node.prev == head {
          break;
        }
        next, e := node.prev, e - 1;
        diff := comp(key, next.key);
      }
      FirstFound(order, comp, key, i);
      return node;
    }
  }
}
