/** How nodes in memory form a tree: the fields of struct avl_node (libubox/avl.h), and what the rotations
    and relinkings of libubox/avl.c do to them. */
module AvlLinks {
  import opened AvlShape

  type Key = string

  class Node {
    var prev: Node?
    var next: Node?
    var parent: Node?
    var left: Node?
    var right: Node?
    const key: Key
    var balance: int
    var leader: bool

    constructor (key: Key)
      ensures this.key == key
    {
      this.key := key;
      prev, next, parent, left, right := null, null, null, null, null;
      balance, leader := 0, false;
    }
  }

  /** The tree fields of a node, read off the heap. */
  datatype Links = Links(parent: Node?, left: Node?, right: Node?, balance: int)

  type Memory = map<Node, Links>

  ghost function Snap(s: set<Node>): Memory
    reads s`parent, s`left, s`right, s`balance
  {
    map n | n in s :: Links(n.parent, n.left, n.right, n.balance)
  }

  /** The pointer p, found in a node par, leads to nodes linked in the shape t, each of them storing
      exactly right height minus left height. */
  ghost predicate Rep(t: Shape<Node>, p: Node?, par: Node?, m: Memory) {
    match t
    case Leaf => p == null
    case Fork(l, n, r) =>
      && p == n && n in m && m[n].parent == par && m[n].balance == Height(r) - Height(l)
      && Rep(l, m[n].left, n, m) && Rep(r, m[n].right, n, m)
  }

  /** The nodes around a hole are linked in the shape c, where the hole holds the pointer p, its parent
      is par, and the stored balances expect a tree of height h in it. */
  ghost predicate RepCtx(c: Ctx<Node>, h: int, p: Node?, par: Node?, root: Node?, m: Memory) {
    match c
    case Top => par == null && root == p
    case InLeft(n, r, up) =>
      && par == n && n in m && m[n].left == p && m[n].balance == Height(r) - h
      && Rep(r, m[n].right, n, m) && RepCtx(up, 1 + Max(h, Height(r)), n, m[n].parent, root, m)
    case InRight(l, n, up) =>
      && par == n && n in m && m[n].right == p && m[n].balance == h - Height(l)
      && Rep(l, m[n].left, n, m) && RepCtx(up, 1 + Max(Height(l), h), n, m[n].parent, root, m)
  }

  ghost predicate Apart(c: Ctx<Node>, t: Shape<Node>) {
    Distinct(t) && DistinctCtx(c) && Nodes(t) !! CtxNodes(c)
  }

  /** The tree t sits in the hole of c, which expects a tree of height h there. */
  ghost predicate InPlace(c: Ctx<Node>, h: int, t: Shape<Node>, p: Node?, par: Node?, root: Node?, m: Memory) {
    Rep(t, p, par, m) && RepCtx(c, h, p, par, root, m) && Apart(c, t)
  }

  /** The parent is no node of the tree itself. */
  lemma InPlaceParent(c: Ctx<Node>, h: int, t: Shape<Node>, p: Node?, par: Node?, root: Node?, m: Memory)
    requires InPlace(c, h, t, p, par, root, m)
    ensures par != null ==> par in CtxNodes(c) && par in m && par !in Nodes(t)
    ensures par == null <==> c.Top?
  {
  }

  /** Which side of its parent a tree is on. */
  lemma ParentSide(c: Ctx<Node>, h: int, t: Shape<Node>, p: Node?, par: Node?, root: Node?, m: Memory)
    requires InPlace(c, h, t, p, par, root, m) && par != null && p != null
    ensures par in m && par == c.node && (m[par].left == p <==> c.InLeft?)
  {
    RepNodes(t, p, par, m);
    if c.InRight? { RepNodes(c.left, m[c.node].left, c.node, m); }
  }

  lemma InPlaceBalance(c: Ctx<Node>, h: int, t: Shape<Node>, p: Node, par: Node?, root: Node?, m: Memory)
    requires InPlace(c, h, t, p, par, root, m)
    ensures p in m && t.Fork? && t.node == p && m[p].balance == Balance(t)
    ensures Rep(t, p, par, m) && RepCtx(c, h, p, par, root, m)
  {
  }

  ghost predicate SameOn(s: set<Node>, m: Memory, m': Memory) {
    forall n :: n in s && n in m ==> n in m' && m'[n] == m[n]
  }

  lemma {:induction false} RepFrame(t: Shape<Node>, p: Node?, par: Node?, m: Memory, m': Memory)
    requires Rep(t, p, par, m) && SameOn(Nodes(t), m, m')
    ensures Rep(t, p, par, m')
  {
    match t
    case Leaf =>
    case Fork(l, n, r) =>
      RepFrame(l, m[n].left, n, m, m');
      RepFrame(r, m[n].right, n, m, m');
  }

  /** Only the parent pointer of the top node changes. */
  lemma RepReparent(t: Shape<Node>, p: Node?, par: Node?, par': Node?, m: Memory, m': Memory)
    requires Rep(t, p, par, m) && Distinct(t)
    requires t.Fork? ==> p in m' && m'[p] == m[p].(parent := par')
    requires SameOn(Nodes(t) - {p}, m, m')
    ensures Rep(t, p, par', m')
  {
    match t
    case Leaf =>
    case Fork(l, n, r) =>
      RepFrame(l, m[n].left, n, m, m');
      RepFrame(r, m[n].right, n, m, m');
  }

  lemma {:induction false} RepNodes(t: Shape<Node>, p: Node?, par: Node?, m: Memory)
    requires Rep(t, p, par, m)
    ensures Nodes(t) <= m.Keys && (p != null ==> t.Fork? && p == t.node && p in Nodes(t))
  {
    match t
    case Leaf =>
    case Fork(l, n, r) =>
      RepNodes(l, m[n].left, n, m);
      RepNodes(r, m[n].right, n, m);
  }

  lemma {:induction false} RepCtxFrame(c: Ctx<Node>, h: int, p: Node?, par: Node?, root: Node?, m: Memory, m': Memory)
    requires RepCtx(c, h, p, par, root, m) && SameOn(CtxNodes(c), m, m')
    ensures RepCtx(c, h, p, par, root, m')
    decreases c
  {
    match c
    case Top =>
    case InLeft(n, r, up) =>
      RepFrame(r, m[n].right, n, m, m');
      RepCtxFrame(up, 1 + Max(h, Height(r)), n, m[n].parent, root, m, m');
    case InRight(l, n, up) =>
      RepFrame(l, m[n].left, n, m, m');
      RepCtxFrame(up, 1 + Max(Height(l), h), n, m[n].parent, root, m, m');
  }

  /** The links of x once the pointer to node in its parent par is p instead. */
  function HoleSet(m: Memory, par: Node?, node: Node?, p: Node?, x: Node): Links
    requires x in m
  {
    if x == par then (if m[x].left == node then m[x].(left := p) else m[x].(right := p)) else m[x]
  }

  lemma RepCtxHole(c: Ctx<Node>, h: int, p: Node?, p': Node?, par: Node?, root: Node?, m: Memory, m': Memory)
    requires RepCtx(c, h, p, par, root, m) && DistinctCtx(c) && p !in CtxNodes(c) && p != null
    requires forall x :: x in CtxNodes(c) && x in m ==> x in m' && m'[x] == HoleSet(m, par, p, p', x)
    ensures RepCtx(c, h, p', par, if par == null then p' else root, m')
  {
    match c
    case Top =>
    case InLeft(n, r, up) =>
      RepFrame(r, m[n].right, n, m, m');
      RepCtxFrame(up, 1 + Max(h, Height(r)), n, m[n].parent, root, m, m');
    case InRight(l, n, up) =>
      RepNodes(l, m[n].left, n, m);
      RepFrame(l, m[n].left, n, m, m');
      RepCtxFrame(up, 1 + Max(Height(l), h), n, m[n].parent, root, m, m');
  }

  lemma {:induction false} PlugRep(c: Ctx<Node>, t: Shape<Node>, p: Node?, par: Node?, root: Node?, m: Memory)
    requires Rep(t, p, par, m) && RepCtx(c, Height(t), p, par, root, m)
    ensures Rep(Plug(c, t), root, null, m)
    decreases c
  {
    match c
    case Top =>
    case InLeft(n, r, up) => PlugRep(up, Fork(t, n, r), n, m[n].parent, root, m);
    case InRight(l, n, up) => PlugRep(up, Fork(l, n, t), n, m[n].parent, root, m);
  }

  lemma {:induction false} UnplugRep(c: Ctx<Node>, t: Shape<Node>, root: Node?, m: Memory)
    returns (p: Node?, par: Node?)
    requires Rep(Plug(c, t), root, null, m)
    ensures Rep(t, p, par, m) && RepCtx(c, Height(t), p, par, root, m)
    decreases c
  {
    match c
    case Top => p, par := root, null;
    case InLeft(n, r, up) =>
      var q, qar := UnplugRep(up, Fork(t, n, r), root, m);
      p, par := m[n].left, n;
    case InRight(l, n, up) =>
      var q, qar := UnplugRep(up, Fork(l, n, t), root, m);
      p, par := m[n].right, n;
  }

  /** The links of x once the node n with at most one child has been replaced by that child. */
  function SplicedOut(m: Memory, n: Node, child: Node?, x: Node): Links
    requires n in m && x in m
  {
    if x == child then m[x].(parent := m[n].parent) else HoleSet(m, m[n].parent, n, child, x)
  }

  lemma SplicedOutRep(c: Ctx<Node>, h: nat, n: Node, t: Shape<Node>, other: Shape<Node>, child: Node?, par: Node?,
      root: Node?, m: Memory, m': Memory)
    requires t == Fork(Leaf, n, other) || t == Fork(other, n, Leaf)
    requires InPlace(c, h, t, n, par, root, m)
    requires child == if other.Leaf? then null else other.node
    requires m'.Keys == m.Keys && forall x :: x in m && x != n ==> m'[x] == SplicedOut(m, n, child, x)
    ensures InPlace(c, h, other, child, par, if par == null then child else root, m')
  {
    InPlaceParent(c, h, t, n, par, root, m);
    assert Rep(other, if t.left.Leaf? then m[n].right else m[n].left, n, m);
    assert Rep(other, child, n, m) && Distinct(other) && n !in Nodes(other);
    assert Nodes(other) !! CtxNodes(c) && n !in CtxNodes(c);
    RepNodes(other, child, n, m);
    hide Height, Distinct, Nodes;
    RepReparent(other, child, n, par, m, m');
    RepCtxHole(c, h, n, child, par, root, m, m');
  }

  lemma OnlyChild(t: Shape<Node>, n: Node, par: Node?, other: Shape<Node>, m: Memory)
    requires t == Fork(Leaf, n, other) || t == Fork(other, n, Leaf)
    requires Rep(t, n, par, m) && Distinct(t)
    ensures other.Fork? ==> other.node in m && other.node != n && other.node in Nodes(t)
  {
    assert Rep(other, if t.left.Leaf? then m[n].right else m[n].left, n, m);
  }

  ghost predicate CanTakePlace(m: Memory, n: Node, n': Node) {
    && n in m && n' in m && n != n'
    && var Links(p, l, r, _) := m[n];
      && l != n && l != n' && r != n && r != n' && p != n && p != n'
      && (l != null ==> l in m && l != p && l != r)
      && (r != null ==> r in m && r != p)
      && (p != null ==> p in m)
  }

  lemma CanTakePlaceIn(c: Ctx<Node>, l: Shape<Node>, n: Node, r: Shape<Node>, n': Node, root: Node?, m: Memory)
    requires n in m && InPlace(c, Height(Fork(l, n, r)), Fork(l, n, r), n, m[n].parent, root, m)
    requires n' !in CtxNodes(c) && n' !in Nodes(Fork(l, n, r)) && n' in m
    ensures CanTakePlace(m, n, n')
  {
    InPlaceParent(c, Height(Fork(l, n, r)), Fork(l, n, r), n, m[n].parent, root, m);
    RepNodes(l, m[n].left, n, m);
    RepNodes(r, m[n].right, n, m);
  }

  /** The links of x once n' has taken the place of n. */
  function PlaceTaken(m: Memory, n: Node, n': Node, x: Node): Links
    requires n in m && x in m
  {
    if x == n' then m[n]
    else if x == m[n].left || x == m[n].right then m[x].(parent := n')
    else HoleSet(m, m[n].parent, n, n', x)
  }

  lemma SubtreesTaken(c: Ctx<Node>, l: Shape<Node>, n: Node, r: Shape<Node>, n': Node, root: Node?, m: Memory,
      m': Memory)
    requires n in m && InPlace(c, Height(Fork(l, n, r)), Fork(l, n, r), n, m[n].parent, root, m)
    requires n' !in CtxNodes(c) && n' !in Nodes(Fork(l, n, r)) && n' in m
    requires m'.Keys == m.Keys && forall x :: x in m && x != n ==> m'[x] == PlaceTaken(m, n, n', x)
    ensures Rep(Fork(l, n', r), n', m[n].parent, m')
  {
    var par := m[n].parent;
    InPlaceParent(c, Height(Fork(l, n, r)), Fork(l, n, r), n, par, root, m);
    RepNodes(l, m[n].left, n, m);
    RepNodes(r, m[n].right, n, m);
    assert Distinct(l) && Distinct(r) && n !in Nodes(l) + Nodes(r) && Nodes(l) !! Nodes(r);
    hide Distinct;
    RepReparent(l, m[n].left, n, n', m, m');
    RepReparent(r, m[n].right, n, n', m, m');
  }

  lemma HoleTaken(c: Ctx<Node>, l: Shape<Node>, n: Node, r: Shape<Node>, n': Node, root: Node?, m: Memory, m': Memory)
    requires n in m && InPlace(c, Height(Fork(l, n, r)), Fork(l, n, r), n, m[n].parent, root, m)
    requires n' !in CtxNodes(c) && n' !in Nodes(Fork(l, n, r)) && n' in m
    requires m'.Keys == m.Keys && forall x :: x in m && x != n ==> m'[x] == PlaceTaken(m, n, n', x)
    ensures RepCtx(c, Height(Fork(l, n, r)), n', m[n].parent, if m[n].parent == null then n' else root, m')
  {
    var par := m[n].parent;
    InPlaceParent(c, Height(Fork(l, n, r)), Fork(l, n, r), n, par, root, m);
    RepNodes(l, m[n].left, n, m);
    RepNodes(r, m[n].right, n, m);
    assert DistinctCtx(c) && n !in CtxNodes(c) && CtxNodes(c) !! Nodes(l) && CtxNodes(c) !! Nodes(r);
    hide Rep, RepCtx, Distinct, DistinctCtx;
    RepCtxHole(c, Height(Fork(l, n, r)), n, n', par, root, m, m');
  }

  lemma PlaceTakenRep(c: Ctx<Node>, l: Shape<Node>, n: Node, r: Shape<Node>, n': Node, root: Node?, m: Memory,
      m': Memory)
    requires n in m && InPlace(c, Height(Fork(l, n, r)), Fork(l, n, r), n, m[n].parent, root, m)
    requires n' !in CtxNodes(c) && n' !in Nodes(Fork(l, n, r)) && n' in m
    requires m'.Keys == m.Keys && forall x :: x in m && x != n ==> m'[x] == PlaceTaken(m, n, n', x)
    ensures Rep(Plug(c, Fork(l, n', r)), if m[n].parent == null then n' else root, null, m')
  {
    hide Rep, RepCtx, Distinct, DistinctCtx, PlaceTaken;
    var par := m[n].parent;
    SubtreesTaken(c, l, n, r, n', root, m, m');
    HoleTaken(c, l, n, r, n', root, m, m');
    PlugRep(c, Fork(l, n', r), n', par, if par == null then n' else root, m');
  }

  /** The links of x after a right rotation at n. */
  function RotatedRight(m: Memory, n: Node, x: Node): Links
    requires n in m && m[n].left != null && m[n].left in m && x in m
  {
    var l := m[n].left;
    var nb := m[n].balance + 1 - Min(m[l].balance, 0);
    if x == n then Links(l, m[l].right, m[n].right, nb)
    else if x == l then Links(m[n].parent, m[l].left, n, m[l].balance + 1 + Max(nb, 0))
    else if x == m[l].right then m[x].(parent := n)
    else HoleSet(m, m[n].parent, n, l, x)
  }

  ghost predicate IsRotatedRight(m: Memory, m': Memory, n: Node) {
    && n in m && m[n].left != null && m[n].left in m
    && m'.Keys == m.Keys && forall x :: x in m ==> m'[x] == RotatedRight(m, n, x)
  }

  /** The rotation turns a tree of the shape t into one of the shape RotateRight(t), with exact balances. */
  lemma RotatedRightParts(t: Shape<Node>, n: Node, par: Node?, m: Memory, m': Memory)
    requires Rep(t, n, par, m) && Distinct(t) && par !in Nodes(t) && t.left.Fork?
    requires IsRotatedRight(m, m', n)
    ensures var l := m[n].left;
      l == t.left.node && Rep(t.left.left, m[l].left, l, m') && Rep(t.right, m[n].right, n, m')
        && Rep(t.left.right, m[l].right, n, m')
  {
    var Fork(Fork(a, l, b), _, d) := t;
    assert Rep(t.left, l, n, m) && Rep(a, m[l].left, l, m) && Rep(b, m[l].right, l, m) && Rep(d, m[n].right, n, m);
    ApartInLeft(t);
    hide Distinct, Nodes;
    assert Distinct(b);
    RepNodes(b, m[l].right, l, m);
    RepNodes(a, m[l].left, l, m);
    RepNodes(d, m[n].right, n, m);
    RepFrame(a, m[l].left, l, m, m');
    RepFrame(d, m[n].right, n, m, m');
    RepReparent(b, m[l].right, l, n, m, m');
  }

  lemma ApartInLeft(t: Shape<Node>)
    requires t.Fork? && t.left.Fork? && Distinct(t)
    ensures var Fork(Fork(a, l, b), n, d) := t;
      && l != n && Distinct(b)
      && (forall x :: x in Nodes(a) || x in Nodes(b) || x in Nodes(d) ==> x != n && x != l && x in Nodes(t))
      && (forall x :: x in Nodes(b) ==> x !in Nodes(a) && x !in Nodes(d))
      && n in Nodes(t) && l in Nodes(t)
  {
  }

  lemma RotatedRightRep(t: Shape<Node>, n: Node, par: Node?, m: Memory, m': Memory)
    requires Rep(t, n, par, m) && Distinct(t) && par !in Nodes(t) && t.left.Fork?
    requires IsRotatedRight(m, m', n)
    ensures Rep(RotateRight(t), t.left.node, par, m')
  {
    RotatedRightParts(t, n, par, m, m');
    hide Distinct, Nodes;
  }

  lemma RotatedRightInPlace(c: Ctx<Node>, h: int, t: Shape<Node>, n: Node, par: Node?, root: Node?, m: Memory,
      m': Memory)
    requires InPlace(c, h, t, n, par, root, m) && t.left.Fork?
    requires IsRotatedRight(m, m', n)
    ensures InPlace(c, h, RotateRight(t), t.left.node, par, if par == null then t.left.node else root, m')
    ensures m'[n].parent == t.left.node
  {
    var l := t.left.node;
    assert par != null ==> par in CtxNodes(c);
    RotatedRightRep(t, n, par, m, m');
    assert Apart(c, RotateRight(t)) by { RotateRightRearranges(t); }
    RepNodes(t, n, par, m);
    RightChild(t, n, par, m);
    RepCtxHole(c, h, n, l, par, root, m, m');
  }

  /** What a right rotation relies on. */
  lemma RightChild(t: Shape<Node>, n: Node, par: Node?, m: Memory)
    requires Rep(t, n, par, m) && t.left.Fork? && Distinct(t)
    ensures var l := t.left.node;
      && n in m && l in m && m[n].left == l && m[l].parent == n && m[l].balance == Balance(t.left)
      && l in Nodes(t) && n in Nodes(t) && n != l
      && (m[l].right != null ==> m[l].right in Nodes(t) && m[l].right != n && m[l].right != l && m[l].right in m)
  {
    RepNodes(t.left.right, m[t.left.node].right, t.left.node, m);
  }

  /** The pointers a right rotation follows lead to different nodes. */
  ghost predicate CanRotateRight(m: Memory, n: Node) {
    && n in m && m[n].left != null && m[n].left in m && (m[n].parent != null ==> m[n].parent in m)
    && var p, l := m[n].parent, m[n].left;
      && n != l && n != p && l != p
      && (m[l].right != null ==> m[l].right in m && m[l].right !in [n, l, p])
  }

  lemma CanRotateRightIn(c: Ctx<Node>, h: int, t: Shape<Node>, n: Node, par: Node?, root: Node?, m: Memory)
    requires InPlace(c, h, t, n, par, root, m) && t.left.Fork?
    ensures CanRotateRight(m, n) && m[n].left == t.left.node && m[n].parent == par
  {
    RightChild(t, n, par, m);
    InPlaceParent(c, h, t, n, par, root, m);
  }

  lemma CanRotateRightBelow(c: Ctx<Node>, h: int, t: Shape<Node>, n: Node, par: Node?, root: Node?, m: Memory)
    requires InPlace(c, h, t, n, par, root, m) && t.right.Fork? && t.right.left.Fork?
    ensures CanRotateRight(m, t.right.node) && m[t.right.node].parent == n
  {
    assert Rep(t.right, m[n].right, n, m) && n !in Nodes(t.right);
    RightChild(t.right, t.right.node, n, m);
  }

  /** A right rotation of the right subtree below n, which keeps its height. */
  lemma RotatedRightBelow(c: Ctx<Node>, h: int, t: Shape<Node>, n: Node, par: Node?, root: Node?, m: Memory, m': Memory)
    requires InPlace(c, h, t, n, par, root, m) && t.right.Fork? && t.right.left.Fork?
    requires Height(RotateRight(t.right)) == Height(t.right)
    requires IsRotatedRight(m, m', t.right.node)
    ensures InPlace(c, h, t.(right := RotateRight(t.right)), n, par, root, m')
    ensures var b := t.right.left.node;
      b in m' && m'[t.right.node].parent == b && m'[b].parent == n
  {
    var r := t.right.node;
    assert Rep(t.left, m[n].left, n, m) && Rep(t.right, m[n].right, n, m);
    assert m[n].right == r && r in Nodes(t.right);
    RotatedRightRep(t.right, r, n, m, m');
    assert Apart(c, t.(right := RotateRight(t.right))) by { RotateRightRearranges(t.right); }
    RightChild(t.right, r, n, m);
    RepNodes(t.left, m[n].left, n, m);
    RepFrame(t.left, m[n].left, n, m, m');
    RepCtxFrame(c, h, n, par, root, m, m');
  }

  /** The links of x once new has been hung below n as its left child. */
  function AttachedLeft(m: Memory, n: Node, new_: Node, balance: int, x: Node): Links
    requires x in m
  {
    if x == new_ then m[x].(parent := n)
    else if x == n then m[x].(left := new_, balance := balance)
    else m[x]
  }

  lemma AttachedLeftInPlace(c: Ctx<Node>, h: int, n: Node, r: Shape<Node>, new_: Node, balance: int, par: Node?,
      root: Node?, m: Memory, m': Memory)
    requires InPlace(c, h, Fork(Leaf, n, r), n, par, root, m)
    requires new_ in m && new_ !in CtxNodes(c) && new_ !in Nodes(Fork(Leaf, n, r))
    requires m[new_].left == null && m[new_].right == null && m[new_].balance == 0
    requires balance == Height(r) - 1
    requires m'.Keys == m.Keys && forall x :: x in m ==> m'[x] == AttachedLeft(m, n, new_, balance, x)
    ensures InPlace(c, h, Fork(Fork(Leaf, new_, Leaf), n, r), n, par, root, m')
  {
    InPlaceParent(c, h, Fork(Leaf, n, r), n, par, root, m);
    RepFrame(r, m[n].right, n, m, m');
    RepCtxFrame(c, h, n, par, root, m, m');
    assert Rep(Fork(Leaf, new_, Leaf), new_, n, m');
  }

  /** The pure side of hanging a new node below another */
  lemma HungFits(c: Ctx<Node>, l: Shape<Node>, n: Node, r: Shape<Node>, m: Node, left: bool)
    requires (if left then l.Leaf? else r.Leaf?) && Balanced(Plug(c, Fork(l, n, r)))
    requires Distinct(Plug(c, Fork(l, n, r))) && m !in Nodes(Plug(c, Fork(l, n, r)))
    ensures Apart(c, Fork(l, n, r)) && m !in CtxNodes(c) && m !in Nodes(Fork(l, n, r))
    ensures var leaf, h := Fork(Leaf, m, Leaf), Height(Fork(l, n, r));
      var t := if left then Fork(leaf, n, r) else Fork(l, n, leaf);
      && (Balance(t) == 0 ==> Height(t) == h && Hung(c, l, n, r, m, left) == Plug(c, t))
      && (Balance(t) != 0 ==>
            Height(t) == h + 1 && Balanced(t) && BalancedCtx(c, h) && Hung(c, l, n, r, m, left) == Grown(c, t))
  {
    hide Plug, Distinct, CtxNodes, Nodes, Grown;
    PlugDistinct(c, Fork(l, n, r));
    PlugNodes(c, Fork(l, n, r));
    PlugBalanced(c, Fork(l, n, r));
  }

  /** From a left subtree up to its parent, once the parent's balance is exact again */
  lemma ZipLeft(p: Node, r: Shape<Node>, up: Ctx<Node>, h: int, t: Shape<Node>, q: Node?, root: Node?, m: Memory,
      m': Memory)
    requires InPlace(InLeft(p, r, up), h, t, q, p, root, m)
    requires m'.Keys == m.Keys && SameOn(m.Keys - {p}, m, m')
    requires m'[p] == m[p].(balance := Height(r) - Height(t))
    ensures InPlace(up, 1 + Max(h, Height(r)), Fork(t, p, r), p, m[p].parent, root, m')
  {
    hide Height;
    RepFrame(t, q, p, m, m');
    RepFrame(r, m[p].right, p, m, m');
    RepCtxFrame(up, 1 + Max(h, Height(r)), p, m[p].parent, root, m, m');
  }

  /** The links of x after a left rotation at n. */
  function RotatedLeft(m: Memory, n: Node, x: Node): Links
    requires n in m && m[n].right != null && m[n].right in m && x in m
  {
    var r := m[n].right;
    var nb := m[n].balance - 1 - Max(m[r].balance, 0);
    if x == n then Links(r, m[n].left, m[r].left, nb)
    else if x == r then Links(m[n].parent, n, m[r].right, m[r].balance - 1 + Min(nb, 0))
    else if x == m[r].left then m[x].(parent := n)
    else HoleSet(m, m[n].parent, n, r, x)
  }

  ghost predicate IsRotatedLeft(m: Memory, m': Memory, n: Node) {
    && n in m && m[n].right != null && m[n].right in m
    && m'.Keys == m.Keys && forall x :: x in m ==> m'[x] == RotatedLeft(m, n, x)
  }

  /** The rotation turns a tree of the shape t into one of the shape RotateLeft(t), with exact balances. */
  lemma RotatedLeftParts(t: Shape<Node>, n: Node, par: Node?, m: Memory, m': Memory)
    requires Rep(t, n, par, m) && Distinct(t) && par !in Nodes(t) && t.right.Fork?
    requires IsRotatedLeft(m, m', n)
    ensures var r := m[n].right;
      r == t.right.node && Rep(t.right.right, m[r].right, r, m') && Rep(t.left, m[n].left, n, m')
        && Rep(t.right.left, m[r].left, n, m')
  {
    var Fork(d, _, Fork(b, r, a)) := t;
    assert Rep(t.right, r, n, m) && Rep(a, m[r].right, r, m) && Rep(b, m[r].left, r, m) && Rep(d, m[n].left, n, m);
    ApartInRight(t);
    hide Distinct, Nodes;
    assert Distinct(b);
    RepNodes(b, m[r].left, r, m);
    RepNodes(a, m[r].right, r, m);
    RepNodes(d, m[n].left, n, m);
    RepFrame(a, m[r].right, r, m, m');
    RepFrame(d, m[n].left, n, m, m');
    RepReparent(b, m[r].left, r, n, m, m');
  }

  lemma ApartInRight(t: Shape<Node>)
    requires t.Fork? && t.right.Fork? && Distinct(t)
    ensures var Fork(d, n, Fork(b, r, a)) := t;
      && r != n && Distinct(b)
      && (forall x :: x in Nodes(a) || x in Nodes(b) || x in Nodes(d) ==> x != n && x != r && x in Nodes(t))
      && (forall x :: x in Nodes(b) ==> x !in Nodes(a) && x !in Nodes(d))
      && n in Nodes(t) && r in Nodes(t)
  {
  }

  lemma RotatedLeftRep(t: Shape<Node>, n: Node, par: Node?, m: Memory, m': Memory)
    requires Rep(t, n, par, m) && Distinct(t) && par !in Nodes(t) && t.right.Fork?
    requires IsRotatedLeft(m, m', n)
    ensures Rep(RotateLeft(t), t.right.node, par, m')
  {
    RotatedLeftParts(t, n, par, m, m');
    hide Distinct, Nodes;
  }

  lemma RotatedLeftInPlace(c: Ctx<Node>, h: int, t: Shape<Node>, n: Node, par: Node?, root: Node?, m: Memory,
      m': Memory)
    requires InPlace(c, h, t, n, par, root, m) && t.right.Fork?
    requires IsRotatedLeft(m, m', n)
    ensures InPlace(c, h, RotateLeft(t), t.right.node, par, if par == null then t.right.node else root, m')
    ensures m'[n].parent == t.right.node
  {
    var r := t.right.node;
    assert par != null ==> par in CtxNodes(c);
    RotatedLeftRep(t, n, par, m, m');
    assert Apart(c, RotateLeft(t)) by { RotateLeftRearranges(t); }
    RepNodes(t, n, par, m);
    LeftChild(t, n, par, m);
    RepCtxHole(c, h, n, r, par, root, m, m');
  }

  /** What a left rotation relies on. */
  lemma LeftChild(t: Shape<Node>, n: Node, par: Node?, m: Memory)
    requires Rep(t, n, par, m) && t.right.Fork? && Distinct(t)
    ensures var r := t.right.node;
      && n in m && r in m && m[n].right == r && m[r].parent == n && m[r].balance == Balance(t.right)
      && r in Nodes(t) && n in Nodes(t) && n != r
      && (m[r].left != null ==> m[r].left in Nodes(t) && m[r].left != n && m[r].left != r && m[r].left in m)
  {
    RepNodes(t.right.left, m[t.right.node].left, t.right.node, m);
  }

  /** The pointers a left rotation follows lead to different nodes. */
  ghost predicate CanRotateLeft(m: Memory, n: Node) {
    && n in m && m[n].right != null && m[n].right in m && (m[n].parent != null ==> m[n].parent in m)
    && var p, r := m[n].parent, m[n].right;
      && n != r && n != p && r != p
      && (m[r].left != null ==> m[r].left in m && m[r].left !in [n, r, p])
  }

  lemma CanRotateLeftIn(c: Ctx<Node>, h: int, t: Shape<Node>, n: Node, par: Node?, root: Node?, m: Memory)
    requires InPlace(c, h, t, n, par, root, m) && t.right.Fork?
    ensures CanRotateLeft(m, n) && m[n].right == t.right.node && m[n].parent == par
  {
    LeftChild(t, n, par, m);
    InPlaceParent(c, h, t, n, par, root, m);
  }

  lemma CanRotateLeftBelow(c: Ctx<Node>, h: int, t: Shape<Node>, n: Node, par: Node?, root: Node?, m: Memory)
    requires InPlace(c, h, t, n, par, root, m) && t.left.Fork? && t.left.right.Fork?
    ensures CanRotateLeft(m, t.left.node) && m[t.left.node].parent == n
  {
    assert Rep(t.left, m[n].left, n, m) && n !in Nodes(t.left);
    LeftChild(t.left, t.left.node, n, m);
  }

  /** A left rotation of the left subtree below n, which keeps its height. */
  lemma RotatedLeftBelow(c: Ctx<Node>, h: int, t: Shape<Node>, n: Node, par: Node?, root: Node?, m: Memory, m': Memory)
    requires InPlace(c, h, t, n, par, root, m) && t.left.Fork? && t.left.right.Fork?
    requires Height(RotateLeft(t.left)) == Height(t.left)
    requires IsRotatedLeft(m, m', t.left.node)
    ensures InPlace(c, h, t.(left := RotateLeft(t.left)), n, par, root, m')
    ensures var b := t.left.right.node;
      b in m' && m'[t.left.node].parent == b && m'[b].parent == n
  {
    var l := t.left.node;
    assert Rep(t.right, m[n].right, n, m) && Rep(t.left, m[n].left, n, m);
    assert m[n].left == l && l in Nodes(t.left);
    RotatedLeftRep(t.left, l, n, m, m');
    assert Apart(c, t.(left := RotateLeft(t.left))) by { RotateLeftRearranges(t.left); }
    LeftChild(t.left, l, n, m);
    RepNodes(t.right, m[n].right, n, m);
    RepFrame(t.right, m[n].right, n, m, m');
    RepCtxFrame(c, h, n, par, root, m, m');
  }

  /** The links of x once new has been hung below n as its right child. */
  function AttachedRight(m: Memory, n: Node, new_: Node, balance: int, x: Node): Links
    requires x in m
  {
    if x == new_ then m[x].(parent := n)
    else if x == n then m[x].(right := new_, balance := balance)
    else m[x]
  }

  lemma AttachedRightInPlace(c: Ctx<Node>, h: int, n: Node, l: Shape<Node>, new_: Node, balance: int, par: Node?,
      root: Node?, m: Memory, m': Memory)
    requires InPlace(c, h, Fork(l, n, Leaf), n, par, root, m)
    requires new_ in m && new_ !in CtxNodes(c) && new_ !in Nodes(Fork(l, n, Leaf))
    requires m[new_].right == null && m[new_].left == null && m[new_].balance == 0
    requires balance == 1 - Height(l)
    requires m'.Keys == m.Keys && forall x :: x in m ==> m'[x] == AttachedRight(m, n, new_, balance, x)
    ensures InPlace(c, h, Fork(l, n, Fork(Leaf, new_, Leaf)), n, par, root, m')
  {
    InPlaceParent(c, h, Fork(l, n, Leaf), n, par, root, m);
    RepFrame(l, m[n].left, n, m, m');
    RepCtxFrame(c, h, n, par, root, m, m');
    assert Rep(Fork(Leaf, new_, Leaf), new_, n, m');
  }

  /** From a subtree up to its parent, once the parent's balance is exact again. */
  lemma ZipRight(l: Shape<Node>, p: Node, up: Ctx<Node>, h: int, t: Shape<Node>, q: Node?, root: Node?, m: Memory,
      m': Memory)
    requires InPlace(InRight(l, p, up), h, t, q, p, root, m)
    requires m'.Keys == m.Keys && SameOn(m.Keys - {p}, m, m')
    requires m'[p] == m[p].(balance := Height(t) - Height(l))
    ensures InPlace(up, 1 + Max(Height(l), h), Fork(l, p, t), p, m[p].parent, root, m')
  {
    hide Height;
    RepFrame(t, q, p, m, m');
    RepFrame(l, m[p].left, p, m, m');
    RepCtxFrame(up, 1 + Max(Height(l), h), p, m[p].parent, root, m, m');
  }
}
