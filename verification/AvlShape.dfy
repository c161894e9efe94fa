/** The shapes that the linked nodes of an AVL tree form, as values: trees, and trees with one subtree
    cut out. The tree code of libubox/avl.c is proved against these in AvlTree. */
module AvlShape {

  datatype Shape<N> = Leaf | Fork(left: Shape<N>, node: N, right: Shape<N>)

  /** A tree with a hole where one subtree was, seen from the hole upwards. */
  datatype Ctx<N> =
    | Top
    | InLeft(node: N, right: Shape<N>, up: Ctx<N>)
    | InRight(left: Shape<N>, node: N, up: Ctx<N>)

  function Max(a: int, b: int): int {
    if a > b then a else b
  }

  function Min(a: int, b: int): int {
    if a < b then a else b
  }

  function Height<N>(t: Shape<N>): nat {
    match t
    case Leaf => 0
    case Fork(l, _, r) => 1 + Max(Height(l), Height(r))
  }

  predicate Balanced<N>(t: Shape<N>) {
    match t
    case Leaf => true
    case Fork(l, _, r) => -1 <= Height(r) - Height(l) <= 1 && Balanced(l) && Balanced(r)
  }

  function InOrder<N>(t: Shape<N>): seq<N> {
    match t
    case Leaf => []
    case Fork(l, n, r) => InOrder(l) + [n] + InOrder(r)
  }

  ghost function Nodes<N>(t: Shape<N>): set<N> {
    match t
    case Leaf => {}
    case Fork(l, n, r) => Nodes(l) + {n} + Nodes(r)
  }

  /** No node occurs twice. */
  ghost predicate Distinct<N>(t: Shape<N>) {
    match t
    case Leaf => true
    case Fork(l, n, r) =>
      n !in Nodes(l) && n !in Nodes(r) && Nodes(l) !! Nodes(r) && Distinct(l) && Distinct(r)
  }

  function Plug<N>(c: Ctx<N>, t: Shape<N>): Shape<N>
    decreases c
  {
    match c
    case Top => t
    case InLeft(n, r, up) => Plug(up, Fork(t, n, r))
    case InRight(l, n, up) => Plug(up, Fork(l, n, t))
  }

  /** The nodes left of the hole, and the nodes right of it, in order. */
  function Before<N>(c: Ctx<N>): seq<N> {
    match c
    case Top => []
    case InLeft(n, r, up) => Before(up)
    case InRight(l, n, up) => Before(up) + InOrder(l) + [n]
  }

  function After<N>(c: Ctx<N>): seq<N> {
    match c
    case Top => []
    case InLeft(n, r, up) => [n] + InOrder(r) + After(up)
    case InRight(l, n, up) => After(up)
  }

  ghost function CtxNodes<N>(c: Ctx<N>): set<N> {
    match c
    case Top => {}
    case InLeft(n, r, up) => Nodes(r) + {n} + CtxNodes(up)
    case InRight(l, n, up) => Nodes(l) + {n} + CtxNodes(up)
  }

  ghost predicate DistinctCtx<N>(c: Ctx<N>) {
    match c
    case Top => true
    case InLeft(n, r, up) =>
      n !in Nodes(r) && n !in CtxNodes(up) && Nodes(r) !! CtxNodes(up) && Distinct(r) && DistinctCtx(up)
    case InRight(l, n, up) =>
      n !in Nodes(l) && n !in CtxNodes(up) && Nodes(l) !! CtxNodes(up) && Distinct(l) && DistinctCtx(up)
  }

  /** The tree is balanced everywhere once the hole is filled with a balanced tree of height h. */
  predicate BalancedCtx<N>(c: Ctx<N>, h: nat) {
    match c
    case Top => true
    case InLeft(n, r, up) =>
      -1 <= Height(r) - h <= 1 && Balanced(r) && BalancedCtx(up, 1 + Max(h, Height(r)))
    case InRight(l, n, up) =>
      -1 <= h - Height(l) <= 1 && Balanced(l) && BalancedCtx(up, 1 + Max(Height(l), h))
  }

  lemma Regroup<T>(a: seq<T>, b: seq<T>, c: seq<T>, d: seq<T>, e: seq<T>)
    ensures a + (b + c + d) + e == a + b + (c + d + e) == (a + b + c) + d + e
  {
  }

  lemma {:induction false} PlugInOrder<N>(c: Ctx<N>, t: Shape<N>)
    ensures InOrder(Plug(c, t)) == Before(c) + InOrder(t) + After(c)
    decreases c
  {
    match c
    case Top =>
    case InLeft(n, r, up) =>
      PlugInOrder(up, Fork(t, n, r));
      Regroup(Before(up), InOrder(t), [n], InOrder(r), After(up));
    case InRight(l, n, up) =>
      PlugInOrder(up, Fork(l, n, t));
      Regroup(Before(up), InOrder(l), [n], InOrder(t), After(up));
  }

  lemma {:induction false} PlugNodes<N>(c: Ctx<N>, t: Shape<N>)
    ensures Nodes(Plug(c, t)) == CtxNodes(c) + Nodes(t)
    decreases c
  {
    match c
    case Top =>
    case InLeft(n, r, up) => PlugNodes(up, Fork(t, n, r));
    case InRight(l, n, up) => PlugNodes(up, Fork(l, n, t));
  }

  lemma {:induction false} PlugDistinct<N>(c: Ctx<N>, t: Shape<N>)
    ensures Distinct(Plug(c, t)) <==> Distinct(t) && DistinctCtx(c) && Nodes(t) !! CtxNodes(c)
    decreases c
  {
    match c
    case Top =>
    case InLeft(n, r, up) => PlugDistinct(up, Fork(t, n, r));
    case InRight(l, n, up) => PlugDistinct(up, Fork(l, n, t));
  }

  lemma LocateIn<N>(t: Shape<N>, n: N) returns (c: Ctx<N>, l: Shape<N>, r: Shape<N>)
    requires n in Nodes(t)
    ensures Plug(c, Fork(l, n, r)) == t
  {
    c, l, r := Locate(Top, t, n);
  }

  lemma {:induction false} PlugBalanced<N>(c: Ctx<N>, t: Shape<N>)
    ensures Balanced(Plug(c, t)) <==> Balanced(t) && BalancedCtx(c, Height(t))
    decreases c
  {
    match c
    case Top =>
    case InLeft(n, r, up) => PlugBalanced(up, Fork(t, n, r));
    case InRight(l, n, up) => PlugBalanced(up, Fork(l, n, t));
  }

  lemma {:induction false} NodesInOrder<N>(t: Shape<N>)
    ensures forall n :: n in Nodes(t) <==> n in InOrder(t)
  {
    match t
    case Leaf =>
    case Fork(l, n, r) => NodesInOrder(l); NodesInOrder(r);
  }

  /** Where a node of a tree is: the path to it and its two subtrees. */
  lemma {:induction false} Locate<N>(c: Ctx<N>, t: Shape<N>, n: N) returns (c': Ctx<N>, l: Shape<N>, r: Shape<N>)
    requires n in Nodes(t)
    ensures Plug(c', Fork(l, n, r)) == Plug(c, t)
    decreases t
  {
    var Fork(tl, m, tr) := t;
    if n == m {
      c', l, r := c, tl, tr;
    } else if n in Nodes(tl) {
      c', l, r := Locate(InLeft(m, tr, c), tl, n);
    } else {
      c', l, r := Locate(InRight(tl, m, c), tr, n);
    }
  }

  /** The least number of nodes an AVL tree of a height can have, plus one, is a Fibonacci number. */
  function Fib(n: nat): nat {
    if n < 2 then n else Fib(n - 1) + Fib(n - 2)
  }

  lemma FibStep(a: nat, b: nat)
    requires a <= b <= a + 1
    ensures Fib(b + 3) <= Fib(a + 2) + Fib(b + 2)
  {
  }

  lemma FibSmall()
    ensures Fib(2) == 1
  {
  }

  lemma {:induction false} FibGrows(a: nat, b: nat)
    requires a <= b
    ensures Fib(a) <= Fib(b)
    decreases b
  {
    if a < b {
      FibGrows(a, b - 1);
      if b >= 2 { assert Fib(b) == Fib(b - 1) + Fib(b - 2); }
    }
  }

  /** An AVL tree of height h has at least Fib(h + 2) - 1 nodes, so its height is logarithmic in their number. */
  lemma {:induction false} EnoughNodes<N>(t: Shape<N>)
    requires Balanced(t)
    ensures |InOrder(t)| + 1 >= Fib(Height(t) + 2)
  {
    hide Fib;
    FibSmall();
    if t.Fork? {
      EnoughNodes(t.left);
      EnoughNodes(t.right);
      assert |InOrder(t)| == |InOrder(t.left)| + 1 + |InOrder(t.right)|;
      FibStep(Min(Height(t.left), Height(t.right)), Max(Height(t.left), Height(t.right)));
    }
  }

  /** What rebalancing must keep: the nodes, their order, and that none occurs twice. */
  lemma {:induction false} CountNodes<N>(t: Shape<N>)
    requires Distinct(t)
    ensures |Nodes(t)| == |InOrder(t)|
  {
    if t.Fork? {
      CountNodes(t.left);
      CountNodes(t.right);
    }
  }

  ghost predicate Rearranged<N>(t: Shape<N>, t': Shape<N>) {
    InOrder(t) == InOrder(t') && Nodes(t) == Nodes(t') && Distinct(t) == Distinct(t')
  }

  lemma RearrangedPlug<N>(c: Ctx<N>, t: Shape<N>, t': Shape<N>)
    requires Rearranged(t, t')
    ensures Rearranged(Plug(c, t), Plug(c, t'))
  {
    PlugInOrder(c, t);  PlugInOrder(c, t');
    PlugNodes(c, t);  PlugNodes(c, t');
    PlugDistinct(c, t);  PlugDistinct(c, t');
  }

  lemma RotationRearranges<N>(a: Shape<N>, m: N, b: Shape<N>, n: N, d: Shape<N>)
    ensures Rearranged(Fork(Fork(a, m, b), n, d), Fork(a, m, Fork(b, n, d)))
  {
    assert InOrder(a) + [m] + InOrder(b) + [n] + InOrder(d) == InOrder(a) + [m] + (InOrder(b) + [n] + InOrder(d));
  }

  /** A rotation below another one. */
  lemma InnerRotationRearranges<N>(t: Shape<N>, t': Shape<N>, n: N, r: Shape<N>)
    requires Rearranged(t, t')
    ensures Rearranged(Fork(t, n, r), Fork(t', n, r)) && Rearranged(Fork(r, n, t), Fork(r, n, t'))
  {
  }

  function RotateRight<N>(t: Shape<N>): Shape<N>
    requires t.Fork? && t.left.Fork?
  {
    Fork(t.left.left, t.left.node, Fork(t.left.right, t.node, t.right))
  }

  function RotateLeft<N>(t: Shape<N>): Shape<N>
    requires t.Fork? && t.right.Fork?
  {
    Fork(Fork(t.left, t.node, t.right.left), t.right.node, t.right.right)
  }

  lemma RotateRightRearranges<N>(t: Shape<N>)
    requires t.Fork? && t.left.Fork?
    ensures Rearranged(t, RotateRight(t))
  {
    RotationRearranges(t.left.left, t.left.node, t.left.right, t.node, t.right);
  }

  lemma RotateLeftRearranges<N>(t: Shape<N>)
    requires t.Fork? && t.right.Fork?
    ensures Rearranged(t, RotateLeft(t))
  {
    RotationRearranges(t.left, t.node, t.right.left, t.right.node, t.right.right);
  }

  function Balance<N>(t: Shape<N>): int {
    if t.Leaf? then 0 else Height(t.right) - Height(t.left)
  }

  /** A tree that is two too high on its left, or on its right, made balanced. */
  function FixLeftHeavy<N>(t: Shape<N>, single: bool): Shape<N>
    requires t.Fork? && t.left.Fork? && (!single ==> t.left.right.Fork?)
  {
    if single then RotateRight(t) else RotateRight(t.(left := RotateLeft(t.left)))
  }

  function FixRightHeavy<N>(t: Shape<N>, single: bool): Shape<N>
    requires t.Fork? && t.right.Fork? && (!single ==> t.right.left.Fork?)
  {
    if single then RotateLeft(t) else RotateLeft(t.(right := RotateRight(t.right)))
  }

  lemma LeftHeavyFixed<N>(t: Shape<N>, single: bool)
    requires t.Fork? && Balance(t) == -2 && Balanced(t.left) && Balanced(t.right)
    requires single <==> Balance(t.left) <= 0
    ensures t.left.Fork? && (!single ==> t.left.right.Fork?) && -1 <= Balance(t.left) <= 1
    ensures var t' := FixLeftHeavy(t, single);
      Balanced(t') && t'.Fork? && Height(t') == Height(t) - (if Balance(t.left) == 0 then 0 else 1)
    ensures !single ==> Height(RotateLeft(t.left)) == Height(t.left)
  {
  }

  lemma RightHeavyFixed<N>(t: Shape<N>, single: bool)
    requires t.Fork? && Balance(t) == 2 && Balanced(t.left) && Balanced(t.right)
    requires single <==> Balance(t.right) >= 0
    ensures t.right.Fork? && (!single ==> t.right.left.Fork?) && -1 <= Balance(t.right) <= 1
    ensures var t' := FixRightHeavy(t, single);
      Balanced(t') && t'.Fork? && Height(t') == Height(t) - (if Balance(t.right) == 0 then 0 else 1)
    ensures !single ==> Height(RotateRight(t.right)) == Height(t.right)
  {
    var r := t.right;
    if single {
      assert FixRightHeavy(t, true) == Fork(Fork(t.left, t.node, r.left), r.node, r.right);
    } else {
      assert RotateRight(r) == Fork(r.left.left, r.left.node, Fork(r.left.right, r.node, r.right));
    }
  }

  lemma LeftHeavyRearranged<N>(t: Shape<N>, single: bool)
    requires t.Fork? && t.left.Fork? && (!single ==> t.left.right.Fork?)
    ensures Rearranged(t, FixLeftHeavy(t, single))
  {
    var Fork(Fork(a, m, b), n, d) := t;
    if single {
      RotationRearranges(a, m, b, n, d);
    } else {
      RotationRearranges(a, m, b.left, b.node, b.right);
      InnerRotationRearranges(t.left, RotateLeft(t.left), n, d);
      RotationRearranges(Fork(a, m, b.left), b.node, b.right, n, d);
    }
  }

  lemma RightHeavyRearranged<N>(t: Shape<N>, single: bool)
    requires t.Fork? && t.right.Fork? && (!single ==> t.right.left.Fork?)
    ensures Rearranged(t, FixRightHeavy(t, single))
  {
    var Fork(d, n, Fork(b, m, a)) := t;
    if single {
      RotationRearranges(d, n, b, m, a);
    } else {
      RotationRearranges(b.left, b.node, b.right, m, a);
      InnerRotationRearranges(t.right, RotateRight(t.right), n, d);
      RotationRearranges(d, n, b.left, b.node, Fork(b.right, m, a));
    }
  }

  /** The tree after t in the hole of c has grown by one level, and post_insert has run upwards from it. */
  function Grown<N>(c: Ctx<N>, t: Shape<N>): Shape<N>
    requires t.Fork? && Balance(t) != 0 && Balanced(t) && BalancedCtx(c, Height(t) - 1)
    decreases c
  {
    match c
    case Top => t
    case InLeft(p, r, up) =>
      var t' := Fork(t, p, r);
      if Balance(t') == 0 then Plug(up, t')
      else if Balance(t') == -1 then Grown(up, t')
      else Plug(up, FixLeftHeavy(t', Balance(t) == -1))
    case InRight(l, p, up) =>
      var t' := Fork(l, p, t);
      if Balance(t') == 0 then Plug(up, t')
      else if Balance(t') == 1 then Grown(up, t')
      else Plug(up, FixRightHeavy(t', Balance(t) == 1))
  }

  lemma {:induction false} GrownIsBalanced<N>(c: Ctx<N>, t: Shape<N>)
    requires t.Fork? && Balance(t) != 0 && Balanced(t) && BalancedCtx(c, Height(t) - 1)
    ensures Balanced(Grown(c, t))
    decreases c, 1
  {
    match c
    case Top =>
    case InLeft(p, r, up) => GrownLeftIsBalanced(p, r, up, t);
    case InRight(l, p, up) => GrownRightIsBalanced(l, p, up, t);
  }

  lemma {:induction false} GrownLeftIsBalanced<N>(p: N, r: Shape<N>, up: Ctx<N>, t: Shape<N>)
    requires t.Fork? && Balance(t) != 0 && Balanced(t) && BalancedCtx(InLeft(p, r, up), Height(t) - 1)
    ensures Balanced(Grown(InLeft(p, r, up), t))
    decreases InLeft(p, r, up), 0
  {
    hide Plug, FixLeftHeavy;
    var t' := Fork(t, p, r);
    if Balance(t') == 0 {
      PlugBalanced(up, t');
    } else if Balance(t') == -1 {
      GrownIsBalanced(up, t');
    } else {
      LeftHeavyFixed(t', Balance(t) == -1);
      PlugBalanced(up, FixLeftHeavy(t', Balance(t) == -1));
    }
  }

  lemma {:induction false} GrownRightIsBalanced<N>(l: Shape<N>, p: N, up: Ctx<N>, t: Shape<N>)
    requires t.Fork? && Balance(t) != 0 && Balanced(t) && BalancedCtx(InRight(l, p, up), Height(t) - 1)
    ensures Balanced(Grown(InRight(l, p, up), t))
    decreases InRight(l, p, up), 0
  {
    var t' := Fork(l, p, t);
    if Balance(t') == 0 {
      PlugBalanced(up, t');
    } else if Balance(t') == 1 {
      GrownIsBalanced(up, t');
    } else {
      RightHeavyFixed(t', Balance(t) == 1);
      PlugBalanced(up, FixRightHeavy(t', Balance(t) == 1));
    }
  }

  lemma {:induction false} GrownIsRearranged<N>(c: Ctx<N>, t: Shape<N>)
    requires t.Fork? && Balance(t) != 0 && Balanced(t) && BalancedCtx(c, Height(t) - 1)
    ensures Rearranged(Plug(c, t), Grown(c, t))
    decreases c
  {
    if !c.Top? {
      var t' := if c.InLeft? then Fork(t, c.node, c.right) else Fork(c.left, c.node, t);
      if Balance(t') in [-1, 1] {
        GrownIsRearranged(c.up, t');
      } else if Balance(t') == -2 {
        LeftHeavyRearranged(t', Balance(t) == -1);
        RearrangedPlug(c.up, t', FixLeftHeavy(t', Balance(t) == -1));
      } else if Balance(t') == 2 {
        RightHeavyRearranged(t', Balance(t) == 1);
        RearrangedPlug(c.up, t', FixRightHeavy(t', Balance(t) == 1));
      }
    }
  }

  /** The three things post_insert can find at a parent whose left subtree has grown. */
  lemma {:induction false} GrownLeftCases<N>(p: N, r: Shape<N>, up: Ctx<N>, h: nat, t: Shape<N>)
    requires t.Fork? && Balance(t) != 0 && Balanced(t) && BalancedCtx(InLeft(p, r, up), h) && h == Height(t) - 1
    ensures var t', h' := Fork(t, p, r), 1 + Max(h, Height(r));
      && Balance(t') in [0, -1, -2] && BalancedCtx(up, h') && Balanced(r)
      && (Balance(t') == 0 ==> h' == Height(t') && Grown(InLeft(p, r, up), t) == Plug(up, t'))
      && (Balance(t') == -1 ==> h' == Height(t') - 1 && Balanced(t') && Grown(InLeft(p, r, up), t) == Grown(up, t'))
      && (Balance(t') == -2 ==> h' == Height(t') - 1)
      && (Balance(t') == -2 ==> Balance(t) == -1 || t.right.Fork?)
      && (Balance(t') == -2 ==> Grown(InLeft(p, r, up), t) == Plug(up, FixLeftHeavy(t', Balance(t) == -1)))
  {
    hide Plug, FixLeftHeavy;
  }

  /** The three things post_insert can find at a parent whose right subtree has grown. */
  lemma {:induction false} GrownRightCases<N>(l: Shape<N>, p: N, up: Ctx<N>, h: nat, t: Shape<N>)
    requires t.Fork? && Balance(t) != 0 && Balanced(t) && BalancedCtx(InRight(l, p, up), h) && h == Height(t) - 1
    ensures var t', h' := Fork(l, p, t), 1 + Max(Height(l), h);
      && Balance(t') in [0, 1, 2] && BalancedCtx(up, h') && Balanced(l)
      && (Balance(t') == 0 ==> h' == Height(t') && Grown(InRight(l, p, up), t) == Plug(up, t'))
      && (Balance(t') == 1 ==> h' == Height(t') - 1 && Balanced(t') && Grown(InRight(l, p, up), t) == Grown(up, t'))
      && (Balance(t') == 2 ==> h' == Height(t') - 1)
      && (Balance(t') == 2 ==> Balance(t) == 1 || t.left.Fork?)
      && (Balance(t') == 2 ==> Grown(InRight(l, p, up), t) == Plug(up, FixRightHeavy(t', Balance(t) == 1)))
  {
    hide Plug, FixRightHeavy;
  }

  /** The tree after t in the hole of c has shrunk by one level, and avl_post_delete has run upwards from it. */
  function Shrunk<N>(c: Ctx<N>, t: Shape<N>): Shape<N>
    requires Balanced(t) && BalancedCtx(c, Height(t) + 1)
    decreases c
  {
    match c
    case Top => t
    case InLeft(p, r, up) =>
      var t' := Fork(t, p, r);
      if Balance(t') == 0 then Shrunk(up, t')
      else if Balance(t') == 1 then Plug(up, t')
      else if Balance(r) == 0 then Plug(up, FixRightHeavy(t', true))
      else RightHeavyFixed(t', Balance(r) >= 0); Shrunk(up, FixRightHeavy(t', Balance(r) == 1))
    case InRight(l, p, up) =>
      var t' := Fork(l, p, t);
      if Balance(t') == 0 then Shrunk(up, t')
      else if Balance(t') == -1 then Plug(up, t')
      else if Balance(l) == 0 then Plug(up, FixLeftHeavy(t', true))
      else LeftHeavyFixed(t', Balance(l) <= 0); Shrunk(up, FixLeftHeavy(t', Balance(l) == -1))
  }

  /** The four things avl_post_delete can find at a parent whose left subtree has shrunk. */
  lemma ShrunkLeftCases<N>(p: N, r: Shape<N>, up: Ctx<N>, h: nat, t: Shape<N>)
    requires Balanced(t) && BalancedCtx(InLeft(p, r, up), h) && h == Height(t) + 1
    ensures var t', h' := Fork(t, p, r), 1 + Max(h, Height(r));
      && Balance(t') in [0, 1, 2] && BalancedCtx(up, h') && Balanced(r)
      && (Balance(t') == 0 ==> h' == Height(t') + 1 && Balanced(t') && Shrunk(InLeft(p, r, up), t) == Shrunk(up, t'))
      && (Balance(t') == 1 ==> h' == Height(t') && Shrunk(InLeft(p, r, up), t) == Plug(up, t'))
      && (Balance(t') == 2 ==> h' == Height(t') && r.Fork? && (Balance(r) >= 0 || r.left.Fork?))
      && (Balance(t') == 2 && Balance(r) == 0 ==> Shrunk(InLeft(p, r, up), t) == Plug(up, FixRightHeavy(t', true)))
      && (Balance(t') == 2 && Balance(r) != 0 ==>
            var t'' := FixRightHeavy(t', Balance(r) == 1);
            Balanced(t'') && BalancedCtx(up, Height(t'') + 1) && Shrunk(InLeft(p, r, up), t) == Shrunk(up, t''))
  {
    var t' := Fork(t, p, r);
    if Balance(t') == 2 { RightHeavyFixed(t', Balance(r) >= 0); }
  }

  /** The four things avl_post_delete can find at a parent whose right subtree has shrunk. */
  lemma ShrunkRightCases<N>(l: Shape<N>, p: N, up: Ctx<N>, h: nat, t: Shape<N>)
    requires Balanced(t) && BalancedCtx(InRight(l, p, up), h) && h == Height(t) + 1
    ensures var t', h' := Fork(l, p, t), 1 + Max(Height(l), h);
      && Balance(t') in [0, -1, -2] && BalancedCtx(up, h') && Balanced(l)
      && (Balance(t') == 0 ==> h' == Height(t') + 1 && Balanced(t') && Shrunk(InRight(l, p, up), t) == Shrunk(up, t'))
      && (Balance(t') == -1 ==> h' == Height(t') && Shrunk(InRight(l, p, up), t) == Plug(up, t'))
      && (Balance(t') == -2 ==> h' == Height(t') && l.Fork? && (Balance(l) <= 0 || l.right.Fork?))
      && (Balance(t') == -2 && Balance(l) == 0 ==> Shrunk(InRight(l, p, up), t) == Plug(up, FixLeftHeavy(t', true)))
      && (Balance(t') == -2 && Balance(l) != 0 ==>
            var t'' := FixLeftHeavy(t', Balance(l) == -1);
            Balanced(t'') && BalancedCtx(up, Height(t'') + 1) && Shrunk(InRight(l, p, up), t) == Shrunk(up, t''))
  {
    var t' := Fork(l, p, t);
    if Balance(t') == -2 { LeftHeavyFixed(t', Balance(l) <= 0); }
  }

  /** What avl_post_delete makes of a parent whose left subtree has shrunk, and whether it goes on above that. */
  lemma ShrunkLeft<N>(p: N, r: Shape<N>, up: Ctx<N>, t: Shape<N>) returns (u: Shape<N>, more: bool)
    requires Balanced(t) && BalancedCtx(InLeft(p, r, up), Height(t) + 1)
    ensures Balanced(u) && BalancedCtx(up, Height(u) + if more then 1 else 0) && Rearranged(Fork(t, p, r), u)
    ensures Shrunk(InLeft(p, r, up), t) == if more then Shrunk(up, u) else Plug(up, u)
  {
    hide Shrunk, FixRightHeavy, Plug, Rearranged, Height, BalancedCtx, Balanced;
    var t', single := Fork(t, p, r), Balance(r) >= 0;
    ShrunkLeftCases(p, r, up, Height(t) + 1, t);
    if Balance(t') != 2 {
      u, more := t', Balance(t') == 0;
      Same(t');
      ForkBalanced(t, p, r);
    } else {
      RightHeavyFixed(t', single);
      RightHeavyRearranged(t', single);
      u, more := FixRightHeavy(t', single), Balance(r) != 0;
    }
  }

  /** The same, where the right subtree has shrunk */
  lemma ShrunkRight<N>(l: Shape<N>, p: N, up: Ctx<N>, t: Shape<N>) returns (u: Shape<N>, more: bool)
    requires Balanced(t) && BalancedCtx(InRight(l, p, up), Height(t) + 1)
    ensures Balanced(u) && BalancedCtx(up, Height(u) + if more then 1 else 0) && Rearranged(Fork(l, p, t), u)
    ensures Shrunk(InRight(l, p, up), t) == if more then Shrunk(up, u) else Plug(up, u)
  {
    hide Shrunk, FixLeftHeavy, Plug, Rearranged, Height, BalancedCtx, Balanced;
    var t', single := Fork(l, p, t), Balance(l) <= 0;
    ShrunkRightCases(l, p, up, Height(t) + 1, t);
    if Balance(t') != -2 {
      u, more := t', Balance(t') == 0;
      Same(t');
      ForkBalanced(l, p, t);
    } else {
      LeftHeavyFixed(t', single);
      LeftHeavyRearranged(t', single);
      u, more := FixLeftHeavy(t', single), Balance(l) != 0;
    }
  }

  lemma ForkBalanced<N>(l: Shape<N>, n: N, r: Shape<N>)
    requires Balanced(l) && Balanced(r) && -1 <= Balance(Fork(l, n, r)) <= 1
    ensures Balanced(Fork(l, n, r))
  {
  }

  lemma Same<N>(t: Shape<N>)
    ensures Rearranged(t, t)
  {
  }

  /** The tree is balanced again, and its nodes are in the same order. */
  lemma {:induction false} ShrunkIsRight<N>(c: Ctx<N>, t: Shape<N>)
    requires Balanced(t) && BalancedCtx(c, Height(t) + 1)
    ensures Balanced(Shrunk(c, t)) && Rearranged(Plug(c, t), Shrunk(c, t))
    decreases c
  {
    if c.Top? {
      Same(t);
      return;
    }
    hide Balanced, BalancedCtx, Shrunk, Rearranged;
    var up, t' := c.up, if c.InLeft? then Fork(t, c.node, c.right) else Fork(c.left, c.node, t);
    var u, more;
    if c.InLeft? {
      u, more := ShrunkLeft(c.node, c.right, up, t);
    } else {
      u, more := ShrunkRight(c.left, c.node, up, t);
    }
    RearrangedPlug(up, t', u);
    PlugBalanced(up, u);
    if more {
      ShrunkIsRight(up, u);
      RearrangedOn(Plug(up, t'), Plug(up, u), Shrunk(up, u));
    }
  }

  lemma RearrangedOn<N>(t: Shape<N>, u: Shape<N>, v: Shape<N>)
    requires Rearranged(t, u) && Rearranged(u, v)
    ensures Rearranged(t, v)
  {
  }

  /** The path to the leftmost node of t, and that node's right subtree. */
  function MinCtx<N>(c: Ctx<N>, t: Shape<N>): (Ctx<N>, N, Shape<N>)
    requires t.Fork?
    decreases t
  {
    if t.left.Leaf? then (c, t.node, t.right) else MinCtx(InLeft(t.node, t.right, c), t.left)
  }

  lemma {:induction false} MinCtxPlugs<N>(c: Ctx<N>, t: Shape<N>)
    requires t.Fork?
    ensures var (c', n, r) := MinCtx(c, t);
      Plug(c', Fork(Leaf, n, r)) == Plug(c, t) && Before(c') == Before(c) && n in Nodes(t)
    ensures InOrder(t)[0] == MinCtx(c, t).1 && |InOrder(t)| > 0
    decreases t
  {
    if t.left.Fork? { MinCtxPlugs(InLeft(t.node, t.right, c), t.left); }
  }

  /** n' in the place of n. */
  function Renamed<N(==)>(t: Shape<N>, n: N, n': N): Shape<N> {
    match t
    case Leaf => Leaf
    case Fork(l, m, r) => Fork(Renamed(l, n, n'), if m == n then n' else m, Renamed(r, n, n'))
  }

  lemma {:induction false} RenamedSame<N>(t: Shape<N>, n: N, n': N)
    requires n !in Nodes(t)
    ensures Renamed(t, n, n') == t
  {
    if t.Fork? { RenamedSame(t.left, n, n'); RenamedSame(t.right, n, n'); }
  }

  lemma {:induction false} RenamedPlug<N>(c: Ctx<N>, t: Shape<N>, n: N, n': N)
    requires n !in CtxNodes(c)
    ensures Renamed(Plug(c, t), n, n') == Plug(c, Renamed(t, n, n'))
    decreases c
  {
    match c
    case Top =>
    case InLeft(p, r, up) => RenamedSame(r, n, n'); RenamedPlug(up, Fork(t, p, r), n, n');
    case InRight(l, p, up) => RenamedSame(l, n, n'); RenamedPlug(up, Fork(l, p, t), n, n');
  }

  lemma {:induction false} RenamedBalanced<N>(t: Shape<N>, n: N, n': N)
    ensures Height(Renamed(t, n, n')) == Height(t) && (Balanced(t) <==> Balanced(Renamed(t, n, n')))
  {
    if t.Fork? { RenamedBalanced(t.left, n, n'); RenamedBalanced(t.right, n, n'); }
  }

  lemma {:induction false} RenamedDistinct<N>(t: Shape<N>, n: N, n': N)
    requires Distinct(t) && n' !in Nodes(t)
    ensures Distinct(Renamed(t, n, n'))
    ensures Nodes(Renamed(t, n, n')) == if n in Nodes(t) then Nodes(t) - {n} + {n'} else Nodes(t)
  {
    if t.Fork? { RenamedDistinct(t.left, n, n'); RenamedDistinct(t.right, n, n'); }
  }

  function Swapped<T(==)>(s: seq<T>, a: T, b: T): seq<T> {
    seq(|s|, i requires 0 <= i < |s| => if s[i] == a then b else s[i])
  }

  lemma {:induction false} RenamedInOrder<N>(t: Shape<N>, n: N, n': N)
    ensures InOrder(Renamed(t, n, n')) == Swapped(InOrder(t), n, n')
  {
    if t.Fork? {
      RenamedInOrder(t.left, n, n');
      RenamedInOrder(t.right, n, n');
    }
  }

  lemma SwappedAt<T>(s: seq<T>, a: T, t: seq<T>, b: T)
    requires a !in s && a !in t
    ensures Swapped(s + [a] + t, a, b) == s + [b] + t
  {
  }

  /** The leftmost node of a tree in a hole, ready to be taken out. */
  lemma MinCtxFits<N>(c: Ctx<N>, t: Shape<N>)
    requires t.Fork? && Balanced(t) && BalancedCtx(c, Height(t))
    ensures var (c', min, mr) := MinCtx(c, t);
      && Plug(c', Fork(Leaf, min, mr)) == Plug(c, t) && min in Nodes(t)
      && Balanced(Fork(Leaf, min, mr)) && BalancedCtx(c', Height(Fork(Leaf, min, mr)))
  {
    var (c', min, mr) := MinCtx(c, t);
    MinCtxPlugs(c, t);
    PlugBalanced(c, t);
    PlugBalanced(c', Fork(Leaf, min, mr));
  }

  /** The tree after avl_delete_worker has taken out the node n between l and r. */
  function Removed<N(==)>(c: Ctx<N>, l: Shape<N>, n: N, r: Shape<N>): Shape<N>
    requires Balanced(Fork(l, n, r)) && BalancedCtx(c, Height(Fork(l, n, r)))
  {
    if l.Leaf? then Shrunk(c, r)
    else if r.Leaf? then Shrunk(c, l)
    else
      MinCtxFits(InRight(l, n, c), r);
      var (c', min, mr) := MinCtx(InRight(l, n, c), r);
      Renamed(Shrunk(c', mr), n, min)
  }

  /** A node between two subtrees goes by way of the least node on its right. */
  lemma RemovedTwo<N>(c: Ctx<N>, l: Shape<N>, n: N, r: Shape<N>)
    requires Balanced(Fork(l, n, r)) && BalancedCtx(c, Height(Fork(l, n, r))) && Distinct(Plug(c, Fork(l, n, r)))
    requires l.Fork? && r.Fork?
    ensures var (c', min, mr) := MinCtx(InRight(l, n, c), r);
      && Plug(c', Fork(Leaf, min, mr)) == Plug(c, Fork(l, n, r))
      && Balanced(Fork(Leaf, min, mr)) && BalancedCtx(c', Height(Fork(Leaf, min, mr)))
      && Balanced(mr) && BalancedCtx(c', Height(mr) + 1)
      && Removed(c', Leaf, min, mr) == Shrunk(c', mr) && Removed(c, l, n, r) == Renamed(Shrunk(c', mr), n, min)
      && Distinct(Shrunk(c', mr)) && n in Nodes(Shrunk(c', mr)) && min !in Nodes(Shrunk(c', mr))
      && min != n && min in Nodes(Plug(c, Fork(l, n, r)))
  {
    hide Plug, Distinct, Nodes, Shrunk, Renamed, MinCtx;
    PlugRight(c, l, n, r);
    MinCtxFits(InRight(l, n, c), r);
    var (c', min, mr) := MinCtx(InRight(l, n, c), r);
    TakenOut(c', Leaf, min, mr);
    InsideHole(c, l, n, r, min);
  }

  lemma PlugRight<N>(c: Ctx<N>, l: Shape<N>, n: N, r: Shape<N>)
    ensures Plug(InRight(l, n, c), r) == Plug(c, Fork(l, n, r))
  {
  }

  lemma ChildFits<N>(c: Ctx<N>, l: Shape<N>, n: N, r: Shape<N>)
    requires Balanced(Fork(l, n, r)) && BalancedCtx(c, Height(Fork(l, n, r))) && (l.Leaf? || r.Leaf?)
    ensures var t := if l.Leaf? then r else l; Balanced(t) && BalancedCtx(c, Height(t) + 1)
  {
  }

  lemma LargerChildFits<N>(c: Ctx<N>, l: Shape<N>, n: N, r: Shape<N>)
    requires Balanced(Fork(l, n, r)) && BalancedCtx(c, Height(Fork(l, n, r)))
    ensures Balanced(r) && BalancedCtx(InRight(l, n, c), Height(r))
  {
  }

  /** The tree stays balanced. */
  lemma RemovedIsBalanced<N>(c: Ctx<N>, l: Shape<N>, n: N, r: Shape<N>)
    requires Balanced(Fork(l, n, r)) && BalancedCtx(c, Height(Fork(l, n, r)))
    ensures Balanced(Removed(c, l, n, r))
  {
    hide Shrunk, Renamed, MinCtx, Rearranged, Plug, Height, Balanced, BalancedCtx;
    if l.Leaf? || r.Leaf? { ChildFits(c, l, n, r); }
    if l.Leaf? {
      ShrunkIsRight(c, r);
    } else if r.Leaf? {
      ShrunkIsRight(c, l);
    } else {
      LargerChildFits(c, l, n, r);
      MinCtxFits(InRight(l, n, c), r);
      var (c', min, mr) := MinCtx(InRight(l, n, c), r);
      ChildFits(c', Leaf, min, mr);
      ShrunkIsRight(c', mr);
      RenamedBalanced(Shrunk(c', mr), n, min);
    }
  }

  /** Taking out a node with at most one child. */
  lemma TakenOut<N>(c: Ctx<N>, l: Shape<N>, n: N, r: Shape<N>)
    requires Balanced(Fork(l, n, r)) && BalancedCtx(c, Height(Fork(l, n, r))) && Distinct(Plug(c, Fork(l, n, r)))
    requires l.Leaf? || r.Leaf?
    ensures var t := if l.Leaf? then r else l;
      Distinct(Shrunk(c, t)) && Nodes(Shrunk(c, t)) == Nodes(Plug(c, Fork(l, n, r))) - {n}
  {
    hide Plug, Shrunk, Balanced, BalancedCtx, Height;
    var t := if l.Leaf? then r else l;
    ChildFits(c, l, n, r);
    ShrunkIsRight(c, t);
    PlugNodes(c, Fork(l, n, r));     PlugNodes(c, t);
    PlugDistinct(c, Fork(l, n, r));  PlugDistinct(c, t);
  }

  /** Exactly n is gone. */
  lemma RemovedNodes<N>(c: Ctx<N>, l: Shape<N>, n: N, r: Shape<N>)
    requires Balanced(Fork(l, n, r)) && BalancedCtx(c, Height(Fork(l, n, r))) && Distinct(Plug(c, Fork(l, n, r)))
    ensures Distinct(Removed(c, l, n, r))
    ensures Nodes(Removed(c, l, n, r)) == Nodes(Plug(c, Fork(l, n, r))) - {n}
  {
    hide Plug, Nodes, Distinct, Balanced, BalancedCtx, Shrunk, MinCtx;
    if l.Leaf? || r.Leaf? {
      TakenOut(c, l, n, r);
    } else {
      RemovedTwo(c, l, n, r);
      var (c', min, mr) := MinCtx(InRight(l, n, c), r);
      TakenOut(c', Leaf, min, mr);
      RenamedDistinct(Shrunk(c', mr), n, min);
    }
  }

  lemma InsideHole<N>(c: Ctx<N>, l: Shape<N>, n: N, r: Shape<N>, m: N)
    requires m in Nodes(r) && Distinct(Plug(c, Fork(l, n, r)))
    ensures m != n && m in Nodes(Plug(c, Fork(l, n, r))) && n in Nodes(Plug(c, Fork(l, n, r)))
  {
    PlugDistinct(c, Fork(l, n, r));
    PlugNodes(c, Fork(l, n, r));
  }

  /** Deleting takes exactly n out of the in-order walk. */
  lemma RemovedOrder<N>(c: Ctx<N>, l: Shape<N>, n: N, r: Shape<N>)
    requires Balanced(Fork(l, n, r)) && BalancedCtx(c, Height(Fork(l, n, r))) && Distinct(Plug(c, Fork(l, n, r)))
    ensures InOrder(Removed(c, l, n, r)) == Before(c) + InOrder(l) + InOrder(r) + After(c)
  {
    hide Shrunk, Renamed, MinCtx, Plug, Distinct, Nodes;
    if l.Leaf? {
      ShrunkIsRight(c, r);
      PlugInOrder(c, r);
    } else if r.Leaf? {
      ShrunkIsRight(c, l);
      PlugInOrder(c, l);
    } else {
      RemovedInnerOrder(c, l, n, r);
    }
  }

  lemma RemovedInnerOrder<N>(c: Ctx<N>, l: Shape<N>, n: N, r: Shape<N>)
    requires Balanced(Fork(l, n, r)) && BalancedCtx(c, Height(Fork(l, n, r))) && Distinct(Plug(c, Fork(l, n, r)))
    requires l.Fork? && r.Fork?
    ensures InOrder(Removed(c, l, n, r)) == Before(c) + InOrder(l) + InOrder(r) + After(c)
  {
    hide Plug, Distinct, Nodes, Shrunk, Renamed, MinCtx, Removed, Balanced, BalancedCtx;
    RemovedTwo(c, l, n, r);
    RightFits(c, l, n, r);
    var (c', min, mr) := MinCtx(InRight(l, n, c), r);
    var t := Shrunk(c', mr);
    var s, after, rest := Before(c) + InOrder(l), InOrder(r) + After(c), InOrder(mr) + After(c');
    MinWalks(InRight(l, n, c), r);
    WalkWithoutMin(InRight(l, n, c), r);
    NotBeside(c, l, n, r);
    RenamedInOrder(t, n, min);
    MovedToGap(s, n, after, min, rest, InOrder(t));
    assert s + after == Before(c) + InOrder(l) + InOrder(r) + After(c);
  }

  lemma RightFits<N>(c: Ctx<N>, l: Shape<N>, n: N, r: Shape<N>)
    requires Balanced(Fork(l, n, r)) && BalancedCtx(c, Height(Fork(l, n, r)))
    ensures Balanced(r) && BalancedCtx(InRight(l, n, c), Height(r))
  {
  }

  /** The walk from the leftmost node of t on. */
  lemma {:induction false} MinWalks<N>(c: Ctx<N>, t: Shape<N>)
    requires t.Fork?
    ensures var (c', min, mr) := MinCtx(c, t);
      Before(c') == Before(c) && InOrder(t) + After(c) == [min] + (InOrder(mr) + After(c'))
    decreases t
  {
    if t.left.Fork? {
      MinWalks(InLeft(t.node, t.right, c), t.left);
      Regroup([], InOrder(t.left), [t.node], InOrder(t.right), After(c));
    } else {
      Regroup([], [], [t.node], InOrder(t.right), After(c));
    }
  }

  lemma WalkWithoutMin<N>(c: Ctx<N>, r: Shape<N>)
    requires r.Fork? && Balanced(r) && BalancedCtx(c, Height(r))
    ensures var (c', min, mr) := MinCtx(c, r);
      && Balanced(mr) && BalancedCtx(c', Height(mr) + 1)
      && InOrder(Shrunk(c', mr)) == Before(c) + (InOrder(mr) + After(c'))
  {
    MinCtxFits(c, r);
    var (c', min, mr) := MinCtx(c, r);
    MinWalks(c, r);
    ShrunkIsRight(c', mr);
    PlugInOrder(c', mr);
    Associates(Before(c), InOrder(mr), After(c'));
  }

  lemma Associates<T>(a: seq<T>, b: seq<T>, c: seq<T>)
    ensures a + b + c == a + (b + c)
  {
  }

  lemma NotBeside<N>(c: Ctx<N>, l: Shape<N>, n: N, r: Shape<N>)
    requires Distinct(Plug(c, Fork(l, n, r)))
    ensures n !in Before(c) + InOrder(l) && n !in InOrder(r) + After(c)
  {
    PlugDistinct(c, Fork(l, n, r));
    AroundDistinct(c);
    NodesInOrder(l);
    NodesInOrder(r);
  }

  lemma {:induction false} AroundDistinct<N>(c: Ctx<N>)
    ensures forall n :: n in CtxNodes(c) <==> n in Before(c) || n in After(c)
    decreases c
  {
    match c
    case Top =>
    case InLeft(p, r, up) => AroundDistinct(up); NodesInOrder(r);
    case InRight(l, p, up) => AroundDistinct(up); NodesInOrder(l);
  }

  lemma MovedToGap<T>(s: seq<T>, n: T, after: seq<T>, min: T, rest: seq<T>, without: seq<T>)
    requires n !in s && n !in after && after == [min] + rest
    requires without == s + [n] + rest
    ensures Swapped(without, n, min) == s + after
  {
    assert n !in rest by { assert forall x :: x in rest ==> x in after; }
    SwappedAt(s, n, rest, min);
  }

  /** The tree after the new node m has been hung below n, on the side where n has no child. */
  function Hung<N>(c: Ctx<N>, l: Shape<N>, n: N, r: Shape<N>, m: N, left: bool): Shape<N>
    requires if left then l.Leaf? else r.Leaf?
    requires Balanced(Plug(c, Fork(l, n, r)))
  {
    var leaf := Fork(Leaf, m, Leaf);
    var t := if left then Fork(leaf, n, r) else Fork(l, n, leaf);
    PlugBalanced(c, Fork(l, n, r));
    if Balance(t) == 0 then Plug(c, t) else Grown(c, t)
  }

  lemma HungIsBalanced<N>(c: Ctx<N>, l: Shape<N>, n: N, r: Shape<N>, m: N, left: bool)
    requires if left then l.Leaf? else r.Leaf?
    requires Balanced(Plug(c, Fork(l, n, r)))
    ensures Balanced(Hung(c, l, n, r, m, left))
    ensures var leaf := Fork(Leaf, m, Leaf);
      Rearranged(Plug(c, if left then Fork(leaf, n, r) else Fork(l, n, leaf)), Hung(c, l, n, r, m, left))
  {
    var leaf := Fork(Leaf, m, Leaf);
    var t := if left then Fork(leaf, n, r) else Fork(l, n, leaf);
    PlugBalanced(c, Fork(l, n, r));
    if Balance(t) == 0 {
      PlugBalanced(c, t);
    } else {
      GrownIsBalanced(c, t);
      GrownIsRearranged(c, t);
    }
  }

  lemma HungIsDistinct<N>(c: Ctx<N>, l: Shape<N>, n: N, r: Shape<N>, m: N, left: bool)
    requires if left then l.Leaf? else r.Leaf?
    requires Balanced(Plug(c, Fork(l, n, r))) && Distinct(Plug(c, Fork(l, n, r)))
    requires m !in Nodes(Plug(c, Fork(l, n, r)))
    ensures Distinct(Hung(c, l, n, r, m, left))
  {
    hide Hung, Balanced;
    HungIsBalanced(c, l, n, r, m, left);
    var leaf := Fork(Leaf, m, Leaf);
    var t := if left then Fork(leaf, n, r) else Fork(l, n, leaf);
    PlugNodes(c, Fork(l, n, r));
    PlugDistinct(c, Fork(l, n, r));
    forall x ensures x in Nodes(t) <==> x in Nodes(Fork(l, n, r)) || x == m { }
    assert Distinct(t);
    PlugDistinct(c, t);
  }
}
