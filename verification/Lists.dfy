/** Lists of distinct elements: what a linked list holds. */
module Lists {
  predicate Distinct<T(==)>(q: seq<T>) {
    forall i, j :: 0 <= i < j < |q| ==> q[i] != q[j]
  }

  /** What is left of a list when some elements are taken out */
  function Minus<T(==, !new)>(q: seq<T>, gone: set<T>): (r: seq<T>)
    ensures forall x :: x in r <==> x in q && x !in gone
    ensures |r| <= |q|
  {
    if q == [] then [] else (if q[0] in gone then [] else [q[0]]) + Minus(q[1..], gone)
  }

  lemma {:induction false} MinusDistinct<T(!new)>(q: seq<T>, gone: set<T>)
    requires Distinct(q)
    ensures Distinct(Minus(q, gone))
  {
    if q != [] {
      MinusDistinct(q[1..], gone);
      assert q[0] !in q[1..];
    }
  }

  lemma {:induction false} MinusTwice<T(!new)>(q: seq<T>, a: set<T>, b: set<T>)
    ensures Minus(Minus(q, a), b) == Minus(q, a + b)
  {
    if q != [] {
      var rest := Minus(q[1..], a);
      MinusTwice(q[1..], a, b);
      if q[0] in a {
        assert Minus(q, a) == rest;
      } else {
        assert Minus(q, a) == [q[0]] + rest && ([q[0]] + rest)[1..] == rest;
      }
    }
  }

  lemma {:induction false} MinusNone<T(!new)>(q: seq<T>, gone: set<T>)
    requires forall x :: x in q ==> x !in gone
    ensures Minus(q, gone) == q
  {
    if q != [] { MinusNone(q[1..], gone); }
  }

  lemma {:induction false} MinusAll<T(!new)>(q: seq<T>, gone: set<T>)
    requires forall x :: x in q ==> x in gone
    ensures Minus(q, gone) == []
  {
    if q != [] { MinusAll(q[1..], gone); }
  }

  function Elements<T(!new)>(q: seq<T>): (r: set<T>)
    ensures forall x :: x in r <==> x in q
  {
    set x | x in q
  }

  /** Taking out a prefix of a list leaves the rest. */
  lemma {:induction false} MinusPrefix<T(!new)>(q: seq<T>, i: nat)
    requires Distinct(q) && i <= |q|
    ensures Minus(q, Elements(q[..i])) == q[i..]
  {
    if i == 0 {
      MinusNone(q, Elements(q[..0]));
    } else {
      var x := q[i-1];
      MinusPrefix(q, i - 1);
      assert q[i-1..] == [x] + q[i..] && x !in q[i..];
      MinusNone(q[i..], {x});
      MinusTwice(q, Elements(q[..i-1]), {x});
      assert Elements(q[..i]) == Elements(q[..i-1]) + {x};
    }
  }
}
