/** json-c/linkhash.c: a hash table with open addressing whose entries are also linked in the order they came, as the
    objects of json-c use it. Pointers to entries are indices, -1 being NULL. */
module LinkHash {
  import opened JsonValue

  /** LH_EMPTY, LH_FREED, or a key */
  datatype Slot = Empty | Freed | Key(key: string)

  /** lh_entry */
  datatype Entry = Entry(k: Slot, v: Json, next: int, prev: int)

  type Hash = string -> nat

  function Home(hash: Hash, key: string, size: nat): (n: nat)
    requires size > 0
    ensures n < size
  {
    hash(key) % size
  }

  /** The slot d steps behind another, going round at the end of the table */
  function Probe(home: nat, d: nat, size: nat): (n: nat)
    requires home < size && d < size
    ensures n < size
  {
    if home + d < size then home + d else home + d - size
  }

  /** How many steps it takes to get from one slot to another */
  function Steps(home: nat, n: nat, size: nat): (d: nat)
    requires home < size && n < size
    ensures d < size && Probe(home, d, size) == n
  {
    if n >= home then n - home else n + size - home
  }

  /** No slot on the way from the home of a key to the key is empty. */
  ghost predicate Reachable(s: seq<Entry>, hash: Hash) {
    |s| > 0 && forall n :: 0 <= n < |s| && s[n].k.Key? ==> PathOpen(s, Home(hash, s[n].k.key, |s|), n)
  }

  ghost predicate PathOpen(s: seq<Entry>, home: nat, n: nat)
    requires home < |s| && n < |s|
  {
    forall d :: 0 <= d < Steps(home, n, |s|) ==> s[Probe(home, d, |s|)].k != Empty
  }

  ghost predicate KeysDiffer(s: seq<Entry>) {
    forall m, n :: 0 <= m < n < |s| && s[m].k.Key? && s[n].k.Key? ==> s[m].k.key != s[n].k.key
  }

  /** order lists the entries with a key. */
  ghost predicate Lists(s: seq<Entry>, order: seq<nat>) {
    && (forall i :: 0 <= i < |order| ==> order[i] < |s| && s[order[i]].k.Key?)
    && (forall i, j :: 0 <= i < j < |order| ==> order[i] != order[j])
    && (forall n :: 0 <= n < |s| && s[n].k.Key? ==> n in order)
  }

  /** The links join the entries in that order. */
  ghost predicate Links(s: seq<Entry>, order: seq<nat>) {
    && (forall i :: 0 <= i < |order| ==> order[i] < |s|)
    && (forall i :: 0 <= i < |order| ==> s[order[i]].next == Nth(order, i + 1))
    && (forall i :: 0 <= i < |order| ==> s[order[i]].prev == Nth(order, i - 1))
  }

  ghost function Nth(order: seq<nat>, i: int): int {
    if 0 <= i < |order| then order[i] else -1
  }

  ghost predicate Ends(order: seq<nat>, head: int, tail: int) {
    if order == [] then head == tail == -1 else head == order[0] && tail == order[|order|-1]
  }

  ghost predicate Linked(s: seq<Entry>, order: seq<nat>, head: int, tail: int) {
    Lists(s, order) && Links(s, order) && Ends(order, head, tail)
  }

  /** The keys and values, in that order */
  ghost function Fields(s: seq<Entry>, order: seq<nat>): (r: seq<Field>)
    requires forall i :: 0 <= i < |order| ==> order[i] < |s| && s[order[i]].k.Key?
    ensures |r| == |order|
  {
    seq(|order|, i requires 0 <= i < |order| => Field(s[order[i]].k.key, s[order[i]].v))
  }

  /** A table that holds less than it has slots has room. */
  lemma {:induction false} SomeSlotFree(order: seq<nat>, size: nat) returns (n: nat)
    requires |order| < size && forall i, j :: 0 <= i < j < |order| ==> order[i] != order[j]
    ensures n < size && n !in order
    decreases size
  {
    if size - 1 !in order {
      n := size - 1;
    } else {
      var k :| 0 <= k < |order| && order[k] == size - 1;
      var rest := order[..k] + order[k+1..];
      n := SomeSlotFree(rest, size - 1);
      forall i | 0 <= i < |order| ensures order[i] != n {
        if i != k { assert rest[if i < k then i else i - 1] == order[i]; }
      }
    }
  }

  /** The key is d steps from its home, and no slot before it is empty. */
  ghost predicate FoundAt(s: seq<Entry>, home: nat, key: string, d: nat)
    requires home < |s|
  {
    && d < |s| && s[Probe(home, d, |s|)].k == Key(key)
    && forall e :: 0 <= e < d ==> s[Probe(home, e, |s|)].k != Empty
  }

  /** A key with an open path is found. */
  lemma PathToKey(s: seq<Entry>, hash: Hash, key: string, n: nat)
    requires Reachable(s, hash) && n < |s| && s[n].k == Key(key)
    ensures FoundAt(s, Home(hash, key, |s|), key, Steps(Home(hash, key, |s|), n, |s|))
  {
    assert PathOpen(s, Home(hash, key, |s|), n);
  }

  /** Different numbers below a bound are no more than the bound says. */
  lemma {:induction false} DistinctFit(order: seq<nat>, size: nat)
    requires forall i, j :: 0 <= i < j < |order| ==> order[i] != order[j]
    requires forall i :: 0 <= i < |order| ==> order[i] < size
    ensures |order| <= size
  {
    if order != [] {
      assert 0 <= order[0] < size;
      if k: nat :| k < |order| && order[k] == size - 1 {
        DistinctFit(order[..k] + order[k+1..], size - 1);
      } else {
        DistinctFit(order, size - 1);
      }
    }
  }

  lemma SomeBeyond(order: seq<nat>, size: nat) returns (i: nat)
    requires |order| > size && forall i, j :: 0 <= i < j < |order| ==> order[i] != order[j]
    ensures i < |order| && order[i] >= size
  {
    if forall k :: 0 <= k < |order| ==> order[k] < size {
      DistinctFit(order, size);
    }
    i :| i < |order| && order[i] >= size;
  }

  lemma NotBefore(s: seq<Entry>, home: nat, key: string)
    requires home < |s| && forall n :: 0 <= n < |s| ==> s[n].k != Key(key)
    ensures forall d: nat :: !FoundAt(s, home, key, d)
  {
  }

  /** Taking a free slot, or freeing one, opens no path and closes none. */
  lemma ReachableStays(s: seq<Entry>, s': seq<Entry>, hash: Hash, n: nat)
    requires Reachable(s, hash) && |s'| == |s| && n < |s| && s'[n].k != Empty
    requires forall m :: 0 <= m < |s| && m != n ==> s'[m].k == s[m].k
    requires s'[n].k.Key? ==> PathOpen(s, Home(hash, s'[n].k.key, |s|), n)
    ensures Reachable(s', hash)
  {
    forall m | 0 <= m < |s'| && s'[m].k.Key? ensures PathOpen(s', Home(hash, s'[m].k.key, |s|), m) {
      assert PathOpen(s, Home(hash, s'[m].k.key, |s|), m);
    }
  }

  /** The entry e goes into the free slot n, at the end of the list. */
  ghost function Appended(s: seq<Entry>, n: nat, key: string, v: Json, tail: int): seq<Entry>
    requires n < |s| && -1 <= tail < |s|
  {
    var s := s[n := Entry(Key(key), v, -1, tail)];
    if tail == -1 then s else s[tail := s[tail].(next := n)]
  }

  lemma AppendedLinks(s: seq<Entry>, order: seq<nat>, head: int, tail: int, n: nat, key: string, v: Json)
    requires Linked(s, order, head, tail) && n < |s| && !s[n].k.Key?
    ensures -1 <= tail < |s| && Links(Appended(s, n, key, v, tail), order + [n])
    ensures Ends(order + [n], if head == -1 then n else head, n)
  {
    var s', order' := Appended(s, n, key, v, tail), order + [n];
    forall i | 0 <= i < |order'| ensures order'[i] < |s'| && s'[order'[i]].next == Nth(order', i + 1)
      && s'[order'[i]].prev == Nth(order', i - 1) {
      if i < |order| {
        Neighbours(s, order, i);
        assert order[i] != n;
        if i < |order| - 1 { assert order[i] != order[|order| - 1]; }
      }
    }
  }

  lemma AppendedKeys(s: seq<Entry>, order: seq<nat>, head: int, tail: int, n: nat, key: string, v: Json)
    requires Linked(s, order, head, tail) && n < |s| && !s[n].k.Key?
    ensures -1 <= tail < |s| && tail != n
    ensures var s' := Appended(s, n, key, v, tail);
      && |s'| == |s| && s'[n].k == Key(key) && s'[n].v == v
      && forall m :: 0 <= m < |s| && m != n ==> s'[m].k == s[m].k && s'[m].v == s[m].v
  {
  }

  lemma AppendedFields(s: seq<Entry>, order: seq<nat>, head: int, tail: int, n: nat, key: string, v: Json)
    requires Linked(s, order, head, tail) && n < |s| && !s[n].k.Key?
    ensures -1 <= tail < |s| && Lists(Appended(s, n, key, v, tail), order + [n])
    ensures Fields(Appended(s, n, key, v, tail), order + [n]) == Fields(s, order) + [Field(key, v)]
  {
    hide Appended, Links, Nth;
    AppendedKeys(s, order, head, tail, n, key, v);
    FieldsAppended(s, Appended(s, n, key, v, tail), order, n, key, v);
  }

  lemma FieldsAppended(s: seq<Entry>, s': seq<Entry>, order: seq<nat>, n: nat, key: string, v: Json)
    requires Lists(s, order) && n < |s| && !s[n].k.Key? && |s'| == |s| && s'[n].k == Key(key) && s'[n].v == v
    requires forall m :: 0 <= m < |s| && m != n ==> s'[m].k == s[m].k && s'[m].v == s[m].v
    ensures Lists(s', order + [n]) && Fields(s', order + [n]) == Fields(s, order) + [Field(key, v)]
  {
    assert forall i :: 0 <= i < |order| ==>
      order[i] != n && s'[order[i]].k == s[order[i]].k && s'[order[i]].v == s[order[i]].v;
    forall m | 0 <= m < |s'| && s'[m].k.Key? ensures m in order + [n] {
      if m != n { assert m in order; }
    }
    assert (order + [n])[|order|] == n;
  }

  /** The entry n, freed, and the links of its neighbours put together */
  ghost function Unlinked(s: seq<Entry>, n: nat): seq<Entry>
    requires n < |s| && -1 <= s[n].prev < |s| && -1 <= s[n].next < |s|
  {
    var p, q := s[n].prev, s[n].next;
    var s := if p == -1 then s else s[p := s[p].(next := q)];
    var s := if q == -1 then s else s[q := s[q].(prev := p)];
    s[n := Entry(Freed, Null, -1, -1)]
  }

  ghost function Without(order: seq<nat>, k: nat): (r: seq<nat>)
    requires k < |order|
    ensures |r| == |order| - 1 && forall i :: 0 <= i < |r| ==> r[i] == order[if i < k then i else i + 1]
  {
    order[..k] + order[k+1..]
  }

  /** The neighbours of the k-th entry */
  lemma Neighbours(s: seq<Entry>, order: seq<nat>, k: nat)
    requires Lists(s, order) && Links(s, order) && k < |order|
    ensures order[k] < |s| && -1 <= s[order[k]].prev < |s| && -1 <= s[order[k]].next < |s|
    ensures s[order[k]].prev == Nth(order, k - 1) && s[order[k]].next == Nth(order, k + 1)
    ensures s[order[k]].prev != order[k] && s[order[k]].next != order[k]
  {
  }

  lemma EndsAt(s: seq<Entry>, order: seq<nat>, head: int, tail: int, k: nat)
    requires Linked(s, order, head, tail) && k < |order|
    ensures (head == order[k] <==> k == 0) && (tail == order[k] <==> k == |order| - 1)
    ensures (Nth(order, k - 1) == -1 <==> k == 0) && (Nth(order, k + 1) == -1 <==> k == |order| - 1)
  {
  }

  /** Taking an entry out leaves the keys and values of the others. */
  lemma UnlinkedOthers(s: seq<Entry>, n: nat)
    requires n < |s| && -1 <= s[n].prev < |s| && -1 <= s[n].next < |s|
    ensures var s' := Unlinked(s, n);
      && |s'| == |s| && s'[n].k == Freed
      && (forall m :: 0 <= m < |s| && m != n ==> s'[m].k == s[m].k && s'[m].v == s[m].v)
  {
  }

  lemma UnlinkedKeys(s: seq<Entry>, order: seq<nat>, k: nat)
    requires Lists(s, order) && Links(s, order) && k < |order|
    ensures var n := order[k]; n < |s| && -1 <= s[n].prev < |s| && -1 <= s[n].next < |s|
    ensures var n := order[k]; var s' := Unlinked(s, n);
      && |s'| == |s| && s'[n].k == Freed
      && (forall m :: 0 <= m < |s| && m != n ==> s'[m].k == s[m].k && s'[m].v == s[m].v)
  {
    hide Unlinked, Lists, Links, Nth;
    Neighbours(s, order, k);
    UnlinkedOthers(s, order[k]);
  }

  /** What the links of an entry become */
  lemma UnlinkedAt(s: seq<Entry>, n: nat, m: nat)
    requires n < |s| && m < |s| && m != n && -1 <= s[n].prev < |s| && -1 <= s[n].next < |s|
    ensures Unlinked(s, n)[m].next == if m == s[n].prev then s[n].next else s[m].next
    ensures Unlinked(s, n)[m].prev == if m == s[n].next then s[n].prev else s[m].prev
  {
  }

  ghost predicate Distinct(order: seq<nat>) {
    forall i, j :: 0 <= i < j < |order| ==> order[i] != order[j]
  }

  lemma NthWithout(order: seq<nat>, k: nat, i: int)
    requires k < |order| && -1 <= i <= |order| - 1
    ensures Nth(Without(order, k), i) == Nth(order, if i < k then i else i + 1)
  {
  }

  lemma NthIs(order: seq<nat>, i: int, j: nat)
    requires Distinct(order) && j < |order|
    ensures Nth(order, i) == order[j] <==> i == j
  {
  }

  lemma UnlinkedEnds(s: seq<Entry>, order: seq<nat>, head: int, tail: int, k: nat)
    requires Linked(s, order, head, tail) && k < |order|
    ensures order[k] < |s|
    ensures Ends(Without(order, k), if k == 0 then s[order[k]].next else head,
        if k == |order| - 1 then s[order[k]].prev else tail)
  {
    Neighbours(s, order, k);
  }

  lemma UnlinkedLinks(s: seq<Entry>, order: seq<nat>, k: nat)
    requires Lists(s, order) && Links(s, order) && k < |order|
    ensures var n := order[k]; n < |s| && -1 <= s[n].prev < |s| && -1 <= s[n].next < |s|
    ensures Links(Unlinked(s, order[k]), Without(order, k))
  {
    hide Unlinked, Lists, Nth;
    Neighbours(s, order, k);
    UnlinkedKeys(s, order, k);
    var rest := Without(order, k);
    forall i | 0 <= i < |rest|
      ensures rest[i] < |s| && Unlinked(s, order[k])[rest[i]].next == Nth(rest, i + 1)
        && Unlinked(s, order[k])[rest[i]].prev == Nth(rest, i - 1)
    {
      UnlinkedLink(s, order, k, i);
    }
  }

  lemma ListIsDistinct(s: seq<Entry>, order: seq<nat>)
    requires Lists(s, order)
    ensures Distinct(order)
  {
  }

  lemma UnlinkedLink(s: seq<Entry>, order: seq<nat>, k: nat, i: nat)
    requires Lists(s, order) && Links(s, order) && k < |order| && i < |order| - 1
    ensures var n := order[k]; n < |s| && -1 <= s[n].prev < |s| && -1 <= s[n].next < |s|
    ensures var rest, s' := Without(order, k), Unlinked(s, order[k]);
      rest[i] < |s'| == |s| && s'[rest[i]].next == Nth(rest, i + 1) && s'[rest[i]].prev == Nth(rest, i - 1)
  {
    hide Unlinked, Lists, Links, Nth, Distinct;
    var j := if i < k then i else i + 1;
    ListIsDistinct(s, order);
    Neighbours(s, order, k);
    UnlinkedKeys(s, order, k);
    NthIs(order, k, j);
    NthIs(order, k - 1, j);
    NthIs(order, k + 1, j);
    NthWithout(order, k, i + 1);
    NthWithout(order, k, i - 1);
    Neighbours(s, order, j);
    NthAt(order, k);
    UnlinkedAt(s, order[k], order[j]);
  }

  lemma NthAt(order: seq<nat>, k: nat)
    requires k < |order|
    ensures Nth(order, k) == order[k]
  {
  }

  lemma UnlinkedFields(s: seq<Entry>, order: seq<nat>, k: nat)
    requires Lists(s, order) && Links(s, order) && k < |order|
    ensures var n := order[k]; n < |s| && -1 <= s[n].prev < |s| && -1 <= s[n].next < |s|
    ensures Lists(Unlinked(s, order[k]), Without(order, k))
    ensures Fields(Unlinked(s, order[k]), Without(order, k)) == Fields(s, order)[..k] + Fields(s, order)[k+1..]
  {
    hide Unlinked, Links, Nth;
    UnlinkedKeys(s, order, k);
    var n, s' := order[k], Unlinked(s, order[k]);
    var rest := Without(order, k);
    forall i | 0 <= i < |rest| ensures rest[i] < |s'| && s'[rest[i]].k == s[rest[i]].k
      && s'[rest[i]].v == s[rest[i]].v {
      assert rest[i] == order[if i < k then i else i + 1] != n;
    }
    forall m | 0 <= m < |s'| && s'[m].k.Key? ensures m in rest {
      assert m != n && m in order;
      var i :| 0 <= i < |order| && order[i] == m;
      assert rest[if i < k then i else i - 1] == m;
    }
    FieldsWithout(s, s', order, k);
  }

  lemma FieldsWithout(s: seq<Entry>, s': seq<Entry>, order: seq<nat>, k: nat)
    requires forall i :: 0 <= i < |order| ==> order[i] < |s| && s[order[i]].k.Key?
    requires |s'| == |s| && k < |order|
    requires forall i :: 0 <= i < |order| && i != k ==>
      s'[order[i]].k == s[order[i]].k && s'[order[i]].v == s[order[i]].v
    ensures var rest := Without(order, k); forall i :: 0 <= i < |rest| ==> rest[i] < |s'| && s'[rest[i]].k.Key?
    ensures Fields(s', Without(order, k)) == Fields(s, order)[..k] + Fields(s, order)[k+1..]
  {
    var rest := Without(order, k);
    var f, f' := Fields(s, order), Fields(s', rest);
    forall i | 0 <= i < |rest| ensures f'[i] == (f[..k] + f[k+1..])[i] {
      assert rest[i] == order[if i < k then i else i + 1];
    }
  }

  /** The keys of the fields are the keys in the table. */
  lemma FieldKeys(s: seq<Entry>, order: seq<nat>, key: string)
    requires Lists(s, order)
    ensures (exists f :: f in Fields(s, order) && f.key == key) <==> exists n :: 0 <= n < |s| && s[n].k == Key(key)
  {
    var fs := Fields(s, order);
    if n :| 0 <= n < |s| && s[n].k == Key(key) {
      var i :| 0 <= i < |order| && order[i] == n;
      assert fs[i].key == key;
    }
    if f :| f in fs && f.key == key {
      var i :| 0 <= i < |fs| && fs[i] == f;
      assert s[order[i]].k == Key(key);
    }
  }

  /** All that taking out the k-th entry does */
  lemma Leaving(s: seq<Entry>, order: seq<nat>, head: int, tail: int, k: nat)
    requires Linked(s, order, head, tail) && k < |order|
    ensures var n := order[k];
      n < |s| && -1 <= s[n].prev < |s| && -1 <= s[n].next < |s| && s[n].prev != n && s[n].next != n
    ensures var n := order[k];
      && (head == n <==> k == 0) && (tail == n <==> k == |order| - 1)
      && (s[n].prev == -1 <==> k == 0) && (s[n].next == -1 <==> k == |order| - 1)
    ensures var n, s' := order[k], Unlinked(s, order[k]);
      && |s'| == |s| && s'[n].k == Freed && (forall m :: 0 <= m < |s| && m != n ==> s'[m].k == s[m].k)
    ensures Linked(Unlinked(s, order[k]), Without(order, k),
      if k == 0 then s[order[k]].next else head, if k == |order| - 1 then s[order[k]].prev else tail)
    ensures Fields(Unlinked(s, order[k]), Without(order, k)) == Fields(s, order)[..k] + Fields(s, order)[k+1..]
  {
    hide Lists, Links, Ends, Unlinked, Without, Nth, Fields;
    Neighbours(s, order, k);
    EndsAt(s, order, head, tail, k);
    UnlinkedKeys(s, order, k);
    UnlinkedLinks(s, order, k);
    UnlinkedFields(s, order, k);
    UnlinkedEnds(s, order, head, tail, k);
  }

  lemma RoomLeft(s: seq<Entry>, order: seq<nat>) returns (n: nat)
    requires Lists(s, order) && |order| < |s|
    ensures n < |s| && !s[n].k.Key?
  {
    n := SomeSlotFree(order, |s|);
  }

  lemma PathTaken(s: seq<Entry>, home: nat, d: nat)
    requires home < |s| && d < |s| && forall e :: 0 <= e < d ==> s[Probe(home, e, |s|)].k.Key?
    ensures PathOpen(s, home, Probe(home, d, |s|))
  {
    assert Steps(home, Probe(home, d, |s|), |s|) == d;
  }

  /** lh_table, with keys that are strings */
  class LhTable {
    const hash: Hash
    var size: nat
    var count: nat
    var head: int
    var tail: int
    var table: array<Entry>
    ghost var order: seq<nat>

    /** The list is in order; size may be less than the table is long. */
    ghost predicate Listed()
      reads this, table
    {
      && table.Length >= size > 0 && count == |order|
      && Linked(table[..], order, head, tail) && KeysDiffer(table[..])
    }

    ghost predicate Valid()
      reads this, table
    {
      && Listed() && table.Length == size && Reachable(table[..], hash)
      && (count > 0 ==> 100 * (count - 1) < 66 * size)
    }

    /** What the table stands for: the keys and values in the order of the list */
    ghost function Contents(): seq<Field>
      requires Listed()
      reads this, table
    {
      Fields(table[..], order)
    }

    ghost predicate Has(key: string)
      requires Listed()
      reads this, table
    {
      exists f :: f in Contents() && f.key == key
    }

    /** Going through the slots below size from the home of the key leads to the key before any empty slot. */
    ghost predicate Found(key: string)
      requires 0 < size <= table.Length
      reads this, table
    {
      exists d: nat :: FoundAt(table[..size], Home(hash, key, size), key, d)
    }

    /** lh_table_new */
    constructor (size: nat, hash: Hash)
      requires size > 0
      ensures Valid() && fresh(table) && Contents() == [] && this.hash == hash && this.size == size
    {
      this.size, this.hash := size, hash;
      count, head, tail, order := 0, -1, -1, [];
      table := new Entry[size](_ => Entry(Empty, Null, -1, -1));
    }

    /** The probe loop of lh_table_insert ends, thanks to the load factor, at the first slot that is free. */
    method FreeSlot(key: string) returns (n: nat)
      requires Valid() && count < size
      ensures n < size && !table[n].k.Key? && PathOpen(table[..], Home(hash, key, size), n)
    {
      hide Lists, Links, Ends, KeysDiffer, Reachable, PathOpen;
      ghost var s, home := table[..], Home(hash, key, size);
      ghost var free := RoomLeft(s, order);
      n := hash(key) % size;
      ghost var d := 0;
      while table[n].k.Key?
        invariant d <= Steps(home, free, size) && n == Probe(home, d, size) && table[..] == s
        invariant forall e :: 0 <= e < d ==> s[Probe(home, e, size)].k.Key?
        decreases size - d
      {
        assert s[n].k.Key?;
        n := n + 1;
        if n == size {
          n := 0;
        }
        d := d + 1;
      }
      PathTaken(s, home, d);
    }

    /** The rest of lh_table_insert */
    method Place(n: nat, key: string, v: Json)
      requires Valid() && n < size && !table[n].k.Key? && !Has(key) && 100 * count < 66 * size
      requires PathOpen(table[..], Home(hash, key, size), n)
      modifies this`count, this`head, this`tail, this`order, table
      ensures Valid() && Contents() == old(Contents()) + [Field(key, v)]
    {
      hide Lists, Links, Ends, Fields, KeysDiffer, Reachable, PathOpen, Appended;
      ghost var s := table[..];
      Arriving(n, key, v);
      table[n] := table[n].(k := Key(key), v := v);
      count := count + 1;
      Append(n, key, v, s);
      ReachableStays(s, table[..], hash, n);
      order := order + [n];
    }

    lemma Arriving(n: nat, key: string, v: Json)
      requires Valid() && n < size && !table[n].k.Key? && !Has(key)
      ensures -1 <= tail < size && tail != n && (head == -1 <==> tail == -1)
      ensures var s' := Appended(table[..], n, key, v, tail);
        && |s'| == size && s'[n].k == Key(key)
        && (forall m :: 0 <= m < size && m != n ==> s'[m].k == table[m].k)
        && Linked(s', order + [n], if head == -1 then n else head, n)
        && KeysDiffer(s') && Fields(s', order + [n]) == Contents() + [Field(key, v)]
    {
      ghost var s := table[..];
      AppendedLinks(s, order, head, tail, n, key, v);
      AppendedFields(s, order, head, tail, n, key, v);
      AppendedKeys(s, order, head, tail, n, key, v);
      FieldKeys(s, order, key);
      hide Appended, Lists, Links, Fields, Reachable, Nth;
    }

    /** How lh_table_insert puts an entry at the end of the list */
    method Append(n: nat, key: string, v: Json, ghost s: seq<Entry>)
      requires n < |s| && s[n := s[n].(k := Key(key), v := v)] == table[..]
      requires -1 <= tail < table.Length && tail != n && (head == -1 <==> tail == -1)
      modifies this`head, this`tail, table
      ensures table[..] == Appended(s, n, key, v, old(tail)) && tail == n
        && head == if old(head) == -1 then n else old(head)
    {
      if head == -1 {
        head, tail := n, n;
        table[n] := table[n].(next := -1, prev := -1);
      } else {
        table[tail] := table[tail].(next := n);
        table[n] := table[n].(prev := tail, next := -1);
        tail := n;
      }
    }

    /** Whether all entries fit into a table of that size before it grows */
    predicate TakesAll(newSize: nat)
      reads this
    {
      count == 0 || 100 * (count - 1) < 66 * newSize
    }

    /** lh_table_insert, of a key that is not there */
    method Insert(key: string, v: Json)
      requires Valid() && !Has(key)
      modifies this, table
      ensures Valid() && Contents() == old(Contents()) + [Field(key, v)]
      ensures table == old(table) || fresh(table)
      ensures size == if 100 * old(count) >= 66 * old(size) then 2 * old(size) else old(size)
      decreases if 100 * count >= 66 * size then 2 else 0
    {
      if 100 * count >= 66 * size {
        Resize(size * 2);
      }
      HasRoom();
      var n := FreeSlot(key);
      Place(n, key, v);
    }

    lemma HasRoom()
      requires Valid() && 100 * count < 66 * size
      ensures count < size
    {
    }

    /** lh_table_resize: if the new table grows while it is filled, size is not the size of the table any more. */
    method Resize(newSize: nat)
      requires Valid() && newSize > 0
      modifies this
      ensures fresh(table) && size == newSize && count == old(count)
      ensures Listed() && Contents() == old(Contents())
      ensures Valid() <==> old(TakesAll(newSize))
      ensures table.Length == size <==> old(TakesAll(newSize))
      decreases if TakesAll(newSize) then 1 else 3
    {
      hide Lists, Links, Ends, KeysDiffer, Reachable, Fields, PathOpen, Nth;
      var newT := new LhTable(newSize, hash);
      FirstEntry();
      var ent := head;
      ghost var i := 0;
      while ent != -1
        invariant unchanged(this) && unchanged(table) && Valid() && i <= |order| && ent == Nth(order, i)
        invariant newT.Valid() && newT.Contents() == Contents()[..i] && newT.count == i && newT.hash == hash
        invariant newT.size >= newSize && (newT.size == newSize <==> i == 0 || 100 * (i - 1) < 66 * newSize)
        invariant fresh(newT) && fresh(newT.table)
        decreases |order| - i
      {
        NthEntry(i);
        TheEntry(i);
        assert Contents()[..i] + [Contents()[i]] == Contents()[..i+1];
        newT.Insert(table[ent].k.key, table[ent].v);
        ent := table[ent].next;
        i := i + 1;
      }
      NthEntry(i);
      assert Contents()[..|order|] == Contents();
      table := newT.table;
      size := newSize;
      head, tail, order := newT.head, newT.tail, newT.order;
    }

    lemma FirstEntry()
      requires Valid()
      ensures head == Nth(order, 0)
    {
    }

    lemma NthEntry(i: nat)
      requires Valid() && i <= |order|
      ensures Nth(order, i) == -1 <==> i == |order|
      ensures i < |order| ==> Nth(order, i) == order[i] < size && table[order[i]].next == Nth(order, i + 1)
    {
    }

    /** What the loop of lh_table_resize finds in the i-th entry */
    lemma TheEntry(i: nat)
      requires Valid() && i < |order|
      ensures order[i] < size && table[order[i]].k == Key(Contents()[i].key) && table[order[i]].v == Contents()[i].value
      ensures table[order[i]].next == Nth(order, i + 1)
      ensures forall f :: f in Contents()[..i] ==> f.key != Contents()[i].key
    {
      hide Links, Ends, Reachable;
      NthEntry(i);
      forall f | f in Contents()[..i] ensures f.key != Contents()[i].key {
        var j :| 0 <= j < i && Contents()[..i][j] == f;
        assert Contents()[j] == f && order[i] != order[j];
      }
    }

    /** lh_table_lookup_entry */
    method LookupEntry(key: string) returns (n: int, ghost i: nat)
      requires Listed()
      ensures n == -1 <==> !Found(key)
      ensures Valid() ==> (n == -1 <==> !Has(key))
      ensures n != -1 ==> i < |order| && n == order[i] < size && Contents()[i] == Field(key, table[n].v)
    {
      hide Lists, Links, Ends, Fields, Reachable, PathOpen, KeysDiffer;
      ghost var s, home := table[..size], Home(hash, key, size);
      if Valid() { FoundIsThere(key); }
      i := 0;
      n := hash(key) % size;
      var steps := 0;
      while steps < size
        invariant steps <= size && n == Probe(home, if steps < size then steps else 0, size)
        invariant forall e :: 0 <= e < steps ==> s[Probe(home, e, size)].k !in {Empty, Key(key)}
      {
        if table[n].k == Empty {
          assert s[Probe(home, steps, size)].k == Empty;
          return -1, 0;
        }
        if table[n].k != Freed && table[n].k.key == key {
          assert FoundAt(s, home, key, steps);
          i := FieldAt(n);
          return;
        }
        n := n + 1;
        if n == size {
          n := 0;
        }
        steps := steps + 1;
      }
      return -1, 0;
    }

    /** In a table in order, a key is found if and only if it is there. */
    lemma FoundIsThere(key: string)
      requires Valid()
      ensures Found(key) <==> Has(key)
    {
      hide Lists, Links, Ends, Fields, PathOpen, KeysDiffer, Reachable;
      assert table[..size] == table[..];
      FieldKeys(table[..], order, key);
      if n: nat :| n < size && table[n].k == Key(key) {
        PathToKey(table[..], hash, key, n);
      }
    }

    /** With more entries than size says, some key of the list is not found. */
    lemma SomeKeyIsLost()
      requires Listed() && count > size
      ensures exists f :: f in Contents() && !Found(f.key)
    {
      hide Links, Ends, Fields, FoundAt, KeysDiffer;
      var i := SomeBeyond(order, size);
      var f := Contents()[i];
      assert f in Contents();
      BehindSize(i);
      NotBefore(table[..size], Home(hash, f.key, size), f.key);
    }

    /** An entry behind the first size slots is nowhere in them. */
    lemma BehindSize(i: nat)
      requires Listed() && i < |order| && order[i] >= size
      ensures forall n :: 0 <= n < size ==> table[n].k != Key(Contents()[i].key)
    {
      hide Links, Ends;
      assert table[order[i]].k == Key(Contents()[i].key);
    }

    lemma FieldAt(n: nat) returns (i: nat)
      requires Listed() && n < table.Length && table[n].k.Key?
      ensures i < |order| && order[i] == n && Contents()[i] == Field(table[n].k.key, table[n].v)
    {
      i :| 0 <= i < |order| && order[i] == n;
    }

    /** lh_table_delete_entry */
    method DeleteEntry(n: int, ghost i: nat) returns (result: int)
      requires Valid() && n < size && (0 <= n && table[n].k.Key? ==> i < |order| && order[i] == n)
      modifies this`count, this`head, this`tail, this`order, table
      ensures Valid()
      ensures result == if n < 0 then -2 else if old(table[n].k.Key?) then 0 else -1
      ensures Contents() == if result == 0 then old(Contents())[..i] + old(Contents())[i+1..] else old(Contents())
    {
      if n < 0 {
        return -2;
      }
      if table[n].k == Empty || table[n].k == Freed {
        return -1;
      }
      TakeOut(n, i);
      return 0;
    }

    /** The rest of lh_table_delete_entry */
    method TakeOut(n: nat, ghost i: nat)
      requires Valid() && i < |order| && order[i] == n
      modifies this`count, this`head, this`tail, this`order, table
      ensures Valid() && Contents() == old(Contents())[..i] + old(Contents())[i+1..]
    {
      hide Lists, Links, Ends, Fields, PathOpen, KeysDiffer, Unlinked, Without, Reachable;
      ghost var s := table[..];
      Leaving(s, order, head, tail, i);
      count := count - 1;
      table[n] := table[n].(v := Null, k := Freed);
      FreedUnlinked(s, table[..], n);
      Unlink(n);
      order := Without(order, i);
      ReachableStays(s, table[..], hash, n);
      FewerKeys(s, table[..], n);
    }

    lemma FreedUnlinked(s: seq<Entry>, s': seq<Entry>, n: nat)
      requires n < |s| && -1 <= s[n].prev < |s| && -1 <= s[n].next < |s| && s[n].prev != n && s[n].next != n
      requires s' == s[n := s[n].(v := Null, k := Freed)]
      ensures Unlinked(s', n) == Unlinked(s, n)
    {
    }

    lemma FewerKeys(s: seq<Entry>, s': seq<Entry>, n: nat)
      requires KeysDiffer(s) && |s'| == |s| && n < |s| && !s'[n].k.Key?
      requires forall m :: 0 <= m < |s| && m != n ==> s'[m].k == s[m].k
      ensures KeysDiffer(s')
    {
    }

    /** How lh_table_delete_entry takes a freed entry out of the list */
    method Unlink(n: nat)
      requires n < table.Length && -1 <= table[n].prev < table.Length && -1 <= table[n].next < table.Length
      requires (head == n <==> table[n].prev == -1) && (tail == n <==> table[n].next == -1)
      requires table[n].prev != n && table[n].next != n && table[n].k == Freed && table[n].v == Null
      modifies this`head, this`tail, table
      ensures table[..] == Unlinked(old(table[..]), n)
      ensures head == (if old(head) == n then old(table[n].next) else old(head))
      ensures tail == (if old(tail) == n then old(table[n].prev) else old(tail))
    {
      if tail == n && head == n {
        head, tail := -1, -1;
      } else if head == n {
        table[table[head].next] := table[table[head].next].(prev := -1);
        head := table[head].next;
      } else if tail == n {
        table[table[tail].prev] := table[table[tail].prev].(next := -1);
        tail := table[tail].prev;
      } else {
        table[table[n].prev] := table[table[n].prev].(next := table[n].next);
        table[table[n].next] := table[table[n].next].(prev := table[n].prev);
      }
      table[n] := table[n].(next := -1, prev := -1);
    }

    /** lh_table_delete */
    method Delete(key: string) returns (result: int)
      requires Valid()
      modifies this`count, this`head, this`tail, this`order, table
      ensures Valid() && Contents() == WithoutKey(old(Contents()), key)
      ensures result == if old(Has(key)) then 0 else -1
    {
      hide Lists, Links, Ends, Reachable, KeysDiffer, Fields;
      ContentsDiffer();
      var e, i := LookupEntry(key);
      if e == -1 {
        NoKey(Contents(), key);
        return -1;
      }
      TheEntry(i);
      OneKey(Contents(), i);
      result := DeleteEntry(e, i);
    }

    /** json_object_object_add */
    method ObjectAdd(key: string, v: Json)
      requires Valid()
      modifies this, table
      ensures Valid() && Contents() == PutField(old(Contents()), key, v)
      ensures table == old(table) || fresh(table)
    {
      hide Lists, Links, Ends, Reachable, KeysDiffer, Fields;
      ContentsDiffer();
      var e, i := LookupEntry(key);
      if e == -1 {
        PutNewField(Contents(), key, v);
        Insert(key, v);
        return;
      }
      TheEntry(i);
      PutOldField(Contents(), i, v);
      ghost var s := table[..];
      table[e] := table[e].(v := v);
      ValueReplaced(s, table[..], order, hash, i, v);
    }

    /** The table is a map: no key is there twice. */
    lemma ContentsDiffer()
      requires Valid()
      ensures KeysOnce(Contents())
    {
      forall i, j | 0 <= i < j < |order| ensures Contents()[i].key != Contents()[j].key {
        assert order[i] != order[j];
      }
    }
  }

  /** Two entries and a resize to one slot leave a table in whose list is a key that a lookup does not find. */
  method ResizeCanBreak(hash: Hash) returns (t: LhTable, key: string)
    ensures fresh(t) && t.Listed() && !t.Valid() && t.Contents() == [Field("a", Null), Field("b", Null)]
    ensures key in {"a", "b"} && t.Has(key) && !t.Found(key)
  {
    hide Lists, Links, Ends, Fields, Reachable, FoundAt, KeysDiffer, PathOpen;
    t := new LhTable(16, hash);
    t.Insert("a", Null);
    assert t.Contents() == [Field("a", Null)];
    t.Insert("b", Null);
    t.Resize(1);
    t.SomeKeyIsLost();
    var n, _ := t.LookupEntry("a");
    key := if n == -1 then "a" else "b";
    assert t.Contents()[0].key == "a" && t.Contents()[1].key == "b";
  }

  ghost predicate KeysOnce(fs: seq<Field>) {
    forall i, j :: 0 <= i < j < |fs| ==> fs[i].key != fs[j].key
  }

  function WithoutKey(fs: seq<Field>, key: string): seq<Field> {
    if fs == [] then [] else if fs[0].key == key then WithoutKey(fs[1..], key) else [fs[0]] + WithoutKey(fs[1..], key)
  }

  lemma {:induction false} NoKey(fs: seq<Field>, key: string)
    requires forall f :: f in fs ==> f.key != key
    ensures WithoutKey(fs, key) == fs
  {
    if fs != [] {
      NoKey(fs[1..], key);
    }
  }

  lemma {:induction false} OneKey(fs: seq<Field>, i: nat)
    requires KeysOnce(fs) && i < |fs|
    ensures WithoutKey(fs, fs[i].key) == fs[..i] + fs[i+1..]
  {
    if i == 0 {
      NoKey(fs[1..], fs[0].key);
    } else {
      OneKey(fs[1..], i - 1);
      assert [fs[0]] + (fs[1..][..i-1] + fs[1..][i..]) == fs[..i] + fs[i+1..];
    }
  }

  lemma {:induction false} PutOldField(fs: seq<Field>, i: nat, v: Json)
    requires KeysOnce(fs) && i < |fs|
    ensures PutField(fs, fs[i].key, v) == fs[i := Field(fs[i].key, v)]
  {
    if i > 0 {
      PutOldField(fs[1..], i - 1, v);
      assert fs[0].key != fs[i].key;
      var f := Field(fs[i].key, v);
      assert [fs[0]] + fs[1..][i-1 := f] == fs[i := f];
    } else {
      assert [Field(fs[0].key, v)] + fs[1..] == fs[0 := Field(fs[0].key, v)];
    }
  }

  lemma ValueReplaced(s: seq<Entry>, s': seq<Entry>, order: seq<nat>, hash: Hash, i: nat, v: Json)
    requires Lists(s, order) && Links(s, order) && KeysDiffer(s) && Reachable(s, hash) && i < |order|
    requires order[i] < |s| && s' == s[order[i] := s[order[i]].(v := v)]
    ensures Lists(s', order) && Links(s', order) && KeysDiffer(s') && Reachable(s', hash)
    ensures Fields(s', order) == Fields(s, order)[i := Field(s[order[i]].k.key, v)]
  {
    SameButValues(s, s', order, hash);
    forall j | 0 <= j < |order| ensures Fields(s', order)[j] == Fields(s, order)[i := Field(s[order[i]].k.key, v)][j] {
      if j != i { assert order[j] != order[i]; }
    }
  }

  lemma SameButValues(s: seq<Entry>, s': seq<Entry>, order: seq<nat>, hash: Hash)
    requires Lists(s, order) && Links(s, order) && KeysDiffer(s) && Reachable(s, hash) && |s'| == |s|
    requires forall n :: 0 <= n < |s| ==> s'[n].k == s[n].k && s'[n].next == s[n].next && s'[n].prev == s[n].prev
    ensures Lists(s', order) && Links(s', order) && KeysDiffer(s') && Reachable(s', hash)
  {
    hide Nth;
    forall m | 0 <= m < |s'| && s'[m].k.Key? ensures PathOpen(s', Home(hash, s'[m].k.key, |s|), m) {
      assert PathOpen(s, Home(hash, s'[m].k.key, |s|), m);
    }
  }
}
