/** What a list of stream buffers holds, as a value: for libubox/ustream.c. */
module StreamBuffers {
  import Memory = Bytes

  type Byte = Memory.Byte

  /** ustream_buf: the memory from `head` to `end`, and the offsets `data` and `tail` in it */
  datatype Buf = Buf(mem: seq<Byte>, data: nat, tail: nat) {
    /** An empty buffer starts over. */
    predicate Ok() {
      data <= tail <= |mem| && |mem| > 0 && (data == tail ==> data == 0)
    }

    function Bytes(): seq<Byte>
      requires Ok()
    {
      mem[data..tail]
    }

    function Free(): seq<Byte>
      requires Ok()
    {
      mem[tail..]
    }
  }

  predicate AllOk(vs: seq<Buf>) {
    forall i :: 0 <= i < |vs| ==> vs[i].Ok()
  }

  /** The buffers with data come first, up to data_tail, and that one may be empty. */
  predicate Shape(vs: seq<Buf>, k: nat) {
    && AllOk(vs) && (if vs == [] then k == 0 else k < |vs|)
    && (forall i :: 0 <= i < k && i < |vs| ==> vs[i].data < vs[i].tail)
    && forall i :: k < i < |vs| ==> vs[i].tail == 0
  }

  /** The data in order */
  function Bytes(vs: seq<Buf>): seq<Byte>
    requires AllOk(vs)
  {
    if vs == [] then [] else vs[0].Bytes() + Bytes(vs[1..])
  }

  /** The memory that is free, in the order in which it is filled */
  function Free(vs: seq<Buf>): seq<Byte>
    requires AllOk(vs)
  {
    if vs == [] then [] else vs[0].Free() + Free(vs[1..])
  }

  lemma {:induction false} BytesConcat(a: seq<Buf>, b: seq<Buf>)
    requires AllOk(a) && AllOk(b)
    ensures AllOk(a + b) && Bytes(a + b) == Bytes(a) + Bytes(b)
  {
    if a == [] {
      assert a + b == b;
    } else {
      BytesConcat(a[1..], b);
      assert (a + b)[1..] == a[1..] + b;
    }
  }

  lemma {:induction false} NoBytes(vs: seq<Buf>)
    requires AllOk(vs) && forall i :: 0 <= i < |vs| ==> vs[i].tail == 0
    ensures Bytes(vs) == []
  {
    if vs != [] { NoBytes(vs[1..]); }
  }

  lemma OneBuf(v: Buf)
    requires v.Ok()
    ensures AllOk([v]) && Bytes([v]) == v.Bytes() && Free([v]) == v.Free()
  {
    assert [v][1..] == [];
  }

  /** The data before, in and after a buffer */
  lemma BytesAt(vs: seq<Buf>, i: nat)
    requires AllOk(vs) && i < |vs|
    ensures Bytes(vs) == Bytes(vs[..i]) + (vs[i].Bytes() + Bytes(vs[i+1..]))
  {
    hide Bytes;
    Cut(vs, i);
    OneBuf(vs[i]);
    BytesConcat([vs[i]], vs[i+1..]);
    BytesConcat(vs[..i], [vs[i]] + vs[i+1..]);
  }

  lemma Cut(vs: seq<Buf>, i: nat)
    requires i < |vs|
    ensures vs == vs[..i] + ([vs[i]] + vs[i+1..])
  {
  }

  /** When the last buffer with data changes, only the end of the data does. */
  lemma BytesLast(vs: seq<Buf>, k: nat, v: Buf)
    requires Shape(vs, k) && k < |vs| && v.Ok()
    ensures Bytes(vs) == Bytes(vs[..k]) + vs[k].Bytes()
    ensures AllOk(vs[k := v]) && Bytes(vs[k := v]) == Bytes(vs[..k]) + v.Bytes()
  {
    BytesAt(vs, k);
    BytesAt(vs[k := v], k);
    NoBytes(vs[k+1..]);
    assert vs[k := v][..k] == vs[..k] && vs[k := v][k+1..] == vs[k+1..];
  }

  /** The first buffer has data, if any has. */
  lemma FirstHasData(vs: seq<Buf>, k: nat)
    requires Shape(vs, k) && Bytes(vs) != []
    ensures vs != [] && vs[0].data < vs[0].tail
  {
    if vs != [] && vs[0].tail == 0 {
      NoBytes(vs);
    }
  }

  /** The list when its first buffer is taken out */
  lemma ShapeTail(vs: seq<Buf>, k: nat)
    requires Shape(vs, k) && vs != []
    ensures Shape(vs[1..], if k == 0 then 0 else k - 1)
  {
  }

  lemma ShapeGrown(vs: seq<Buf>, k: nat, v: Buf)
    requires Shape(vs, k) && v.Ok() && v.tail == 0
    ensures Shape(vs + [v], k) && Bytes(vs + [v]) == Bytes(vs)
  {
    OneBuf(v);
    BytesConcat(vs, [v]);
  }

  // ---------- filling

  /** What comes behind the data when n bytes are filled, from buffer k on */
  lemma {:induction false} FreeAt(vs: seq<Buf>, k: nat)
    requires AllOk(vs) && k < |vs|
    ensures Free(vs[k..]) == vs[k].Free() + Free(vs[k+1..])
  {
    assert vs[k..][1..] == vs[k+1..];
  }

  /** The first buffer loses data. */
  lemma BytesFirst(vs: seq<Buf>, n: nat)
    requires AllOk(vs) && vs != [] && n < vs[0].tail - vs[0].data
    ensures var v := vs[0].(data := vs[0].data + n);
      AllOk(vs[0 := v]) && Bytes(vs[0 := v]) == Bytes(vs)[n..]
  {
    var v := vs[0].(data := vs[0].data + n);
    assert vs[0 := v][1..] == vs[1..];
    assert v.Bytes() == vs[0].Bytes()[n..];
  }

  lemma DropTwice(q: seq<Byte>, a: nat, b: nat)
    requires a <= b <= |q|
    ensures q[a..][b-a..] == q[b..]
  {
  }

  /** ustream_init_buf on memory in use */
  function Restarted(b: Buf): (r: Buf)
    requires b.Ok()
    ensures r.Ok() && r.tail == 0
  {
    Buf(b.mem[0 := 0], 0, 0)
  }

  /** ustream_init_buf */
  function NewBuf(len: nat): (b: Buf)
    requires len > 0
    ensures b.Ok() && b.tail == 0
  {
    Buf(seq(len, i => 0), 0, 0)
  }

  /** The data moves to the start of the memory: memmove. */
  function Moved(b: Buf): (r: Buf)
    requires b.Ok()
    ensures r.Ok() && r.Bytes() == b.Bytes() && |r.mem| == |b.mem|
  {
    Buf(b.mem[b.data..b.tail] + b.mem[b.tail-b.data..], 0, b.tail - b.data)
  }

  lemma BytesRest(vs: seq<Buf>)
    requires AllOk(vs) && vs != []
    ensures vs[0].Bytes() <= Bytes(vs) && Bytes(vs)[vs[0].tail - vs[0].data..] == Bytes(vs[1..])
  {
  }

  /** Some more bytes of a buffer's memory count as data. */
  function Filled(b: Buf, n: nat): (r: Buf)
    requires b.Ok() && n <= |b.mem| - b.tail
    ensures r.Ok() || (n == 0 && r == b)
  {
    b.(tail := b.tail + n)
  }

  /** How many of the bytes that are left go into a buffer */
  function Share(b: Buf, left: nat): (n: nat)
    requires b.Ok()
    ensures n <= left && n <= |b.mem| - b.tail
  {
    if left < |b.mem| - b.tail then left else |b.mem| - b.tail
  }

  /** One step of ustream_fill_read, at the last buffer with data or the one behind it */
  lemma FillShape(vs: seq<Buf>, k: nat, i: nat, left: nat)
    requires Shape(vs, k) && i < |vs| && (i == k || (i == k + 1 && vs[k].data < vs[k].tail && left > 0))
    ensures var n := Share(vs[i], left);
      Shape(vs, i) && Shape(vs[i := Filled(vs[i], n)], i) && (n < left ==> vs[i].data < vs[i].tail + n)
  {
  }

  lemma FillBytes(vs: seq<Buf>, i: nat, left: nat)
    requires Shape(vs, i) && i < |vs| && left <= |Free(vs[i..])| && Filled(vs[i], Share(vs[i], left)).Ok()
    ensures var n := Share(vs[i], left);
      var ws := vs[i := Filled(vs[i], n)];
      AllOk(ws) && left - n <= |Free(ws[i+1..])|
        && Bytes(ws) + Free(ws[i+1..])[..left-n] == Bytes(vs) + Free(vs[i..])[..left]
  {
    hide Bytes, Free;
    var n := Share(vs[i], left);
    var w := Filled(vs[i], n);
    assert vs[i := w][i+1..] == vs[i+1..];
    FreeAt(vs, i);
    BytesLast(vs, i, w);
    assert w.Bytes() == vs[i].Bytes() + vs[i].Free()[..n];
    TakeMore(vs[i].Free(), Free(vs[i+1..]), n, left);
  }

  lemma FillStep(vs: seq<Buf>, k: nat, i: nat, left: nat)
    requires Shape(vs, k) && i < |vs| && (i == k || (i == k + 1 && vs[k].data < vs[k].tail && left > 0))
    requires AllOk(vs[i..]) && left <= |Free(vs[i..])|
    ensures var n := Share(vs[i], left);
      var ws := vs[i := Filled(vs[i], n)];
      && Shape(ws, i)
      && (n < left ==> ws[i].data < ws[i].tail)
      && AllOk(ws[i+1..]) && left - n <= |Free(ws[i+1..])|
      && Bytes(ws) + Free(ws[i+1..])[..left-n] == Bytes(vs) + Free(vs[i..])[..left]
      && (n < left ==> i + 1 < |vs|)
  {
    hide Bytes, Free;
    FillShape(vs, k, i, left);
    FillBytes(vs, i, left);
    NothingFree(vs, i + 1);
    assert vs[i := Filled(vs[i], Share(vs[i], left))][i+1..] == vs[i+1..];
  }

  lemma TakeMore(a: seq<Byte>, b: seq<Byte>, n: nat, left: nat)
    requires n <= left <= |a + b| && n == if left < |a| then left else |a|
    ensures a[..n] + b[..left-n] == (a + b)[..left]
  {
  }

  lemma NothingFree(vs: seq<Buf>, i: nat)
    requires AllOk(vs) && i <= |vs|
    ensures i == |vs| ==> Free(vs[i..]) == []
  {
  }

  /** Bytes are put in the memory behind the data. */
  function Stored(b: Buf, data: seq<Byte>): (r: Buf)
    requires b.Ok() && |data| <= |b.mem| - b.tail
    ensures r.Ok() && r.Bytes() == b.Bytes() && data <= r.Free()
  {
    b.(mem := b.mem[..b.tail] + data + b.mem[b.tail+|data|..])
  }

  lemma StoredFree(vs: seq<Buf>, k: nat, data: seq<Byte>)
    requires Shape(vs, k) && k < |vs| && data <= vs[k].Free()
    ensures |data| <= |Free(vs[k..])| && Free(vs[k..])[..|data|] == data
  {
    FreeAt(vs, k);
  }

  function Appended(b: Buf, data: seq<Byte>): (r: Buf)
    requires b.Ok() && |data| <= |b.mem| - b.tail
    ensures r.Ok() && r.Bytes() == b.Bytes() + data
  {
    Stored(b, data).(tail := b.tail + |data|)
  }

  lemma BytesAppended(vs: seq<Buf>, k: nat, data: seq<Byte>)
    requires Shape(vs, k) && k < |vs| && |data| <= |vs[k].mem| - vs[k].tail
    ensures AllOk(vs[k := Appended(vs[k], data)]) && Bytes(vs[k := Appended(vs[k], data)]) == Bytes(vs) + data
  {
    hide Bytes, Appended;
    BytesLast(vs, k, Appended(vs[k], data));
  }

  lemma NoData(vs: seq<Buf>)
    requires AllOk(vs)
    ensures vs == [] ==> Bytes(vs) == []
  {
  }

  lemma TakeNext(q: seq<Byte>, a: nat, n: nat)
    requires a + n <= |q|
    ensures q[..a] + q[a..a+n] == q[..a+n] && q[a..][..n] == q[a..a+n]
  {
  }

  lemma TakeSome(out: seq<Byte>, all: seq<Byte>, first: seq<Byte>, n: nat)
    requires first <= all && n <= |first|
    ensures (out + first[..n]) + all[n..] == out + all
  {
  }

  /** A piece of what is to be read is copied behind what has been. */
  lemma Copied(all: seq<Byte>, len: nat, chunk: seq<Byte>, n: nat, buf: seq<Byte>)
    requires len <= |all| && chunk <= all[len..] && n <= |chunk| && |buf| == len + n
    requires buf[..len] == all[..len] && buf[len..] == chunk[..n]
    ensures len + n <= |all| && buf == all[..len + n] && all[len..][n..] == all[len + n..]
  {
    assert buf == buf[..len] + buf[len..];
    assert all[len..][..n] == chunk[..n];
  }
}
