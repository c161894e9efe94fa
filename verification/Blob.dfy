/** libubox/blob.c: attributes are written into a buffer that moves when it grows. */
module Blob {
  import opened Bytes
  import opened BlobFormat

  const COOKIE: nat := 0x0123_4567

  /** An attribute that is not yet closed */
  datatype Frame = Frame(ext: bool, id: nat, prefix: seq<Byte>, kids: seq<Attr>)

  function Body(f: Frame): seq<Byte> {
    f.prefix + EncodeAll(f.kids)
  }

  /** An open attribute in memory. Its length counts the header of the one that is open in it. */
  function Opened(f: Frame, inner: nat): seq<Byte> {
    Header(f.ext, f.id, |Body(f)| + inner) + Body(f)
  }

  /** All but the innermost open attributes */
  function Outers(fs: seq<Frame>): seq<Byte> {
    if fs == [] then [] else Outers(fs[..|fs|-1]) + Opened(fs[|fs|-1], 4)
  }

  function Closed(f: Frame): Attr {
    Node(f.ext, f.id, f.prefix, f.kids)
  }

  ghost predicate FrameOk(f: Frame, inner: nat) {
    && f.id < 0x80 && |f.prefix| % 4 == 0 && 4 + |Body(f)| + inner < LEN_LIMIT
    && forall i :: 0 <= i < |f.kids| ==> Fits(f.kids[i])
  }

  ghost predicate FramesOk(fs: seq<Frame>) {
    fs != [] && forall i :: 0 <= i < |fs| ==> FrameOk(fs[i], if i + 1 < |fs| then 4 else 0)
  }

  /** The open attributes are in memory, one behind the other. */
  ghost predicate InMemory(m: seq<Byte>, fs: seq<Frame>, head: nat)
    requires fs != []
  {
    var n := |fs| - 1;
    head == |Outers(fs[..n])| && At(m, 0, Outers(fs[..n])) && At(m, head, Opened(fs[n], 0))
  }

  /** attr_to_offset and offset_to_attr, for an offset in the buffer */
  function ToCookie(off: nat): nat {
    off + COOKIE
  }

  function FromCookie(cookie: nat): nat
    requires cookie >= COOKIE
  {
    cookie - COOKIE
  }

  /** blob_set_raw_len, on the word */
  function WithRawLen(v: nat, len: nat): (r: nat)
    requires v < 0x1_0000_0000
    ensures r < 0x1_0000_0000
  {
    v / LEN_LIMIT * LEN_LIMIT + len % LEN_LIMIT
  }

  lemma RawLenSet(ext: bool, id: nat, old': nat, len: nat)
    requires id < 0x80
    ensures WithRawLen(IdLen(ext, id, old'), len) == IdLen(ext, id, len)
  {
  }

  lemma BodyAligned(f: Frame)
    requires |f.prefix| % 4 == 0
    ensures |Body(f)| % 4 == 0
  {
    hide EncodeAll;
    EncodeAllAligned(f.kids);
    SumAligned(|f.prefix|, |EncodeAll(f.kids)|);
  }

  lemma SumAligned(a: nat, b: nat)
    requires a % 4 == 0 && b % 4 == 0
    ensures (a + b) % 4 == 0 && (4 + a) % 4 == 0 && Pad4(4 + a) == 4 + a
  {
  }

  lemma {:induction false} OutersAligned(fs: seq<Frame>)
    requires forall i :: 0 <= i < |fs| ==> |fs[i].prefix| % 4 == 0
    ensures |Outers(fs)| % 4 == 0
  {
    hide Body, Header;
    if fs != [] {
      OutersAligned(fs[..|fs|-1]);
      BodyAligned(fs[|fs|-1]);
    }
  }

  /** What is in front of an offset is still there. */
  lemma AtPrefix(m: seq<Byte>, m': seq<Byte>, pos: nat, i: nat, x: seq<Byte>)
    requires pos <= |m| && At(m', 0, m[..pos]) && At(m, i, x) && i + |x| <= pos
    ensures At(m', i, x)
  {
    assert m'[..pos] == m[..pos];
    assert m'[i..i + |x|] == m'[..pos][i..i + |x|] == m[..pos][i..i + |x|] == m[i..i + |x|];
  }

  /** The memory when an attribute has been added, and counts in the innermost open one */
  ghost predicate WithNew(m: seq<Byte>, fs: seq<Frame>, head: nat, attr: nat, id: nat, payload: nat)
    requires fs != []
  {
    var n := |fs| - 1;
    var body := Body(fs[n]);
    && head == |Outers(fs[..n])| && At(m, 0, Outers(fs[..n]))
      && At(m, head, Header(fs[n].ext, fs[n].id, |body| + 4 + Pad4(payload)))
    && At(m, head + 4, body) && attr == head + 4 + |body| && At(m, attr, Header(false, id, payload))
      && attr + 4 + Pad4(payload) <= |m|
    && At(m, attr + 4 + payload, Zeros(Pad4(payload) - payload))
  }

  /** The innermost open attribute, as its header tells */
  lemma HeadRead(m: seq<Byte>, fs: seq<Frame>, head: nat)
    requires FramesOk(fs) && InMemory(m, fs, head)
    ensures var f := fs[|fs|-1];
      && head + 4 + |Body(f)| <= |m| && Get32(m, head) == IdLen(f.ext, f.id, 4 + |Body(f)|) && head % 4 == 0
      && |Body(f)| % 4 == 0 && PadLenAt(m, head) == RawLenOf(Get32(m, head)) == 4 + |Body(f)|
      && At(m, head, Header(f.ext, f.id, |Body(f)|)) && At(m, head + 4, Body(f)) && (head + 4 + |Body(f)|) % 4 == 0
  {
    hide Body, IdLen, Be32, Get32;
    var n := |fs| - 1;
    var f := fs[n];
    AtParts(m, head, Header(f.ext, f.id, |Body(f)|), Body(f));
    HeaderAt(m, head, f.ext, f.id, |Body(f)|);
    BodyAligned(f);
    OutersAligned(fs[..n]);
    SumAligned(|Body(f)|, 0);
  }

  lemma HeaderAt(m: seq<Byte>, off: nat, ext: bool, id: nat, payload: nat)
    requires At(m, off, Header(ext, id, payload)) && id < 0x80 && 4 + payload < LEN_LIMIT
    ensures off + 4 <= |m| && Get32(m, off) == IdLen(ext, id, 4 + payload) && RawLenOf(Get32(m, off)) == 4 + payload
    ensures PadLenAt(m, off) == 4 + Pad4(payload)
  {
    hide IdLen, Be32, Get32;
    Get32OfBe32(m, off, IdLen(ext, id, 4 + payload));
    IdLenParts(ext, id, 4 + payload);
  }

  /** The innermost open attribute has got one more. */
  function WithKid(fs: seq<Frame>, a: Attr): seq<Frame>
    requires fs != []
  {
    fs[..|fs|-1] + [fs[|fs|-1].(kids := fs[|fs|-1].kids + [a])]
  }

  lemma BodyMore(f: Frame, a: Attr)
    ensures Body(f.(kids := f.kids + [a])) == Body(f) + Encode(a)
  {
    hide Encode, EncodeAll;
    EncodeAllMore(f.kids, a);
    Associate(f.prefix, EncodeAll(f.kids), Encode(a));
  }

  lemma KidDone(m: seq<Byte>, fs: seq<Frame>, head: nat, a: Attr)
    requires FramesOk(fs) && Fits(a) && head == |Outers(fs[..|fs|-1])| && At(m, 0, Outers(fs[..|fs|-1]))
    requires var f := fs[|fs|-1];
      && 4 + |Body(f)| + |Encode(a)| < LEN_LIMIT && At(m, head, Header(f.ext, f.id, |Body(f)| + |Encode(a)|))
      && At(m, head + 4, Body(f)) && At(m, head + 4 + |Body(f)|, Encode(a))
    ensures FramesOk(WithKid(fs, a)) && InMemory(m, WithKid(fs, a), head)
  {
    hide At, Header, Encode, Body, Outers, Fits;
    var f, gs := fs[|fs|-1], WithKid(fs, a);
    BodyMore(f, a);
    AtParts(m, head + 4, Body(f), Encode(a));
    AtParts(m, head, Header(f.ext, f.id, |Body(f)| + |Encode(a)|), Body(f) + Encode(a));
    assert gs[..|gs|-1] == fs[..|fs|-1];
  }

  lemma LeafEncoded(m: seq<Byte>, attr: nat, a: Attr)
    requires a.Leaf? && At(m, attr, Header(a.ext, a.id, |a.data|)) && At(m, attr + 4, a.data)
    requires At(m, attr + 4 + |a.data|, Zeros(Pad4(|a.data|) - |a.data|))
    ensures At(m, attr, Encode(a))
  {
    hide At, Header, Zeros;
    AtParts(m, attr, Header(a.ext, a.id, |a.data|), a.data);
    AtParts(m, attr, Header(a.ext, a.id, |a.data|) + a.data, Zeros(Pad4(|a.data|) - |a.data|));
  }

  lemma Put(m: seq<Byte>, fs: seq<Frame>, head: nat, attr: nat, id: nat, data: seq<Byte>)
    requires FramesOk(fs) && WithNew(m, fs, head, attr, id, |data|) && id < 0x80
    requires 4 + |Body(fs[|fs|-1])| + 4 + Pad4(|data|) < LEN_LIMIT
    ensures attr + 4 + |data| <= |m|
    ensures var m', gs := Write(m, attr + 4, data), WithKid(fs, Leaf(false, id, data));
      FramesOk(gs) && InMemory(m', gs, head)
  {
    hide At, Header, Body, Outers, Write, Encode;
    var f, a := fs[|fs|-1], Leaf(false, id, data);
    AtWrite(m, attr + 4, data, 0, Outers(fs[..|fs|-1]));
    AtWrite(m, attr + 4, data, head, Header(f.ext, f.id, |Body(f)| + 4 + Pad4(|data|)));
    AtWrite(m, attr + 4, data, head + 4, Body(f));
    AtWrite(m, attr + 4, data, attr, Header(false, id, |data|));
    AtWrite(m, attr + 4, data, attr + 4 + |data|, Zeros(Pad4(|data|) - |data|));
    LeafEncoded(Write(m, attr + 4, data), attr, a);
    KidDone(Write(m, attr + 4, data), fs, head, a);
  }

  /** An attribute is opened in the innermost one. */
  lemma KidOpened(m: seq<Byte>, fs: seq<Frame>, head: nat, g: Frame)
    requires FramesOk(fs) && FrameOk(g, 0) && head == |Outers(fs[..|fs|-1])| && At(m, 0, Outers(fs[..|fs|-1]))
    requires var f := fs[|fs|-1];
      && 4 + |Body(f)| + 4 < LEN_LIMIT && At(m, head, Header(f.ext, f.id, |Body(f)| + 4)) && At(m, head + 4, Body(f))
      && At(m, head + 4 + |Body(f)|, Opened(g, 0))
    ensures FramesOk(fs + [g]) && InMemory(m, fs + [g], head + 4 + |Body(fs[|fs|-1])|)
  {
    hide At, Header, Body;
    var f := fs[|fs|-1];
    assert (fs + [g])[..|fs|] == fs;
    AtParts(m, head, Header(f.ext, f.id, |Body(f)| + 4), Body(f));
    AtParts(m, 0, Outers(fs[..|fs|-1]), Opened(f, 4));
  }

  lemma NodeEncoded(m: seq<Byte>, off: nat, f: Frame)
    requires At(m, off, Opened(f, 0)) && |f.prefix| % 4 == 0
    ensures At(m, off, Encode(Closed(f))) && |Encode(Closed(f))| == 4 + |Body(f)|
  {
    hide At, Header, EncodeAll;
    BodyAligned(f);
    SumAligned(|Body(f)|, 0);
    assert Opened(f, 0) + Zeros(0) == Opened(f, 0);
  }

  /** The header of the attribute around the innermost one */
  lemma OuterRead(m: seq<Byte>, fs: seq<Frame>, head: nat)
    requires |fs| >= 2 && FramesOk(fs) && InMemory(m, fs, head)
    ensures var f, outers := fs[|fs|-2], Outers(fs[..|fs|-2]);
      var attr := |outers|;
      && At(m, 0, outers) && At(m, attr, Header(f.ext, f.id, |Body(f)| + 4)) && At(m, attr + 4, Body(f))
      && head == attr + 4 + |Body(f)| && attr + 4 <= |m| && Get32(m, attr) == IdLen(f.ext, f.id, 4 + |Body(f)| + 4)
      && PadLenAt(m, attr) == 4 + |Body(f)| + 4
  {
    hide At, Body, IdLen, Be32, Get32, PadLenAt;
    var n := |fs| - 1;
    var f, outers := fs[n-1], Outers(fs[..n-1]);
    assert fs[..n][..n-1] == fs[..n-1] && fs[..n][n-1] == f;
    AtParts(m, 0, outers, Opened(f, 4));
    AtParts(m, |outers|, Header(f.ext, f.id, |Body(f)| + 4), Body(f));
    HeaderAt(m, |outers|, f.ext, f.id, |Body(f)| + 4);
    BodyAligned(f);
    SumAligned(|Body(f)| + 4, 0);
  }

  /** blob_nest_end */
  lemma NestClosed(m: seq<Byte>, fs: seq<Frame>, head: nat)
    requires |fs| >= 2 && FramesOk(fs) && InMemory(m, fs, head)
    requires 4 + |Body(fs[|fs|-2])| + |Encode(Closed(fs[|fs|-1]))| < LEN_LIMIT
    ensures var attr, f, g, gs :=
        |Outers(fs[..|fs|-2])|, fs[|fs|-2], fs[|fs|-1], WithKid(fs[..|fs|-1], Closed(fs[|fs|-1]));
      && attr + 4 <= |m| && head + 4 <= |m| && PadLenAt(m, attr) == 4 + |Body(f)| + 4
      && RawLenOf(Get32(m, head)) == 4 + |Body(g)|
      && var m' := Write(m, attr, Be32(WithRawLen(Get32(m, attr), 4 + |Body(f)| + 4 + |Body(g)|)));
         FramesOk(gs) && InMemory(m', gs, attr)
  {
    hide At, Body, Write, Encode, WithRawLen, IdLen, Be32, Get32, PadLenAt, Closed, Zeros, Outers, Opened;
    var n := |fs| - 1;
    var f, g, outers := fs[n-1], fs[n], Outers(fs[..n-1]);
    HeadRead(m, fs, head);
    OuterRead(m, fs, head);
    NodeEncoded(m, head, g);
    var len := 4 + |Body(f)| + 4 + |Body(g)|;
    RawLenSet(f.ext, f.id, 4 + |Body(f)| + 4, len);
    var word := Be32(IdLen(f.ext, f.id, len));
    AtWrite(m, |outers|, word, 0, outers);
    AtWrite(m, |outers|, word, |outers| + 4, Body(f));
    AtWrite(m, |outers|, word, head, Encode(Closed(g)));
    FitsClosed(g);
    OuterOk(fs);
    assert fs[..n][..n-1] == fs[..n-1];
    KidDone(Write(m, |outers|, word), fs[..n], |outers|, Closed(g));
  }

  lemma OuterOk(fs: seq<Frame>)
    requires FramesOk(fs) && |fs| >= 2
    ensures FramesOk(fs[..|fs|-1])
  {
    hide Body;
    var n := |fs| - 1;
    assert FrameOk(fs[n-1], 4) && FrameOk(fs[n], 0);
  }

  lemma FitsClosed(f: Frame)
    requires FrameOk(f, 0)
    ensures Fits(Closed(f))
  {
  }

  /** The last step of blob_new */
  lemma NewAdded(m0: seq<Byte>, m1: seq<Byte>, fs: seq<Frame>, head: nat, id: nat, payload: nat)
    requires FramesOk(fs) && InMemory(m0, fs, head) && id < 0x80
      && 4 + |Body(fs[|fs|-1])| + 4 + Pad4(payload) < LEN_LIMIT
    requires var attr := head + 4 + |Body(fs[|fs|-1])|;
      && attr <= |m0| && At(m1, 0, m0[..attr]) && At(m1, attr, Header(false, id, payload))
      && At(m1, attr + 4 + payload, Zeros(Pad4(payload) - payload)) && attr + 4 + Pad4(payload) <= |m1|
    ensures var attr := head + 4 + |Body(fs[|fs|-1])|;
      && head + 4 <= |m0| && PadLenAt(m0, head) == 4 + |Body(fs[|fs|-1])|
      && WithNew(Write(m1, head, Be32(WithRawLen(Get32(m1, head), 4 + |Body(fs[|fs|-1])| + PadLenAt(m1, attr)))), fs,
           head, attr, id, payload)
  {
    hide At, Write, Be32, Zeros, Get32, Body, Outers, Pad4, WithRawLen, IdLen, PadLenAt;
    var f, outers := fs[|fs|-1], Outers(fs[..|fs|-1]);
    var attr := head + 4 + |Body(f)|;
    HeadRead(m0, fs, head);
    AtPrefix(m0, m1, attr, 0, outers);
    AtPrefix(m0, m1, attr, head, Header(f.ext, f.id, |Body(f)|));
    AtPrefix(m0, m1, attr, head + 4, Body(f));
    HeaderAt(m1, attr, false, id, payload);
    HeaderAt(m1, head, f.ext, f.id, |Body(f)|);
    var len := 4 + |Body(f)| + 4 + Pad4(payload);
    RawLenSet(f.ext, f.id, 4 + |Body(f)|, len);
    var word := Be32(IdLen(f.ext, f.id, len));
    AtWrite(m1, head, word, 0, outers);
    AtWrite(m1, head, word, head + 4, Body(f));
    AtWrite(m1, head, word, attr, Header(false, id, payload));
    AtWrite(m1, head, word, attr + 4 + payload, Zeros(Pad4(payload) - payload));
  }

  // ---------- several attributes

  /** The innermost open attribute has got more. */
  function WithKids(fs: seq<Frame>, kids: seq<Attr>): seq<Frame>
    requires fs != []
  {
    fs[..|fs|-1] + [fs[|fs|-1].(kids := fs[|fs|-1].kids + kids)]
  }

  /** The attributes fit in the innermost open one. */
  ghost predicate Fit(fs: seq<Frame>, kids: seq<Attr>)
    requires fs != []
  {
    4 + |Body(fs[|fs|-1])| + |EncodeAll(kids)| < LEN_LIMIT
  }

  lemma NothingMore(fs: seq<Frame>)
    requires fs != []
    ensures WithKids(fs, []) == fs
  {
    assert fs[|fs|-1].kids + [] == fs[|fs|-1].kids;
  }

  lemma OneKid(fs: seq<Frame>, a: Attr)
    requires fs != []
    ensures WithKids(fs, [a]) == WithKid(fs, a)
    ensures Fit(fs, [a]) ==> 4 + |Body(fs[|fs|-1])| + |Encode(a)| < LEN_LIMIT
  {
    hide Encode, Body;
    EncodeAllMore([], a);
    assert [] + [a] == [a];
  }

  lemma KidsTwice(fs: seq<Frame>, p: seq<Attr>, q: seq<Attr>)
    requires fs != []
    ensures WithKids(WithKids(fs, p), q) == WithKids(fs, p + q)
    ensures Fit(fs, p + q) <==> Fit(WithKids(fs, p), q)
    ensures Fit(fs, p + q) ==> Fit(fs, p)
  {
    hide EncodeAll;
    var f := fs[|fs|-1];
    assert (f.kids + p) + q == f.kids + (p + q);
    EncodeAllConcat(p, q);
    EncodeAllConcat(f.kids, p);
  }

  /** An attribute that was opened and has got its kids is closed. */
  lemma NestedDone(fs: seq<Frame>, g: Frame, kids: seq<Attr>)
    requires fs != [] && g.kids == []
    ensures var gs := WithKids(fs + [g], kids);
      && |gs| == |fs| + 1 && gs[..|gs|-1] == fs && gs[..|gs|-2] == fs[..|fs|-1]
      && WithKid(gs[..|gs|-1], Closed(gs[|gs|-1])) == WithKids(fs, [Node(g.ext, g.id, g.prefix, kids)])
    ensures Fit(fs, [Node(g.ext, g.id, g.prefix, kids)]) ==>
        var gs := WithKids(fs + [g], kids);
        && |gs| >= 2 && Fit(fs + [g], kids) && 4 + |Body(gs[|gs|-2])| + |Encode(Closed(gs[|gs|-1]))| < LEN_LIMIT
        && 4 + |Body(fs[|fs|-1])| + 4 + |g.prefix| < LEN_LIMIT
  {
    hide EncodeAll, Body;
    assert (fs + [g])[..|fs|] == fs && g.kids + kids == kids;
    OneKid(fs, Node(g.ext, g.id, g.prefix, kids));
    FreshFrame(g);
  }

  lemma FreshFrame(g: Frame)
    requires g.kids == []
    ensures Body(g) == g.prefix
  {
  }

  class BlobBuf {
    var mem: array<Byte>
    /** The offset of the innermost open attribute */
    var head: nat
    /** The open attributes, from the outermost on */
    ghost var frames: seq<Frame>

    constructor ()
      ensures fresh(mem) && mem.Length == 0 && frames == []
    {
      mem := new Byte[0];
      head := 0;
      frames := [];
    }

    ghost predicate Valid()
      reads this, mem
    {
      mem.Length % 256 == 0 && FramesOk(frames) && InMemory(mem[..], frames, head)
    }

    /** memcpy and memset */
    method Store(off: nat, data: seq<Byte>)
      requires off + |data| <= mem.Length
      modifies mem
      ensures mem[..] == Write(old(mem[..]), off, data)
    {
      forall i | 0 <= i < |data| {
        mem[off + i] := data[i];
      }
    }

    /** blob_buffer_grow and blob_buf_grow: the buffer moves. */
    method Grow(minlen: nat)
      modifies this`mem
      ensures fresh(mem) && mem.Length == old(mem.Length) + (minlen / 256 + 1) * 256
      ensures mem[..] == old(mem[..]) + Zeros((minlen / 256 + 1) * 256)
    {
      var delta := (minlen / 256 + 1) * 256;
      var moved := new Byte[mem.Length + delta](_ => 0);
      forall i | 0 <= i < mem.Length {
        moved[i] := mem[i];
      }
      mem := moved;
    }

    /** blob_set_raw_len */
    method SetRawLen(attr: nat, len: nat)
      requires attr + 4 <= mem.Length
      modifies mem
      ensures mem[..] == Write(old(mem[..]), attr, Be32(WithRawLen(Get32(old(mem[..]), attr), len)))
    {
      Store(attr, Be32(WithRawLen(Get32(mem[..], attr), len)));
    }

    /** blob_add: there is room for the attribute, padding included, although the padding is not asked for. */
    method Add(pos: nat, id: nat, payload: nat)
      requires mem.Length % 256 == 0 && pos % 4 == 0 && pos <= mem.Length
      modifies this`mem, mem
      ensures (fresh(mem) || mem == old(mem)) && mem.Length % 256 == 0 && mem.Length >= old(mem.Length)
      ensures pos + 4 + Pad4(payload) <= mem.Length
      ensures At(mem[..], 0, old(mem[..pos]))
      ensures At(mem[..], pos, Header(false, id, payload))
        && At(mem[..], pos + 4 + payload, Zeros(Pad4(payload) - payload))
    {
      hide At, Write, Be32, IdLen, Zeros, Get32;
      ghost var before := mem[..pos];
      Room(pos, payload, mem.Length);
      var required := pos + 4 + payload - mem.Length;
      StartsWith(mem[..], pos);
      if required > 0 {
        Grown(mem[..], pos, (required / 256 + 1) * 256);
        Grow(required);
      }
      var word, pad := Be32(IdLen(false, id, payload + 4)), Zeros(Pad4(payload) - payload);
      AtWrite(mem[..], pos, word, 0, before);
      Store(pos, word);
      AtWrite(mem[..], pos + 4 + payload, pad, 0, before);
      AtWrite(mem[..], pos + 4 + payload, pad, pos, word);
      Store(pos + 4 + payload, pad);
    }

    /** blob_new */
    method New(id: nat, payload: nat) returns (attr: nat)
      requires Valid() && id < 0x80 && 4 + |Body(frames[|frames|-1])| + 4 + Pad4(payload) < LEN_LIMIT
      modifies this`mem, mem
      ensures (fresh(mem) || mem == old(mem)) && mem.Length % 256 == 0
      ensures WithNew(mem[..], frames, head, attr, id, payload)
    {
      hide At, Write, Be32, IdLen, Zeros, Get32, Body, Outers, Pad4, WithRawLen, PadLenAt, WithNew, Header, FramesOk,
        InMemory;
      HeadRead(mem[..], frames, head);
      var headLen := PadLenAt(mem[..], head);
      attr := head + headLen;
      ghost var m0 := mem[..];
      Add(attr, id, payload);
      NewAdded(m0, mem[..], frames, head, id, payload);
      SetRawLen(head, headLen + PadLenAt(mem[..], attr));
    }

    /** blob_buf_init */
    method Init(id: nat)
      requires mem.Length % 256 == 0 && id < 0x80
      modifies this, mem
      ensures (fresh(mem) || mem == old(mem)) && Valid() && frames == [Frame(false, id, [], [])]
    {
      hide At, Header, Zeros;
      head := 0;
      Add(0, id, 0);
      frames := [Frame(false, id, [], [])];
      Started(mem[..], id);
    }

    /** blob_put */
    method PutData(id: nat, data: seq<Byte>) returns (attr: nat)
      requires Valid() && id < 0x80 && 4 + |Body(frames[|frames|-1])| + 4 + Pad4(|data|) < LEN_LIMIT
      modifies this, mem
      ensures (fresh(mem) || mem == old(mem)) && Valid() && frames == WithKid(old(frames), Leaf(false, id, data))
    {
      hide InMemory, WithNew, Write, Body, Pad4, FrameOk;
      attr := New(id, |data|);
      Put(mem[..], frames, head, attr, id, data);
      Store(attr + 4, data);
      frames := WithKid(frames, Leaf(false, id, data));
    }

    /** blob_nest_start, with its cookie */
    method NestStart(id: nat) returns (cookie: nat)
      requires Valid() && id < 0x80 && 4 + |Body(frames[|frames|-1])| + 4 < LEN_LIMIT
      modifies this, mem
      ensures (fresh(mem) || mem == old(mem)) && Valid() && frames == old(frames) + [Frame(false, id, [], [])]
        && cookie == ToCookie(old(head))
    {
      hide At, Header, Body, Outers;
      cookie := ToCookie(head);
      var attr := New(id, 0);
      Opens(mem[..], attr, id);
      KidOpened(mem[..], frames, head, Frame(false, id, [], []));
      head := attr;
      frames := frames + [Frame(false, id, [], [])];
    }

    /** blob_nest_end, with the cookie of the innermost attribute that is open */
    method NestEnd(cookie: nat)
      requires Valid() && |frames| >= 2 && cookie == ToCookie(|Outers(frames[..|frames|-2])|)
      requires 4 + |Body(frames[|frames|-2])| + |Encode(Closed(frames[|frames|-1]))| < LEN_LIMIT
      modifies this, mem
      ensures mem == old(mem) && Valid() && head == FromCookie(cookie)
      ensures frames == WithKid(old(frames)[..|old(frames)|-1], Closed(old(frames)[|old(frames)|-1]))
    {
      hide FramesOk, InMemory, Body, Encode, WithRawLen, PadLenAt;
      NestClosed(mem[..], frames, head);
      var attr := FromCookie(cookie);
      SetRawLen(attr, PadLenAt(mem[..], attr) + (RawLenOf(Get32(mem[..], head)) - 4));
      frames := WithKid(frames[..|frames|-1], Closed(frames[|frames|-1]));
      head := attr;
    }

    /** When all but the outermost attribute are closed, it is in the buffer, with all that is in it, and the walk finds
        it. */
    lemma Finished()
      requires Valid() && |frames| == 1
      ensures At(mem[..], 0, Encode(Closed(frames[0]))) && Fits(Closed(frames[0]))
        && Holds(mem[..], 0, Closed(frames[0]))
    {
      hide Encode, Holds, Body;
      NodeEncoded(mem[..], 0, frames[0]);
      FitsClosed(frames[0]);
      EncodedHolds(mem[..], 0, Closed(frames[0]));
    }
  }

  lemma Started(m: seq<Byte>, id: nat)
    requires id < 0x80 && At(m, 0, Header(false, id, 0))
    ensures FramesOk([Frame(false, id, [], [])]) && InMemory(m, [Frame(false, id, [], [])], 0)
  {
    hide Header;
    var f := Frame(false, id, [], []);
    assert Body(f) == [] && Header(false, id, 0) + [] == Header(false, id, 0);
  }

  lemma Opens(m: seq<Byte>, attr: nat, id: nat)
    requires At(m, attr, Header(false, id, 0)) && id < 0x80
    ensures At(m, attr, Opened(Frame(false, id, [], []), 0)) && FrameOk(Frame(false, id, [], []), 0)
  {
    hide At, Header;
    assert Body(Frame(false, id, [], [])) == [] && Header(false, id, 0) + [] == Header(false, id, 0);
  }

  lemma StartsWith(m: seq<Byte>, n: nat)
    requires n <= |m|
    ensures At(m, 0, m[..n])
  {
  }

  lemma Grown(m: seq<Byte>, n: nat, delta: nat)
    requires n <= |m|
    ensures At(m + Zeros(delta), 0, m[..n])
  {
    assert (m + Zeros(delta))[..n] == m[..n];
  }

  /** Since sizes of buffers are multiples of four, so is the room that is asked for, rounded up. */
  lemma Room(pos: nat, payload: nat, size: nat)
    requires pos % 4 == 0 && size % 256 == 0
    ensures pos + 4 + payload <= size ==> pos + 4 + Pad4(payload) <= size
    ensures pos + 4 + payload > size ==>
      pos + 4 + Pad4(payload) <= size + ((pos + 4 + payload - size) / 256 + 1) * 256
        && (size + ((pos + 4 + payload - size) / 256 + 1) * 256) % 256 == 0
  {
  }
}
