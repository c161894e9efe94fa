/** The attributes of libubox/blob.h: what is in a buffer, as a tree and as bytes. */
module BlobFormat {
  import opened Bytes

  const LEN_LIMIT: nat := 0x100_0000
  const EXTENDED: nat := 0x8000_0000

  /** An attribute with data, or with other attributes behind a prefix. The prefix is empty, or the name of a blobmsg
      attribute. */
  datatype Attr =
    | Leaf(ext: bool, id: nat, data: seq<Byte>)
    | Node(ext: bool, id: nat, prefix: seq<Byte>, kids: seq<Attr>)

  /** id_len: blob_init, and the flag of blobmsg */
  function IdLen(ext: bool, id: nat, len: nat): (v: nat)
    ensures v < 0x1_0000_0000
  {
    (if ext then EXTENDED else 0) + id % 0x80 * LEN_LIMIT + len % LEN_LIMIT
  }

  /** blob_id */
  function IdOf(v: nat): nat {
    v / LEN_LIMIT % 0x80
  }

  /** blob_raw_len */
  function RawLenOf(v: nat): nat {
    v % LEN_LIMIT
  }

  /** blob_is_extended */
  predicate ExtOf(v: nat) {
    v / EXTENDED % 2 == 1
  }

  lemma IdLenParts(ext: bool, id: nat, len: nat)
    requires id < 0x80 && len < LEN_LIMIT
    ensures var v := IdLen(ext, id, len); IdOf(v) == id && RawLenOf(v) == len && ExtOf(v) == ext
  {
  }

  function Payload(a: Attr): seq<Byte>
    decreases a, 0
  {
    match a
    case Leaf(_, _, data) => data
    case Node(_, _, prefix, kids) => prefix + EncodeAll(kids)
  }

  function Header(ext: bool, id: nat, payload: nat): (h: seq<Byte>)
    ensures |h| == 4
  {
    Be32(IdLen(ext, id, 4 + payload))
  }

  /** The first byte has the flag and seven bits for the number of the attribute; the other three are its length, header
      included. */
  lemma HeaderBytes(ext: bool, id: nat, payload: nat)
    requires id < 0x80 && 4 + payload < LEN_LIMIT
    ensures var h := Header(ext, id, payload);
      h[0] == (if ext then 0x80 else 0) + id && Number(h[1..]) == 4 + payload
  {
    hide Be32, Number, IdLen;
    var n: nat, b: nat := (if ext then 0x80 else 0) + id, 4 + payload;
    IdLenIs(ext, id, b);
    HighByte(n, b);
    var h := Header(ext, id, payload);
    Be32Sum(IdLen(ext, id, b));
    assert h[1..] == [h[1], h[2], h[3]];
    NumberOfThree(h[1], h[2], h[3]);
  }

  lemma IdLenIs(ext: bool, id: nat, len: nat)
    requires id < 0x80 && len < LEN_LIMIT
    ensures IdLen(ext, id, len) == ((if ext then 0x80 else 0) + id) * LEN_LIMIT + len
  {
  }

  lemma NumberOfThree(a: Byte, b: Byte, c: Byte)
    ensures Number([a, b, c]) == a * 0x1_0000 + b * 0x100 + c
  {
    assert [a, b, c][..2] == [a, b];
    NumberOfTwo(a, b);
  }

  lemma HighByte(n: nat, b: nat)
    requires n < 0x100 && b < LEN_LIMIT
    ensures n * LEN_LIMIT + b < 0x1_0000_0000 && Be32(n * LEN_LIMIT + b)[0] == n
  {
  }

  function Encode(a: Attr): (r: seq<Byte>)
    ensures |r| == 4 + Pad4(|Payload(a)|)
    decreases a, 1
  {
    var p := Payload(a);
    Header(a.ext, a.id, |p|) + p + Zeros(Pad4(|p|) - |p|)
  }

  function EncodeAll(q: seq<Attr>): seq<Byte>
    decreases q
  {
    if q == [] then [] else Encode(q[0]) + EncodeAll(q[1..])
  }

  /** Numbers and lengths are within their bits, and attributes within others start at multiples of four. */
  predicate Fits(a: Attr)
    decreases a
  {
    && a.id < 0x80 && 4 + |Payload(a)| < LEN_LIMIT
    && (a.Node? ==> |a.prefix| % 4 == 0 && forall i :: 0 <= i < |a.kids| ==> Fits(a.kids[i]))
  }

  lemma {:induction false} EncodeAllConcat(q: seq<Attr>, r: seq<Attr>)
    ensures EncodeAll(q + r) == EncodeAll(q) + EncodeAll(r)
  {
    hide Encode;
    if q == [] {
      assert q + r == r;
    } else {
      EncodeAllConcat(q[1..], r);
      assert (q + r)[1..] == q[1..] + r && (q + r)[0] == q[0];
      Associate(Encode(q[0]), EncodeAll(q[1..]), EncodeAll(r));
    }
  }

  lemma Associate(a: seq<Byte>, b: seq<Byte>, c: seq<Byte>)
    ensures (a + b) + c == a + (b + c)
  {
  }

  lemma EncodeAligned(a: Attr)
    ensures |Encode(a)| % 4 == 0
  {
    hide Encode, Payload;
    PadAligned(|Payload(a)|);
  }

  lemma PadAligned(n: nat)
    ensures (4 + Pad4(n)) % 4 == 0
  {
  }

  lemma {:induction false} EncodeAllAligned(q: seq<Attr>)
    ensures |EncodeAll(q)| % 4 == 0
  {
    hide Encode, Pad4;
    if q != [] {
      EncodeAligned(q[0]);
      EncodeAllAligned(q[1..]);
    }
  }

  lemma EncodeAllMore(q: seq<Attr>, a: Attr)
    ensures EncodeAll(q + [a]) == EncodeAll(q) + Encode(a)
  {
    hide Encode;
    EncodeAllConcat(q, [a]);
    assert [a][1..] == [];
  }

  // ---------- the walk

  /** blob_pad_len of the attribute at an offset */
  function PadLenAt(m: seq<Byte>, off: nat): nat
    requires off + 4 <= |m|
  {
    Pad4(RawLenOf(Get32(m, off)))
  }

  /** The offsets that blob_for_each_attr visits */
  function Walk(m: seq<Byte>, pos: nat, rem: int): (r: seq<nat>)
    decreases rem
  {
    if rem > 0 && pos + 4 <= |m| && 4 <= PadLenAt(m, pos) <= rem then
      [pos] + Walk(m, pos + PadLenAt(m, pos), rem - PadLenAt(m, pos))
    else []
  }

  /** An attribute is at an offset of a memory, as its header and the walk tell. */
  ghost predicate Holds(m: seq<Byte>, off: nat, a: Attr)
    decreases a
  {
    && off + 4 + |Payload(a)| <= |m|
    && var v := Get32(m, off);
      && ExtOf(v) == a.ext && IdOf(v) == a.id && RawLenOf(v) == 4 + |Payload(a)|
      && match a
        case Leaf(_, _, data) => m[off + 4..off + 4 + |data|] == data
        case Node(_, _, prefix, kids) =>
          var start := off + 4 + |prefix|;
          var found := Walk(m, start, RawLenOf(v) - 4 - |prefix|);
          && m[off + 4..start] == prefix
          && |found| == |kids| && forall i :: 0 <= i < |kids| ==> Holds(m, found[i], kids[i])
  }

  ghost predicate HoldsAll(m: seq<Byte>, found: seq<nat>, kids: seq<Attr>) {
    |found| == |kids| && forall i :: 0 <= i < |kids| ==> Holds(m, found[i], kids[i])
  }

  /** The three parts of an encoded attribute */
  lemma EncodeParts(m: seq<Byte>, off: nat, a: Attr)
    requires At(m, off, Encode(a))
    ensures At(m, off, Header(a.ext, a.id, |Payload(a)|)) && At(m, off + 4, Payload(a))
  {
    hide At, Header, Payload;
    var p := Payload(a);
    var h, z := Header(a.ext, a.id, |p|), Zeros(Pad4(|p|) - |p|);
    AtParts(m, off, h + p, z);
    AtParts(m, off, h, p);
  }

  lemma HeaderRead(m: seq<Byte>, off: nat, a: Attr)
    requires At(m, off, Encode(a)) && Fits(a)
    ensures off + 4 + |Payload(a)| <= |m| && Get32(m, off) == IdLen(a.ext, a.id, 4 + |Payload(a)|)
      && PadLenAt(m, off) == |Encode(a)|
  {
    hide Payload, IdLen, Get32, Be32;
    EncodeParts(m, off, a);
    Get32OfBe32(m, off, IdLen(a.ext, a.id, 4 + |Payload(a)|));
    IdLenParts(a.ext, a.id, 4 + |Payload(a)|);
  }

  /** What was encoded at an offset is found there. */
  lemma {:induction false} EncodedHolds(m: seq<Byte>, off: nat, a: Attr)
    requires At(m, off, Encode(a)) && Fits(a)
    ensures Holds(m, off, a)
    decreases a, 0
  {
    hide Encode, EncodeAll, Get32, IdLen;
    HeaderRead(m, off, a);
    EncodeParts(m, off, a);
    IdLenParts(a.ext, a.id, 4 + |Payload(a)|);
    if a.Node? {
      AtParts(m, off + 4, a.prefix, EncodeAll(a.kids));
      AllHold(m, off + 4 + |a.prefix|, a.kids);
    }
  }

  lemma {:induction false} AllHold(m: seq<Byte>, pos: nat, kids: seq<Attr>)
    requires At(m, pos, EncodeAll(kids)) && forall i :: 0 <= i < |kids| ==> Fits(kids[i])
    ensures HoldsAll(m, Walk(m, pos, |EncodeAll(kids)|), kids)
    decreases kids
  {
    hide Encode, Holds, Fits, At, PadLenAt;
    if kids != [] {
      var e, rest := Encode(kids[0]), EncodeAll(kids[1..]);
      assert EncodeAll(kids) == e + rest;
      AtParts(m, pos, e, rest);
      HeaderRead(m, pos, kids[0]);
      EncodedHolds(m, pos, kids[0]);
      AllHold(m, pos + |e|, kids[1..]);
    }
  }
}
