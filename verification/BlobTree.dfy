/** Whole trees of attributes of libubox/blob.h: written by blob_put, blob_nest_start and blob_nest_end, and read back
    in only one way. */
module BlobTree {
  import opened Bytes
  import opened BlobFormat
  import opened Blob

  /** What blob_put and blob_nest_start can make: no flag, and no name in front of the attributes inside */
  predicate Plain(a: Attr)
    decreases a
  {
    !a.ext && (a.Node? ==> a.prefix == [] && forall i :: 0 <= i < |a.kids| ==> Plain(a.kids[i]))
  }

  /** While kids are written, there is room for the next. */
  lemma NextKid(fs: seq<Frame>, kids: seq<Attr>, i: nat)
    requires fs != [] && i < |kids| && Fit(fs, kids)
    ensures Fit(WithKids(fs, kids[..i]), [kids[i]])
    ensures WithKid(WithKids(fs, kids[..i]), kids[i]) == WithKids(fs, kids[..i+1])
  {
    hide EncodeAll, Fit, WithKids, WithKid;
    assert kids[..i+1] == kids[..i] + [kids[i]] && kids[..i+1] + kids[i+1..] == kids;
    KidsTwice(fs, kids[..i+1], kids[i+1..]);
    KidsTwice(fs, kids[..i], [kids[i]]);
    StillOpen(fs, kids[..i]);
    OneKid(WithKids(fs, kids[..i]), kids[i]);
  }

  lemma StillOpen(fs: seq<Frame>, kids: seq<Attr>)
    requires fs != []
    ensures WithKids(fs, kids) != []
  {
  }

  /** What is closed in the end is the attribute. */
  lemma PlainNode(a: Attr)
    requires a.Node? && Plain(a) && Fits(a)
    ensures a.id < 0x80 && Fit([Frame(false, a.id, [], [])], a.kids) && a == Closed(Frame(false, a.id, [], a.kids))
    ensures forall i :: 0 <= i < |a.kids| ==> Plain(a.kids[i]) && Fits(a.kids[i])
  {
    hide EncodeAll;
    assert [] + EncodeAll(a.kids) == EncodeAll(a.kids);
    FreshFrame(Frame(false, a.id, [], []));
  }

  lemma LeafRoom(fs: seq<Frame>, a: Attr)
    requires fs != [] && a.Leaf? && Fit(fs, [a])
    ensures 4 + |Body(fs[|fs|-1])| + 4 + Pad4(|a.data|) < LEN_LIMIT
  {
    hide Body;
    OneKid(fs, a);
  }

  /** Writes an attribute, with all that is in it, into the innermost open one. */
  method WriteAttr(b: BlobBuf, a: Attr)
    requires b.Valid() && Plain(a) && Fits(a) && Fit(b.frames, [a])
    modifies b, b.mem
    ensures (fresh(b.mem) || b.mem == old(b.mem)) && b.Valid() && b.frames == WithKid(old(b.frames), a)
    decreases a, 1
  {
    hide Encode, EncodeAll, Outers, FrameOk, Body, Fit, WithKids;
    ghost var fs := b.frames;
    match a {
      case Leaf(_, id, data) =>
        LeafRoom(fs, a);
        var attr := b.PutData(id, data);
      case Node(_, id, _, kids) =>
        PlainNode(a);
        OneKid(fs, a);
        NestedDone(fs, Frame(false, id, [], []), kids);
        var cookie := b.NestStart(id);
        WriteAll(b, a, kids);
        b.NestEnd(cookie);
    }
  }

  /** Writes the attributes that are in a. */
  method WriteAll(b: BlobBuf, ghost a: Attr, kids: seq<Attr>)
    requires b.Valid() && Fit(b.frames, kids) && a.Node? && kids == a.kids && Plain(a) && Fits(a)
    modifies b, b.mem
    ensures (fresh(b.mem) || b.mem == old(b.mem)) && b.Valid() && b.frames == WithKids(old(b.frames), kids)
    decreases a, 0
  {
    hide Encode, EncodeAll, FrameOk, InMemory, Fit, WithKids;
    ghost var fs := b.frames;
    var i := 0;
    NothingMore(fs);
    assert kids[..0] == [];
    while i < |kids|
      invariant i <= |kids| && b.Valid() && b.frames == WithKids(fs, kids[..i]) && (fresh(b.mem) || b.mem == old(b.mem))
    {
      NextKid(fs, kids, i);
      WriteAttr(b, kids[i]);
      i := i + 1;
    }
    assert kids[..|kids|] == kids;
  }

  /** blob_buf_init, and what goes into the buffer: the buffer then holds the tree, and the walk finds it. */
  method WriteTree(b: BlobBuf, id: nat, kids: seq<Attr>)
    requires b.mem.Length % 256 == 0 && Plain(Node(false, id, [], kids)) && Fits(Node(false, id, [], kids))
    modifies b, b.mem
    ensures b.Valid() && Holds(b.mem[..], 0, Node(false, id, [], kids))
    ensures At(b.mem[..], 0, Encode(Node(false, id, [], kids)))
  {
    hide Encode, EncodeAll, FrameOk, InMemory, Holds, Fits, Plain, Fit;
    ghost var a := Node(false, id, [], kids);
    PlainNode(a);
    b.Init(id);
    WriteAll(b, a, kids);
    assert [] + kids == kids;
    b.Finished();
  }

  // ---------- reading

  /** The reader takes the same attributes for ones with others inside, behind prefixes of the same length. */
  predicate SameShape(a: Attr, b: Attr)
    decreases a
  {
    if a.Leaf? then b.Leaf?
    else b.Node? && |a.prefix| == |b.prefix| && forall i :: 0 <= i < |a.kids| && i < |b.kids| ==>
      SameShape(a.kids[i], b.kids[i])
  }

  /** A memory holds one tree of that shape at most. */
  lemma {:induction false} HoldsOne(m: seq<Byte>, off: nat, a: Attr, b: Attr)
    requires Holds(m, off, a) && Holds(m, off, b) && SameShape(a, b)
    ensures a == b
    decreases a
  {
    hide Get32, ExtOf, IdOf, RawLenOf, Walk;
    if a.Node? {
      var found := Walk(m, off + 4 + |a.prefix|, RawLenOf(Get32(m, off)) - 4 - |a.prefix|);
      forall i | 0 <= i < |a.kids| ensures a.kids[i] == b.kids[i] {
        HoldsOne(m, found[i], a.kids[i], b.kids[i]);
      }
    }
  }

  /** What is read from a buffer that a tree was written to is that tree. */
  lemma ReadBack(m: seq<Byte>, off: nat, a: Attr, b: Attr)
    requires At(m, off, Encode(a)) && Fits(a)
    ensures SameShape(a, b) ==> (Holds(m, off, b) <==> a == b)
  {
    EncodedHolds(m, off, a);
    if SameShape(a, b) && Holds(m, off, b) { HoldsOne(m, off, a, b); }
  }
}
