/** libubox/blobmsg.c and the first half of libubox/blobmsg_json.c: named attributes, and values of JSON, are
    written. */
module Blobmsg {
  import opened Bytes
  import opened BlobFormat
  import opened Blob
  import opened BlobmsgFormat
  import opened JsonValue

  /** The memory when blobmsg_new has added an attribute */
  ghost predicate WithMsg(m: seq<Byte>, fs: seq<Frame>, head: nat, attr: nat, id: nat, prefix: seq<Byte>, payload: nat)
    requires fs != []
  {
    var n, len := |fs| - 1, |prefix| + payload;
    var body := Body(fs[n]);
    && head == |Outers(fs[..n])| && At(m, 0, Outers(fs[..n]))
      && At(m, head, Header(fs[n].ext, fs[n].id, |body| + 4 + Pad4(len)))
    && At(m, head + 4, body) && attr == head + 4 + |body| && At(m, attr, Header(true, id, len))
      && At(m, attr + 4, prefix)
    && attr + 4 + Pad4(len) <= |m| && At(m, attr + 4 + len, Zeros(Pad4(len) - len))
  }

  lemma Extended(id: nat, len: nat)
    ensures IdLen(false, id, len) + EXTENDED == IdLen(true, id, len)
  {
  }

  /** The last steps of blobmsg_new */
  lemma MsgSteps(m: seq<Byte>, fs: seq<Frame>, head: nat, attr: nat, id: nat, prefix: seq<Byte>, payload: nat)
    requires fs != [] && WithNew(m, fs, head, attr, id, |prefix| + payload) && id < 0x80
      && 4 + |prefix| + payload < LEN_LIMIT
    ensures attr + 4 + |prefix| <= |m|
    ensures var m1 := Write(m, attr, Be32(IdLen(true, id, 4 + |prefix| + payload)));
      WithMsg(Write(m1, attr + 4, prefix), fs, head, attr, id, prefix, payload)
  {
    hide At, Write, Be32, Zeros, Get32, Body, Outers, Pad4, IdLen;
    var f, outers, len := fs[|fs|-1], Outers(fs[..|fs|-1]), |prefix| + payload;
    HeaderAt(m, attr, false, id, len);
    var word := Be32(IdLen(true, id, 4 + len));
    var m1 := Write(m, attr, word);
    AtWrite(m, attr, word, 0, outers);
    AtWrite(m, attr, word, head, Header(f.ext, f.id, |Body(f)| + 4 + Pad4(len)));
    AtWrite(m, attr, word, head + 4, Body(f));
    AtWrite(m, attr, word, attr + 4 + len, Zeros(Pad4(len) - len));
    AtWrite(m1, attr + 4, prefix, 0, outers);
    AtWrite(m1, attr + 4, prefix, head, Header(f.ext, f.id, |Body(f)| + 4 + Pad4(len)));
    AtWrite(m1, attr + 4, prefix, head + 4, Body(f));
    AtWrite(m1, attr + 4, prefix, attr, word);
    AtWrite(m1, attr + 4, prefix, attr + 4 + len, Zeros(Pad4(len) - len));
  }

  /** A name is at the beginning of p. Only a name that is short enough has zeros behind it. */
  ghost predicate Named(p: seq<Byte>, name: string) {
    |p| == HdrLen(|name|) && p[..|name|+3] == NameText(name) && (|name| < 0x1_0000 ==> p == Prefix(name))
  }

  /** What strcpy and memset leave behind the header */
  lemma NamePut(m: seq<Byte>, off: nat, name: string) returns (p: seq<Byte>)
    requires off + HdrLen(|name|) <= |m|
    ensures Named(p, name)
    ensures var w, end := Write(m, off, NameText(name)), DataStart(name);
      Write(m, off, p) == if |name| + 2 < end then Write(w, off + |name| + 2, Zeros(end - |name| - 2)) else w
  {
    hide Be16;
    var w := Write(m, off, NameText(name));
    if |name| < 0x1_0000 {
      p := Prefix(name);
      assert p[..|name|+3] == NameText(name);
      assert Write(w, off + |name| + 2, Zeros(HdrLen(|name|) - |name| - 2)) == Write(m, off, p);
    } else {
      p := NameText(name) + m[off + |name| + 3..off + HdrLen(|name|)];
      assert Write(m, off, p) == w;
    }
  }

  lemma NewHead(m: seq<Byte>, fs: seq<Frame>, head: nat, attr: nat, id: nat, len: nat)
    requires fs != [] && WithNew(m, fs, head, attr, id, len) && id < 0x80 && 4 + len < LEN_LIMIT
    ensures attr + 4 <= |m| && Get32(m, attr) == IdLen(false, id, 4 + len)
  {
    hide At, Be32, Zeros, Get32, Body, Outers, Pad4, IdLen;
    HeaderAt(m, attr, false, id, len);
  }

  /** blobmsg_new. Behind the name come zeros, unless its length has been cut. */
  method New(b: BlobBuf, id: nat, name: string, payload: nat) returns (attr: nat, ghost prefix: seq<Byte>)
    requires b.Valid() && id < 0x80
      && 4 + |Body(b.frames[|b.frames|-1])| + 4 + Pad4(HdrLen(|name|) + payload) < LEN_LIMIT
    modifies b`mem, b.mem
    ensures (fresh(b.mem) || b.mem == old(b.mem)) && b.mem.Length % 256 == 0
    ensures Named(prefix, name) && WithMsg(b.mem[..], b.frames, b.head, attr, id, prefix, payload)
  {
    hide FrameOk, InMemory, WithNew, WithMsg, Write, Body, Named, IdLen, NameText, DataStart, Zeros;
    attr := b.New(id, HdrLen(|name|) + payload);
    ghost var m := b.mem[..];
    NewHead(m, b.frames, b.head, attr, id, HdrLen(|name|) + payload);
    Extended(id, 4 + HdrLen(|name|) + payload);
    b.Store(attr, Be32(Get32(b.mem[..], attr) + EXTENDED));
    NewRoom(m, b.frames, b.head, attr, id, HdrLen(|name|) + payload);
    prefix := NamePut(b.mem[..], attr + 4, name);
    NamedLength(prefix, name);
    b.Store(attr + 4, NameText(name));
    var end := DataStart(name);
    if |name| + 2 < end {
      b.Store(attr + 4 + |name| + 2, Zeros(end - |name| - 2));
    }
    MsgSteps(m, b.frames, b.head, attr, id, prefix, payload);
  }

  lemma NewRoom(m: seq<Byte>, fs: seq<Frame>, head: nat, attr: nat, id: nat, len: nat)
    requires fs != [] && WithNew(m, fs, head, attr, id, len)
    ensures attr + 4 + len <= |m|
  {
  }

  lemma NamedLength(p: seq<Byte>, name: string)
    requires Named(p, name)
    ensures |p| == HdrLen(|name|)
  {
  }

  /** Whatever is stored behind the header is part of the attribute. */
  lemma DataStored(m: seq<Byte>, fs: seq<Frame>, head: nat, attr: nat, id: nat, prefix: seq<Byte>, payload: nat,
                   off: nat, data: seq<Byte>)
    returns (d: seq<Byte>)
    requires fs != [] && WithMsg(m, fs, head, attr, id, prefix, payload) && off + |data| <= |prefix| + payload
    ensures attr + 4 + |prefix| + payload <= |m|
    ensures d == Write(m[attr + 4..attr + 4 + |prefix| + payload], off, data)
    ensures m[attr + 4..attr + 4 + |prefix| + payload][..|prefix|] == prefix
    ensures WithMsg(Write(m, attr + 4 + off, data), fs, head, attr, id, d, 0)
  {
    hide Header, Body, Outers, At, Write, Zeros;
    var f, outers, len, at := fs[|fs|-1], Outers(fs[..|fs|-1]), |prefix| + payload, attr + 4 + off;
    d := WriteWithin(m, attr + 4, len, off, prefix, data);
    AtWrite(m, at, data, 0, outers);
    AtWrite(m, at, data, head, Header(f.ext, f.id, |Body(f)| + 4 + Pad4(len)));
    AtWrite(m, at, data, head + 4, Body(f));
    AtWrite(m, at, data, attr, Header(true, id, len));
    AtWrite(m, at, data, attr + 4 + len, Zeros(Pad4(len) - len));
  }

  lemma WriteWithin(m: seq<Byte>, start: nat, len: nat, off: nat, prefix: seq<Byte>, data: seq<Byte>)
    returns (d: seq<Byte>)
    requires start + len <= |m| && off + |data| <= len && At(m, start, prefix) && |prefix| <= len
    ensures d == Write(m[start..start + len], off, data) && At(Write(m, start + off, data), start, d)
    ensures m[start..start + len][..|prefix|] == prefix
  {
    d := Write(m[start..start + len], off, data);
    assert Write(m, start + off, data)[start..start + len] == d;
  }

  lemma FieldDone(m: seq<Byte>, fs: seq<Frame>, head: nat, attr: nat, id: nat, d: seq<Byte>)
    requires FramesOk(fs) && WithMsg(m, fs, head, attr, id, d, 0) && id < 0x80
    requires 4 + |Body(fs[|fs|-1])| + 4 + Pad4(|d|) < LEN_LIMIT
    ensures var gs := WithKid(fs, Leaf(true, id, d)); FramesOk(gs) && InMemory(m, gs, head)
  {
    hide At, Header, Body, Outers, Write, Encode;
    LeafEncoded(m, attr, Leaf(true, id, d));
    KidDone(m, fs, head, Leaf(true, id, d));
  }

  /** What a field holds: a long name is cut short by the data, which is put over it. */
  ghost predicate FieldData(d: seq<Byte>, name: string, data: seq<Byte>) {
    && |d| == HdrLen(|name|) + |data|
    && At(d, DataStart(name), data) && d[..DataStart(name)] == Prefixed(name)
    && (|name| < 0x1_0000 ==> d == Prefix(name) + data)
  }

  ghost function Prefixed(name: string): seq<Byte> {
    if |name| < 0x1_0000 then Prefix(name) else NameText(name)[..DataStart(name)]
  }

  lemma FieldIs(whole: seq<Byte>, prefix: seq<Byte>, name: string, data: seq<Byte>)
    requires Named(prefix, name) && |whole| == |prefix| + |data| && whole[..|prefix|] == prefix
    ensures DataStart(name) + |data| <= |whole| && FieldData(Write(whole, DataStart(name), data), name, data)
  {
    hide Prefix, NameText;
    var n := DataStart(name);
    if |name| >= 0x1_0000 {
      assert whole[..|prefix|][..|name|+3][..n] == whole[..n];
    }
    assert Write(whole, n, data)[..n] == whole[..n];
  }

  /** blobmsg_add_field */
  method AddField(b: BlobBuf, id: nat, name: string, data: seq<Byte>) returns (ghost d: seq<Byte>)
    requires b.Valid() && id < 0x80
      && 4 + |Body(b.frames[|b.frames|-1])| + 4 + Pad4(HdrLen(|name|) + |data|) < LEN_LIMIT
    modifies b, b.mem
    ensures (fresh(b.mem) || b.mem == old(b.mem)) && b.Valid()
    ensures FieldData(d, name, data) && b.frames == WithKid(old(b.frames), Leaf(true, id, d))
  {
    hide InMemory, WithMsg, Write, Body, Pad4, FrameOk, Prefix, Named, DataStart, NameText, FieldData;
    ghost var prefix;
    var attr;
    attr, prefix := New(b, id, name, |data|);
    NamedLength(prefix, name);
    StartFits(name);
    d := DataStored(b.mem[..], b.frames, b.head, attr, id, prefix, |data|, DataStart(name), data);
    FieldIs(b.mem[attr + 4..attr + 4 + |prefix| + |data|], prefix, name, data);
    b.Store(attr + 4 + DataStart(name), data);
    FieldDone(b.mem[..], b.frames, b.head, attr, id, d);
    b.frames := WithKid(b.frames, Leaf(true, id, d));
  }

  lemma StartFits(name: string)
    ensures DataStart(name) <= HdrLen(|name|)
  {
  }

  lemma NestedOpened(m: seq<Byte>, fs: seq<Frame>, head: nat, attr: nat, id: nat, prefix: seq<Byte>)
    requires FramesOk(fs) && WithMsg(m, fs, head, attr, id, prefix, 0) && id < 0x80 && |prefix| % 4 == 0
    requires 4 + |Body(fs[|fs|-1])| + 4 + |prefix| < LEN_LIMIT
    ensures head + 4 <= |m| && PadLenAt(m, head) == 4 + |Body(fs[|fs|-1])| + 4 + |prefix|
    ensures var g := Frame(true, id, prefix, []);
      var m' := Write(m, head, Be32(WithRawLen(Get32(m, head), 4 + |Body(fs[|fs|-1])| + 4)));
      FramesOk(fs + [g]) && InMemory(m', fs + [g], attr)
  {
    hide At, Body, Outers, Write, WithRawLen, IdLen, Be32, Get32, PadLenAt;
    var f, outers, g := fs[|fs|-1], Outers(fs[..|fs|-1]), Frame(true, id, prefix, []);
    BodyAligned(f);
    SumAligned(|prefix|, |Body(f)|);
    SumAligned(|Body(f)| + 4, |prefix|);
    SumAligned(|Body(f)| + 4 + |prefix|, 0);
    HeaderAt(m, head, f.ext, f.id, |Body(f)| + 4 + |prefix|);
    RawLenSet(f.ext, f.id, 4 + |Body(f)| + 4 + |prefix|, 4 + |Body(f)| + 4);
    var word := Be32(IdLen(f.ext, f.id, 4 + |Body(f)| + 4));
    AtWrite(m, head, word, 0, outers);
    AtWrite(m, head, word, head + 4, Body(f));
    AtWrite(m, head, word, attr, Header(true, id, |prefix|));
    AtWrite(m, head, word, attr + 4, prefix);
    FreshFrame(g);
    AtParts(Write(m, head, word), attr, Header(true, id, |prefix|), prefix);
    KidOpened(Write(m, head, word), fs, head, g);
  }

  /** blobmsg_open_nested, with its cookie */
  method OpenNested(b: BlobBuf, name: string, isArray: bool) returns (cookie: nat, ghost prefix: seq<Byte>)
    requires b.Valid() && 4 + |Body(b.frames[|b.frames|-1])| + 4 + HdrLen(|name|) < LEN_LIMIT
    modifies b, b.mem
    ensures (fresh(b.mem) || b.mem == old(b.mem)) && b.Valid() && cookie == ToCookie(old(b.head))
    ensures Named(prefix, name)
      && b.frames == old(b.frames) + [Frame(true, if isArray then ARRAY else TABLE, prefix, [])]
  {
    hide InMemory, WithMsg, Write, Body, FrameOk, Prefix, WithRawLen, PadLenAt, Named;
    cookie := ToCookie(b.head);
    var id := if isArray then ARRAY else TABLE;
    var attr;
    attr, prefix := New(b, id, name, 0);
    NamedLength(prefix, name);
    NestedOpened(b.mem[..], b.frames, b.head, attr, id, prefix);
    b.SetRawLen(b.head, PadLenAt(b.mem[..], b.head) - HdrLen(|name|));
    b.head := attr;
    b.frames := b.frames + [Frame(true, id, prefix, [])];
  }

  // ---------- values of JSON

  lemma ItemsOn(v: Json, i: nat)
    requires v.Array? && i < |v.items|
    ensures ItemAttrs(v, i) == Added("", v.items[i]) + if Convertible(v.items[i]) then ItemAttrs(v, i + 1) else []
  {
  }

  lemma FieldsOn(v: Json, i: nat)
    requires v.Object? && i < |v.fields|
    ensures FieldAttrs(v, i)
        == Added(CString(v.fields[i].key), v.fields[i].value)
             + if Convertible(v.fields[i].value) then FieldAttrs(v, i + 1) else []
  {
  }

  /** blobmsg_add_json_element */
  method AddJsonElement(b: BlobBuf, name: string, v: Json) returns (ok: bool)
    requires b.Valid() && Fit(b.frames, Added(name, v)) && |name| < 0x1_0000 && ShortKeys(v)
    modifies b, b.mem
    ensures (fresh(b.mem) || b.mem == old(b.mem)) && b.Valid() && ok == Convertible(v)
    ensures b.frames == WithKids(old(b.frames), Added(name, v))
    decreases v, 2, 0
  {
    hide InMemory, Body, FrameOk, Prefix, EncodeAll, Encode, Fit, WithKid, Outers, ShortKeys, FieldData, Data,
      Convertible;
    LeafConverts(v);
    if v.Object? || v.Array? {
      ok := AddNested(b, name, v);
    } else if HasAttr(v) {
      LeafFits(b.frames, name, v);
      ghost var d;
      d := AddField(b, TypeOf(v), name, Data(v));
      ShortField(d, name, Data(v));
      ok := true;
    } else {
      NothingMore(b.frames);
      ok := false;
    }
  }

  lemma ShortField(d: seq<Byte>, name: string, data: seq<Byte>)
    requires FieldData(d, name, data) && |name| < 0x1_0000
    ensures d == Prefix(name) + data
  {
  }

  lemma LeafConverts(v: Json)
    ensures !v.Array? && !v.Object? ==> Convertible(v) == HasAttr(v)
  {
  }

  lemma ShortName(p: seq<Byte>, name: string)
    requires Named(p, name) && |name| < 0x1_0000
    ensures p == Prefix(name)
  {
  }

  lemma HeadIs(m: seq<Byte>, fs: seq<Frame>, head: nat)
    requires fs != [] && InMemory(m, fs, head)
    ensures head == |Outers(fs[..|fs|-1])|
  {
  }

  /** Its cases for an array and an object */
  method AddNested(b: BlobBuf, name: string, v: Json) returns (ok: bool)
    requires (v.Array? || v.Object?) && b.Valid() && Fit(b.frames, Added(name, v)) && |name| < 0x1_0000 && ShortKeys(v)
    modifies b, b.mem
    ensures (fresh(b.mem) || b.mem == old(b.mem)) && b.Valid() && ok == Convertible(v)
    ensures b.frames == WithKids(old(b.frames), Added(name, v))
    decreases v, 1, 1
  {
    hide InMemory, Body, FrameOk, Prefix, EncodeAll, Encode, Fit, WithKid, Outers, Convertible, Closed, WithKids,
      ItemAttrs, FieldAttrs, ShortKeys;
    ghost var kids := if v.Array? then ItemAttrs(v, 0) else FieldAttrs(v, 0);
    HeadIs(b.mem[..], b.frames, b.head);
    NestedDone(b.frames, Frame(true, TypeOf(v), Prefix(name), []), kids);
    var c, prefix := OpenNested(b, name, v.Array?);
    ShortName(prefix, name);
    if v.Array? {
      ok := AddArray(b, v);
    } else {
      ok := AddObject(b, v);
    }
    b.NestEnd(c);
  }

  lemma LeafFits(fs: seq<Frame>, name: string, v: Json)
    requires fs != [] && HasAttr(v) && !v.Array? && !v.Object? && Fit(fs, Added(name, v))
    ensures 4 + |Body(fs[|fs|-1])| + 4 + Pad4(HdrLen(|name|) + |Data(v)|) < LEN_LIMIT
    ensures WithKid(fs, Leaf(true, TypeOf(v), Prefix(name) + Data(v))) == WithKids(fs, Added(name, v))
  {
    hide Body, Prefix, Data, WithKid, WithKids, TypeOf, Fit, Encode, EncodeAll, Convertible, ItemAttrs, FieldAttrs,
      HdrLen, Pad4;
    OneKid(fs, ToAttr(name, v));
    LeafLength(ToAttr(name, v));
  }

  lemma LeafLength(a: Attr)
    requires a.Leaf?
    ensures |Encode(a)| == 4 + Pad4(|a.data|)
  {
  }

  /** Where an item fails, all fails. */
  lemma FailsAt(v: Json, i: nat)
    ensures v.Array? && i < |v.items| && !Convertible(v.items[i]) ==> !Convertible(v)
    ensures v.Object? && i < |v.fields| && !Convertible(v.fields[i].value) ==> !Convertible(v)
  {
  }

  /** blobmsg_add_array: the first item that fails is the last. */
  method AddArray(b: BlobBuf, v: Json) returns (ok: bool)
    requires v.Array? && b.Valid() && Fit(b.frames, ItemAttrs(v, 0)) && ShortKeys(v)
    modifies b, b.mem
    ensures (fresh(b.mem) || b.mem == old(b.mem)) && b.Valid() && ok == Convertible(v)
    ensures b.frames == WithKids(old(b.frames), ItemAttrs(v, 0))
    decreases v, 1, 0
  {
    hide InMemory, FrameOk, ItemAttrs, Fit, WithKids;
    ghost var fs, done := b.frames, [];
    NothingMore(fs);
    var i := 0;
    while i < |v.items|
      invariant i <= |v.items| && (fresh(b.mem) || b.mem == old(b.mem)) && b.Valid()
      invariant b.frames == WithKids(fs, done) && done + ItemAttrs(v, i) == ItemAttrs(v, 0)
      invariant forall j :: 0 <= j < i ==> Convertible(v.items[j])
    {
      ghost var a := Added("", v.items[i]);
      ItemsOn(v, i);
      FailsAt(v, i);
      assert a + [] == a && done + (a + ItemAttrs(v, i + 1)) == (done + a) + ItemAttrs(v, i + 1);
      KidsTwice(fs, done, ItemAttrs(v, i));
      KidsTwice(fs, done, a);
      KidsTwice(WithKids(fs, done), a, if Convertible(v.items[i]) then ItemAttrs(v, i + 1) else []);
      var added := AddJsonElement(b, "", v.items[i]);
      done := done + a;
      if !added {
        return false;
      }
      i := i + 1;
    }
    NoItems(v);
    assert done + [] == done;
    return true;
  }

  lemma NoItems(v: Json)
    ensures v.Array? ==> ItemAttrs(v, |v.items|) == []
    ensures v.Object? ==> FieldAttrs(v, |v.fields|) == []
  {
  }

  /** blobmsg_add_object */
  method AddObject(b: BlobBuf, v: Json) returns (ok: bool)
    requires v.Object? && b.Valid() && Fit(b.frames, FieldAttrs(v, 0)) && ShortKeys(v)
    modifies b, b.mem
    ensures (fresh(b.mem) || b.mem == old(b.mem)) && b.Valid() && ok == Convertible(v)
    ensures b.frames == WithKids(old(b.frames), FieldAttrs(v, 0))
    decreases v, 1, 0
  {
    hide InMemory, FrameOk, FieldAttrs, Fit, WithKids;
    ghost var fs, done := b.frames, [];
    NothingMore(fs);
    var i := 0;
    while i < |v.fields|
      invariant i <= |v.fields| && (fresh(b.mem) || b.mem == old(b.mem)) && b.Valid()
      invariant b.frames == WithKids(fs, done) && done + FieldAttrs(v, i) == FieldAttrs(v, 0)
      invariant forall j :: 0 <= j < i ==> Convertible(v.fields[j].value)
    {
      ghost var a := Added(CString(v.fields[i].key), v.fields[i].value);
      FieldsOn(v, i);
      FailsAt(v, i);
      assert a + [] == a && done + (a + FieldAttrs(v, i + 1)) == (done + a) + FieldAttrs(v, i + 1);
      KidsTwice(fs, done, FieldAttrs(v, i));
      KidsTwice(fs, done, a);
      KidsTwice(WithKids(fs, done), a, if Convertible(v.fields[i].value) then FieldAttrs(v, i + 1) else []);
      var added := AddJsonElement(b, CString(v.fields[i].key), v.fields[i].value);
      done := done + a;
      if !added {
        return false;
      }
      i := i + 1;
    }
    NoItems(v);
    assert done + [] == done;
    return true;
  }
}
