/** libubox/blobmsg_json.c: from JSON to attributes and back to text. */
module BlobmsgJson {
  import opened Bytes
  import opened BlobFormat
  import opened Blob
  import opened BlobmsgFormat
  import opened Blobmsg
  import opened BlobmsgText
  import opened BlobmsgRead
  import opened JsonValue
  import opened JsonPrinter
  import R = JsonRoundTrip
  import T = JsonTokener

  /** The escapes of one letter */
  function ShortFor(c: char): Option<char> {
    if c == 8 as char then Some('b')
    else if c == '\n' then Some('n') else if c == '\t' then Some('t') else if c == '\r' then Some('r')
    else if c == '"' || c == '\\' then Some(c) else None
  }

  lemma CharTextIs(c: char)
    ensures CharText(c) == if ShortFor(c).Some? then ['\\', ShortFor(c).value] else if c < ' ' then R.UnicodeEscape(c)
      else [c]
  {
  }

  lemma CharsMore(s: string, p: nat)
    requires p < |s|
    ensures CharsText(s[..p+1]) == CharsText(s[..p]) + CharText(s[p])
  {
    hide CharText;
    assert s[..p+1] == s[..p] + [s[p]];
    CharsConcat(s[..p], [s[p]]);
    assert CharsText([s[p]]) == CharText(s[p]) + CharsText("");
  }

  lemma {:induction false} CharsConcat(s: string, t: string)
    ensures CharsText(s + t) == CharsText(s) + CharsText(t)
  {
    hide CharText;
    if s == "" {
      assert s + t == t;
    } else {
      assert (s + t)[0] == s[0] && (s + t)[1..] == s[1..] + t;
      CharsConcat(s[1..], t);
    }
  }

  /** strbuf */
  class StrBuf {
    var buf: string
    const indent: bool
    var indentLevel: nat

    constructor (indent: bool, level: nat)
      ensures buf == "" && this.indent == indent && indentLevel == level
    {
      this.indent := indent;
      buf, indentLevel := "", level;
    }

    /** blobmsg_puts */
    method Puts(c: string)
      modifies this`buf
      ensures buf == old(buf) + c
    {
      buf := buf + c;
    }

    /** add_separator */
    method AddSeparator()
      modifies this`buf
      ensures buf == old(buf) + Separator(indentLevel, indent)
    {
      if !indent {
        return;
      }
      Puts("\n" + Tabs(if indentLevel > 16 then 16 else indentLevel));
    }

    /** blobmsg_format_string: what needs no escape is put in one piece. */
    method FormatString(str: string)
      modifies this`buf
      ensures buf == old(buf) + StringText(str)
    {
      hide CharText, CharsText, R.UnicodeEscape;
      Puts("\"");
      ghost var start := buf;
      var p, last := 0, 0;
      Nothing(str);
      while p < |str|
        invariant 0 <= last <= p <= |str|
        invariant buf + str[last..p] == start + CharsText(str[..p])
      {
        CharTextIs(str[p]);
        CharsMore(str, p);
        Slices(str, last, p, buf);
        Together(start, CharsText(str[..p]), CharText(str[p]));
        if ShortFor(str[p]).Some? || str[p] < ' ' {
          if p > last {
            Puts(str[last..p]);
          }
          last := p + 1;
          if ShortFor(str[p]).Some? {
            Puts(['\\', ShortFor(str[p]).value]);
          } else {
            Puts(R.UnicodeEscape(str[p]));
          }
        }
        p := p + 1;
      }
      Slices(str, last, p, buf);
      Puts(str[last..]);
      Puts("\"");
      Quoted(old(buf), CharsText(str));
    }

    lemma Nothing(s: string)
      ensures s[..0] == s[0..0] == "" && CharsText("") == "" && s[..|s|] == s
    {
    }

    lemma Quoted(front: string, s: string)
      ensures front + "\"" + s + "\"" == front + ("\"" + s + "\"")
    {
    }

    /** The start of blobmsg_format_element: the name, unless it is that of an item or empty */
    method FormatKey(m: seq<Byte>, off: nat, isArray: bool)
      requires off + 6 <= |m|
      modifies this`buf
      ensures buf == old(buf) + KeyText(m, off, isArray, indent)
    {
      hide StringText, CStringAt, Colon;
      if !isArray && CStringAt(m, off + 6) != "" {
        FormatString(CStringAt(m, off + 6));
        Puts(Colon(indent));
      }
    }

    /** blobmsg_format_element */
    method FormatElement(m: seq<Byte>, off: nat, isArray: bool)
      requires off + 4 <= |m|
      modifies this
      ensures buf == old(buf) + ElementText(m, off, isArray, old(indentLevel), indent)
        && indentLevel == old(indentLevel)
      decreases RawLenOf(Get32(m, off)), 0
    {
      hide StringText, Get32, Get16, ListText, ScalarText, KeyText, DataLen;
      if !CheckAttr(m, off) {
        return;
      }
      FormatKey(m, off, isArray);
      var data := DataOff(m, off);
      var len := DataLen(m, off);
      if Id(m, off) == ARRAY || Id(m, off) == TABLE {
        Shorter(m, off);
        FormatJsonList(m, data, len, Id(m, off) == ARRAY);
      } else {
        FormatScalar(m, data, Id(m, off));
      }
    }

    lemma Shorter(m: seq<Byte>, off: nat)
      requires off + 6 <= |m| && BlobLen(m, off) >= 2
      ensures Nat(DataLen(m, off)) < RawLenOf(Get32(m, off))
    {
    }

    /** Its cases for data that is not an array or a table */
    method FormatScalar(m: seq<Byte>, data: nat, id: nat)
      requires (id == INT8 ==> data < |m|) && (id == INT16 ==> data + 2 <= |m|) && (id == INT32 ==> data + 4 <= |m|)
        && (id == INT64 ==> data + 8 <= |m|)
      modifies this`buf
      ensures buf == old(buf) + ScalarText(m, data, id)
    {
      hide StringText, CStringAt;
      if id == STRING {
        FormatString(CStringAt(m, data));
      } else {
        Puts(ScalarText(m, data, id));
      }
    }

    /** blobmsg_format_json_list */
    method FormatJsonList(m: seq<Byte>, start: nat, len: int, isArray: bool)
      modifies this
      ensures buf == old(buf) + ListText(m, start, len, isArray, old(indentLevel), indent)
        && indentLevel == old(indentLevel)
      decreases Nat(len), 2
    {
      hide Separator, ElementsText;
      Puts(if isArray then "[" else "{");
      indentLevel := indentLevel + 1;
      AddSeparator();
      FormatElements(m, start, len, isArray);
      indentLevel := indentLevel - 1;
      AddSeparator();
      Puts(if isArray then "]" else "}");
      Bracketed(old(buf), if isArray then "[" else "{", Separator(indentLevel + 1, indent),
        ElementsText(m, start, len, isArray, true, indentLevel + 1, indent), Separator(indentLevel, indent),
          if isArray then "]" else "}");
    }

    /** Its loop */
    method FormatElements(m: seq<Byte>, start: nat, len: int, isArray: bool)
      modifies this
      ensures buf == old(buf) + ElementsText(m, start, len, isArray, true, indentLevel, indent)
        && indentLevel == old(indentLevel)
      decreases Nat(len), 1
    {
      hide Separator, ElementsText, ElementText, PadLenAt;
      ghost var all := old(buf) + ElementsText(m, start, len, isArray, true, indentLevel, indent);
      var pos: nat, rem, first := start, len, true;
      while rem > 0 && pos + 4 <= |m| && 4 <= PadLenAt(m, pos) <= rem
        invariant rem <= len && indentLevel == old(indentLevel)
        invariant buf + ElementsText(m, pos, rem, isArray, first, indentLevel, indent) == all
        decreases rem
      {
        ghost var before, size := buf, PadLenAt(m, pos);
        ElementsOn(m, pos, rem, isArray, first, indentLevel, indent);
        Bracketed(before, if first then "" else "," + Separator(indentLevel, indent),
          ElementText(m, pos, isArray, indentLevel, indent),
          ElementsText(m, pos + size, rem - size, isArray, false, indentLevel, indent), "", "");
        if !first {
          Puts(",");
          AddSeparator();
        }
        PaddedLonger(m, pos);
        FormatElement(m, pos, isArray);
        first := false;
        rem, pos := rem - PadLenAt(m, pos), pos + PadLenAt(m, pos);
      }
      ElementsEnd(m, pos, rem, isArray, first, indentLevel, indent);
    }

    lemma Bracketed(front: string, a: string, b: string, c: string, d: string, e: string)
      ensures front + a + b + c + d + e == front + (a + b + c + d + e)
    {
    }

    lemma PaddedLonger(m: seq<Byte>, pos: nat)
      requires pos + 4 <= |m|
      ensures RawLenOf(Get32(m, pos)) <= PadLenAt(m, pos)
    {
    }
  }

  lemma ElementsOn(m: seq<Byte>, pos: nat, rem: int, isArray: bool, first: bool, level: nat, indent: bool)
    requires rem > 0 && pos + 4 <= |m| && 4 <= PadLenAt(m, pos) <= rem
    ensures ElementsText(m, pos, rem, isArray, first, level, indent)
         == (if first then "" else "," + Separator(level, indent)) + ElementText(m, pos, isArray, level, indent)
            + ElementsText(m, pos + PadLenAt(m, pos), rem - PadLenAt(m, pos), isArray, false, level, indent)
  {
    hide Separator, ElementText, PadLenAt;
  }

  lemma ElementsEnd(m: seq<Byte>, pos: nat, rem: int, isArray: bool, first: bool, level: nat, indent: bool)
    requires !(rem > 0 && pos + 4 <= |m| && 4 <= PadLenAt(m, pos) <= rem)
    ensures ElementsText(m, pos, rem, isArray, first, level, indent) == ""
  {
  }

  /** __blobmsg_add_json, for what the parser has returned */
  method AddJson(b: BlobBuf, v: Json) returns (ok: bool)
    requires b.Valid() && (v.Object? ==> Fit(b.frames, FieldAttrs(v, 0)) && ShortKeys(v))
    modifies b, b.mem
    ensures (fresh(b.mem) || b.mem == old(b.mem)) && b.Valid() && ok == (v.Object? && Convertible(v))
    ensures b.frames == WithKids(old(b.frames), if v.Object? then FieldAttrs(v, 0) else [])
  {
    hide InMemory, FrameOk, Fit, WithKids;
    if v.Object? {
      ok := AddObject(b, v);
    } else {
      NothingMore(b.frames);
      ok := false;
    }
  }

  /** blobmsg_format_json_with_cb for a list, without a callback */
  method FormatJson(m: seq<Byte>, attr: nat, indent: int) returns (text: string)
    requires attr + 6 <= |m|
    ensures text == ListText(m, DataOff(m, attr), DataLen(m, attr), ExtOf(Get32(m, attr))
      && Id(m, attr) == ARRAY, Nat(indent), indent >= 0)
  {
    var s := new StrBuf(indent >= 0, Nat(indent));
    s.FormatJsonList(m, DataOff(m, attr), DataLen(m, attr), ExtOf(Get32(m, attr)) && Id(m, attr) == ARRAY);
    return s.buf;
  }

  /** What a buffer with an object holds, and how it is printed */
  lemma ObjectPrinted(m: seq<Byte>, id: nat, v: Json, level: nat, indent: bool)
    requires v.Object? && Convertible(v) && Nameable(v) && |m| >= 6
    requires var a := Closed(Frame(false, id, [], FieldAttrs(v, 0))); At(m, 0, Encode(a)) && Fits(a)
    ensures !ExtOf(Get32(m, 0)) && DataOff(m, 0) == 4
    ensures ListText(m, 4, DataLen(m, 0), false, level, indent) == Text(v, level, indent)
  {
    hide Encode, EncodeAll, Get32, At, Text, ElementsText, FieldsText, Separator, IdLen, Convertible, Nameable, Fits;
    var a := Closed(Frame(false, id, [], FieldAttrs(v, 0)));
    RootFits(a);
    HeaderRead(m, 0, a);
    EncodeParts(m, 0, a);
    IdLenParts(false, id, 4 + |Payload(a)|);
    assert Payload(a) == EncodeAll(FieldAttrs(v, 0));
    FieldsBack(m, 4, v, 0, level + 1, indent);
    ListIs(v, level, indent);
  }

  lemma RootFits(a: Attr)
    requires a.Node? && Fits(a)
    ensures AllFit(a.kids) && a.id < 0x80 && 4 + |Payload(a)| < LEN_LIMIT
  {
  }

  /** An object goes through a buffer into text, and the text is the object, its strings cut at a NUL and its numbers to
      32 bits. */
  method Exchange(v: Json, id: nat, indent: int, t: T.Tok) returns (text: string)
    requires v.Object? && Convertible(v) && Keyed(v) && Nameable(v) && R.Nests(v, |t.stack|) && t.depth == 0
      && T.Top(t) == T.FRESH
    requires id < 0x80 && 4 + |EncodeAll(FieldAttrs(v, 0))| < LEN_LIMIT
    ensures text == Text(v, Nat(indent), indent >= 0)
    ensures var r := T.Parse(t, text + [NUL]).tok;
      r.err == T.Success && T.Result(r) == Narrow(v) && (Small(v) ==> T.Result(r) == v)
  {
    hide Text, T.Parse, EncodeAll, Encode, Keyed, R.Nests, Convertible, Nameable, ListText, Narrow, Small, T.Result,
      FieldAttrs;
    var b := new BlobBuf();
    b.Init(id);
    Roomy(id, FieldAttrs(v, 0));
    NameableKeys(v);
    var ok := AddJson(b, v);
    b.Finished();
    Longer(b);
    ObjectPrinted(b.mem[..], id, v, Nat(indent), indent >= 0);
    text := FormatJson(b.mem[..], 0, indent);
    TextRoundTrip(t, v, Nat(indent), indent >= 0);
    if Small(v) { NarrowSame(v); }
  }

  lemma Roomy(id: nat, kids: seq<Attr>)
    requires 4 + |EncodeAll(kids)| < LEN_LIMIT
    ensures Fit([Frame(false, id, [], [])], kids)
      && WithKids([Frame(false, id, [], [])], kids) == [Frame(false, id, [], kids)]
  {
    FreshFrame(Frame(false, id, [], []));
    assert [] + kids == kids;
  }

  /** A buffer that is in use has at least 256 bytes. */
  lemma Longer(b: BlobBuf)
    requires b.Valid()
    ensures b.mem.Length >= 6
  {
  }
}
