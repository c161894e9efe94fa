/** The getters of libubox/blobmsg.h, blobmsg_check_attr, and the text that libubox/blobmsg_json.c writes for what is in
    memory. */
module BlobmsgRead {
  import opened Bytes
  import opened BlobFormat
  import opened BlobmsgFormat
  import opened BlobmsgText
  import opened JsonValue
  import opened JsonPrinter

  /** blob_len */
  function BlobLen(m: seq<Byte>, off: nat): int
    requires off + 4 <= |m|
  {
    RawLenOf(Get32(m, off)) - 4
  }

  function Id(m: seq<Byte>, off: nat): nat
    requires off + 4 <= |m|
  {
    IdOf(Get32(m, off))
  }

  /** blobmsg_data and blobmsg_data_len, as offset and length */
  function DataOff(m: seq<Byte>, off: nat): nat
    requires off + 6 <= |m|
  {
    off + 4 + if ExtOf(Get32(m, off)) then HdrLen(Get16(m, off + 4)) else 0
  }

  function DataLen(m: seq<Byte>, off: nat): int
    requires off + 6 <= |m|
  {
    BlobLen(m, off) - (DataOff(m, off) - off - 4)
  }

  /** A C string in memory */
  function CStringAt(m: seq<Byte>, off: nat): string
    decreases |m| - off
  {
    if off >= |m| || m[off] == 0 then "" else [m[off] as char] + CStringAt(m, off + 1)
  }

  /** blob_check_type for the type that goes with a blobmsg type. Data that would end outside the memory has no type. */
  predicate CheckType(m: seq<Byte>, off: nat, len: int, id: nat) {
    if id == ARRAY || id == TABLE || id == UNSPEC then true
    else
      && 0 < len && off + len <= |m|
      && (if id == STRING then m[off + len - 1] == 0
          else len == if id == INT8 then 1 else if id == INT16 then 2 else if id == INT32 then 4 else 8)
  }

  /** blobmsg_check_attr, for an attribute that need not have a name */
  predicate CheckAttr(m: seq<Byte>, off: nat) {
    && off + 6 <= |m| && BlobLen(m, off) >= 2
    && Get16(m, off + 4) <= BlobLen(m, off) - 2 && off + 6 + Get16(m, off + 4) < |m|
      && m[off + 6 + Get16(m, off + 4)] == 0
    && Id(m, off) <= 7 && CheckType(m, DataOff(m, off), DataLen(m, off), Id(m, off))
  }

  /** The int32_t with these bits */
  function Signed32(w: nat): int {
    if w >= 0x8000_0000 then w - 0x1_0000_0000 else w
  }

  function Signed64(w: nat): int {
    if w >= 0x8000_0000_0000_0000 then w - 0x1_0000_0000_0000_0000 else w
  }

  /** What blobmsg_format_element writes for data that is not an array or a table */
  function ScalarText(m: seq<Byte>, off: nat, id: nat): string
    requires (id == INT8 ==> off < |m|) && (id == INT16 ==> off + 2 <= |m|) && (id == INT32 ==> off + 4 <= |m|)
      && (id == INT64 ==> off + 8 <= |m|)
  {
    if id == INT8 then (if m[off] != 0 then "true" else "false")
    else if id == INT16 then IntText(Get16(m, off))
    else if id == INT32 then IntText(Signed32(Get32(m, off)))
    else if id == INT64 then IntText(Signed64(Get32(m, off) * 0x1_0000_0000 + Get32(m, off + 4)))
    else if id == STRING then StringText(CStringAt(m, off))
    else "null"
  }

  /** How many bytes a number has */
  function Width(id: nat): nat {
    if id == INT16 then 2 else if id == INT32 then 4 else 8
  }

  /** The bytes of a number are written in decimal: those of an INT16 as they are, those of the others as the number
      with a sign that has these bits. */
  lemma NumberText(m: seq<Byte>, off: nat, id: nat) returns (n: int)
    requires (id == INT16 || id == INT32 || id == INT64) && off + Width(id) <= |m|
    ensures ScalarText(m, off, id) == IntText(n)
    ensures id == INT16 ==> n == Number(m[off..off+2])
    ensures id == INT32 ==>
      -0x8000_0000 <= n < 0x8000_0000 && (n - Number(m[off..off+4])) % 0x1_0000_0000 == 0
    ensures id == INT64 ==>
      && -0x8000_0000_0000_0000 <= n < 0x8000_0000_0000_0000
      && (n - Number(m[off..off+8])) % 0x1_0000_0000_0000_0000 == 0
  {
    Be16IsNumber(0, m, off);
    Be32IsNumber(0, m, off);
    if id == INT16 {
      n := Number(m[off..off+2]);
    } else if id == INT32 {
      n := Signed32(Number(m[off..off+4]));
    } else {
      NumberOfEight(m, off);
      n := Signed64(Number(m[off..off+8]));
    }
  }

  lemma NumberOfEight(m: seq<Byte>, off: nat)
    requires off + 8 <= |m|
    ensures Number(m[off..off+8]) == Get32(m, off) * 0x1_0000_0000 + Get32(m, off + 4)
    ensures Number(m[off..off+8]) < 0x1_0000_0000_0000_0000
  {
    Be32IsNumber(0, m, off);
    assert m[off..off+8][..7] == m[off..off+7] && m[off..off+7][..6] == m[off..off+6];
    assert m[off..off+6][..5] == m[off..off+5] && m[off..off+5][..4] == m[off..off+4];
    assert Number(m[off..off+5]) == Number(m[off..off+4]) * 0x100 + m[off+4];
    assert Number(m[off..off+6]) == Number(m[off..off+5]) * 0x100 + m[off+5];
    assert Number(m[off..off+7]) == Number(m[off..off+6]) * 0x100 + m[off+6];
  }

  function KeyText(m: seq<Byte>, off: nat, isArray: bool, indent: bool): string
    requires off + 6 <= |m|
  {
    if isArray || CStringAt(m, off + 6) == "" then "" else StringText(CStringAt(m, off + 6)) + Colon(indent)
  }

  function Nat(n: int): nat {
    if n < 0 then 0 else n
  }

  /** blobmsg_format_element */
  function ElementText(m: seq<Byte>, off: nat, isArray: bool, level: nat, indent: bool): string
    requires off + 4 <= |m|
    decreases RawLenOf(Get32(m, off)), 0
  {
    if !CheckAttr(m, off) then ""
    else
      var (id, data) := (Id(m, off), DataOff(m, off));
      KeyText(m, off, isArray, indent) +
      (if id == ARRAY || id == TABLE then ListText(m, data, DataLen(m, off), id == ARRAY, level, indent)
       else ScalarText(m, data, id))
  }

  /** blobmsg_format_json_list */
  function ListText(m: seq<Byte>, pos: nat, len: int, isArray: bool, level: nat, indent: bool): string
    decreases Nat(len), 2
  {
    (if isArray then "[" else "{") + Separator(level + 1, indent)
      + ElementsText(m, pos, len, isArray, true, level + 1, indent) + Separator(level, indent)
      + (if isArray then "]" else "}")
  }

  /** Its loop */
  function ElementsText(m: seq<Byte>, pos: nat, rem: int, isArray: bool, first: bool, level: nat, indent: bool): string
    decreases Nat(rem), 1
  {
    if rem > 0 && pos + 4 <= |m| && 4 <= PadLenAt(m, pos) <= rem then
      (if first then "" else "," + Separator(level, indent)) + ElementText(m, pos, isArray, level, indent)
        + ElementsText(m, pos + PadLenAt(m, pos), rem - PadLenAt(m, pos), isArray, false, level, indent)
    else ""
  }

  // ---------- what was written from a value of JSON

  /** The names and strings of a value are of bytes, and names have no more than 16 bits of length. */
  predicate Nameable(v: Json)
    decreases v
  {
    match v
    case Str(s) => IsBytes(s)
    case Array(items) => forall i :: 0 <= i < |items| ==> Nameable(items[i])
    case Object(fields) => forall i :: 0 <= i < |fields| ==> Nameable(fields[i].value) && NameOk(CString(fields[i].key))
    case _ => true
  }

  predicate NameOk(name: string) {
    IsBytes(name) && NUL !in name && |name| < 0x1_0000
  }

  lemma {:induction false} NameableKeys(v: Json)
    requires Nameable(v)
    ensures ShortKeys(v)
    decreases v
  {
    hide IsBytes, CString;
    match v
    case Array(items) =>
      forall i | 0 <= i < |items| ensures ShortKeys(items[i]) { NameableKeys(items[i]); }
    case Object(fields) =>
      forall i | 0 <= i < |fields| ensures ShortKeys(fields[i].value) { NameableKeys(fields[i].value); }
    case _ =>
  }

  lemma {:induction false} CStringBack(m: seq<Byte>, off: nat, s: string)
    requires At(m, off, BytesOf(s)) && off + |s| < |m| && m[off + |s|] == 0 && IsBytes(s) && NUL !in s
    ensures CStringAt(m, off) == s
    decreases |s|
  {
    if s != "" {
      var rest := s[1..];
      assert BytesOf(s) == [s[0] as int % 256] + BytesOf(rest) && s[0] in s;
      assert forall c :: c in rest ==> c in s;
      AtParts(m, off, [s[0] as int % 256], BytesOf(rest));
      CStringBack(m, off + 1, rest);
      assert m[off] == m[off..off+1][0];
      assert s == [s[0]] + rest;
    }
  }

  /** The name of an attribute */
  lemma NameBack(m: seq<Byte>, off: nat, name: string)
    requires At(m, off, Prefix(name)) && NameOk(name)
    ensures off + 2 + |name| < |m| && Get16(m, off) == |name| && CStringAt(m, off + 2) == name
      && m[off + 2 + |name|] == 0
  {
    var zeros := Zeros(HdrLen(|name|) - 2 - |name|);
    AtParts(m, off, Be16(|name|) + BytesOf(name), zeros);
    AtParts(m, off, Be16(|name|), BytesOf(name));
    assert m[off] == m[off..off+2][0] && m[off+1] == m[off..off+2][1];
    assert m[off + 2 + |name|] == m[off + 2 + |name|..off + 2 + |name| + |zeros|][0];
    CStringBack(m, off + 2, name);
  }

  /** The data of a value that is not an array or an object, as it is printed */
  lemma ScalarBack(m: seq<Byte>, off: nat, v: Json, level: nat, indent: bool)
    requires At(m, off, Data(v)) && HasAttr(v) && Nameable(v) && !v.Array? && !v.Object?
    ensures CheckType(m, off, |Data(v)|, TypeOf(v)) && Convertible(v)
    ensures ScalarText(m, off, TypeOf(v)) == Text(v, level, indent)
  {
    match v
    case Null =>
    case Bool(b) => assert m[off] == m[off..off+1][0];
    case Int(n) => Get32OfBe32(m, off, Word(ToInt32(n)));
    case Str(s) =>
      var c := CString(s);
      AtParts(m, off, BytesOf(c), [0]);
      assert m[off + |c|] == m[off + |c|..off + |c| + 1][0];
      assert forall x :: x in c ==> x in s;
      CStringBack(m, off, c);
  }

  function KeyOf(name: string, isArray: bool, indent: bool): string {
    if isArray || name == "" then "" else StringText(name) + Colon(indent)
  }

  ghost predicate AllFit(q: seq<Attr>) {
    forall k :: 0 <= k < |q| ==> Fits(q[k])
  }

  /** The parts of an attribute that was made from a value */
  lemma AttrRead(m: seq<Byte>, off: nat, name: string, v: Json)
    requires HasAttr(v) && At(m, off, Encode(ToAttr(name, v))) && Fits(ToAttr(name, v)) && NameOk(name)
    ensures var a, data := ToAttr(name, v), off + 4 + HdrLen(|name|);
      var rest := if a.Node? then EncodeAll(a.kids) else Data(v);
      && off + 6 <= |m| && BlobLen(m, off) == HdrLen(|name|) + |rest| && Id(m, off) == TypeOf(v) && ExtOf(Get32(m, off))
      && Get16(m, off + 4) == |name| && off + 6 + |name| < |m| && m[off + 6 + |name|] == 0
      && CStringAt(m, off + 6) == name && DataOff(m, off) == data && DataLen(m, off) == |rest| && At(m, data, rest)
      && (a.Node? ==> AllFit(a.kids))
  {
    hide Encode, EncodeAll, Get32, IdLen, Prefix, Get16, Data, CStringAt, HdrLen, At;
    var a := ToAttr(name, v);
    var rest := if a.Node? then EncodeAll(a.kids) else Data(v);
    PrefixSize(name);
    HeaderRead(m, off, a);
    EncodeParts(m, off, a);
    IdLenParts(a.ext, a.id, 4 + |Payload(a)|);
    AtParts(m, off + 4, Prefix(name), rest);
    NameBack(m, off + 4, name);
  }

  lemma PrefixSize(name: string)
    ensures |Prefix(name)| == HdrLen(|name|) && HdrLen(|name|) >= |name| + 3
  {
  }

  lemma Checked(m: seq<Byte>, off: nat, name: string, v: Json)
    requires HasAttr(v) && At(m, off, Encode(ToAttr(name, v))) && Fits(ToAttr(name, v)) && NameOk(name) && Nameable(v)
    ensures CheckAttr(m, off)
  {
    hide Encode, EncodeAll, Get32, IdLen, Prefix, Get16, Data, CStringAt, HdrLen, At, ToAttr, Fits, CheckType, Text,
      ScalarText;
    AttrRead(m, off, name, v);
    PrefixSize(name);
    TypeChecked(m, off + 4 + HdrLen(|name|), name, v);
  }

  lemma TypeChecked(m: seq<Byte>, data: nat, name: string, v: Json)
    requires HasAttr(v) && Nameable(v)
    requires var a := ToAttr(name, v); At(m, data, if a.Node? then EncodeAll(a.kids) else Data(v))
    ensures var a := ToAttr(name, v);
      CheckType(m, data, |if a.Node? then EncodeAll(a.kids) else Data(v)|, TypeOf(v)) && TypeOf(v) <= 7
  {
    if !v.Array? && !v.Object? { ScalarBack(m, data, v, 0, false); }
  }

  /** What was written for a value is printed as the text of the value. */
  lemma {:induction false} ElementBack(m: seq<Byte>, off: nat, name: string, v: Json, isArray: bool, level: nat,
      indent: bool)
    requires Convertible(v) && HasAttr(v) && At(m, off, Encode(ToAttr(name, v))) && Fits(ToAttr(name, v))
      && NameOk(name) && Nameable(v)
    ensures off + 4 <= |m|
      && ElementText(m, off, isArray, level, indent) == KeyOf(name, isArray, indent) + Text(v, level, indent)
    decreases v, 2, 0
  {
    hide *;
    Shown(v);
    AttrRead(m, off, name, v);
    Checked(m, off, name, v);
    ElementIs(m, off, name, v, isArray, level, indent);
    var data := off + 4 + HdrLen(|name|);
    if v.Array? {
      ListIs(v, level, indent);
      ItemsBack(m, data, v, 0, level + 1, indent);
    } else if v.Object? {
      ListIs(v, level, indent);
      FieldsBack(m, data, v, 0, level + 1, indent);
    } else {
      ScalarBack(m, data, v, level, indent);
    }
  }

  lemma Shown(v: Json)
    requires HasAttr(v)
    ensures v.Array? ==> forall name: string :: ToAttr(name, v) == Node(true, ARRAY, Prefix(name), ItemAttrs(v, 0))
    ensures v.Object? ==> forall name: string :: ToAttr(name, v) == Node(true, TABLE, Prefix(name), FieldAttrs(v, 0))
    ensures !v.Array? && !v.Object? ==> forall name: string :: ToAttr(name, v).Leaf?
  {
  }

  /** One step of blobmsg_format_element */
  lemma ElementIs(m: seq<Byte>, off: nat, name: string, v: Json, isArray: bool, level: nat, indent: bool)
    requires CheckAttr(m, off) && Id(m, off) == TypeOf(v) && HasAttr(v) && CStringAt(m, off + 6) == name
      && DataOff(m, off) == off + 4 + HdrLen(|name|)
    ensures var data := DataOff(m, off);
      ElementText(m, off, isArray, level, indent)
        == KeyOf(name, isArray, indent)
             + if v.Array? || v.Object? then
                 (if v.Array? then "[" else "{") + Separator(level + 1, indent)
                   + ElementsText(m, data, DataLen(m, off), v.Array?, true, level + 1, indent)
                   + Separator(level, indent) + (if v.Array? then "]" else "}")
               else ScalarText(m, data, TypeOf(v))
  {
    hide ElementsText, Separator, ScalarText, CStringAt, Get16, Get32, HdrLen, StringText, Colon;
  }

  lemma ListIs(v: Json, level: nat, indent: bool)
    requires (v.Array? || v.Object?) && Convertible(v)
    ensures Text(v, level, indent)
        == (if v.Array? then "[" else "{") + Separator(level + 1, indent)
             + (if v.Array? then ItemsText(v, 0, level + 1, indent) else FieldsText(v, 0, level + 1, indent))
             + Separator(level, indent) + (if v.Array? then "]" else "}")
  {
  }

  lemma ItemAttr(v: Json, i: nat)
    requires v.Array? && Convertible(v) && Nameable(v) && i < |v.items| && AllFit(ItemAttrs(v, i))
    ensures Convertible(v.items[i]) && HasAttr(v.items[i]) && Nameable(v.items[i])
    ensures var a := ToAttr("", v.items[i]);
      ItemAttrs(v, i) == [a] + ItemAttrs(v, i + 1) && Fits(a) && AllFit(ItemAttrs(v, i + 1))
  {
    hide Fits;
    var q, rest := ItemAttrs(v, i), ItemAttrs(v, i + 1);
    assert q == [ToAttr("", v.items[i])] + rest && Fits(q[0]);
    forall k | 0 <= k < |rest| ensures Fits(rest[k]) {
      assert rest[k] == q[k + 1];
    }
  }

  /** The first of some attributes, and the walk to the next */
  lemma FirstAttr(m: seq<Byte>, pos: nat, a: Attr, rest: seq<Attr>)
    requires At(m, pos, EncodeAll([a] + rest)) && Fits(a)
    ensures pos + 4 <= |m| && PadLenAt(m, pos) == |Encode(a)|
      && |EncodeAll([a] + rest)| == |Encode(a)| + |EncodeAll(rest)|
    ensures At(m, pos, Encode(a)) && At(m, pos + |Encode(a)|, EncodeAll(rest)) && |Encode(a)| >= 4
  {
    hide Encode, At, PadLenAt;
    assert ([a] + rest)[1..] == rest;
    AtParts(m, pos, Encode(a), EncodeAll(rest));
    HeaderRead(m, pos, a);
    EncodeLong(a);
  }

  lemma EncodeLong(a: Attr)
    ensures |Encode(a)| >= 4
  {
  }

  lemma LastItems(v: Json)
    ensures v.Array? ==> ItemAttrs(v, |v.items|) == [] && EncodeAll([]) == []
    ensures v.Object? ==> FieldAttrs(v, |v.fields|) == [] && EncodeAll([]) == []
  {
  }

  lemma {:induction false} ItemsBack(m: seq<Byte>, pos: nat, v: Json, i: nat, level: nat, indent: bool)
    requires v.Array? && Convertible(v) && Nameable(v) && i <= |v.items| && AllFit(ItemAttrs(v, i))
      && At(m, pos, EncodeAll(ItemAttrs(v, i)))
    ensures ElementsText(m, pos, |EncodeAll(ItemAttrs(v, i))|, true, i == 0, level, indent)
        == ItemsText(v, i, level, indent)
    decreases v, 0, |v.items| - i
  {
    hide Encode, EncodeAll, At, PadLenAt, ElementText, Text, StringText, Separator, Convertible, Nameable, AllFit, Fits,
      ToAttr, ItemAttrs;
    LastItems(v);
    if i < |v.items| {
      ItemAttr(v, i);
      var a := ToAttr("", v.items[i]);
      FirstAttr(m, pos, a, ItemAttrs(v, i + 1));
      ElementBack(m, pos, "", v.items[i], true, level, indent);
      ItemsBack(m, pos + |Encode(a)|, v, i + 1, level, indent);
    }
  }

  lemma FieldAttr(v: Json, i: nat)
    requires v.Object? && Convertible(v) && Nameable(v) && i < |v.fields| && AllFit(FieldAttrs(v, i))
    ensures Convertible(v.fields[i].value) && HasAttr(v.fields[i].value) && Nameable(v.fields[i].value)
      && NameOk(CString(v.fields[i].key))
    ensures var a := ToAttr(CString(v.fields[i].key), v.fields[i].value);
      FieldAttrs(v, i) == [a] + FieldAttrs(v, i + 1) && Fits(a) && AllFit(FieldAttrs(v, i + 1))
  {
    hide Fits, CString;
    var q, rest := FieldAttrs(v, i), FieldAttrs(v, i + 1);
    assert q == [ToAttr(CString(v.fields[i].key), v.fields[i].value)] + rest && Fits(q[0]);
    forall k | 0 <= k < |rest| ensures Fits(rest[k]) {
      assert rest[k] == q[k + 1];
    }
  }

  lemma {:induction false} FieldsBack(m: seq<Byte>, pos: nat, v: Json, i: nat, level: nat, indent: bool)
    requires v.Object? && Convertible(v) && Nameable(v) && i <= |v.fields| && AllFit(FieldAttrs(v, i))
      && At(m, pos, EncodeAll(FieldAttrs(v, i)))
    ensures ElementsText(m, pos, |EncodeAll(FieldAttrs(v, i))|, false, i == 0, level, indent)
        == FieldsText(v, i, level, indent)
    decreases v, 0, |v.fields| - i
  {
    hide Encode, EncodeAll, At, PadLenAt, ElementText, Text, StringText, Separator, Convertible, Nameable, AllFit, Fits,
      CString, ToAttr, FieldAttrs;
    LastItems(v);
    if i < |v.fields| {
      var name := CString(v.fields[i].key);
      FieldAttr(v, i);
      var a := ToAttr(name, v.fields[i].value);
      FirstAttr(m, pos, a, FieldAttrs(v, i + 1));
      ElementBack(m, pos, name, v.fields[i].value, false, level, indent);
      FieldsBack(m, pos + |Encode(a)|, v, i + 1, level, indent);
    }
  }
}
