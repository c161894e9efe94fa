/** libubox/blobmsg.h: attributes with names, and how the values of JSON are put in them. */
module BlobmsgFormat {
  import opened Bytes
  import opened BlobFormat
  import opened JsonValue

  const UNSPEC: nat := 0
  const ARRAY: nat := 1
  const TABLE: nat := 2
  const STRING: nat := 3
  const INT64: nat := 4
  const INT32: nat := 5
  const INT16: nat := 6
  const INT8: nat := 7

  /** The bytes of a string: one to a char */
  function BytesOf(s: string): (b: seq<Byte>)
    ensures |b| == |s|
  {
    seq(|s|, i requires 0 <= i < |s| => s[i] as int % 256)
  }

  predicate IsBytes(s: string) {
    forall c :: c in s ==> c < 256 as char
  }

  /** blobmsg_hdrlen */
  function HdrLen(namelen: nat): (n: nat)
    ensures n % 4 == 0 && n >= namelen + 3
  {
    Pad4(2 + namelen + 1)
  }

  /** blobmsg_hdr: the length of the name, the name, and zeros. */
  function Prefix(name: string): (p: seq<Byte>)
    ensures |p| == HdrLen(|name|)
  {
    Be16(|name| % 0x1_0000) + BytesOf(name) + Zeros(HdrLen(|name|) - 2 - |name|)
  }

  /** The length of a name and its characters, as they are put at the beginning; only 16 bits of the length are kept. */
  function NameText(name: string): (p: seq<Byte>)
    ensures |p| == |name| + 3
  {
    Be16(|name| % 0x1_0000) + BytesOf(name) + [0]
  }

  /** blobmsg_data, behind the header of the attribute: it goes by the length that was kept. */
  function DataStart(name: string): (n: nat)
    ensures if |name| < 0x1_0000 then n == HdrLen(|name|) else n < |name|
  {
    HdrLen(|name| % 0x1_0000)
  }

  /** No key in a value is longer than its length can tell. */
  predicate ShortKeys(v: Json)
    decreases v
  {
    match v
    case Array(items) => forall i :: 0 <= i < |items| ==> ShortKeys(items[i])
    case Object(fields) =>
      forall i :: 0 <= i < |fields| ==> |CString(fields[i].key)| < 0x1_0000 && ShortKeys(fields[i].value)
    case _ => true
  }

  /** json_object_get_int: a number is cut to 32 bits. */
  function ToInt32(n: int): int {
    if n < -0x8000_0000 then -0x8000_0000 else if n > 0x7FFF_FFFF then 0x7FFF_FFFF else n
  }

  /** The same bits, without a sign */
  function Word(n: int): (w: nat)
    requires -0x8000_0000 <= n <= 0x7FFF_FFFF
    ensures w < 0x1_0000_0000
  {
    if n < 0 then n + 0x1_0000_0000 else n
  }

  /** The data of a value that is not an array or an object */
  function Data(v: Json): seq<Byte>
  {
    match v
    case Str(s) => BytesOf(CString(s)) + [0]
    case Bool(b) => [if b then 1 else 0]
    case Int(n) => Be32(Word(ToInt32(n)))
    case _ => []
  }

  function TypeOf(v: Json): (id: nat)
    ensures id < 0x80
  {
    match v
    case Array(_) => ARRAY
    case Object(_) => TABLE
    case Str(_) => STRING
    case Bool(_) => INT8
    case Int(_) => INT32
    case _ => UNSPEC
  }

  /** Numbers with a fraction have no attribute. */
  predicate HasAttr(v: Json) {
    !v.Double? && !v.Infinity? && !v.NaN?
  }

  /** blobmsg_add_json_element succeeds. */
  predicate Convertible(v: Json)
    decreases v
  {
    match v
    case Array(items) => forall i :: 0 <= i < |items| ==> Convertible(items[i])
    case Object(fields) => forall i :: 0 <= i < |fields| ==> Convertible(fields[i].value)
    case _ => HasAttr(v)
  }

  /** What a value becomes. After a value that fails there is nothing more. */
  function ToAttr(name: string, v: Json): Attr
    requires HasAttr(v)
    decreases v, 1, 0
  {
    match v
    case Array(items) => Node(true, ARRAY, Prefix(name), ItemAttrs(v, 0))
    case Object(fields) => Node(true, TABLE, Prefix(name), FieldAttrs(v, 0))
    case _ => Leaf(true, TypeOf(v), Prefix(name) + Data(v))
  }

  function Added(name: string, v: Json): seq<Attr>
    decreases v, 2, 0
  {
    if HasAttr(v) then [ToAttr(name, v)] else []
  }

  function ItemAttrs(v: Json, i: nat): seq<Attr>
    requires v.Array? && i <= |v.items|
    decreases v, 0, |v.items| - i
  {
    if i == |v.items| then []
    else Added("", v.items[i]) + if Convertible(v.items[i]) then ItemAttrs(v, i + 1) else []
  }

  function FieldAttrs(v: Json, i: nat): seq<Attr>
    requires v.Object? && i <= |v.fields|
    decreases v, 0, |v.fields| - i
  {
    if i == |v.fields| then []
    else
      Added(CString(v.fields[i].key), v.fields[i].value)
        + if Convertible(v.fields[i].value) then FieldAttrs(v, i + 1) else []
  }
}
