/** The values of json-c, its numbers as text, and the bytes it reads and writes, one to a char. */
module JsonValue {
  datatype Option<T> = None | Some(value: T)

  datatype Field = Field(key: string, value: Json)

  /** A JSON value. A double read from text is kept as that text. An object keeps its keys in order. */
  datatype Json =
    | Null
    | Bool(b: bool)
    | Int(n: int)
    | Double(text: string)
    | Infinity(negative: bool)
    | NaN
    | Str(s: string)
    | Array(items: seq<Json>)
    | Object(fields: seq<Field>)

  const NUL := 0 as char
  const INT64_MIN := -0x8000_0000_0000_0000
  const INT64_MAX := 0x7FFF_FFFF_FFFF_FFFF

  /** isspace in the C locale */
  predicate IsSpace(c: char) {
    c == ' ' || 9 as char <= c <= 13 as char
  }

  predicate IsDigit(c: char) {
    '0' <= c <= '9'
  }

  /** json_number_chars */
  predicate IsNumberChar(c: char) {
    IsDigit(c) || c in ".+-eE"
  }

  /** A C string ends before the first NUL. */
  function CString(s: string): (r: string)
    ensures |r| <= |s| && r == s[..|r|] && NUL !in r && (|r| < |s| ==> s[|r|] == NUL)
  {
    if s == "" || s[0] == NUL then "" else [s[0]] + CString(s[1..])
  }

  /** The digits a text begins with. */
  function LeadingDigits(s: string): string {
    if s == "" || !IsDigit(s[0]) then "" else [s[0]] + LeadingDigits(s[1..])
  }

  function DigitValue(s: string): nat
    requires forall c :: c in s ==> IsDigit(c)
  {
    if s == "" then 0
    else
      assert IsDigit(s[|s|-1]);
      10 * DigitValue(s[..|s|-1]) + (s[|s|-1] as int - '0' as int)
  }

  lemma {:induction false} LeadingDigitsAreDigits(s: string)
    ensures forall c :: c in LeadingDigits(s) ==> IsDigit(c)
  {
    if s != "" && IsDigit(s[0]) { LeadingDigitsAreDigits(s[1..]); }
  }

  function Clamp(n: int): int {
    if n < INT64_MIN then INT64_MIN else if n > INT64_MAX then INT64_MAX else n
  }

  /** json_parse_int64 on a text of number characters: the number it begins with, cut to 64 bits. */
  function ParseInt64(buf: string): (r: Option<int>)
    ensures r.Some? ==> buf != "" && INT64_MIN <= r.value <= INT64_MAX
  {
    var negative := buf != "" && buf[0] == '-';
    var digits := LeadingDigits(if buf != "" && (buf[0] == '-' || buf[0] == '+') then buf[1..] else buf);
    LeadingDigitsAreDigits(if buf != "" && (buf[0] == '-' || buf[0] == '+') then buf[1..] else buf);
    if digits == "" then None
    else
      var n: int := DigitValue(digits);
      Some(Clamp(if negative then -n else n))
  }

  /** json_parse_double succeeds: after a sign there is a digit, or a point and a digit. */
  predicate DoubleParses(buf: string) {
    var s := if buf != "" && (buf[0] == '-' || buf[0] == '+') then buf[1..] else buf;
    s != "" && (IsDigit(s[0]) || (s[0] == '.' && |s| > 1 && IsDigit(s[1])))
  }

  /** json_object_object_add: a key that is there already gets the new value where it is. */
  function PutField(fields: seq<Field>, key: string, value: Json): seq<Field> {
    if fields == [] then [Field(key, value)]
    else if fields[0].key == key then [Field(key, value)] + fields[1..]
    else [fields[0]] + PutField(fields[1..], key, value)
  }

  lemma {:induction false} PutNewField(fields: seq<Field>, key: string, value: Json)
    requires forall f :: f in fields ==> f.key != key
    ensures PutField(fields, key, value) == fields + [Field(key, value)]
  {
    if fields != [] {
      PutNewField(fields[1..], key, value);
      assert fields == [fields[0]] + fields[1..];
    }
  }

  function AddItem(j: Json, item: Json): Json {
    if j.Array? then Array(j.items + [item]) else j
  }

  function AddField(j: Json, key: Option<string>, value: Json): Json {
    if j.Object? && key.Some? then Object(PutField(j.fields, key.value, value)) else j
  }

  function Lower(c: char): char {
    if 'A' <= c <= 'Z' then c + ' ' else c
  }

  /** The first n characters of the literal are the first n of the buffer; only a strict parser minds the case. */
  predicate Matches(literal: string, buf: string, n: nat, strict: bool)
    requires n <= |literal|
  {
    n <= |buf| && forall k :: 0 <= k < n ==> literal[k] == buf[k] || (!strict && Lower(literal[k]) == Lower(buf[k]))
  }
}
