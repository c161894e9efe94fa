/** JSON texts as RFC 8259 defines them: a tree says how a text is written, and which value that is. Where the standard
    leaves the value open, it is that of json-c: integers end at 64 bits, numbers with a fraction or an exponent keep
    their text, of equal keys the last value counts, and a key ends before a NUL. */
module JsonGrammar {
  import opened JsonValue
  import Utf8
  import U = JsonUnicode

  /** ws (section 2) */
  predicate IsWs(s: string) {
    forall c :: c in s ==> c == ' ' || c == '\t' || c == '\n' || c == '\r'
  }

  // ---------- strings (section 7)

  /** One char of a string: unescaped, with a letter behind the backslash, with four digits, or with twice four. What
      the digits stand for is in UTF-8. */
  datatype Piece =
    | Plain(c: char)
    | Short(letter: char)
    | Code(digits: string, means: string)
    | Pair(high: string, low: string, means: string)

  predicate FourHex(s: string) {
    |s| == 4 && forall c :: c in s ==> c in "0123456789abcdefABCDEF"
  }

  predicate PieceOk(p: Piece) {
    match p
    case Plain(c) => c >= ' ' && c != '"' && c != '\\'
    case Short(letter) => letter in "\"\\/bfnrt"
    case Code(digits, means) => FourHex(digits) && Utf8.Stands(means, U.HexValue(digits))
    case Pair(high, low, means) =>
      && FourHex(high) && FourHex(low) && 0xD800 <= U.HexValue(high) < 0xDC00 && 0xDC00 <= U.HexValue(low) < 0xE000
      && Utf8.Stands(means, U.Joined(U.HexValue(high), U.HexValue(low)))
  }

  function PieceText(p: Piece): string {
    match p
    case Plain(c) => [c]
    case Short(letter) => ['\\', letter]
    case Code(digits, _) => "\\u" + digits
    case Pair(high, low, _) => "\\u" + high + "\\u" + low
  }

  function PieceMeans(p: Piece): string {
    match p
    case Plain(c) => [c]
    case Short('b') => [8 as char]
    case Short('t') => [9 as char]
    case Short('n') => [10 as char]
    case Short('f') => [12 as char]
    case Short('r') => [13 as char]
    case Short(letter) => [letter]
    case Code(_, means) => means
    case Pair(_, _, means) => means
  }

  predicate PiecesOk(ps: seq<Piece>) {
    forall p :: p in ps ==> PieceOk(p)
  }

  function PiecesText(ps: seq<Piece>): string {
    if ps == [] then "" else PieceText(ps[0]) + PiecesText(ps[1..])
  }

  function PiecesMean(ps: seq<Piece>): string {
    if ps == [] then "" else PieceMeans(ps[0]) + PiecesMean(ps[1..])
  }

  // ---------- numbers (section 6)

  datatype Numeral = Numeral(minus: bool, whole: string, frac: string, exp: string)

  predicate AreDigits(s: string) {
    s != "" && forall c :: c in s ==> c in "0123456789"
  }

  predicate NumeralOk(n: Numeral) {
    && AreDigits(n.whole) && (n.whole[0] == '0' ==> n.whole == "0")
    && (n.frac == "" || (n.frac[0] == '.' && AreDigits(n.frac[1..])))
    && (n.exp == "" || ((n.exp[0] == 'e' || n.exp[0] == 'E')
        && (AreDigits(n.exp[1..]) || (|n.exp| > 1 && n.exp[1] in "+-" && AreDigits(n.exp[2..])))))
  }

  function NumeralText(n: Numeral): string {
    (if n.minus then "-" else "") + n.whole + n.frac + n.exp
  }

  /** The number that digits are, the first counting most */
  function Decimal(s: string): nat
    requires forall c :: c in s ==> c in "0123456789"
  {
    if s == "" then 0
    else
      assert s[|s|-1] in s;
      10 * Decimal(s[..|s|-1]) + (s[|s|-1] as nat - '0' as nat)
  }

  function NumeralValue(n: Numeral): Json
    requires NumeralOk(n)
  {
    if n.frac == "" && n.exp == "" then
      var (i: int, max: int) := (Decimal(n.whole), 0x7FFF_FFFF_FFFF_FFFF);
      Int(if n.minus then (if i > max then -max - 1 else -i) else if i > max then max else i)
    else Double(NumeralText(n))
  }

  // ---------- values (sections 3 to 5)

  datatype Text =
    | Word(word: string)
    | Number(number: Numeral)
    | Quoted(pieces: seq<Piece>)
    | Nothing(inside: string, braces: bool)
    | Items(items: seq<Item>)
    | Members(members: seq<Member>)

  /** A value in an array, with the white space around it */
  datatype Item = Item(before: string, value: Text, after: string)

  /** A member of an object, with the white space around its key and its value */
  datatype Member = Member(before: string, key: seq<Piece>, after: string, item: Item)

  predicate ItemWs(i: Item) {
    IsWs(i.before) && IsWs(i.after)
  }

  /** The tree is one of the grammar. */
  predicate IsText(x: Text)
    decreases x
  {
    match x
    case Word(word) => word == "true" || word == "false" || word == "null"
    case Number(n) => NumeralOk(n)
    case Quoted(ps) => PiecesOk(ps)
    case Nothing(inside, _) => IsWs(inside)
    case Items(items) => items != [] && forall i :: 0 <= i < |items| ==> ItemWs(items[i]) && IsText(items[i].value)
    case Members(members) =>
      && members != []
      && forall i :: 0 <= i < |members| ==>
           && IsWs(members[i].before) && PiecesOk(members[i].key) && IsWs(members[i].after)
           && ItemWs(members[i].item) && IsText(members[i].item.value)
  }

  function StringText(ps: seq<Piece>): string {
    "\"" + PiecesText(ps) + "\""
  }

  function Written(x: Text): string
    decreases x
  {
    match x
    case Word(word) => word
    case Number(n) => NumeralText(n)
    case Quoted(ps) => StringText(ps)
    case Nothing(inside, braces) => if braces then "{" + inside + "}" else "[" + inside + "]"
    case Items(items) => "[" + WrittenItems(items) + "]"
    case Members(members) => "{" + WrittenMembers(members) + "}"
  }

  function WrittenItem(i: Item): string
    decreases i
  {
    i.before + Written(i.value) + i.after
  }

  function WrittenItems(items: seq<Item>): string
    decreases items
  {
    if items == [] then ""
    else WrittenItem(items[0]) + if |items| == 1 then "" else "," + WrittenItems(items[1..])
  }

  function WrittenMember(m: Member): string
    decreases m
  {
    m.before + StringText(m.key) + m.after + ":" + WrittenItem(m.item)
  }

  function WrittenMembers(members: seq<Member>): string
    decreases members
  {
    if members == [] then ""
    else WrittenMember(members[0]) + if |members| == 1 then "" else "," + WrittenMembers(members[1..])
  }

  function Value(x: Text): Json
    requires IsText(x)
    decreases x
  {
    match x
    case Word(word) => if word == "true" then Bool(true) else if word == "false" then Bool(false) else Null
    case Number(n) => NumeralValue(n)
    case Quoted(ps) => Str(PiecesMean(ps))
    case Nothing(_, braces) => if braces then Object([]) else Array([])
    case Items(items) => Array(ItemValues(items))
    case Members(members) => Object(MemberValues([], members))
  }

  function ItemValues(items: seq<Item>): (r: seq<Json>)
    requires forall i :: 0 <= i < |items| ==> IsText(items[i].value)
    decreases items
  {
    if items == [] then [] else [Value(items[0].value)] + ItemValues(items[1..])
  }

  /** The fields that are there, and then those of the members */
  function MemberValues(fields: seq<Field>, members: seq<Member>): seq<Field>
    requires forall i :: 0 <= i < |members| ==> IsText(members[i].item.value)
    decreases members
  {
    if members == [] then fields
    else
      var m := members[0];
      MemberValues(PutField(fields, CString(PiecesMean(m.key)), Value(m.item.value)), members[1..])
  }

  // ---------- what json-c reads of it

  /** A pair whose character looks like a surrogate in its last sixteen bits */
  predicate LooksHalf(p: Piece)
    requires PieceOk(p)
  {
    p.Pair? && var u := U.Joined(U.HexValue(p.high), U.HexValue(p.low)); U.LooksHigh(u) || U.LooksLow(u)
  }

  predicate NoneLooksHalf(ps: seq<Piece>)
    requires PiecesOk(ps)
  {
    forall p :: p in ps ==> !LooksHalf(p)
  }

  /** The text nests no deeper than d levels, and no pair in it looks like half of one. */
  predicate Readable(x: Text, d: nat)
    requires IsText(x)
    decreases x
  {
    && d > 0
    && match x
       case Quoted(ps) => NoneLooksHalf(ps)
       case Items(items) => forall i :: 0 <= i < |items| ==> Readable(items[i].value, d - 1)
       case Members(members) =>
         forall i :: 0 <= i < |members| ==> NoneLooksHalf(members[i].key) && Readable(members[i].item.value, d - 1)
       case _ => true
  }
}
