/** json-c/json_tokener.c: the parser as a machine that takes one character at a time. */
module JsonTokener {
  import opened JsonValue

  datatype St =
    | Eatws | Start | Finish | NullOrNaN | CommentStart | Comment | CommentEol | CommentEnd
    | String | StringEscape | EscapeUnicode | Boolean | Number
    | ArrayStart | ArrayAdd | ArraySep | ArrayAfterSep
    | FieldStart | FieldStartAfterSep | FieldName | FieldEnd | ObjectValue | ObjectValueAdd | ObjectSep
    | Inf

  /** The states that white space, comments and escapes return to. */
  type Resumable = s: St | s !in {Eatws, NullOrNaN, CommentStart, Comment, CommentEol, CommentEnd, StringEscape,
                                  EscapeUnicode, Boolean, Number, ArrayAdd, ObjectValueAdd, Inf}
    witness Start

  datatype Err =
    | Success | Continue | ErrorDepth | ErrorEof | ErrorUnexpected | ErrorNull | ErrorBoolean | ErrorNumber
    | ErrorArray | ErrorKeyName | ErrorKeySep | ErrorValueSep | ErrorString | ErrorComment | ErrorSize

  /** json_tokener_srec */
  datatype Srec = Srec(state: St, saved: Resumable, current: Json, key: Option<string>)

  const FRESH := Srec(Eatws, Start, Null, None)

  /** json_tokener; hi is the local got_hi_surrogate of json_tokener_parse_ex. */
  datatype TokData = TokData(stack: seq<Srec>, depth: nat, pb: string, stPos: nat, ucs: nat, quote: char,
                             isDouble: bool, err: Err, strict: bool, hi: nat)

  type Tok = t: TokData | t.depth < |t.stack| witness TokData([FRESH], 0, "", 0, 0, '"', false, Success, false, 0)

  function Top(t: Tok): Srec {
    t.stack[t.depth]
  }

  function SetTop(t: Tok, s: Srec): (t': Tok) {
    t.(stack := t.stack[t.depth := s])
  }

  function Go(t: Tok, state: St): (t': Tok) {
    SetTop(t, Top(t).(state := state))
  }

  /** White space, then the given state. */
  function Then(t: Tok, saved: Resumable): Tok {
    SetTop(t, Top(t).(state := Eatws, saved := saved))
  }

  /** A value is complete. */
  function Done(t: Tok, value: Json): Tok {
    SetTop(t, Top(t).(state := Eatws, saved := Finish, current := value))
  }

  function Push(t: Tok, add: St): Next {
    if t.depth + 1 >= |t.stack| then Out(t.(err := ErrorDepth), 0)
    else Redo(Go(t, add).(depth := t.depth + 1, stack := Go(t, add).stack[t.depth + 1 := FRESH]), Null)
  }

  /** What one pass through the switch leads to: the switch again, n characters on, or the end, n characters on.
      obj is the local of that name. */
  datatype Next = Redo(t: Tok, obj: Json) | Advance(t: Tok, n: nat) | Out(t: Tok, n: nat)

  function StartValue(t: Tok, c: char): Next {
    if c == '{' then
      Advance(SetTop(t, Top(t).(state := Eatws, saved := FieldStart, current := Object([]))), 1)
    else if c == '[' then
      Advance(SetTop(t, Top(t).(state := Eatws, saved := ArrayStart, current := Array([]))), 1)
    else if c == 'I' || c == 'i' then Redo(Go(t, Inf).(pb := "", stPos := 0), Null)
    else if c == 'N' || c == 'n' then Redo(Go(t, NullOrNaN).(pb := "", stPos := 0), Null)
    else if c == '\'' && t.strict then Out(t.(err := ErrorUnexpected), 0)
    else if c == '\'' || c == '"' then Advance(Go(t, String).(pb := "", quote := c), 1)
    else if c == 'T' || c == 't' || c == 'F' || c == 'f' then Redo(Go(t, Boolean).(pb := "", stPos := 0), Null)
    else if IsDigit(c) || c == '-' then Redo(Go(t, Number).(pb := "", isDouble := false), Null)
    else Out(t.(err := ErrorUnexpected), 0)
  }

  function Min(a: nat, b: nat): nat {
    if a < b then a else b
  }

  function InfLiteral(t0: Tok, c: char): Next {
    var t := t0.(pb := t0.pb + [c]);
    var negative := t.pb[0] == '-';
    if !Matches("Infinity", if negative then t.pb[1..] else t.pb, Min(t.stPos + 1, 8), t.strict) then
      Out(t.(err := ErrorUnexpected), 0)
    else if t.stPos == 8 then Redo(Done(t, Infinity(negative)), Null)
    else Advance(t.(stPos := t.stPos + 1), 1)
  }

  function NullLiteral(t0: Tok, c: char): Next {
    var t := t0.(pb := t0.pb + [c]);
    if Matches("null", t.pb, Min(t.stPos + 1, 4), t.strict) then
      if t.stPos == 4 then Redo(Done(t, Null), Null) else Advance(t.(stPos := t.stPos + 1), 1)
    else if Matches("NaN", t.pb, Min(t.stPos + 1, 3), t.strict) then
      if t.stPos == 3 then Redo(Done(t, NaN), Null) else Advance(t.(stPos := t.stPos + 1), 1)
    else Out(t.(err := ErrorNull), 0)
  }

  function BooleanLiteral(t0: Tok, c: char): Next {
    var t := t0.(pb := t0.pb + [c]);
    if Matches("true", t.pb, Min(t.stPos + 1, 4), t.strict) then
      if t.stPos == 4 then Redo(Done(t, Bool(true)), Null) else Advance(t.(stPos := t.stPos + 1), 1)
    else if Matches("false", t.pb, Min(t.stPos + 1, 5), t.strict) then
      if t.stPos == 5 then Redo(Done(t, Bool(false)), Null) else Advance(t.(stPos := t.stPos + 1), 1)
    else Out(t.(err := ErrorBoolean), 0)
  }

  /** len is the local case_len: how many characters of the number have been read in this call. */
  function NumberLiteral(t: Tok, c: char, len: nat): Next {
    if IsNumberChar(c) then
      Advance(t.(pb := t.pb + [c], isDouble := t.isDouble || (c == '.' || c == 'e' || c == 'E')), 1)
    else if t.pb != "" && t.pb[0] == '-' && len == 1 && (c == 'i' || c == 'I') then
      Redo(Go(t, Inf), Null)
    else if !t.isDouble && ParseInt64(t.pb).Some? then
      var n := ParseInt64(t.pb).value;
      if n != 0 && t.pb[0] == '0' && t.strict then Out(t.(err := ErrorNumber), 0)
      else Redo(Done(t, Int(n)), Null)
    else if t.isDouble && DoubleParses(t.pb) then Redo(Done(t, Double(t.pb)), Null)
    else Out(t.(err := ErrorNumber), 0)
  }

  function EscapeChar(t: Tok, c: char): Next {
    if c == '"' || c == '\\' || c == '/' then Advance(Go(t, Top(t).saved).(pb := t.pb + [c]), 1)
    else if c == 'b' || c == 'n' || c == 'r' || c == 't' || c == 'f' then
      var e := if c == 'b' then 8 as char else if c == 'n' then '\n' else if c == 'r' then '\r'
               else if c == 't' then '\t' else 12 as char;
      Advance(Go(t, Top(t).saved).(pb := t.pb + [e]), 1)
    else if c == 'u' then Advance(Go(t, EscapeUnicode).(ucs := 0, stPos := 0), 1)
    else Out(t.(err := ErrorString), 0)
  }

  /** json_hex_chars; strchr also finds the NUL that ends it. */
  predicate IsHexChar(c: char) {
    IsDigit(c) || 'a' <= c <= 'f' || 'A' <= c <= 'F' || c == NUL
  }

  const UINT := 0x1_0000_0000

  /** hexdigit, as an unsigned int */
  function HexDigit(c: char): nat {
    if c <= '9' then (c as int - '0' as int) % UINT else c as nat % 8 + 9
  }

  function Shift(pos: nat): nat {
    if pos == 0 then 0x1000 else if pos == 1 then 0x100 else if pos == 2 then 0x10 else 1
  }

  /** The test with the mask 0xFC00, which ignores all bits above the sixteenth. */
  predicate IsHighSurrogate(u: nat) {
    u / 0x400 % 0x40 == 0x36
  }

  predicate IsLowSurrogate(u: nat) {
    u / 0x400 % 0x40 == 0x37
  }

  function DecodePair(hi: nat, lo: nat): nat {
    hi % 0x400 * 0x400 + lo % 0x400 + 0x10000
  }

  /** U+FFFD in UTF-8 */
  const REPLACEMENT := [0xEF as char, 0xBF as char, 0xBD as char]

  function Utf8Two(u: nat): string
    requires u < 0x800
  {
    [(0xC0 + u / 0x40) as char, (0x80 + u % 0x40) as char]
  }

  function Utf8Three(u: nat): string
    requires u < 0x10000
  {
    [(0xE0 + u / 0x1000) as char, (0x80 + u / 0x40 % 0x40) as char, (0x80 + u % 0x40) as char]
  }

  function Utf8Four(u: nat): string
    requires u < 0x110000
  {
    [(0xF0 + u / 0x40000) as char, (0x80 + u / 0x1000 % 0x40) as char, (0x80 + u / 0x40 % 0x40) as char,
      (0x80 + u % 0x40) as char]
  }

  /** What a code that stands alone is written as. */
  function Encode(u: nat): string {
    if u < 0x80 then [u as char]
    else if u < 0x800 then Utf8Two(u)
    else if IsHighSurrogate(u) || IsLowSurrogate(u) then REPLACEMENT
    else if u < 0x10000 then Utf8Three(u)
    else if u < 0x110000 then Utf8Four(u)
    else REPLACEMENT
  }

  /** Four digits are complete: with a high surrogate pending, this may be the other half of a pair. */
  function Paired(t: Tok): (t': Tok)
    ensures t'.hi == 0 && t'.stack == t.stack && t'.depth == t.depth
  {
    if t.hi == 0 then t
    else if IsLowSurrogate(t.ucs) then t.(ucs := DecodePair(t.hi, t.ucs), hi := 0)
    else t.(pb := t.pb + REPLACEMENT, hi := 0)
  }

  /** The end of a four-digit escape; rest is the input behind the last digit. */
  function FourDigits(t: Tok, rest: string): Next {
    var t := Paired(t);
    if t.ucs >= 0x800 && IsHighSurrogate(t.ucs) then
      if |rest| >= 2 && rest[0] == '\\' && rest[1] == 'u' then
        if |rest| == 2 then Out(t.(pb := t.pb + REPLACEMENT, err := Continue), 3)
        else Advance(t.(hi := t.ucs, ucs := 0, stPos := 0), 3)
      else
        Advance(Go(t, Top(t).saved).(pb := t.pb + REPLACEMENT), 1)
    else Advance(Go(t, Top(t).saved).(pb := t.pb + Encode(t.ucs)), 1)
  }

  /** The end of a four-digit escape whose last digit is the NUL: the first half of a pair is replaced twice, since the
      NUL stops both ways on to the second. */
  function NulDigits(t: Tok, rest: string): Next {
    var p := Paired(t);
    if p.ucs >= 0x800 && IsHighSurrogate(p.ucs) && |rest| >= 2 && rest[0] == '\\' && rest[1] == 'u' then
      Out(p.(pb := p.pb + REPLACEMENT + REPLACEMENT), 2)
    else FourDigits(t, rest)
  }

  function UnicodeDigit(t: Tok, c: char, rest: string): Next {
    if !IsHexChar(c) then Out(t.(err := ErrorString), 0)
    else
      var t := t.(ucs := (t.ucs + HexDigit(c) * Shift(t.stPos)) % UINT, stPos := t.stPos + 1);
      if t.stPos != 4 then Advance(t, 1)
      else if c == NUL then NulDigits(t, rest)
      else FourDigits(t, rest)
  }

  function ArrayItem(t: Tok, c: char): Next {
    if c == ']' then
      if Top(t).state == ArrayAfterSep && t.strict then Out(t.(err := ErrorUnexpected), 0)
      else Advance(Then(t, Finish), 1)
    else Push(t, ArrayAdd)
  }

  function FieldItem(t: Tok, c: char): Next {
    if c == '}' then
      if Top(t).state == FieldStartAfterSep && t.strict then Out(t.(err := ErrorUnexpected), 0)
      else Advance(Then(t, Finish), 1)
    else if c == '"' || c == '\'' then Advance(Go(t, FieldName).(quote := c, pb := ""), 1)
    else Out(t.(err := ErrorKeyName), 0)
  }

  /** A separator, or the closing bracket. */
  function Separator(t: Tok, c: char, close: char, after: Resumable, error: Err): Next {
    if c == close then Advance(Then(t, Finish), 1)
    else if c == ',' then Advance(Then(t, after), 1)
    else Out(t.(err := error), 0)
  }

  /** The characters of a string or a name up to the quote. */
  function Quoted(t: Tok, c: char): Next {
    if c == t.quote then
      if Top(t).state == String then Advance(Done(t, Str(t.pb)), 1)
      else Advance(SetTop(t, Top(t).(state := Eatws, saved := FieldEnd, key := Some(CString(t.pb)))), 1)
    else if c == '\\' then
      Advance(SetTop(t, Top(t).(state := StringEscape,
                                saved := if Top(t).state == String then String else FieldName)), 1)
    else Advance(t.(pb := t.pb + [c]), 1)
  }

  function Pop(t: Tok): Next {
    if t.depth == 0 then Out(t, 0)
    else Redo(SetTop(t, FRESH).(depth := t.depth - 1), Top(t).current)
  }

  function EatWhite(t: Tok, obj: Json, c: char): Next {
    if IsSpace(c) then Advance(t, 1)
    else if c == '/' && !t.strict then Advance(Go(t, CommentStart).(pb := [c]), 1)
    else Redo(Go(t, Top(t).saved), obj)
  }

  function CommentChar(t: Tok, c: char): Next {
    match Top(t).state
    case CommentStart =>
      if c == '*' then Advance(Go(t, Comment).(pb := t.pb + [c]), 1)
      else if c == '/' then Advance(Go(t, CommentEol).(pb := t.pb + [c]), 1)
      else Out(t.(err := ErrorComment), 0)
    case Comment => Advance((if c == '*' then Go(t, CommentEnd) else t).(pb := t.pb + [c]), 1)
    case CommentEol => Advance(if c == '\n' then Go(t, Eatws) else t.(pb := t.pb + [c]), 1)
    case _ => Advance(Go(t, if c == '/' then Eatws else Comment).(pb := t.pb + [c]), 1)
  }

  function AddToArray(t: Tok, obj: Json): Next {
    Redo(SetTop(t, Top(t).(state := Eatws, saved := ArraySep, current := AddItem(Top(t).current, obj))), Null)
  }

  function AddToObject(t: Tok, obj: Json): Next {
    Redo(SetTop(t, Srec(Eatws, ObjectSep, AddField(Top(t).current, Top(t).key, obj), None)), Null)
  }

  function Colon(t: Tok, c: char): Next {
    if c == ':' then Advance(Then(t, ObjectValue), 1) else Out(t.(err := ErrorKeySep), 0)
  }

  /** One pass through the switch. */
  function Switch(t: Tok, obj: Json, c: char, rest: string, len: nat): Next {
    match Top(t).state
    case Eatws => EatWhite(t, obj, c)
    case Start => StartValue(t, c)
    case Finish => Pop(t)
    case Inf => InfLiteral(t, c)
    case NullOrNaN => NullLiteral(t, c)
    case CommentStart => CommentChar(t, c)
    case Comment => CommentChar(t, c)
    case CommentEol => CommentChar(t, c)
    case CommentEnd => CommentChar(t, c)
    case String => Quoted(t, c)
    case StringEscape => EscapeChar(t, c)
    case EscapeUnicode => UnicodeDigit(t, c, rest)
    case Boolean => BooleanLiteral(t, c)
    case Number => NumberLiteral(t, c, len)
    case ArrayStart => ArrayItem(t, c)
    case ArrayAfterSep => ArrayItem(t, c)
    case ArrayAdd => AddToArray(t, obj)
    case ArraySep => Separator(t, c, ']', ArrayAfterSep, ErrorArray)
    case FieldStart => FieldItem(t, c)
    case FieldStartAfterSep => FieldItem(t, c)
    case FieldName => Quoted(t, c)
    case FieldEnd => Colon(t, c)
    case ObjectValue => Push(t, ObjectValueAdd)
    case ObjectValueAdd => AddToObject(t, obj)
    case ObjectSep => Separator(t, c, '}', FieldStartAfterSep, ErrorValueSep)
  }

  /** What decreases each time the switch is entered again with the same character. */
  function Rank(t: Tok): nat {
    var s := Top(t);
    StateRank(if s.state == Eatws then s.saved else s.state, t) + if s.state == Eatws then 1 else 0
  }

  function StateRank(s: St, t: Tok): nat {
    var base := 20 * (t.depth + 1);
    match s
    case ArrayStart => base + 10
    case ArrayAfterSep => base + 10
    case ObjectValue => base + 10
    case ArrayAdd => base + 8
    case ObjectValueAdd => base + 8
    case Number => if t.pb == "" then base - 13 else base + 7
    case Inf => if t.stPos == 0 then base - 13 else base + 6
    case NullOrNaN => if t.stPos == 0 then base - 13 else base + 6
    case Boolean => if t.stPos == 0 then base - 13 else base + 6
    case Finish => base + 4
    case Start => base - 12
    case _ => 0
  }

  predicate Descends(t: Tok, next: Next) {
    next.Redo? ==> Rank(next.t) < Rank(t)
  }

  lemma StartDescends(t: Tok, c: char)
    requires Top(t).state == Start
    ensures Descends(t, StartValue(t, c))
  {
  }

  lemma LiteralDescends(t: Tok, c: char)
    ensures Top(t).state == Inf ==> Descends(t, InfLiteral(t, c))
    ensures Top(t).state == NullOrNaN ==> Descends(t, NullLiteral(t, c))
    ensures Top(t).state == Boolean ==> Descends(t, BooleanLiteral(t, c))
  {
    hide Matches;
  }

  lemma NumberDescends(t: Tok, c: char, len: nat)
    requires Top(t).state == Number
    ensures Descends(t, NumberLiteral(t, c, len))
  {
  }

  lemma PushDescends(t: Tok, c: char, add: St)
    requires Top(t).state in {ArrayStart, ArrayAfterSep, ObjectValue}
    ensures Descends(t, Push(t, add))
  {
  }

  lemma PopDescends(t: Tok)
    requires Top(t).state == Finish
    ensures Descends(t, Pop(t))
  {
  }

  lemma RedoDescends(t: Tok, obj: Json, c: char, rest: string, len: nat)
    ensures Descends(t, Switch(t, obj, c, rest, len))
  {
    hide StartValue, InfLiteral, NullLiteral, BooleanLiteral, NumberLiteral, Push, Pop;
    LiteralDescends(t, c);
    match Top(t).state
    case Start => StartDescends(t, c);
    case Number => NumberDescends(t, c, len);
    case Finish => PopDescends(t);
    case ArrayStart => PushDescends(t, c, ArrayAdd);
    case ArrayAfterSep => PushDescends(t, c, ArrayAdd);
    case ObjectValue => PushDescends(t, c, ObjectValueAdd);
    case _ =>
  }

  /** Everything that happens on one character: the switch until it moves on. */
  function Process(t: Tok, obj: Json, c: char, rest: string, len: nat): Next
    decreases Rank(t)
  {
    var next := Switch(t, obj, c, rest, len);
    if next.Redo? then RedoDescends(t, obj, c, rest, len); Process(next.t, next.obj, c, rest, len) else next
  }

  /** A high surrogate still waiting for the other half when the input ends is replaced. */
  function Flush(t: Tok): Tok {
    if t.hi == 0 then t else t.(pb := t.pb + REPLACEMENT, hi := 0)
  }

  /** The checks at the label out; c is the last character looked at. */
  function Judge(t: Tok, c: char): Tok {
    if c == NUL then
      if Top(t).state != Finish && Top(t).saved != Finish then t.(err := ErrorEof) else t
    else if Top(t).state == Finish && t.depth == 0 && t.strict then t.(err := ErrorUnexpected)
    else t
  }

  /** PEEK_CHAR finds no more input. */
  function AtEnd(t: Tok): Tok {
    var whole := t.depth == 0 && Top(t).state == Eatws && Top(t).saved == Finish;
    Judge(Flush(t).(err := if whole then Success else Continue), 1 as char)
  }

  /** How json_tokener_parse_ex ends, and char_offset. */
  datatype Outcome = Outcome(tok: Tok, used: nat)

  function More(o: Outcome, n: nat): Outcome {
    Outcome(o.tok, o.used + n)
  }

  function NumberLength(t: Tok, len: nat): nat {
    if Top(t).state == Number then len + 1 else 0
  }

  /** The main loop on the input s: all of a chunk of given length, or a string with its NUL. */
  function Run(t: Tok, len: nat, s: string): Outcome
    decreases |s|
  {
    if s == "" then Outcome(AtEnd(t), 0)
    else
      var next := Process(t, Null, s[0], s[1..], len);
      if !next.Advance? then Outcome(Judge(next.t, s[0]), if next.Out? then next.n else 0)
      else if s[0] == NUL || next.n == 0 || next.n > |s| then Outcome(Judge(Flush(next.t), s[0]), next.n)
      else More(Run(next.t, NumberLength(next.t, len), s[next.n..]), next.n)
  }

  /** What json_tokener_parse_ex begins with. */
  function Begin(t: Tok): Tok {
    t.(err := Success, hi := 0)
  }

  /** json_tokener_parse_ex, before a success clears the stack. */
  function Parse(t: Tok, s: string): Outcome {
    Run(Begin(t), 0, s)
  }

  /** A success clears all levels in use and hands out the value. */
  function Cleared(t: Tok): Tok {
    if t.err == Success then
      t.(stack := seq(|t.stack|, i requires 0 <= i < |t.stack| => if i <= t.depth then FRESH else t.stack[i]))
    else t
  }

  function Result(t: Tok): Json {
    if t.err == Success then Top(t).current else Null
  }
}
