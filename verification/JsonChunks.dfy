/** It does not matter how the input of json_tokener_parse_ex is cut into chunks, but for two cases. */
module JsonChunks {
  import opened JsonValue
  import opened JsonTokener
  import opened JsonLevels

  /** The escape that c completes, with the other half of a pair if that is pending */
  function Code(t: Tok, c: char): Tok {
    Paired(t.(ucs := (t.ucs + HexDigit(c)) % UINT, stPos := 4))
  }

  /** c is the last digit of the first half of a pair. */
  predicate AtHigh(t: Tok, c: char) {
    && Top(t).state == EscapeUnicode && t.stPos == 3 && IsHexChar(c)
    && Code(t, c).ucs >= 0x800 && IsHighSurrogate(Code(t, c).ucs)
  }

  /** The first half of a pair, with no more of the second than its backslash and u in sight */
  predicate Halves(t: Tok, c: char, rest: string) {
    AtHigh(t, c) && rest <= "\\u"
  }

  /** What a step says about the error: it only changes at the end, and input is only asked for within a pair. */
  ghost predicate Quiet(t: Tok, next: Next, halves: bool) {
    && (!next.Out? ==> next.t.err == t.err)
    && (next.Out? && next.t.err == Continue ==> halves || t.err == Continue)
    && (next.Advance? ==> next.n == 1 || next.n == 3)
  }

  lemma LiteralsAreQuiet(t: Tok, c: char, len: nat, h: bool)
    ensures Quiet(t, InfLiteral(t, c), h) && Quiet(t, NullLiteral(t, c), h) && Quiet(t, BooleanLiteral(t, c), h)
    ensures Quiet(t, NumberLiteral(t, c, len), h)
  {
    hide Matches, ParseInt64, DoubleParses;
  }

  lemma ValuesAreQuiet(t: Tok, c: char, h: bool)
    ensures Quiet(t, StartValue(t, c), h) && Quiet(t, ArrayItem(t, c), h) && Quiet(t, FieldItem(t, c), h)
      && Quiet(t, Quoted(t, c), h)
  {
  }

  lemma EscapesAreQuiet(t: Tok, c: char, rest: string, h: bool)
    ensures Quiet(t, EscapeChar(t, c), h)
    ensures Top(t).state == EscapeUnicode ==> Quiet(t, UnicodeDigit(t, c, rest), Halves(t, c, rest))
  {
    hide FourDigits, NulDigits, HexDigit, IsHexChar, IsHighSurrogate, Paired, EscapeChar;
    var m := t.(ucs := (t.ucs + HexDigit(c) * Shift(t.stPos)) % UINT, stPos := t.stPos + 1);
    EscapeIsQuiet(t, c, h);
    FourIsQuiet(m, rest);
    NulIsQuiet(m, rest);
  }

  lemma EscapeIsQuiet(t: Tok, c: char, h: bool)
    ensures Quiet(t, EscapeChar(t, c), h)
  {
  }

  lemma FourIsQuiet(m: Tok, rest: string)
    ensures var next, p := FourDigits(m, rest), Paired(m);
      Quiet(m, next, p.ucs >= 0x800 && IsHighSurrogate(p.ucs) && rest == "\\u")
  {
    hide Encode, IsHighSurrogate, IsLowSurrogate, DecodePair;
    if |rest| == 2 && rest[0] == '\\' && rest[1] == 'u' { assert rest == "\\u"; }
  }

  lemma NulIsQuiet(m: Tok, rest: string)
    ensures var next, p := NulDigits(m, rest), Paired(m);
      Quiet(m, next, p.ucs >= 0x800 && IsHighSurrogate(p.ucs) && rest == "\\u")
  {
    hide FourDigits, IsHighSurrogate, IsLowSurrogate, DecodePair;
    FourIsQuiet(m, rest);
  }

  lemma LevelsAreQuiet(t: Tok, obj: Json, c: char, add: St, h: bool)
    ensures Quiet(t, Push(t, add), h) && Quiet(t, Pop(t), h) && Quiet(t, AddToArray(t, obj), h)
      && Quiet(t, AddToObject(t, obj), h)
  {
  }

  lemma SeparatorsAreQuiet(t: Tok, obj: Json, c: char, h: bool)
    ensures Quiet(t, EatWhite(t, obj, c), h) && Quiet(t, CommentChar(t, c), h) && Quiet(t, Colon(t, c), h)
    ensures Quiet(t, Separator(t, c, ']', ArrayAfterSep, ErrorArray), h)
    ensures Quiet(t, Separator(t, c, '}', FieldStartAfterSep, ErrorValueSep), h)
  {
  }

  lemma SwitchIsQuiet(t: Tok, obj: Json, c: char, rest: string, len: nat)
    ensures Quiet(t, Switch(t, obj, c, rest, len), Halves(t, c, rest))
  {
    hide StartValue, InfLiteral, NullLiteral, BooleanLiteral, NumberLiteral, ArrayItem, FieldItem, Quoted, EscapeChar,
      UnicodeDigit;
    hide Push, Pop, Separator, EatWhite, CommentChar, AddToArray, AddToObject, Colon, Halves, Quiet;
    var h := Halves(t, c, rest);
    LiteralsAreQuiet(t, c, len, h);
    LevelsAreQuiet(t, obj, c, ObjectValueAdd, h);
    SeparatorsAreQuiet(t, obj, c, h);
    ValuesAreQuiet(t, c, h);
    EscapesAreQuiet(t, c, rest, h);
  }

  /** Where the switch is entered again, no escape is read. */
  lemma RedoIsNoEscape(t: Tok, obj: Json, c: char, rest: string, len: nat)
    requires Wf(t)
    ensures var next := Switch(t, obj, c, rest, len);
      next.Redo? ==> Top(t).state != EscapeUnicode && Top(next.t).state != EscapeUnicode && Wf(next.t)
  {
    hide StartValue, InfLiteral, NullLiteral, BooleanLiteral, NumberLiteral, ArrayItem, FieldItem, Quoted, EscapeChar,
      Push, Separator, EatWhite, CommentChar, AddToArray, AddToObject, Colon, Encode, IsHighSurrogate, IsLowSurrogate,
      DecodePair, HexDigit, IsHexChar;
    SwitchKeeps(t, obj, c, rest, len);
    LiteralsGoOn(t, c, len);
    LevelsGoOn(t, obj, c, ObjectValueAdd);
    SeparatorsGoOn(t, obj, c);
  }

  predicate NoEscapeNext(next: Next) {
    next.Redo? ==> Top(next.t).state != EscapeUnicode
  }

  lemma LiteralsGoOn(t: Tok, c: char, len: nat)
    ensures NoEscapeNext(StartValue(t, c)) && NoEscapeNext(InfLiteral(t, c)) && NoEscapeNext(NullLiteral(t, c))
    ensures NoEscapeNext(BooleanLiteral(t, c)) && NoEscapeNext(NumberLiteral(t, c, len))
  {
    hide Matches, ParseInt64, DoubleParses;
  }

  lemma LevelsGoOn(t: Tok, obj: Json, c: char, add: St)
    ensures add != EscapeUnicode ==> NoEscapeNext(Push(t, add))
    ensures NoEscapeNext(ArrayItem(t, c)) && NoEscapeNext(FieldItem(t, c)) && NoEscapeNext(Quoted(t, c))
      && NoEscapeNext(EscapeChar(t, c))
    ensures NoEscapeNext(AddToArray(t, obj)) && NoEscapeNext(AddToObject(t, obj))
  {
    hide AddItem, AddField;
  }

  lemma SeparatorsGoOn(t: Tok, obj: Json, c: char)
    ensures NoEscapeNext(EatWhite(t, obj, c)) && NoEscapeNext(CommentChar(t, c)) && NoEscapeNext(Colon(t, c))
    ensures NoEscapeNext(Separator(t, c, ']', ArrayAfterSep, ErrorArray))
      && NoEscapeNext(Separator(t, c, '}', FieldStartAfterSep, ErrorValueSep))
  {
  }

  lemma {:induction false} ProcessIsQuiet(t: Tok, obj: Json, c: char, rest: string, len: nat)
    requires Wf(t)
    ensures Quiet(t, Process(t, obj, c, rest, len), Halves(t, c, rest))
    decreases Rank(t)
  {
    hide Switch, Rank, Wf, Code;
    SwitchIsQuiet(t, obj, c, rest, len);
    RedoDescends(t, obj, c, rest, len);
    RedoIsNoEscape(t, obj, c, rest, len);
    var next := Switch(t, obj, c, rest, len);
    if next.Redo? { ProcessIsQuiet(next.t, next.obj, c, rest, len); }
  }

  /** More input behind the chunk changes nothing, unless the chunk ends within a pair. */
  lemma SwitchAhead(t: Tok, obj: Json, c: char, rest: string, b: string, len: nat)
    requires !Halves(t, c, rest)
    ensures Switch(t, obj, c, rest + b, len) == Switch(t, obj, c, rest, len)
  {
    hide StartValue, InfLiteral, NullLiteral, BooleanLiteral, NumberLiteral, Push, Pop, ArrayItem, FieldItem, Quoted,
      EscapeChar;
    hide Encode, IsHighSurrogate, IsLowSurrogate, DecodePair, HexDigit;
    assert |rest| >= 2 ==> (rest + b)[0] == rest[0] && (rest + b)[1] == rest[1];
  }

  lemma {:induction false} ProcessAhead(t: Tok, obj: Json, c: char, rest: string, b: string, len: nat)
    requires Wf(t) && !Halves(t, c, rest)
    ensures Process(t, obj, c, rest + b, len) == Process(t, obj, c, rest, len)
    decreases Rank(t)
  {
    hide Switch, Rank, Wf;
    RedoDescends(t, obj, c, rest, len);
    RedoIsNoEscape(t, obj, c, rest, len);
    SwitchAhead(t, obj, c, rest, b, len);
    var next := Switch(t, obj, c, rest, len);
    if next.Redo? { ProcessAhead(next.t, next.obj, c, rest, b, len); }
  }

  lemma StopIsNoContinue(t: Tok, c: char)
    requires t.err != Continue
    ensures Judge(t, c).err != Continue && Judge(Flush(t), c).err != Continue
  {
  }

  /** m and n characters of a number have been read: that only makes a difference if it begins with a minus sign
      and goes on to i or I, which is -Infinity right behind the sign. */
  ghost predicate SameLengths(t: Tok, m: nat, n: nat, s: string) {
    m == n || (Top(t).state == Number && ((t.pb != "" && t.pb[0] != '-') || SameFrom(m, n, s)))
  }

  ghost predicate SameFrom(m: nat, n: nat, s: string)
    decreases |s|
  {
    if s == "" then true
    else if s[0] == 'i' || s[0] == 'I' then m == 1 <==> n == 1
    else IsNumberChar(s[0]) ==> SameFrom(m + 1, n + 1, s[1..])
  }

  ghost predicate SameSign(t: Tok, c: char, m: nat, n: nat) {
    Top(t).state == Number && t.pb != "" && t.pb[0] == '-' && (c == 'i' || c == 'I') ==> (m == 1 <==> n == 1)
  }

  lemma {:induction false} ProcessLength(t: Tok, obj: Json, c: char, rest: string, m: nat, n: nat)
    requires Wf(t) && SameSign(t, c, m, n)
    ensures Process(t, obj, c, rest, m) == Process(t, obj, c, rest, n)
    decreases Rank(t)
  {
    hide Rank, Wf;
    assert Switch(t, obj, c, rest, m) == Switch(t, obj, c, rest, n);
    SwitchKeeps(t, obj, c, rest, m);
    RedoDescends(t, obj, c, rest, m);
    var next := Switch(t, obj, c, rest, m);
    if next.Redo? { ProcessLength(next.t, next.obj, c, rest, m, n); }
  }

  /** The characters of the number that is being read */
  function NumberText(t: Tok): string {
    if Top(t).state == Number then t.pb else ""
  }

  /** A number goes on with number characters, one at a time. */
  ghost predicate NumberKept(t: Tok, c: char, next: Next) {
    && (next.Advance? && Top(next.t).state == Number ==>
          IsNumberChar(c) && next.n == 1 && next.t.pb == NumberText(t) + [c])
    && (next.Out? && Top(next.t).state == Number ==> next.t.err == ErrorNumber && next.t.pb in {NumberText(t), ""})
  }

  lemma {:induction false} NumberGoesOn(t: Tok, obj: Json, c: char, rest: string, len: nat)
    requires Wf(t)
    ensures NumberKept(t, c, Process(t, obj, c, rest, len))
    decreases Rank(t)
  {
    hide Rank, Wf, Switch;
    SwitchKeeps(t, obj, c, rest, len);
    RedoDescends(t, obj, c, rest, len);
    SwitchToNumber(t, obj, c, rest, len);
    var next := Switch(t, obj, c, rest, len);
    if next.Redo? { NumberGoesOn(next.t, next.obj, c, rest, len); }
  }

  lemma SwitchToNumber(t: Tok, obj: Json, c: char, rest: string, len: nat)
    requires Wf(t)
    ensures var next := Switch(t, obj, c, rest, len);
      && (!next.Redo? && Top(next.t).state == Number ==> Top(t).state == Number)
      && NumberKept(t, c, next) && (next.Redo? && Top(t).state == Number ==> !IsNumberChar(c))
  {
    if Top(t).state == Number {
      NumberSwitch(t, obj, c, rest, len);
    } else {
      OthersAreNoNumber(t, obj, c, rest, len);
    }
  }

  lemma NumberSwitch(t: Tok, obj: Json, c: char, rest: string, len: nat)
    requires Top(t).state == Number
    ensures var next := Switch(t, obj, c, rest, len);
      NumberKept(t, c, next) && (next.Redo? ==> Top(next.t).state != Number && !IsNumberChar(c))
  {
    hide ParseInt64, DoubleParses;
  }

  lemma OthersAreNoNumber(t: Tok, obj: Json, c: char, rest: string, len: nat)
    requires Wf(t) && Top(t).state != Number
    ensures var next := Switch(t, obj, c, rest, len); !next.Redo? ==> Top(next.t).state != Number
  {
    hide StartValue, InfLiteral, NullLiteral, BooleanLiteral, NumberLiteral, ArrayItem, FieldItem, Quoted, EscapeChar,
      UnicodeDigit;
    hide Push, Pop, Separator, EatWhite, CommentChar, AddToArray, AddToObject, Colon, Wf;
    match Top(t).state
    case Eatws => WhiteIsNoNumber(t, obj, c);
    case CommentStart => WhiteIsNoNumber(t, obj, c);
    case Comment => WhiteIsNoNumber(t, obj, c);
    case CommentEol => WhiteIsNoNumber(t, obj, c);
    case CommentEnd => WhiteIsNoNumber(t, obj, c);
    case Start => StartIsNoNumber(t, c);
    case Inf => LiteralsAreNoNumber(t, c);
    case NullOrNaN => LiteralsAreNoNumber(t, c);
    case Boolean => LiteralsAreNoNumber(t, c);
    case String => StringsAreNoNumber(t, c, rest);
    case FieldName => StringsAreNoNumber(t, c, rest);
    case StringEscape => StringsAreNoNumber(t, c, rest);
    case EscapeUnicode => StringsAreNoNumber(t, c, rest);
    case _ => LevelsAreNoNumber(t, obj, c, rest, len);
  }

  /** Apart from that, it does not matter how much of a number came before. */
  lemma {:induction false} LengthIsLost(t: Tok, m: nat, n: nat, s: string)
    requires AtRest(t) && SameLengths(t, m, n, s)
    ensures Run(t, m, s) == Run(t, n, s)
    decreases |s|
  {
    hide Process, Wf;
    if s != "" && m != n {
      assert SameSign(t, s[0], m, n);
      ProcessLength(t, Null, s[0], s[1..], m, n);
      var next := Process(t, Null, s[0], s[1..], m);
      ProcessKeeps(t, Null, s[0], s[1..], m);
      if next.Advance? && s[0] != NUL && 0 < next.n <= |s| {
        NumberGoesOn(t, Null, s[0], s[1..], m);
        LengthIsLost(next.t, NumberLength(next.t, m), NumberLength(next.t, n), s[next.n..]);
      }
    }
  }

  /** A chunk that ended n characters into a number that begins with a minus sign is followed by s. */
  predicate SplitsInfinity(n: nat, s: string) {
    || (n == 1 && s != "" && (s[0] == 'i' || s[0] == 'I'))
    || (n >= 1 && |s| > 1 && IsNumberChar(s[0]) && (s[1] == 'i' || s[1] == 'I'))
  }

  lemma {:induction false} LongNumbers(m: nat, n: nat, s: string)
    requires m > 1 && n > 1
    ensures SameFrom(m, n, s)
    decreases |s|
  {
    if s != "" { LongNumbers(m + 1, n + 1, s[1..]); }
  }

  lemma SplitNumber(n: nat, s: string)
    requires n >= 1 && !SplitsInfinity(n, s)
    ensures SameFrom(n, 0, s)
  {
    if |s| > 1 { LongNumbers(n + 2, 2, s[1..][1..]); }
  }

  /** How many characters at the end of a chunk belong to a number that is not complete. */
  function OpenNumber(t: Tok, len: nat, a: string): nat
    decreases |a|
  {
    if a == "" then len
    else
      var next := Process(t, Null, a[0], a[1..], len);
      if !next.Advance? || next.n == 0 || next.n > |a| then 0
      else OpenNumber(next.t, NumberLength(next.t, len), a[next.n..])
  }

  predicate AllHex(s: string) {
    forall c :: c in s ==> IsHexChar(c) && c != NUL
  }

  /** What may stand behind the first half of a pair, up to before the last digit of the second */
  predicate Within(tail: string) {
    tail <= "\\u" || (2 < |tail| < 6 && tail[..2] == "\\u" && AllHex(tail[2..]))
  }

  /** a ends within a pair of escapes: c is the last digit of the first half, read in the state w, and tail is what
      follows. */
  ghost predicate HighEnd(t: Tok, len: nat, a: string, x: string, w: Tok, c: char, tail: string) {
    && a == x + ([c] + tail) && c != NUL && AtHigh(w, c) && Within(tail) && w.err == Success && AtRest(w) && HiOk(w)
    && forall b :: Run(t, len, a + b) == More(Run(w, 0, [c] + (tail + b)), |x|)
  }

  /** The second half is being read, and a is not the end of it. */
  predicate Pending(t: Tok, a: string) {
    t.hi != 0 && Top(t).state == EscapeUnicode && t.stPos + |a| < 4 && AllHex(a)
  }

  ghost predicate EndsInPair(t: Tok, len: nat, a: string) {
    exists x, w, c, tail :: HighEnd(t, len, a, x, w, c, tail)
  }

  predicate HiOk(t: Tok) {
    t.quote != '\\' && (t.hi != 0 ==> Top(t).state == EscapeUnicode && t.stPos < 4)
  }

  predicate KeepsHi(t: Tok, next: Next) {
    next.t.hi == t.hi && (t.quote != '\\' ==> next.t.quote != '\\')
  }

  lemma LiteralsKeepHi(t: Tok, c: char, len: nat)
    ensures KeepsHi(t, StartValue(t, c)) && KeepsHi(t, InfLiteral(t, c)) && KeepsHi(t, NullLiteral(t, c))
    ensures KeepsHi(t, BooleanLiteral(t, c)) && KeepsHi(t, NumberLiteral(t, c, len))
  {
    hide Matches, ParseInt64, DoubleParses;
  }

  lemma ValuesKeepHi(t: Tok, c: char)
    ensures KeepsHi(t, ArrayItem(t, c)) && KeepsHi(t, FieldItem(t, c)) && KeepsHi(t, Quoted(t, c))
      && KeepsHi(t, EscapeChar(t, c))
  {
  }

  lemma LevelsKeepHi(t: Tok, obj: Json, add: St)
    ensures KeepsHi(t, Pop(t)) && KeepsHi(t, AddToArray(t, obj)) && KeepsHi(t, AddToObject(t, obj))
      && KeepsHi(t, Push(t, add))
  {
    hide AddItem, AddField;
  }

  lemma SeparatorsKeepHi(t: Tok, obj: Json, c: char)
    ensures KeepsHi(t, EatWhite(t, obj, c)) && KeepsHi(t, CommentChar(t, c)) && KeepsHi(t, Colon(t, c))
    ensures KeepsHi(t, Separator(t, c, ']', ArrayAfterSep, ErrorArray))
      && KeepsHi(t, Separator(t, c, '}', FieldStartAfterSep, ErrorValueSep))
  {
  }

  /** The first half of a pair is only pending while the second is read. */
  ghost predicate HiKept(t: Tok, c: char, rest: string, next: Next) {
    && (next.Redo? ==> next.t.hi == 0 && HiOk(next.t)) && (next.Advance? ==> HiOk(next.t)) && next.t.quote != '\\'
    && (next.Advance? && next.t.hi != 0 ==>
          && Top(t).state == EscapeUnicode && IsHexChar(c)
          && if next.n == 1 then t.hi != 0 && next.t.stPos == t.stPos + 1
             else next.n == 3 && AtHigh(t, c) && |rest| > 2 && rest[..2] == "\\u" && next.t.stPos == 0)
  }

  lemma DigitKeepsHi(t: Tok, c: char, rest: string)
    requires HiOk(t) && Top(t).state == EscapeUnicode
    ensures HiKept(t, c, rest, UnicodeDigit(t, c, rest))
  {
    hide Encode, IsHighSurrogate, IsLowSurrogate, DecodePair, HexDigit, IsHexChar;
    if |rest| >= 2 && rest[0] == '\\' && rest[1] == 'u' { assert rest[..2] == "\\u"; }
  }

  lemma HiSwitch(t: Tok, obj: Json, c: char, rest: string, len: nat)
    requires HiOk(t)
    ensures HiKept(t, c, rest, Switch(t, obj, c, rest, len))
  {
    hide StartValue, InfLiteral, NullLiteral, BooleanLiteral, NumberLiteral, ArrayItem, FieldItem, Quoted, EscapeChar,
      UnicodeDigit;
    hide Push, Pop, Separator, EatWhite, CommentChar, AddToArray, AddToObject, Colon, AtHigh, IsHexChar;
    LiteralsKeepHi(t, c, len);
    ValuesKeepHi(t, c);
    LevelsKeepHi(t, obj, ObjectValueAdd);
    SeparatorsKeepHi(t, obj, c);
    if Top(t).state == EscapeUnicode { DigitKeepsHi(t, c, rest); }
  }

  lemma {:induction false} HiProcess(t: Tok, obj: Json, c: char, rest: string, len: nat)
    requires Wf(t) && HiOk(t)
    ensures HiKept(t, c, rest, Process(t, obj, c, rest, len))
    decreases Rank(t)
  {
    hide Switch, Rank, Wf;
    RedoDescends(t, obj, c, rest, len);
    HiSwitch(t, obj, c, rest, len);
    RedoIsNoEscape(t, obj, c, rest, len);
    var next := Switch(t, obj, c, rest, len);
    if next.Redo? { HiProcess(next.t, next.obj, c, rest, len); }
  }

  /** What holds of every state between two calls: the stack is in order, a string ends with no backslash, and what has
      been read of a number is number characters. */
  ghost predicate Sound(t: Tok) {
    AtRest(t) && t.quote != '\\' && forall c :: c in NumberText(t) ==> IsNumberChar(c)
  }

  lemma ProcessIsSound(t: Tok, c: char, rest: string, len: nat)
    requires Sound(t) && HiOk(t)
    ensures var next := Process(t, Null, c, rest, len); Sound(next.t) && (next.Advance? ==> HiOk(next.t))
  {
    hide Process, Wf, IsNumberChar;
    ProcessKeeps(t, Null, c, rest, len);
    NumberGoesOn(t, Null, c, rest, len);
    HiProcess(t, Null, c, rest, len);
  }

  lemma EndIsSound(t: Tok, c: char)
    requires Sound(t)
    ensures Sound(Judge(t, c)) && (HiOk(t) ==> Sound(Judge(Flush(t), c)) && Sound(AtEnd(t)))
  {
    EndKeeps(t, c);
    EndIsSame(t, c);
    hide AtRest, IsNumberChar, Judge, Flush, AtEnd, HiOk;
  }

  lemma EndIsSame(t: Tok, c: char)
    ensures Judge(t, c).quote == Judge(Flush(t), c).quote == AtEnd(t).quote == t.quote
    ensures NumberText(Judge(t, c)) == NumberText(t)
    ensures HiOk(t) ==> NumberText(Judge(Flush(t), c)) == NumberText(AtEnd(t)) == NumberText(t)
  {
  }

  lemma {:induction false} RunIsSound(t: Tok, len: nat, s: string)
    requires Sound(t) && HiOk(t)
    ensures Sound(Run(t, len, s).tok)
    decreases |s|
  {
    hide Process, Sound, Judge, Flush, AtEnd;
    if s == "" {
      EndIsSound(t, NUL);
    } else {
      ProcessIsSound(t, s[0], s[1..], len);
      var next := Process(t, Null, s[0], s[1..], len);
      EndIsSound(next.t, s[0]);
      if next.Advance? && s[0] != NUL && 0 < next.n <= |s| {
        RunIsSound(next.t, NumberLength(next.t, len), s[next.n..]);
      }
    }
  }

  /** Every call keeps that, whatever the input and however it is cut. */
  lemma CallIsSound(t: Tok, s: string)
    requires Sound(t)
    ensures Sound(Parse(t, s).tok) && Sound(Cleared(Parse(t, s).tok))
  {
    hide Run, Wf, IsNumberChar;
    CallKeeps(t, s);
    Begun(t);
    RunIsSound(Begin(t), 0, s);
  }

  /** A chunk that ends within a pair one step on ends within a pair. */
  lemma PairBack(t: Tok, len: nat, a: string)
    requires HiOk(t) && a != "" && a[0] != NUL && !Halves(t, a[0], a[1..]) && t.err == Success && AtRest(t)
    requires Top(t).state != Number ==> len == 0
    requires var next := Process(t, Null, a[0], a[1..], len); next.Advance? && 0 < next.n <= |a|
    ensures var next := Process(t, Null, a[0], a[1..], len);
      && (Pending(next.t, a[next.n..]) ==> Pending(t, a) || EndsInPair(t, len, a))
      && (EndsInPair(next.t, NumberLength(next.t, len), a[next.n..]) ==> EndsInPair(t, len, a))
  {
    hide Process, AtHigh, Wf, EndsInPair;
    var next := Process(t, Null, a[0], a[1..], len);
    HiProcess(t, Null, a[0], a[1..], len);
    if Pending(next.t, a[next.n..]) {
      if next.n == 1 {
        assert a == [a[0]] + a[next.n..];
      } else {
        HighHere(t, a);
      }
    }
    if EndsInPair(next.t, NumberLength(next.t, len), a[next.n..]) { PairFurther(t, len, a); }
  }

  /** A pair that ends the rest of the input ends the input. */
  lemma PairFurther(t: Tok, len: nat, a: string)
    requires a != "" && a[0] != NUL && !Halves(t, a[0], a[1..]) && AtRest(t)
    requires Top(t).state != Number ==> len == 0
    requires var next := Process(t, Null, a[0], a[1..], len); next.Advance? && 0 < next.n <= |a|
    requires var next := Process(t, Null, a[0], a[1..], len); EndsInPair(next.t, NumberLength(next.t, len), a[next.n..])
    ensures EndsInPair(t, len, a)
  {
    hide Process, AtHigh, Wf, Run, NumberLength, Halves, Within, HiOk, AtRest;
    var next := Process(t, Null, a[0], a[1..], len);
    var len', a' := NumberLength(next.t, len), a[next.n..];
    var x, w, c, tail :| HighEnd(next.t, len', a', x, w, c, tail);
    var x' := a[..next.n] + x;
    forall b ensures Run(t, len, a + b) == More(Run(w, 0, [c] + (tail + b)), |x'|) {
      RunAhead(t, len, a, b);
    }
    assert a == x' + ([c] + tail);
    assert HighEnd(t, len, a, x', w, c, tail);
  }

  /** The first character leads to the same rest, whatever follows a. */
  lemma RunAhead(t: Tok, len: nat, a: string, b: string)
    requires a != "" && a[0] != NUL && !Halves(t, a[0], a[1..]) && AtRest(t)
    requires Top(t).state != Number ==> len == 0
    requires var next := Process(t, Null, a[0], a[1..], len); next.Advance? && 0 < next.n <= |a|
    ensures var next := Process(t, Null, a[0], a[1..], len);
      Run(t, len, a + b) == More(Run(next.t, NumberLength(next.t, len), a[next.n..] + b), next.n)
  {
    hide Process, Halves, NumberLength, Judge, Flush;
    var next := Process(t, Null, a[0], a[1..], len);
    assert (a + b)[0] == a[0] && (a + b)[1..] == a[1..] + b && (a + b)[next.n..] == a[next.n..] + b;
    ProcessAhead(t, Null, a[0], a[1..], b, len);
  }

  lemma HighHere(t: Tok, a: string)
    requires a != "" && a[0] != NUL && AtHigh(t, a[0]) && Within(a[1..]) && t.err == Success && AtRest(t) && HiOk(t)
    ensures EndsInPair(t, 0, a)
  {
    hide Run, AtHigh, Wf;
    forall b ensures Run(t, 0, a + b) == More(Run(t, 0, [a[0]] + (a[1..] + b)), |""|) {
      assert a + b == [a[0]] + (a[1..] + b);
    }
    assert a == "" + ([a[0]] + a[1..]);
    assert HighEnd(t, 0, a, "", t, a[0], a[1..]);
  }

  /** A chunk that ends in continue, but not within a pair, has been taken in whole, and what follows is read from
      there. */
  lemma {:induction false} FirstChunk(t: Tok, len: nat, a: string, b: string) returns (w: Tok, n: nat)
    requires AtRest(t) && HiOk(t) && t.err == Success
      && (if Top(t).state == Number then len > 0 ==> t.pb != "" else len == 0)
    requires Run(t, len, a).tok.err == Continue && !Pending(t, a) && !EndsInPair(t, len, a)
    ensures Run(t, len, a) == Outcome(AtEnd(w), |a|) && w.hi == 0 && w.err == Success && AtRest(w)
    ensures n == OpenNumber(t, len, a) && if Top(w).state == Number then n > 0 ==> w.pb != "" else n == 0
    ensures Run(t, len, a + b) == More(Run(w, n, b), |a|)
    decreases |a|
  {
    hide Process, Flush, Judge, AtEnd, Wf, Code, EndsInPair, HexDigit, IsHexChar;
    if a == "" {
      w, n := t, len;
      assert a + b == b;
    } else {
      if Halves(t, a[0], a[1..]) && a[0] != NUL { HighHere(t, a); }
      var next := Process(t, Null, a[0], a[1..], len);
      ProcessIsQuiet(t, Null, a[0], a[1..], len);
      assert (a + b)[0] == a[0] && (a + b)[1..] == a[1..] + b;
      if a[0] == NUL { NulIsNoContinue(t, a, len); } else { StopIsNoContinue(next.t, a[0]); }
      if next.Advance? && a[0] != NUL && next.n <= |a| {
        var len' := NumberLength(next.t, len);
        RunAhead(t, len, a, b);
        ProcessKeeps(t, Null, a[0], a[1..], len);
        NumberGoesOn(t, Null, a[0], a[1..], len);
        HiProcess(t, Null, a[0], a[1..], len);
        PairBack(t, len, a);
        w, n := FirstChunk(next.t, len', a[next.n..], b);
      }
    }
  }

  /** A final NUL never asks for more. */
  lemma NulIsNoContinue(t: Tok, a: string, len: nat)
    requires a != "" && a[0] == NUL && t.err == Success && AtRest(t)
    ensures Run(t, len, a).tok.err != Continue
  {
    hide Switch, Process, Judge, Flush, Wf, AtHigh;
    var next := Process(t, Null, NUL, a[1..], len);
    ProcessIsQuiet(t, Null, NUL, a[1..], len);
    if Halves(t, NUL, a[1..]) {
      HighStays(t, a[1..], len);
    } else {
      StopIsNoContinue(next.t, NUL);
    }
  }

  lemma HighStays(t: Tok, rest: string, len: nat)
    requires AtHigh(t, NUL) && AtRest(t)
    ensures var next := Process(t, Null, NUL, rest, len);
      !next.Redo? && Judge(next.t, NUL).err == ErrorEof && Judge(Flush(next.t), NUL).err == ErrorEof
  {
    hide Wf, Encode, IsHighSurrogate, IsLowSurrogate, DecodePair, HexDigit;
    SavedString(t);
    assert Process(t, Null, NUL, rest, len) == UnicodeDigit(t, NUL, rest);
  }

  lemma SavedString(t: Tok)
    requires AtRest(t) && Top(t).state == EscapeUnicode
    ensures Top(t).saved == String || Top(t).saved == FieldName
  {
  }

  lemma Resumes(w: Tok)
    requires w.err == Success && w.hi == 0
    ensures Begin(AtEnd(w)) == w && Top(AtEnd(w)) == Top(w) && AtEnd(w).pb == w.pb
  {
  }

  /** The chunk a leaves a number open that begins with a minus sign, of which it holds one character, or more and b
      holds one; then comes the i or I that only right behind the sign means -Infinity. */
  predicate CutsInfinity(t: Tok, a: string, b: string) {
    var t' := Parse(t, a).tok;
    Top(t').state == Number && t'.pb != "" && t'.pb[0] == '-' && SplitsInfinity(OpenNumber(Begin(t), 0, a), b)
  }

  /** What the open number holds, n characters long: the end of the chunk, or all of it behind what came before */
  predicate HoldsEnd(t: Tok, len: nat, a: string, n: nat, pb: string) {
    && (n > 0 || (Top(t).state == Number && len == 0))
    && if Top(t).state == Number && n == len + |a| then pb == t.pb + a else n <= |a| && pb == a[|a|-n..]
  }

  lemma {:induction false} OpenText(t: Tok, len: nat, a: string)
    requires AtRest(t) && HiOk(t) && t.err == Success && (Top(t).state != Number ==> len == 0)
    requires Run(t, len, a).tok.err == Continue && Top(Run(t, len, a).tok).state == Number
    ensures HoldsEnd(t, len, a, OpenNumber(t, len, a), Run(t, len, a).tok.pb)
    decreases |a|
  {
    hide Process, Wf, Judge, Flush, AtEnd, HiOk, HoldsEnd;
    if a == "" {
      NothingOpened(t, len);
    } else {
      var next := Process(t, Null, a[0], a[1..], len);
      ProcessKeeps(t, Null, a[0], a[1..], len);
      NumberGoesOn(t, Null, a[0], a[1..], len);
      HiProcess(t, Null, a[0], a[1..], len);
      StopsInNoNumber(t, len, a);
      ProcessIsQuiet(t, Null, a[0], a[1..], len);
      OpenText(next.t, NumberLength(next.t, len), a[next.n..]);
      var n := OpenNumber(t, len, a);
      HoldsFurther(t, next, len, a, n, Run(t, len, a).tok.pb);
    }
  }

  lemma NothingOpened(t: Tok, len: nat)
    requires HiOk(t) && (Top(t).state != Number ==> len == 0) && Top(Run(t, len, "").tok).state == Number
    ensures HoldsEnd(t, len, "", len, Run(t, len, "").tok.pb)
  {
    EndIsSame(t, NUL);
    assert Run(t, len, "").tok == AtEnd(t);
    assert t.pb + "" == t.pb && AtEnd(t).stack == t.stack;
  }

  /** A call that stops before the end of the chunk and asks for more is not in a number. */
  lemma StopsInNoNumber(t: Tok, len: nat, a: string)
    requires AtRest(t) && HiOk(t) && t.err == Success && a != ""
    requires Run(t, len, a).tok.err == Continue && Top(Run(t, len, a).tok).state == Number
    ensures var next := Process(t, Null, a[0], a[1..], len); next.Advance? && a[0] != NUL && 0 < next.n <= |a|
  {
    hide Process, Wf, HiOk;
    var next := Process(t, Null, a[0], a[1..], len);
    ProcessKeeps(t, Null, a[0], a[1..], len);
    NumberGoesOn(t, Null, a[0], a[1..], len);
    ProcessIsQuiet(t, Null, a[0], a[1..], len);
  }

  lemma HoldsFurther(t: Tok, next: Next, len: nat, a: string, n: nat, pb: string)
    requires a != "" && next.Advance? && 0 < next.n <= |a| && (Top(t).state != Number ==> len == 0)
    requires NumberKept(t, a[0], next) && HoldsEnd(next.t, NumberLength(next.t, len), a[next.n..], n, pb)
    ensures HoldsEnd(t, len, a, n, pb)
  {
    if Top(next.t).state == Number {
      assert [a[0]] + a[1..] == a && (t.pb + [a[0]]) + a[1..] == t.pb + a;
    }
  }

  /** For a chunk that begins outside a number: it ends in the text of the number that it leaves open, and the cut
      touches -Infinity exactly if that text begins with a minus sign and SplitsInfinity holds. */
  lemma CutsInfinityIsText(t: Tok, a: string, b: string)
    requires AtRest(t) && t.quote != '\\' && Top(t).state != Number && Parse(t, a).tok.err == Continue
    requires Top(Parse(t, a).tok).state == Number
    ensures var n := OpenNumber(Begin(t), 0, a);
      && 0 < n <= |a| && Parse(t, a).tok.pb == a[|a|-n..]
      && (CutsInfinity(t, a, b) <==> a[|a|-n] == '-' && SplitsInfinity(n, b))
  {
    hide Run, Wf, OpenNumber, SplitsInfinity;
    Begun(t);
    OpenText(Begin(t), 0, a);
  }

  /** Cutting the input of json_tokener_parse_ex in two does not matter if the first chunk ends in continue, and
      neither within a pair of escapes nor where it hides -Infinity, or makes it up. */
  lemma ChunksDoNotMatter(t: Tok, a: string, b: string)
    requires AtRest(t) && t.quote != '\\' && Parse(t, a).tok.err == Continue && !EndsInPair(Begin(t), 0, a)
      && !CutsInfinity(t, a, b)
    ensures Parse(t, a).used == |a| && Parse(t, a + b) == More(Parse(Parse(t, a).tok, b), |a|)
  {
    hide Wf, Run, OpenNumber, AtEnd, Begin, SplitsInfinity, EndsInPair;
    Begun(t);
    var w, n := FirstChunk(Begin(t), 0, a, b);
    Resumes(w);
    if n > 0 && w.pb[0] == '-' { SplitNumber(n, b); }
    LengthIsLost(w, n, 0, b);
  }

  lemma Begun(t: Tok)
    requires AtRest(t)
    ensures var b := Begin(t);
      AtRest(b) && b.err == Success && b.hi == 0 && b.quote == t.quote && Top(b) == Top(t) && b.pb == t.pb
  {
  }

  /** What i or I can lead to behind a number with the text pb. */
  ghost predicate StopsBehind(pb: string, c: char, next: Next) {
    (next.Out? && next.n == 0 && (next.t.pb == pb || next.t.pb == [c])) || (next.Advance? && next.n == 1)
  }

  lemma StartsInfinity(t: Tok, obj: Json, c: char, rest: string, len: nat)
    requires (c == 'i' || c == 'I') && Top(t).state == Start
    ensures StopsBehind(t.pb, c, Process(t, obj, c, rest, len))
  {
    var u := Switch(t, obj, c, rest, len).t;
    assert Process(t, obj, c, rest, len) == Process(u, Null, c, rest, len) == Switch(u, Null, c, rest, len);
  }

  lemma {:induction false} BehindNumber(t: Tok, obj: Json, c: char, rest: string, len: nat)
    requires Wf(t) && (c == 'i' || c == 'I')
    requires Top(t).state in {Finish, ArrayAdd, ObjectValueAdd, ArraySep, ObjectSep, Start}
      || (Top(t).state == Eatws && Top(t).saved in {Start, Finish, ArraySep, ObjectSep})
    ensures StopsBehind(t.pb, c, Process(t, obj, c, rest, len))
    decreases Rank(t)
  {
    hide Rank, CString, ParseInt64, DoubleParses, Matches, AddItem, AddField, StopsBehind;
    RedoDescends(t, obj, c, rest, len);
    SwitchKeeps(t, obj, c, rest, len);
    if Top(t).state == Start {
      StartsInfinity(t, obj, c, rest, len);
    } else {
      var next := Switch(t, obj, c, rest, len);
      assert next.t.pb == t.pb;
      if next.Redo? {
        BehindNumber(next.t, next.obj, c, rest, len);
      } else {
        assert StopsBehind(t.pb, c, next) by { SeparatorStops(t, c, next); }
      }
    }
  }

  lemma SeparatorStops(t: Tok, c: char, next: Next)
    requires next.Out? && next.n == 0 && next.t.pb == t.pb
    ensures StopsBehind(t.pb, c, next)
  {
  }

  ghost predicate AtInfinity(t: Tok, c: char) {
    && Wf(t) && Top(t).state == Number && t.pb != "" && t.pb[0] == '-' && (c == 'i' || c == 'I')
    && forall x :: x in t.pb ==> IsNumberChar(x)
  }

  /** Read as the end of a number. */
  lemma ReadAsNumber(t: Tok, c: char, rest: string, len: nat)
    requires AtInfinity(t, c) && len != 1
    ensures var next := Process(t, Null, c, rest, len);
      StopsBehind(t.pb, c, next) && (t.pb == "-" ==> next.Out? && next.t.pb == t.pb)
  {
    var next := NumberLiteral(t, c, len);
    assert next == Switch(t, Null, c, rest, len);
    if t.pb == "-" { assert t.pb[1..] == ""; }
    hide Switch, ParseInt64, DoubleParses, Matches, CString;
    SwitchKeeps(t, Null, c, rest, len);
    if next.Redo? { BehindNumber(next.t, next.obj, c, rest, len); }
  }

  /** Read as -Infinity. */
  lemma ReadAsInfinity(t: Tok, c: char, rest: string)
    requires AtInfinity(t, c)
    ensures var next := Process(t, Null, c, rest, 1);
      (next.Out? && next.n == 0 && next.t.pb == t.pb + [c]) || (next.Advance? && next.n == 1 && t.pb == "-")
  {
    hide Switch;
    TurnsToInfinity(t, c, rest);
    InfinityRead(Go(t, Inf), c, rest);
    assert Process(t, Null, c, rest, 1) == Process(Go(t, Inf), Null, c, rest, 1);
  }

  lemma TurnsToInfinity(t: Tok, c: char, rest: string)
    requires AtInfinity(t, c)
    ensures Switch(t, Null, c, rest, 1) == Redo(Go(t, Inf), Null)
  {
  }

  lemma InfinityRead(u: Tok, c: char, rest: string)
    requires Top(u).state == Inf && (c == 'i' || c == 'I') && u.pb != "" && (forall d :: d in u.pb ==> IsNumberChar(d))
      && u.pb[0] == '-'
    ensures var next := Process(u, Null, c, rest, 1);
      (next.Out? && next.n == 0 && next.t.pb == u.pb + [c]) || (next.Advance? && next.n == 1 && u.pb == "-")
  {
    if |u.pb| > 1 {
      assert (u.pb + [c])[1..][0] == u.pb[1] && u.pb[1] in u.pb;
    } else {
      assert (u.pb + [c])[1..] == [c];
    }
  }

  lemma InfinityTells(t: Tok, m: nat, s: string)
    requires s != "" && AtInfinity(t, s[0]) && m != 1
    ensures Run(t, m, s) != Run(t, 1, s)
  {
    hide Process, Switch;
    ReadAsNumber(t, s[0], s[1..], m);
    ReadAsInfinity(t, s[0], s[1..]);
  }

  /** Where the two chunks hide -Infinity, or make it up, they never end the way the whole input does. */
  lemma InfinityCutMatters(t: Tok, a: string, b: string)
    requires Sound(t) && Parse(t, a).tok.err == Continue && !EndsInPair(Begin(t), 0, a) && CutsInfinity(t, a, b)
    ensures Parse(t, a + b) != More(Parse(Parse(t, a).tok, b), |a|)
  {
    hide Wf, Run, OpenNumber, AtEnd, Begin, EndsInPair;
    CallIsSound(t, a);
    Begun(t);
    var w, n := FirstChunk(Begin(t), 0, a, b);
    Resumes(w);
    EndsInNumber(w);
    if b[0] == 'i' || b[0] == 'I' {
      InfinityTells(w, 0, b);
    } else {
      NumberStep(w, n, b);
      NumberStep(w, 0, b);
      InfinityTells(Process(w, Null, b[0], b[1..], 0).t, n + 1, b[1..]);
    }
  }

  lemma EndsInNumber(w: Tok)
    requires AtRest(w)
    ensures Wf(w)
  {
  }

  lemma NumberStep(t: Tok, len: nat, s: string)
    requires |s| > 1 && AtRest(t) && Top(t).state == Number && IsNumberChar(s[0]) && t.pb != "" && t.pb[0] == '-'
    requires (s[1] == 'i' || s[1] == 'I') && forall x :: x in t.pb ==> IsNumberChar(x)
    ensures var u := Process(t, Null, s[0], s[1..], 0).t;
      Run(t, len, s) == More(Run(u, len + 1, s[1..]), 1) && AtInfinity(u, s[1])
  {
    ProcessKeeps(t, Null, s[0], s[1..], 0);
    hide Wf;
    assert Process(t, Null, s[0], s[1..], len) == Process(t, Null, s[0], s[1..], 0) == NumberLiteral(t, s[0], 0);
  }
}
