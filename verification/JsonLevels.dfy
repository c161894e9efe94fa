/** What the stack of json_tokener_parse_ex looks like at every moment of every run. */
module JsonLevels {
  import opened JsonValue
  import opened JsonTokener

  /** The state st has the value, and the key, it needs. */
  predicate Fits(st: St, s: Srec) {
    match st
    case ArrayStart => s.current.Array?
    case ArrayAfterSep => s.current.Array?
    case ArraySep => s.current.Array?
    case ArrayAdd => s.current.Array?
    case FieldStart => s.current.Object?
    case FieldStartAfterSep => s.current.Object?
    case FieldName => s.current.Object?
    case ObjectSep => s.current.Object?
    case FieldEnd => s.current.Object? && s.key.Some?
    case ObjectValue => s.current.Object? && s.key.Some?
    case ObjectValueAdd => s.current.Object? && s.key.Some?
    case _ => true
  }

  predicate Returns(st: St) {
    st == Eatws || st == CommentStart || st == Comment || st == CommentEol || st == CommentEnd
    || st == StringEscape || st == EscapeUnicode
  }

  predicate IsAdd(st: St) {
    st == ArrayAdd || st == ObjectValueAdd
  }

  predicate LevelOk(s: Srec) {
    && Fits(s.state, s) && (Returns(s.state) ==> Fits(s.saved, s))
    && (s.state == StringEscape || s.state == EscapeUnicode ==> s.saved == String || s.saved == FieldName)
  }

  /** A level below the top waits for a value to add. After a success that is due to a comment running into
      the final NUL, levels below the top are as good as new. */
  predicate Waiting(s: Srec) {
    (IsAdd(s.state) && Fits(s.state, s)) || s == FRESH
  }

  ghost predicate Wf(t: Tok) {
    LevelOk(Top(t)) && forall i :: 0 <= i < t.depth ==> Waiting(t.stack[i])
  }

  /** Between two characters, no value is about to be added. */
  ghost predicate AtRest(t: Tok) {
    Wf(t) && !IsAdd(Top(t).state)
  }

  ghost predicate Kept(t: Tok, next: Next) {
    && |next.t.stack| == |t.stack| && Wf(next.t)
    && (!next.Redo? ==> !IsAdd(Top(next.t).state) && !IsAdd(Top(t).state))
    && (next.Redo? && Top(next.t).state == Number ==> next.t.pb == "")
  }

  /** Kept, for a step that only changes the top level. */
  ghost predicate TopKept(t: Tok, next: Next) {
    && next.t.depth == t.depth && next.t.stack == t.stack[t.depth := Top(next.t)] && LevelOk(Top(next.t))
    && (next.Redo? || !IsAdd(Top(next.t).state))
    && (next.Redo? && Top(next.t).state == Number ==> next.t.pb == "")
  }

  lemma TopIsKept(t: Tok, next: Next)
    requires Wf(t) && TopKept(t, next) && (IsAdd(Top(t).state) ==> next.Redo?)
    ensures Kept(t, next)
  {
  }

  lemma NumbersKeep(t: Tok, c: char, len: nat)
    requires LevelOk(Top(t)) && !IsAdd(Top(t).state)
    ensures Top(t).state == Inf ==> TopKept(t, InfLiteral(t, c))
    ensures Top(t).state == Number ==> TopKept(t, NumberLiteral(t, c, len))
  {
    hide Matches, ParseInt64, DoubleParses;
  }

  lemma LiteralsKeep(t: Tok, c: char)
    requires LevelOk(Top(t)) && !IsAdd(Top(t).state)
    ensures Top(t).state == NullOrNaN ==> TopKept(t, NullLiteral(t, c))
    ensures Top(t).state == Boolean ==> TopKept(t, BooleanLiteral(t, c))
  {
    hide Matches, ParseInt64, DoubleParses;
  }

  lemma ValuesKeep(t: Tok, c: char)
    requires LevelOk(Top(t)) && Top(t).state == Start && c != '{' && c != '['
    ensures TopKept(t, StartValue(t, c))
  {
  }

  lemma ContainersKeep(t: Tok, c: char)
    requires LevelOk(Top(t)) && Top(t).state == Start && (c == '{' || c == '[')
    ensures TopKept(t, StartValue(t, c))
  {
  }

  lemma StringsKeep(t: Tok, c: char)
    requires LevelOk(Top(t)) && !IsAdd(Top(t).state)
    ensures Top(t).state == String || Top(t).state == FieldName ==> TopKept(t, Quoted(t, c))
  {
    hide CString;
  }

  lemma PushKeeps(t: Tok, add: St)
    requires Wf(t) && IsAdd(add) && Fits(add, Top(t)) && !IsAdd(Top(t).state)
    ensures Kept(t, Push(t, add))
  {
  }

  lemma ItemsKeep(t: Tok, c: char)
    requires Wf(t)
    ensures Top(t).state == ArrayStart || Top(t).state == ArrayAfterSep ==> Kept(t, ArrayItem(t, c))
  {
    hide Push;
    if Top(t).state == ArrayStart || Top(t).state == ArrayAfterSep { PushKeeps(t, ArrayAdd); }
  }

  lemma FieldsKeep(t: Tok, c: char)
    requires LevelOk(Top(t)) && !IsAdd(Top(t).state)
    ensures Top(t).state == FieldStart || Top(t).state == FieldStartAfterSep ==> TopKept(t, FieldItem(t, c))
    ensures Top(t).state == FieldEnd ==> TopKept(t, Colon(t, c))
  {
  }

  lemma SeparatorsKeep(t: Tok, c: char)
    requires LevelOk(Top(t)) && !IsAdd(Top(t).state)
    ensures Top(t).state == ArraySep ==> TopKept(t, Separator(t, c, ']', ArrayAfterSep, ErrorArray))
    ensures Top(t).state == ObjectSep ==> TopKept(t, Separator(t, c, '}', FieldStartAfterSep, ErrorValueSep))
  {
  }

  lemma EscapesKeep(t: Tok, c: char)
    requires LevelOk(Top(t)) && !IsAdd(Top(t).state)
    ensures Top(t).state == StringEscape ==> TopKept(t, EscapeChar(t, c))
  {
  }

  lemma DigitsKeep(t: Tok, c: char, rest: string)
    requires LevelOk(Top(t)) && !IsAdd(Top(t).state)
    ensures Top(t).state == EscapeUnicode ==> TopKept(t, UnicodeDigit(t, c, rest))
  {
    hide Encode, IsHighSurrogate, IsLowSurrogate, DecodePair, HexDigit, IsHexChar, Shift;
  }

  lemma LevelsKeep(t: Tok, obj: Json)
    requires Wf(t)
    ensures Top(t).state == Finish ==> Kept(t, Pop(t))
  {
  }

  lemma AddsKeep(t: Tok, obj: Json)
    requires LevelOk(Top(t))
    ensures Top(t).state == ArrayAdd ==> TopKept(t, AddToArray(t, obj))
    ensures Top(t).state == ObjectValueAdd ==> TopKept(t, AddToObject(t, obj))
  {
  }

  lemma WhiteKeeps(t: Tok, obj: Json, c: char)
    requires LevelOk(Top(t)) && !IsAdd(Top(t).state)
    ensures Top(t).state == Eatws ==> TopKept(t, EatWhite(t, obj, c))
  {
  }

  lemma CommentsKeep(t: Tok, c: char)
    requires LevelOk(Top(t)) && !IsAdd(Top(t).state)
    ensures Top(t).state == CommentStart || Top(t).state == Comment ==> TopKept(t, CommentChar(t, c))
    ensures Top(t).state == CommentEol || Top(t).state == CommentEnd ==> TopKept(t, CommentChar(t, c))
  {
  }

  lemma SwitchKeeps(t: Tok, obj: Json, c: char, rest: string, len: nat)
    requires Wf(t)
    ensures Kept(t, Switch(t, obj, c, rest, len))
  {
    hide StartValue, InfLiteral, NullLiteral, BooleanLiteral, NumberLiteral, ArrayItem, FieldItem, Quoted, EscapeChar,
      UnicodeDigit;
    hide Push, Pop, Separator, EatWhite, CommentChar, AddToArray, AddToObject, Colon, Kept, TopKept, LevelOk;
    assert LevelOk(Top(t));
    var next := Switch(t, obj, c, rest, len);
    match Top(t).state
    case Finish => LevelsKeep(t, obj);
    case Start =>
      if c == '{' || c == '[' { ContainersKeep(t, c); } else { ValuesKeep(t, c); }
      TopIsKept(t, next);
    case ArrayStart => ItemsKeep(t, c);
    case ArrayAfterSep => ItemsKeep(t, c);
    case ObjectValue => assert Fits(ObjectValueAdd, Top(t)) by { ValueFits(t); } PushKeeps(t, ObjectValueAdd);
    case ArrayAdd => AddsKeep(t, obj); AddsRedo(t, obj); TopIsKept(t, next);
    case ObjectValueAdd => AddsKeep(t, obj); AddsRedo(t, obj); TopIsKept(t, next);
    case Inf => NumbersKeep(t, c, len); TopIsKept(t, next);
    case Number => NumbersKeep(t, c, len); TopIsKept(t, next);
    case NullOrNaN => LiteralsKeep(t, c); TopIsKept(t, next);
    case Boolean => LiteralsKeep(t, c); TopIsKept(t, next);
    case String => StringsKeep(t, c); TopIsKept(t, next);
    case FieldName => StringsKeep(t, c); TopIsKept(t, next);
    case StringEscape => EscapesKeep(t, c); TopIsKept(t, next);
    case EscapeUnicode => DigitsKeep(t, c, rest); TopIsKept(t, next);
    case FieldStart => FieldsKeep(t, c); TopIsKept(t, next);
    case FieldStartAfterSep => FieldsKeep(t, c); TopIsKept(t, next);
    case FieldEnd => FieldsKeep(t, c); TopIsKept(t, next);
    case ArraySep => SeparatorsKeep(t, c); TopIsKept(t, next);
    case ObjectSep => SeparatorsKeep(t, c); TopIsKept(t, next);
    case Eatws => WhiteKeeps(t, obj, c); TopIsKept(t, next);
    case _ => CommentsKeep(t, c); TopIsKept(t, next);
  }

  lemma ValueFits(t: Tok)
    requires LevelOk(Top(t)) && Top(t).state == ObjectValue
    ensures Fits(ObjectValueAdd, Top(t))
  {
  }

  lemma AddsRedo(t: Tok, obj: Json)
    ensures AddToArray(t, obj).Redo? && AddToObject(t, obj).Redo?
  {
  }

  /** No value is ever added to something that is not an array, or not an object with a key. */
  lemma {:induction false} ProcessKeeps(t: Tok, obj: Json, c: char, rest: string, len: nat)
    requires Wf(t)
    ensures var next := Process(t, obj, c, rest, len); |next.t.stack| == |t.stack| && AtRest(next.t) && !next.Redo?
    decreases Rank(t)
  {
    hide Switch, Rank, Wf;
    RedoDescends(t, obj, c, rest, len);
    SwitchKeeps(t, obj, c, rest, len);
    var next := Switch(t, obj, c, rest, len);
    if next.Redo? { ProcessKeeps(next.t, next.obj, c, rest, len); }
  }

  lemma {:induction false} RunKeeps(t: Tok, len: nat, s: string)
    requires AtRest(t)
    ensures var t' := Run(t, len, s).tok; |t'.stack| == |t.stack| && AtRest(t')
    decreases |s|
  {
    hide Process, Wf;
    if s == "" {
      EndKeeps(t, NUL);
    } else {
      ProcessKeeps(t, Null, s[0], s[1..], len);
      var next := Process(t, Null, s[0], s[1..], len);
      EndKeeps(next.t, s[0]);
      if next.Advance? && s[0] != NUL && 0 < next.n <= |s| { RunKeeps(next.t, NumberLength(next.t, len), s[next.n..]); }
    }
  }

  lemma EndKeeps(t: Tok, c: char)
    requires AtRest(t)
    ensures AtRest(Judge(t, c)) && AtRest(Judge(Flush(t), c)) && AtRest(AtEnd(t))
    ensures Judge(t, c).stack == Judge(Flush(t), c).stack == AtEnd(t).stack == t.stack
  {
    hide Wf;
    SameLevels(t, Judge(t, c));
    SameLevels(t, Judge(Flush(t), c));
    SameLevels(t, AtEnd(t));
  }

  lemma SameLevels(t: Tok, t': Tok)
    requires AtRest(t) && t'.stack == t.stack && t'.depth == t.depth
    ensures AtRest(t')
  {
  }

  /** Over every run of calls, whatever the input and however it is cut: the depth stays below max_depth, all levels
      below it wait for a value, and the value, key and state of the top level fit. */
  lemma CallKeeps(t: Tok, s: string)
    requires AtRest(t)
    ensures var t' := Cleared(Parse(t, s).tok); AtRest(t') && t'.depth < |t'.stack| == |t.stack|
  {
    hide Run;
    RunKeeps(Begin(t), 0, s);
  }

  lemma WhiteIsNoNumber(t: Tok, obj: Json, c: char)
    requires Top(t).state != Number
    ensures Top(EatWhite(t, obj, c).t).state != Number && Top(CommentChar(t, c).t).state != Number
  {
  }

  lemma StartIsNoNumber(t: Tok, c: char)
    requires Top(t).state == Start
    ensures !StartValue(t, c).Redo? ==> Top(StartValue(t, c).t).state != Number
  {
  }

  lemma LiteralsAreNoNumber(t: Tok, c: char)
    requires Top(t).state != Number
    ensures Top(InfLiteral(t, c).t).state != Number && Top(NullLiteral(t, c).t).state != Number
    ensures Top(BooleanLiteral(t, c).t).state != Number
  {
    hide Matches;
  }

  lemma StringsAreNoNumber(t: Tok, c: char, rest: string)
    requires Top(t).state != Number
    ensures Top(Quoted(t, c).t).state != Number && Top(EscapeChar(t, c).t).state != Number
    ensures Top(UnicodeDigit(t, c, rest).t).state != Number
  {
    hide CString, UnicodeDigit;
    DigitIsNoNumber(t, c, rest);
  }

  lemma DigitIsNoNumber(t: Tok, c: char, rest: string)
    requires Top(t).state != Number
    ensures Top(UnicodeDigit(t, c, rest).t).state != Number
  {
    hide IsHexChar, HexDigit, IsHighSurrogate, IsLowSurrogate, DecodePair, Encode;
  }

  lemma LevelsAreNoNumber(t: Tok, obj: Json, c: char, rest: string, len: nat)
    requires Wf(t) && Top(t).state in {Finish, ArrayStart, ArrayAfterSep, ArrayAdd, ArraySep, FieldStart,
      FieldStartAfterSep, FieldEnd, ObjectValue, ObjectValueAdd, ObjectSep}
    ensures Top(Switch(t, obj, c, rest, len).t).state != Number
  {
    hide AddItem, AddField;
  }
}
