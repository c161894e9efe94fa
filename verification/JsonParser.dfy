/** json-c/json_tokener.c: the tokener as it is, an object updated in place. */
module JsonParser {
  import opened JsonValue
  import T = JsonTokener
  import opened JsonLevels
  import C = JsonChunks

  type Srec = T.Srec
  type St = T.St
  type Resumable = T.Resumable

  /** How a pass through the switch ends: again with the same character, on by n characters, or at the label out. */
  datatype Action = Again | Ahead(n: nat) | Stop(n: nat)

  /** A step never goes beyond the input. */
  lemma SwitchFits(t: T.Tok, obj: Json, c: char, rest: string, len: nat)
    ensures var next := T.Switch(t, obj, c, rest, len); next.Advance? ==> next.n == 1 || (next.n == 3 && |rest| > 2)
  {
    hide Matches, ParseInt64, DoubleParses, CString, AddItem, AddField, T.IsHexChar, T.HexDigit, T.IsHighSurrogate,
      T.IsLowSurrogate, T.DecodePair, T.Encode;
  }

  lemma {:induction false} ProcessFits(t: T.Tok, obj: Json, c: char, rest: string, len: nat)
    ensures var next := T.Process(t, obj, c, rest, len); next.Advance? ==> next.n == 1 || (next.n == 3 && |rest| > 2)
    decreases T.Rank(t)
  {
    hide T.Switch, T.Rank;
    SwitchFits(t, obj, c, rest, len);
    T.RedoDescends(t, obj, c, rest, len);
    var next := T.Switch(t, obj, c, rest, len);
    if next.Redo? { ProcessFits(next.t, next.obj, c, rest, len); }
  }

  /** json_tokener. The locals hi (got_hi_surrogate), caseLen and obj of json_tokener_parse_ex are kept here too,
      because it is split into methods. */
  class Tokener {
    const stack: array<Srec>
    var depth: nat
    var pb: string
    var stPos: nat
    var ucs: nat
    var quote: char
    var isDouble: bool
    var err: T.Err
    var charOffset: nat
    var strict: bool
    var hi: nat
    var caseLen: nat
    var obj: Json

    ghost predicate Ok()
      reads this
    {
      depth < stack.Length
    }

    ghost function View(): T.Tok
      requires Ok()
      reads this, stack
    {
      T.TokData(stack[..], depth, pb, stPos, ucs, quote, isDouble, err, strict, hi)
    }

    ghost function AsNext(a: Action): T.Next
      requires Ok()
      reads this, stack
    {
      match a
      case Again => T.Redo(View(), obj)
      case Ahead(n) => T.Advance(View(), n)
      case Stop(n) => T.Out(View(), n)
    }

    /** json_tokener_new_ex and json_tokener_set_flags */
    constructor (maxDepth: nat, strict: bool)
      requires maxDepth > 0
      ensures Ok() && fresh(stack) && stack.Length == maxDepth && depth == 0 && this.strict == strict
      ensures C.Sound(View()) && T.Top(View()) == T.FRESH
    {
      stack := new Srec[maxDepth](_ => T.FRESH);
      depth, pb, stPos, ucs, quote, isDouble, err, charOffset := 0, "", 0, 0, '"', false, T.Success, 0;
      this.strict, hi, caseLen, obj := strict, 0, 0, Null;
    }

    method SetTop(s: Srec)
      requires Ok()
      modifies stack
      ensures Ok() && View() == T.SetTop(old(View()), s)
    {
      stack[depth] := s;
    }

    method Go(state: St)
      requires Ok()
      modifies stack
      ensures Ok() && View() == T.Go(old(View()), state)
    {
      SetTop(stack[depth].(state := state));
    }

    /** json_tokener_state_eatws */
    method EatWhite(c: char) returns (a: Action)
      requires Ok() && T.Top(View()).state == T.Eatws
      modifies this`pb, stack
      ensures Ok() && AsNext(a) == T.EatWhite(old(View()), old(obj), c)
    {
      if IsSpace(c) {
        return Ahead(1);
      }
      if c == '/' && !strict {
        pb := [c];
        Go(T.CommentStart);
        return Ahead(1);
      }
      Go(stack[depth].saved);
      return Again;
    }

    /** json_tokener_state_start */
    method StartValue(c: char) returns (a: Action)
      requires Ok() && T.Top(View()).state == T.Start
      modifies this`pb, this`stPos, this`quote, this`isDouble, this`err, this`caseLen, this`obj, stack
      ensures Ok() && AsNext(a) == T.StartValue(old(View()), c)
      ensures T.Top(View()).state == T.Number ==> caseLen == 0 && IsNumberChar(c)
    {
      obj := Null;
      if c == '{' {
        SetTop(stack[depth].(state := T.Eatws, saved := T.FieldStart, current := Object([])));
        return Ahead(1);
      }
      if c == '[' {
        SetTop(stack[depth].(state := T.Eatws, saved := T.ArrayStart, current := Array([])));
        return Ahead(1);
      }
      if c == '\'' && strict {
        err := T.ErrorUnexpected;
        return Stop(0);
      }
      if c == '\'' || c == '"' {
        pb, quote := "", c;
        Go(T.String);
        return Ahead(1);
      }
      a := StartLiteral(c);
    }

    /** The rest of json_tokener_state_start: literals and numbers */
    method StartLiteral(c: char) returns (a: Action)
      requires Ok() && T.Top(View()).state == T.Start && obj == Null && c != '{' && c != '[' && c != '\'' && c != '"'
      modifies this`pb, this`stPos, this`isDouble, this`err, this`caseLen, stack
      ensures Ok() && AsNext(a) == T.StartValue(old(View()), c)
      ensures T.Top(View()).state == T.Number ==> caseLen == 0 && IsNumberChar(c)
    {
      if c == 'I' || c == 'i' {
        pb, stPos := "", 0;
        Go(T.Inf);
        return Again;
      }
      if c == 'N' || c == 'n' {
        pb, stPos := "", 0;
        Go(T.NullOrNaN);
        return Again;
      }
      if c == 'T' || c == 't' || c == 'F' || c == 'f' {
        pb, stPos := "", 0;
        Go(T.Boolean);
        return Again;
      }
      a := StartNumber(c);
    }

    method StartNumber(c: char) returns (a: Action)
      requires Ok() && T.Top(View()).state == T.Start && obj == Null
      modifies this`pb, this`isDouble, this`err, this`caseLen, stack
      ensures Ok()
      ensures AsNext(a) ==
          if IsDigit(c) || c == '-' then T.Redo(T.Go(old(View()), T.Number).(pb := "", isDouble := false), Null)
          else T.Out(old(View()).(err := T.ErrorUnexpected), 0)
      ensures T.Top(View()).state == T.Number ==> caseLen == 0 && IsNumberChar(c)
    {
      if IsDigit(c) || c == '-' {
        pb, isDouble, caseLen := "", false, 0;
        Go(T.Number);
        return Again;
      }
      err := T.ErrorUnexpected;
      return Stop(0);
    }

    /** A value is complete. */
    method Done(value: Json)
      requires Ok()
      modifies this`obj, stack
      ensures Ok() && View() == T.Done(old(View()), value) && obj == Null
    {
      obj := Null;
      SetTop(stack[depth].(state := T.Eatws, saved := T.Finish, current := value));
    }

    /** json_tokener_state_inf */
    method InfLiteral(c: char) returns (a: Action)
      requires Ok() && T.Top(View()).state == T.Inf
      modifies this`pb, this`stPos, this`err, this`obj, stack
      ensures Ok() && AsNext(a) == T.InfLiteral(old(View()), c)
    {
      hide Matches;
      pb := pb + [c];
      var negative := pb[0] == '-';
      if !Matches("Infinity", if negative then pb[1..] else pb, T.Min(stPos + 1, 8), strict) {
        err := T.ErrorUnexpected;
        return Stop(0);
      }
      if stPos == 8 {
        Done(Infinity(negative));
        return Again;
      }
      stPos := stPos + 1;
      return Ahead(1);
    }

    /** json_tokener_state_null */
    method NullLiteral(c: char) returns (a: Action)
      requires Ok() && T.Top(View()).state == T.NullOrNaN
      modifies this`pb, this`stPos, this`err, this`obj, stack
      ensures Ok() && AsNext(a) == T.NullLiteral(old(View()), c)
    {
      hide Matches;
      pb := pb + [c];
      if Matches("null", pb, T.Min(stPos + 1, 4), strict) {
        if stPos == 4 {
          Done(Null);
          return Again;
        }
      } else if Matches("NaN", pb, T.Min(stPos + 1, 3), strict) {
        if stPos == 3 {
          Done(NaN);
          return Again;
        }
      } else {
        err := T.ErrorNull;
        return Stop(0);
      }
      stPos := stPos + 1;
      return Ahead(1);
    }

    /** json_tokener_state_boolean */
    method BooleanLiteral(c: char) returns (a: Action)
      requires Ok() && T.Top(View()).state == T.Boolean
      modifies this`pb, this`stPos, this`err, this`obj, stack
      ensures Ok() && AsNext(a) == T.BooleanLiteral(old(View()), c)
    {
      hide Matches;
      pb := pb + [c];
      if Matches("true", pb, T.Min(stPos + 1, 4), strict) {
        if stPos == 4 {
          Done(Bool(true));
          return Again;
        }
      } else if Matches("false", pb, T.Min(stPos + 1, 5), strict) {
        if stPos == 5 {
          Done(Bool(false));
          return Again;
        }
      } else {
        err := T.ErrorBoolean;
        return Stop(0);
      }
      stPos := stPos + 1;
      return Ahead(1);
    }

    /** json_tokener_state_number: one of its characters, or what comes behind it */
    method NumberLiteral(c: char) returns (a: Action)
      requires Ok() && T.Top(View()).state == T.Number
      modifies this`pb, this`isDouble, this`caseLen, this`err, this`obj, stack
      ensures Ok() && AsNext(a) == T.NumberLiteral(old(View()), c, old(caseLen))
      ensures a.Ahead? ==> caseLen == old(caseLen) + 1
      ensures a.Again? ==> T.Top(View()).state != T.Number
    {
      hide ParseInt64, DoubleParses;
      if IsNumberChar(c) {
        pb, caseLen := pb + [c], caseLen + 1;
        if c == '.' || c == 'e' || c == 'E' {
          isDouble := true;
        }
        return Ahead(1);
      }
      obj := Null;
      if pb != "" && pb[0] == '-' && caseLen == 1 && (c == 'i' || c == 'I') {
        Go(T.Inf);
        return Again;
      }
      if !isDouble && ParseInt64(pb).Some? {
        var num64 := ParseInt64(pb).value;
        if num64 != 0 && pb != "" && pb[0] == '0' && strict {
          err := T.ErrorNumber;
          return Stop(0);
        }
        Done(Int(num64));
        return Again;
      }
      if isDouble && DoubleParses(pb) {
        Done(Double(pb));
        return Again;
      }
      err := T.ErrorNumber;
      return Stop(0);
    }

    /** json_tokener_state_comment_start, _comment, _comment_eol and _comment_end */
    method CommentChar(c: char) returns (a: Action)
      requires Ok() && T.Top(View()).state in {T.CommentStart, T.Comment, T.CommentEol, T.CommentEnd}
      modifies this`pb, this`err, stack
      ensures Ok() && AsNext(a) == T.CommentChar(old(View()), c)
    {
      var state := stack[depth].state;
      if state == T.CommentStart {
        if c == '*' {
          Go(T.Comment);
        } else if c == '/' {
          Go(T.CommentEol);
        } else {
          err := T.ErrorComment;
          return Stop(0);
        }
        pb := pb + [c];
        return Ahead(1);
      }
      if state == T.Comment {
        if c == '*' {
          Go(T.CommentEnd);
        }
        pb := pb + [c];
        return Ahead(1);
      }
      if state == T.CommentEol {
        if c == '\n' {
          Go(T.Eatws);
        } else {
          pb := pb + [c];
        }
        return Ahead(1);
      }
      pb := pb + [c];
      if c == '/' {
        Go(T.Eatws);
      } else {
        Go(T.Comment);
      }
      return Ahead(1);
    }

    /** json_tokener_state_string and _object_field */
    method Quoted(c: char) returns (a: Action)
      requires Ok() && (T.Top(View()).state == T.String || T.Top(View()).state == T.FieldName)
      modifies this`pb, this`obj, stack
      ensures Ok() && AsNext(a) == T.Quoted(old(View()), c)
    {
      if c == quote {
        if stack[depth].state == T.String {
          Done(Str(pb));
        } else {
          SetTop(stack[depth].(state := T.Eatws, saved := T.FieldEnd, key := Some(CString(pb))));
        }
        return Ahead(1);
      }
      if c == '\\' {
        if stack[depth].state == T.String {
          SetTop(stack[depth].(state := T.StringEscape, saved := T.String));
        } else {
          SetTop(stack[depth].(state := T.StringEscape, saved := T.FieldName));
        }
        return Ahead(1);
      }
      pb := pb + [c];
      return Ahead(1);
    }

    /** json_tokener_state_string_escape */
    method EscapeChar(c: char) returns (a: Action)
      requires Ok() && T.Top(View()).state == T.StringEscape
      modifies this`pb, this`ucs, this`stPos, this`err, stack
      ensures Ok() && AsNext(a) == T.EscapeChar(old(View()), c)
    {
      if c == '"' || c == '\\' || c == '/' {
        pb := pb + [c];
        Go(stack[depth].saved);
        return Ahead(1);
      }
      if c == 'b' || c == 'n' || c == 'r' || c == 't' || c == 'f' {
        var e := if c == 'b' then 8 as char else if c == 'n' then '\n' else if c == 'r' then '\r'
                 else if c == 't' then '\t' else 12 as char;
        pb := pb + [e];
        Go(stack[depth].saved);
        return Ahead(1);
      }
      if c == 'u' {
        ucs, stPos := 0, 0;
        Go(T.EscapeUnicode);
        return Ahead(1);
      }
      err := T.ErrorString;
      return Stop(0);
    }

    /** The first check behind four digits: is this the second half of a pair? */
    method Pair()
      requires Ok()
      modifies this`pb, this`ucs, this`hi
      ensures Ok() && View() == T.Paired(old(View()))
    {
      if hi != 0 {
        if T.IsLowSurrogate(ucs) {
          ucs := T.DecodePair(hi, ucs);
        } else {
          pb := pb + T.REPLACEMENT;
        }
        hi := 0;
      }
    }

    /** The end of four digits; rest is the input behind them. */
    method FourDigits(rest: string) returns (a: Action)
      requires Ok()
      modifies this`pb, this`ucs, this`hi, this`stPos, this`err, stack
      ensures Ok() && AsNext(a) == T.FourDigits(old(View()), rest)
    {
      hide T.IsHighSurrogate, T.IsLowSurrogate, T.DecodePair, T.Encode;
      Pair();
      if ucs >= 0x800 && T.IsHighSurrogate(ucs) {
        if |rest| >= 2 && rest[0] == '\\' && rest[1] == 'u' {
          if |rest| == 2 {
            pb, err := pb + T.REPLACEMENT, T.Continue;
            return Stop(3);
          }
          hi, ucs, stPos := ucs, 0, 0;
          return Ahead(3);
        }
        pb := pb + T.REPLACEMENT;
      } else {
        pb := pb + T.Encode(ucs);
      }
      Go(stack[depth].saved);
      return Ahead(1);
    }

    /** The same behind a NUL as last digit */
    method NulDigits(rest: string) returns (a: Action)
      requires Ok()
      modifies this`pb, this`ucs, this`hi, this`stPos, this`err, stack
      ensures Ok() && AsNext(a) == T.NulDigits(old(View()), rest)
    {
      hide T.IsHighSurrogate, T.IsLowSurrogate, T.DecodePair, T.Encode, T.FourDigits;
      Pair();
      PairedTwice(old(View()), rest);
      if ucs >= 0x800 && T.IsHighSurrogate(ucs) && |rest| >= 2 && rest[0] == '\\' && rest[1] == 'u' {
        pb := pb + T.REPLACEMENT + T.REPLACEMENT;
        return Stop(2);
      }
      a := FourDigits(rest);
    }

    static lemma PairedTwice(t: T.Tok, rest: string)
      ensures T.FourDigits(T.Paired(t), rest) == T.FourDigits(t, rest)
    {
    }

    /** json_tokener_state_escape_unicode */
    method UnicodeDigit(c: char, rest: string) returns (a: Action)
      requires Ok() && T.Top(View()).state == T.EscapeUnicode
      modifies this`pb, this`ucs, this`hi, this`stPos, this`err, stack
      ensures Ok() && AsNext(a) == T.UnicodeDigit(old(View()), c, rest)
    {
      hide T.FourDigits, T.NulDigits, T.HexDigit, T.IsHexChar;
      if !T.IsHexChar(c) {
        err := T.ErrorString;
        return Stop(0);
      }
      ucs, stPos := (ucs + T.HexDigit(c) * T.Shift(stPos)) % T.UINT, stPos + 1;
      if stPos == 4 {
        if c == NUL {
          a := NulDigits(rest);
        } else {
          a := FourDigits(rest);
        }
        return;
      }
      return Ahead(1);
    }

    /** One level up */
    method Push(add: St) returns (a: Action)
      requires Ok()
      modifies this`depth, this`err, this`obj, stack
      ensures Ok() && AsNext(a) == T.Push(old(View()), add)
    {
      if depth + 1 >= stack.Length {
        err := T.ErrorDepth;
        return Stop(0);
      }
      obj := Null;
      Go(add);
      depth := depth + 1;
      stack[depth] := T.FRESH;
      return Again;
    }

    /** json_tokener_state_finish */
    method Pop() returns (a: Action)
      requires Ok() && T.Top(View()).state == T.Finish
      modifies this`depth, this`obj, stack
      ensures Ok() && AsNext(a) == T.Pop(old(View()))
    {
      if depth == 0 {
        return Stop(0);
      }
      obj := stack[depth].current;
      stack[depth] := T.FRESH;
      depth := depth - 1;
      return Again;
    }

    /** White space, then the given state */
    method Then(saved: Resumable)
      requires Ok()
      modifies stack
      ensures Ok() && View() == T.Then(old(View()), saved)
    {
      SetTop(stack[depth].(state := T.Eatws, saved := saved));
    }

    /** json_tokener_state_array and _array_after_sep */
    method ArrayItem(c: char) returns (a: Action)
      requires Ok() && (T.Top(View()).state == T.ArrayStart || T.Top(View()).state == T.ArrayAfterSep)
      modifies this`depth, this`err, this`obj, stack
      ensures Ok() && AsNext(a) == T.ArrayItem(old(View()), c)
    {
      hide T.Push;
      if c == ']' {
        if stack[depth].state == T.ArrayAfterSep && strict {
          err := T.ErrorUnexpected;
          return Stop(0);
        }
        Then(T.Finish);
        return Ahead(1);
      }
      a := Push(T.ArrayAdd);
    }

    /** json_tokener_state_array_add and _object_value_add */
    method AddValue() returns (a: Action)
      requires Ok() && IsAdd(T.Top(View()).state)
      modifies this`obj, stack
      ensures Ok()
      ensures AsNext(a) ==
          if old(T.Top(View()).state) == T.ArrayAdd then T.AddToArray(old(View()), old(obj))
          else T.AddToObject(old(View()), old(obj))
    {
      var s := stack[depth];
      if s.state == T.ArrayAdd {
        SetTop(s.(state := T.Eatws, saved := T.ArraySep, current := AddItem(s.current, obj)));
      } else {
        SetTop(T.Srec(T.Eatws, T.ObjectSep, AddField(s.current, s.key, obj), None));
      }
      obj := Null;
      return Again;
    }

    /** json_tokener_state_array_sep and _object_sep */
    method Separator(c: char, close: char, after: Resumable, error: T.Err) returns (a: Action)
      requires Ok()
      modifies this`err, stack
      ensures Ok() && AsNext(a) == T.Separator(old(View()), c, close, after, error)
    {
      if c == close {
        Then(T.Finish);
        return Ahead(1);
      }
      if c == ',' {
        Then(after);
        return Ahead(1);
      }
      err := error;
      return Stop(0);
    }

    /** json_tokener_state_object_field_start and _object_field_start_after_sep */
    method FieldItem(c: char) returns (a: Action)
      requires Ok() && (T.Top(View()).state == T.FieldStart || T.Top(View()).state == T.FieldStartAfterSep)
      modifies this`pb, this`quote, this`err, stack
      ensures Ok() && AsNext(a) == T.FieldItem(old(View()), c)
    {
      if c == '}' {
        if stack[depth].state == T.FieldStartAfterSep && strict {
          err := T.ErrorUnexpected;
          return Stop(0);
        }
        Then(T.Finish);
        return Ahead(1);
      }
      if c == '"' || c == '\'' {
        quote, pb := c, "";
        Go(T.FieldName);
        return Ahead(1);
      }
      err := T.ErrorKeyName;
      return Stop(0);
    }

    /** json_tokener_state_object_field_end */
    method Colon(c: char) returns (a: Action)
      requires Ok() && T.Top(View()).state == T.FieldEnd
      modifies this`err, stack
      ensures Ok() && AsNext(a) == T.Colon(old(View()), c)
    {
      if c == ':' {
        Then(T.ObjectValue);
        return Ahead(1);
      }
      err := T.ErrorKeySep;
      return Stop(0);
    }

    /** The states inside a value */
    predicate IsValueState(state: St) {
      state == T.Eatws || state == T.Start || state == T.Inf || state == T.NullOrNaN || state == T.Boolean || state ==
        T.Number
      || state == T.String || state == T.FieldName || state == T.StringEscape || state == T.EscapeUnicode
      || state == T.CommentStart || state == T.Comment || state == T.CommentEol || state == T.CommentEnd
    }

    method SwitchValue(c: char, rest: string) returns (a: Action)
      requires Ok() && IsValueState(T.Top(View()).state)
      modifies this`pb, this`stPos, this`ucs, this`quote, this`isDouble, this`err, this`hi, this`caseLen, this`obj,
        stack
      ensures Ok() && AsNext(a) == T.Switch(old(View()), old(obj), c, rest, old(caseLen))
      ensures a.Again? && T.Top(View()).state == T.Number ==> caseLen == 0 && IsNumberChar(c)
      ensures a.Ahead? && T.Top(View()).state == T.Number ==>
        caseLen == old(caseLen) + 1 && old(T.Top(View()).state) == T.Number
    {
      hide T.StartValue, T.InfLiteral, T.NullLiteral, T.BooleanLiteral, T.NumberLiteral, T.ArrayItem, T.FieldItem,
        T.Quoted, T.EscapeChar, T.UnicodeDigit;
      hide T.Push, T.Pop, T.Separator, T.EatWhite, T.CommentChar, T.AddToArray, T.AddToObject, T.Colon;
      ghost var t := View();
      var state := stack[depth].state;
      if state == T.Eatws {
        a := EatWhite(c);
        WhiteIsNoNumber(t, obj, c);
      } else if state == T.Start {
        a := StartValue(c);
        StartIsNoNumber(t, c);
      } else if state == T.Inf {
        a := InfLiteral(c);
        LiteralsAreNoNumber(t, c);
      } else if state == T.NullOrNaN {
        a := NullLiteral(c);
        LiteralsAreNoNumber(t, c);
      } else if state == T.Boolean {
        a := BooleanLiteral(c);
        LiteralsAreNoNumber(t, c);
      } else if state == T.Number {
        a := NumberLiteral(c);
      } else if state == T.String || state == T.FieldName {
        a := Quoted(c);
        StringsAreNoNumber(t, c, rest);
      } else if state == T.StringEscape {
        a := EscapeChar(c);
        StringsAreNoNumber(t, c, rest);
      } else if state == T.EscapeUnicode {
        a := UnicodeDigit(c, rest);
        StringsAreNoNumber(t, c, rest);
      } else {
        a := CommentChar(c);
        WhiteIsNoNumber(t, obj, c);
      }
    }

    method SwitchLevel(c: char, rest: string) returns (a: Action)
      requires Ok() && !IsValueState(T.Top(View()).state)
      modifies this`depth, this`pb, this`quote, this`err, this`obj, stack
      ensures Ok() && AsNext(a) == T.Switch(old(View()), old(obj), c, rest, caseLen)
    {
      hide T.StartValue, T.InfLiteral, T.NullLiteral, T.BooleanLiteral, T.NumberLiteral, T.ArrayItem, T.FieldItem,
        T.Quoted, T.EscapeChar, T.UnicodeDigit;
      hide T.Push, T.Pop, T.Separator, T.EatWhite, T.CommentChar, T.AddToArray, T.AddToObject, T.Colon;
      var state := stack[depth].state;
      if state == T.Finish {
        a := Pop();
      } else if state == T.ArrayStart || state == T.ArrayAfterSep {
        a := ArrayItem(c);
      } else if state == T.ArrayAdd || state == T.ObjectValueAdd {
        a := AddValue();
      } else if state == T.ArraySep {
        a := Separator(c, ']', T.ArrayAfterSep, T.ErrorArray);
      } else if state == T.FieldStart || state == T.FieldStartAfterSep {
        a := FieldItem(c);
      } else if state == T.FieldEnd {
        a := Colon(c);
      } else if state == T.ObjectValue {
        a := Push(T.ObjectValueAdd);
      } else {
        a := Separator(c, '}', T.FieldStartAfterSep, T.ErrorValueSep);
      }
    }

    /** One pass through the switch */
    method Switch(c: char, rest: string) returns (a: Action)
      requires Ok() && Wf(View())
      modifies this`depth, this`pb, this`stPos, this`ucs, this`quote, this`isDouble, this`err, this`hi, this`caseLen,
        this`obj, stack
      ensures Ok() && AsNext(a) == T.Switch(old(View()), old(obj), c, rest, old(caseLen)) && Wf(View())
      ensures a.Again? && T.Top(View()).state == T.Number ==> caseLen == 0 && IsNumberChar(c)
      ensures a.Ahead? && T.Top(View()).state == T.Number ==>
        caseLen == old(caseLen) + 1 && old(T.Top(View()).state) == T.Number
    {
      hide T.Switch, Wf;
      ghost var t := View();
      SwitchKeeps(t, obj, c, rest, caseLen);
      if !IsValueState(stack[depth].state) { LevelsAreNoNumber(t, obj, c, rest, caseLen); }
      if IsValueState(stack[depth].state) {
        a := SwitchValue(c, rest);
      } else {
        a := SwitchLevel(c, rest);
      }
    }

    /** redo_char: the switch until it moves on; len is the length of the number that is open, if there is one. */
    method ProcessChar(c: char, rest: string, ghost len: nat) returns (a: Action)
      requires Ok() && AtRest(View()) && obj == Null
        && (if T.Top(View()).state == T.Number then caseLen == len else len == 0)
      modifies this`depth, this`pb, this`stPos, this`ucs, this`quote, this`isDouble, this`err, this`hi, this`caseLen,
        this`obj, stack
      ensures Ok() && AtRest(View()) && !a.Again?
      ensures AsNext(a) == T.Process(old(View()), Null, c, rest, len)
      ensures a.Ahead? ==> if T.Top(View()).state == T.Number then caseLen == len + 1 else true
    {
      hide T.Switch, T.Rank, Wf;
      ghost var t0 := View();
      ProcessKeeps(t0, Null, c, rest, len);
      C.SwitchToNumber(t0, Null, c, rest, len);
      SwitchLength(t0, Null, c, rest, len, caseLen);
      a := Switch(c, rest);
      while a.Again?
        invariant Ok() && Wf(View())
        invariant if a.Again? then T.Process(View(), obj, c, rest, len) == T.Process(t0, Null, c, rest, len)
                  else AsNext(a) == T.Process(t0, Null, c, rest, len)
        invariant a.Again? && T.Top(t0).state == T.Number ==> !IsNumberChar(c)
        invariant a.Again? && T.Top(View()).state == T.Number ==> caseLen == len == 0 && IsNumberChar(c)
        invariant a.Ahead? && T.Top(View()).state == T.Number ==> caseLen == len + 1
        decreases a.Again?, T.Rank(View())
      {
        SwitchLength(View(), obj, c, rest, len, caseLen);
        T.RedoDescends(View(), obj, c, rest, len);
        C.NumberGoesOn(View(), obj, c, rest, len);
        a := Switch(c, rest);
      }
    }

    /** What the call on s leaves behind, when the tokener was t before. */
    ghost predicate Ended(t: T.Tok, s: string, result: Json)
      requires Ok()
      reads this, stack
    {
      var end := T.Parse(t, s);
      View() == T.Cleared(end.tok) && charOffset == end.used && result == T.Result(end.tok)
    }

    /** A high surrogate is still pending when the input ends. */
    method Flush()
      requires Ok()
      modifies this`pb, this`hi
      ensures Ok() && View() == T.Flush(old(View()))
    {
      if hi != 0 {
        pb, hi := pb + T.REPLACEMENT, 0;
      }
    }

    /** The checks at the label out */
    method Judge(c: char)
      requires Ok()
      modifies this`err
      ensures Ok() && View() == T.Judge(old(View()), c)
    {
      if c != NUL && stack[depth].state == T.Finish && depth == 0 && strict {
        err := T.ErrorUnexpected;
      }
      if c == NUL && stack[depth].state != T.Finish && stack[depth].saved != T.Finish {
        err := T.ErrorEof;
      }
    }

    /** A success hands out the value and clears the levels in use. */
    method HandOut() returns (result: Json)
      requires Ok()
      modifies stack
      ensures Ok() && View() == T.Cleared(old(View())) && result == T.Result(old(View()))
    {
      if err != T.Success {
        return Null;
      }
      result := stack[depth].current;
      ghost var was := stack[..];
      var ii := depth + 1;
      while ii > 0
        invariant 0 <= ii <= depth + 1
        invariant forall i :: 0 <= i < stack.Length ==> stack[i] == if ii <= i <= depth then T.FRESH else was[i]
      {
        ii := ii - 1;
        stack[ii] := T.FRESH;
      }
    }

    /** The label out */
    method Leave(c: char) returns (result: Json)
      requires Ok()
      modifies this`err, stack
      ensures Ok() && View() == T.Cleared(T.Judge(old(View()), c)) && result == T.Result(T.Judge(old(View()), c))
    {
      hide T.Judge, T.Cleared, T.Result;
      Judge(c);
      result := HandOut();
    }

    /** The length of the number that is open, if there is one */
    ghost function OpenLength(): nat
      requires Ok()
      reads this, stack
    {
      if T.Top(View()).state == T.Number then caseLen else 0
    }

    /** PEEK_CHAR finds no more input. */
    method EndOfInput() returns (result: Json)
      requires Ok()
      modifies this`pb, this`hi, this`err, stack
      ensures Ok() && View() == T.Cleared(T.AtEnd(old(View()))) && result == T.Result(T.AtEnd(old(View())))
    {
      hide T.Judge, T.Cleared, T.Result;
      Flush();
      err := if depth == 0 && stack[depth].state == T.Eatws && stack[depth].saved == T.Finish then T.Success
        else T.Continue;
      result := Leave(1 as char);
    }

    /** What is left to do on s leads to the end that the call on s has. */
    ghost predicate OnTheWay(t: T.Tok, s: string)
      requires Ok()
      reads this, stack
    {
      AtRest(View()) && charOffset <= |s|
        && T.More(T.Run(View(), OpenLength(), s[charOffset..]), charOffset) == T.Parse(t, s)
    }

    /** The main loop ends at c: without a break, that is at a NUL, a pending surrogate is flushed first. */
    method LeaveWith(s: string, ghost t: T.Tok, c: char, broken: bool) returns (result: Json)
      requires Ok() && T.Parse(t, s) == T.Outcome(T.Judge(if broken then View() else T.Flush(View()), c), charOffset)
      modifies this`pb, this`hi, this`err, stack
      ensures Ok() && Ended(t, s, result)
    {
      hide T.Judge, T.Flush, T.Cleared, T.Result, T.Parse;
      if !broken {
        Flush();
      }
      result := Leave(c);
    }

    /** One character of the main loop */
    method Advance(s: string, ghost t: T.Tok) returns (done: bool, result: Json)
      requires Ok() && OnTheWay(t, s) && charOffset < |s|
      modifies this`depth, this`pb, this`stPos, this`ucs, this`quote, this`isDouble, this`err, this`hi, this`caseLen,
        this`obj, this`charOffset, stack
      ensures Ok() && if done then Ended(t, s, result) else OnTheWay(t, s) && charOffset > old(charOffset)
    {
      hide T.Process, Wf, AtRest, Ended, T.Judge, T.Flush, T.Cleared, T.Result, T.Run, T.AtEnd, T.Parse, T.More;
      ghost var len := OpenLength();
      var c := s[charOffset];
      LeadsOn(t, View(), len, s, charOffset);
      obj := Null;
      var a := ProcessChar(c, s[charOffset + 1..], len);
      charOffset := charOffset + a.n;
      if a.Stop? || c == NUL {
        result := LeaveWith(s, t, c, a.Stop?);
        return true, result;
      }
      return false, Null;
    }

    /** The main loop, and what follows it */
    method ParseAll(s: string) returns (result: Json)
      requires Ok() && AtRest(View()) && charOffset == 0
      modifies this`depth, this`pb, this`stPos, this`ucs, this`quote, this`isDouble, this`err, this`hi, this`caseLen,
        this`obj, this`charOffset, stack
      ensures Ok() && AtRest(View()) && Ended(old(View()), s, result)
    {
      hide Wf, T.Judge, T.Flush, T.Cleared, T.Result, T.Run, T.AtEnd, T.Parse;
      ghost var t0 := View();
      CallKeeps(t0, s);
      err, hi, caseLen := T.Success, 0, 0;
      RunBegins(t0, s, OpenLength());
      var done := false;
      result := Null;
      while charOffset < |s| && !done
        invariant Ok() && if done then Ended(t0, s, result) else OnTheWay(t0, s)
        decreases !done, |s| - charOffset
      {
        done, result := Advance(s, t0);
      }
      if !done {
        RunEnds(View(), OpenLength(), s[charOffset..]);
        result := EndOfInput();
      }
    }

    /** json_tokener_parse_ex. The text is a C string if len is -1, and then may not be longer than 2 GB. */
    method ParseEx(str: string, len: int) returns (result: Json)
      requires Ok() && AtRest(View()) && (len == -1 ==> NUL in str) && len <= |str|
      modifies this`depth, this`pb, this`stPos, this`ucs, this`quote, this`isDouble, this`err, this`hi, this`caseLen,
        this`obj, this`charOffset, stack
      ensures Ok() && AtRest(View())
      ensures len >= 0 ==> Ended(old(View()), str[..len], result)
      ensures len == -1 && |CString(str)| <= INT32_MAX ==> Ended(old(View()), CString(str) + [NUL], result)
      ensures len < -1 || (len == -1 && |CString(str)| > INT32_MAX) ==> err == T.ErrorSize && result == Null
    {
      charOffset := 0;
      var n := if len == -1 then |CString(str)| else 0;
      if len < -1 || (len == -1 && n > INT32_MAX) {
        err := T.ErrorSize;
        return Null;
      }
      if len == -1 {
        EndsInNul(str);
        assert str[..n+1] == CString(str) + [NUL];
        result := ParseAll(str[..n+1]);
      } else {
        result := ParseAll(str[..len]);
      }
    }
  }

  lemma RunBegins(t: T.Tok, s: string, len: nat)
    requires AtRest(t) && len == 0
    ensures AtRest(T.Begin(t)) && T.More(T.Run(T.Begin(t), len, s[0..]), 0) == T.Parse(t, s)
  {
    hide T.Run;
    assert s[0..] == s;
  }

  lemma RunGoesOn(t: T.Tok, len: nat, s: string, i: nat)
    requires i < |s|
    ensures var next := T.Process(t, Null, s[i], s[i+1..], len);
      && (next.Out? ==> T.Run(t, len, s[i..]) == T.Outcome(T.Judge(next.t, s[i]), next.n))
      && (next.Advance? && s[i] == NUL ==> T.Run(t, len, s[i..]) == T.Outcome(T.Judge(T.Flush(next.t), s[i]), next.n))
      && (next.Advance? && s[i] != NUL ==> i + next.n <= |s| && next.n > 0)
      && (next.Advance? && s[i] != NUL ==>
            T.Run(t, len, s[i..]) == T.More(T.Run(next.t, T.NumberLength(next.t, len), s[i+next.n..]), next.n))
  {
    hide T.Process, T.Judge, T.Flush;
    ProcessFits(t, Null, s[i], s[i+1..], len);
    var next := T.Process(t, Null, s[i], s[i+1..], len);
    assert s[i..][1..] == s[i+1..];
    if next.Advance? { assert s[i..][next.n..] == s[i+next.n..]; }
  }

  /** What the outcome of one character means for the call on s */
  lemma LeadsOn(t: T.Tok, u: T.Tok, len: nat, s: string, i: nat)
    requires i < |s| && T.More(T.Run(u, len, s[i..]), i) == T.Parse(t, s)
    ensures var next := T.Process(u, Null, s[i], s[i+1..], len);
      && (next.Out? ==> T.Parse(t, s) == T.Outcome(T.Judge(next.t, s[i]), i + next.n))
      && (next.Advance? && s[i] == NUL ==> T.Parse(t, s) == T.Outcome(T.Judge(T.Flush(next.t), s[i]), i + next.n))
      && (next.Advance? && s[i] != NUL ==> i + next.n <= |s| && next.n > 0)
      && (next.Advance? && s[i] != NUL ==>
            T.More(T.Run(next.t, T.NumberLength(next.t, len), s[i+next.n..]), i + next.n) == T.Parse(t, s))
  {
    hide T.Process, T.Judge, T.Flush, T.Run, T.Parse;
    RunGoesOn(u, len, s, i);
  }

  lemma RunEnds(t: T.Tok, len: nat, s: string)
    requires s == ""
    ensures T.Run(t, len, s) == T.Outcome(T.AtEnd(t), 0)
  {
  }

  lemma {:induction false} EndsInNul(s: string)
    requires NUL in s
    ensures |CString(s)| < |s| && s[|CString(s)|] == NUL
  {
    if s[0] != NUL { EndsInNul(s[1..]); }
  }

  lemma SwitchLength(t: T.Tok, obj: Json, c: char, rest: string, m: nat, n: nat)
    requires T.Top(t).state == T.Number ==> m == n
    ensures T.Switch(t, obj, c, rest, m) == T.Switch(t, obj, c, rest, n)
  {
  }

  const INT32_MAX := 0x7FFF_FFFF
}
