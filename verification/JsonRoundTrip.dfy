/** Printing a value and parsing the text gives the value back. */
module JsonRoundTrip {
  import opened JsonValue
  import opened JsonTokener
  import opened JsonPrinter
  import opened JsonLevels
  import Ch = JsonChunks
  import U = JsonUnicode
  import Utf8

  /** A text that the tokener itself keeps for a double. */
  predicate IsDoubleText(s: string) {
    && s != "" && (IsDigit(s[0]) || s[0] == '-') && (forall c :: c in s ==> IsNumberChar(c)) && DoubleParses(s)
    && exists c :: c in s && (c == '.' || c == 'e' || c == 'E')
  }

  /** Values as they can be made: integers have 64 bits, doubles keep a text, and keys are C strings, all different. */
  predicate Printable(v: Json) {
    match v
    case Int(n) => INT64_MIN <= n <= INT64_MAX
    case Double(text) => IsDoubleText(text)
    case Array(items) => forall i :: 0 <= i < |items| ==> Printable(items[i])
    case Object(fields) =>
      && (forall i :: 0 <= i < |fields| ==> Printable(fields[i].value) && NUL !in fields[i].key)
      && (forall i, j :: 0 <= i < j < |fields| ==> fields[i].key != fields[j].key)
    case _ => true
  }

  /** The value takes no more than d levels. */
  predicate Nests(v: Json, d: nat)
    decreases v
  {
    && d > 0
    && (v.Array? ==> forall i :: 0 <= i < |v.items| ==> Nests(v.items[i], d - 1))
    && (v.Object? ==> forall i :: 0 <= i < |v.fields| ==> Nests(v.fields[i].value, d - 1))
  }

  /** A character that is written with a long escape */
  predicate IsLong(c: char) {
    c < ' ' && ShortEscape(c).None?
  }

  predicate HasLong(s: string) {
    s != "" && (IsLong(s[0]) || HasLong(s[1..]))
  }

  /** Reading the value leaves st_pos other than 0: it has a literal in it, or a long escape. */
  predicate Uses(v: Json)
    decreases v, 1, 0
  {
    match v
    case Int(_) => false
    case Double(_) => false
    case Str(s) => HasLong(s)
    case Array(items) => UsedItems(v, |items|, false)
    case Object(fields) => UsedFields(v, |fields|, false)
    case _ => true
  }

  /** st_pos is other than 0 behind i items, or was before. */
  predicate UsedItems(v: Json, i: nat, used: bool)
    requires v.Array? && i <= |v.items|
    decreases v, 0, i
  {
    if i == 0 then used else UsedItems(v, i - 1, used) || Uses(v.items[i-1])
  }

  predicate UsedFields(v: Json, i: nat, used: bool)
    requires v.Object? && i <= |v.fields|
    decreases v, 0, i
  {
    if i == 0 then used else UsedFields(v, i - 1, used) || HasLong(v.fields[i-1].key) || Uses(v.fields[i-1].value)
  }

  /** No -Infinity comes behind a literal or a long escape. */
  predicate Reads(v: Json, used: bool)
    decreases v
  {
    match v
    case Infinity(negative) => !(negative && used)
    case Array(items) => forall i :: 0 <= i < |items| ==> Reads(items[i], UsedItems(v, i, used))
    case Object(fields) =>
      forall i :: 0 <= i < |fields| ==> Reads(fields[i].value, UsedFields(v, i, used) || HasLong(fields[i].key))
    case _ => true
  }

  lemma {:induction false} UsedBefore(v: Json, i: nat, used: bool)
    ensures v.Array? && i <= |v.items| ==> UsedItems(v, i, used) == (used || UsedItems(v, i, false))
    ensures v.Object? && i <= |v.fields| ==> UsedFields(v, i, used) == (used || UsedFields(v, i, false))
    decreases i
  {
    if i > 0 { UsedBefore(v, i - 1, used); }
  }

  /** There is a -Infinity in the value. */
  predicate HasNegative(v: Json)
    decreases v
  {
    match v
    case Infinity(negative) => negative
    case Array(items) => exists i :: 0 <= i < |items| && HasNegative(items[i])
    case Object(fields) => exists i :: 0 <= i < |fields| && HasNegative(fields[i].value)
    case _ => false
  }

  lemma {:induction false} OthersRead(v: Json, used: bool)
    requires !HasNegative(v)
    ensures Reads(v, used)
    decreases v
  {
    match v
    case Array(items) =>
      forall i | 0 <= i < |items| ensures Reads(items[i], UsedItems(v, i, used)) {
        OthersRead(items[i], UsedItems(v, i, used));
      }
    case Object(fields) =>
      forall i | 0 <= i < |fields| ensures Reads(fields[i].value, UsedFields(v, i, used) || HasLong(fields[i].key)) {
        OthersRead(fields[i].value, UsedFields(v, i, used) || HasLong(fields[i].key));
      }
    case _ =>
  }

  /** One step of the main loop. */
  lemma Step(t: Tok, len: nat, c: char, rest: string, t': Tok)
    requires c != NUL && Switch(t, Null, c, rest, len) == Advance(t', 1)
    ensures Run(t, len, [c] + rest) == More(Run(t', NumberLength(t', len), rest), 1)
  {
    hide Switch;
    assert Process(t, Null, c, rest, len) == Advance(t', 1);
    assert ([c] + rest)[0] == c && ([c] + rest)[1..] == rest;
  }

  /** White space is skipped. */
  lemma {:induction false} SkipWhite(t: Tok, w: string, rest: string)
    requires Top(t).state == Eatws && forall c :: c in w ==> IsSpace(c)
    ensures Run(t, 0, w + rest) == More(Run(t, 0, rest), |w|)
  {
    if w == "" {
      assert w + rest == rest;
    } else {
      assert w + rest == [w[0]] + (w[1..] + rest) && w[0] in w;
      Step(t, 0, w[0], w[1..] + rest, t);
      SkipWhite(t, w[1..], rest);
    }
  }

  /** The characters that may stand behind a value. */
  predicate Ends(c: char) {
    c == ',' || c == ']' || c == '}' || IsSpace(c) || c == NUL
  }

  /** One character of a number */
  function WithDigit(t: Tok, c: char): Tok {
    t.(pb := t.pb + [c], isDouble := t.isDouble || c == '.' || c == 'e' || c == 'E')
  }

  lemma ReadDigit(t: Tok, len: nat, c: char, rest: string)
    requires Top(t).state == Number && IsNumberChar(c)
    ensures Run(t, len, [c] + rest) == More(Run(WithDigit(t, c), len + 1, rest), 1)
  {
    Step(t, len, c, rest, WithDigit(t, c));
  }

  /** A number, read up to its end. */
  lemma {:induction false} ReadNumber(t: Tok, len: nat, x: string, rest: string)
    requires Top(t).state == Number && forall c :: c in x ==> IsNumberChar(c)
    ensures Run(t, len, x + rest)
         == More(Run(t.(pb := t.pb + x, isDouble := t.isDouble || HasPoint(x)), len + |x|, rest), |x|)
    decreases |x|
  {
    hide Run, Switch, IsNumberChar;
    if x == "" {
      assert x + rest == rest && t.pb + x == t.pb;
    } else {
      var c := x[0];
      assert c in x && x + rest == [c] + (x[1..] + rest) && t.pb + x == t.pb + [c] + x[1..];
      ReadDigit(t, len, c, x[1..] + rest);
      ReadNumber(WithDigit(t, c), len + 1, x[1..], rest);
    }
  }

  predicate HasPoint(x: string) {
    x != "" && (x[0] == '.' || x[0] == 'e' || x[0] == 'E' || HasPoint(x[1..]))
  }

  /** The tokener is about to read a value at its top level. */
  ghost predicate Fresh(t: Tok) {
    Top(t) == FRESH && AtRest(t) && t.err == Success && t.hi == 0
  }

  /** The tokener is at the same level again, and has left the levels below alone. */
  ghost predicate SameLevel(t: Tok, t': Tok) {
    && t'.depth == t.depth && |t'.stack| == |t.stack| && t'.stack[..t.depth] == t.stack[..t.depth]
    && t'.strict == t.strict && t'.err == Success && t'.hi == 0 && AtRest(t')
  }

  /** The tokener has read the value v at its top level. */
  ghost predicate Has(t: Tok, v: Json, t': Tok) {
    SameLevel(t, t') && Top(t') == Srec(Eatws, Finish, v, None)
  }

  /** The same process on the first character means the same run. */
  lemma SameRun(t: Tok, m: nat, u: Tok, n: nat, s: string)
    requires s != "" && Wf(t) && Process(t, Null, s[0], s[1..], m) == Process(u, Null, s[0], s[1..], n)
    requires !IsNumberChar(s[0]) || m == n
    ensures Run(t, m, s) == Run(u, n, s)
  {
    hide Process, Wf;
    Ch.NumberGoesOn(t, Null, s[0], s[1..], m);
  }

  /** A value is complete at its top level: what is left to do is the same as if the tokener had it. */
  lemma ValueEnds(t: Tok, len: nat, v: Json, u: Tok, s: string)
    requires s != "" && Wf(t) && Wf(u) && Ends(s[0]) && Top(u).state == Eatws
    requires Switch(t, Null, s[0], s[1..], len) == Redo(u, Null)
    ensures Run(t, len, s) == Run(u, 0, s)
  {
    hide Wf, Switch;
    assert Process(t, Null, s[0], s[1..], len) == Process(u, Null, s[0], s[1..], len);
    Ch.ProcessLength(u, Null, s[0], s[1..], len, 0);
    SameRun(t, len, u, 0, s);
  }

  /** A value begins: the tokener goes to the state u. */
  lemma ValueBegins(t: Tok, u: Tok, s: string)
    requires Fresh(t) && s != "" && !IsSpace(s[0]) && s[0] != '/' && s[0] != NUL
    requires StartValue(Go(t, Start), s[0]) == Redo(u, Null)
    ensures Run(t, 0, s) == Run(u, 0, s)
  {
    hide Wf, StartValue;
    var c, rest := s[0], s[1..];
    assert Switch(t, Null, c, rest, 0) == Redo(Go(t, Start), Null);
    assert Switch(Go(t, Start), Null, c, rest, 0) == Redo(u, Null);
    hide Switch;
    assert Process(t, Null, c, rest, 0) == Process(Go(t, Start), Null, c, rest, 0) == Process(u, Null, c, rest, 0);
    SameRun(t, 0, u, 0, s);
  }

  lemma NumberBegins(t: Tok, c: char)
    requires Fresh(t) && (IsDigit(c) || c == '-')
    ensures StartValue(Go(t, Start), c) == Redo(Go(t, Number).(pb := "", isDouble := false), Null)
  {
  }

  lemma NumberStarts(t: Tok, u: Tok, s: string)
    requires Fresh(t) && s != "" && (IsDigit(s[0]) || s[0] == '-') && u == Go(t, Number).(pb := "", isDouble := false)
    ensures Run(t, 0, s) == Run(u, 0, s)
  {
    hide Run, Fresh;
    NumberBegins(t, s[0]);
    ValueBegins(t, u, s);
  }

  lemma NumberEnds(t: Tok, c: char, rest: string, len: nat, v: Json)
    requires Top(t).state == Number && Ends(c)
    requires t.isDouble ==> DoubleParses(t.pb) && v == Double(t.pb)
    requires !t.isDouble ==> v.Int? && ParseInt64(t.pb) == Some(v.n) && (v.n == 0 || t.pb[..1] != "0")
    ensures Switch(t, Null, c, rest, len) == Redo(Done(t, v), Null)
  {
    hide ParseInt64, DoubleParses;
    if t.pb == "" { NoNumber(); }
  }

  lemma NoNumber()
    ensures ParseInt64("").None? && !DoubleParses("")
  {
  }

  lemma HasIt(t: Tok, u: Tok, v: Json)
    requires Fresh(t) && u.depth == t.depth && u.stack == t.stack[t.depth := Top(u)] && Top(u).key == None
    requires u.strict == t.strict && u.err == Success && u.hi == 0 && !IsAdd(Top(u).state) && LevelOk(Top(u))
    ensures Has(t, v, Done(u, v)) && Wf(u) && Wf(Done(u, v))
  {
  }

  lemma ReadWhole(t: Tok, x: string, rest: string)
    requires Top(t).state == Number && t.pb == "" && !t.isDouble && forall c :: c in x ==> IsNumberChar(c)
    ensures Run(t, 0, x + rest) == More(Run(t.(pb := x, isDouble := HasPoint(x)), |x|, rest), |x|)
  {
    hide Process, Switch, HasPoint, Run;
    ReadNumber(t, 0, x, rest);
    assert t.pb + x == x;
  }

  lemma NumberBack(t: Tok, x: string, v: Json, rest: string) returns (t': Tok)
    requires Fresh(t) && rest != "" && Ends(rest[0])
    requires x != "" && (IsDigit(x[0]) || x[0] == '-') && forall c :: c in x ==> IsNumberChar(c)
    requires if HasPoint(x) then v == Double(x) && DoubleParses(x)
             else v.Int? && ParseInt64(x) == Some(v.n) && (v.n == 0 || x[0] != '0')
    ensures Has(t, v, t') && Run(t, 0, x + rest) == More(Run(t', 0, rest), |x|) && t'.stPos == t.stPos
  {
    hide *;
    var u := Go(t, Number).(pb := "", isDouble := false);
    var u' := u.(pb := x, isDouble := HasPoint(x));
    t' := Done(u', v);
    NumberStates(t, x, v);
    assert (x + rest)[0] == x[0] && rest == [rest[0]] + rest[1..];
    assert x + rest != "";
    NumberStarts(t, u, x + rest);
    ReadWhole(u, x, rest);
    NumberEnds(u', rest[0], rest[1..], |x|, v);
    ValueEnds(u', |x|, v, t', rest);
  }

  /** The states on the way through a number */
  lemma NumberStates(t: Tok, x: string, v: Json)
    requires Fresh(t)
    ensures var u := Go(t, Number).(pb := "", isDouble := false);
      var u' := u.(pb := x, isDouble := HasPoint(x));
      && Top(u).state == Number == Top(u').state && Wf(u) && Wf(u')
      && Top(Done(u', v)).state == Eatws && Wf(Done(u', v)) && Has(t, v, Done(u', v))
      && Done(u', v).stPos == t.stPos
  {
    var u := Go(t, Number).(pb := "", isDouble := false);
    var u' := u.(pb := x, isDouble := HasPoint(x));
    HasIt(t, u', v);
    HasIt(t, u, v);
  }

  lemma {:induction false} AllDigits(s: string)
    requires forall c :: c in s ==> IsDigit(c)
    ensures LeadingDigits(s) == s && !HasPoint(s)
  {
    if s != "" {
      assert s[0] in s && s == [s[0]] + s[1..];
      AllDigits(s[1..]);
    }
  }

  lemma {:induction false} DigitsBack(n: nat)
    ensures DigitValue(Digits(n)) == n && (n > 0 ==> Digits(n)[0] != '0')
  {
    if n < 10 {
      assert Digits(n)[..0] == "";
    } else {
      DigitsBack(n / 10);
      assert Digits(n)[..|Digits(n)| - 1] == Digits(n / 10);
    }
  }

  lemma IntTextBack(n: int)
    requires INT64_MIN <= n <= INT64_MAX
    ensures var x := IntText(n);
      && ParseInt64(x) == Some(n) && !HasPoint(x) && (forall c :: c in x ==> IsNumberChar(c))
      && (IsDigit(x[0]) || x[0] == '-') && (n == 0 || x[0] != '0')
  {
    hide Digits, DigitValue, LeadingDigits, HasPoint;
    var d := if n < 0 then -n else n;
    DigitsBack(d);
    AllDigits(Digits(d));
    var x := IntText(n);
    if n < 0 {
      assert x[1..] == Digits(d) && x[0] == '-' && x == [x[0]] + x[1..];
      SignHasNoPoint(Digits(d));
    } else {
      assert x[0] in x;
    }
  }

  lemma SignHasNoPoint(s: string)
    requires !HasPoint(s)
    ensures !HasPoint("-" + s)
  {
    assert ("-" + s)[1..] == s;
  }

  lemma {:induction false} PointFound(s: string)
    ensures HasPoint(s) <==> exists c :: c in s && (c == '.' || c == 'e' || c == 'E')
  {
    if s != "" {
      PointFound(s[1..]);
      assert s == [s[0]] + s[1..] && s[0] in s;
      if c :| c in s && (c == '.' || c == 'e' || c == 'E') { assert c == s[0] || c in s[1..]; }
      if c :| c in s[1..] && (c == '.' || c == 'e' || c == 'E') { assert c in s; }
    }
  }

  predicate IsLiteral(word: string, st: St) {
    || ((word == "null" || word == "NaN") && st == NullOrNaN)
    || ((word == "true" || word == "false") && st == Boolean)
    || (word == "Infinity" && st == Inf)
  }

  /** A literal, read up to its end; only -Infinity has something in front. */
  lemma {:induction false} ReadLiteral(t: Tok, sign: string, word: string, st: St, k: nat, rest: string)
    requires IsLiteral(word, st) && st != Number && (sign == "" || (sign == "-" && st == Inf))
    requires k <= |word| && Top(t).state == st && t.pb == sign + word[..k] && t.stPos == k
    ensures Run(t, 0, word[k..] + rest)
         == More(Run(t.(pb := sign + word, stPos := |word|), 0, rest), |word| - k)
    decreases |word| - k
  {
    hide Run, Switch, IsLiteral;
    if k == |word| {
      assert word[k..] + rest == rest && word[..k] == word;
    } else {
      assert word[k..] + rest == [word[k]] + (word[k+1..] + rest) && word[..k] + [word[k]] == word[..k+1];
      var t' := t.(pb := sign + word[..k+1], stPos := k + 1);
      LiteralStep(t, sign, word, st, k, word[k+1..] + rest);
      Step(t, 0, word[k], word[k+1..] + rest, t');
      ReadLiteral(t', sign, word, st, k + 1, rest);
    }
  }

  lemma LiteralStep(t: Tok, sign: string, word: string, st: St, k: nat, rest: string)
    requires IsLiteral(word, st) && (sign == "" || (sign == "-" && st == Inf))
    requires k < |word| && Top(t).state == st && t.pb == sign + word[..k] && t.stPos == k
    ensures word[k] != NUL
    ensures Switch(t, Null, word[k], rest, 0) == Advance(t.(pb := sign + word[..k+1], stPos := k + 1), 1)
  {
    hide InfLiteral, NullLiteral, BooleanLiteral;
    var pb := sign + word[..k+1];
    assert t.pb + [word[k]] == pb;
    if st == Inf {
      InfStep(t, sign, k);
    } else {
      assert "" + word[..k] == word[..k] && "" + word[..k+1] == word[..k+1];
      if st == Boolean { BooleanStep(t, word, k); } else { NullStep(t, word, k); }
    }
  }

  lemma InfStep(t: Tok, sign: string, k: nat)
    requires k < 8 && t.pb == sign + "Infinity"[..k] && t.stPos == k && (sign == "" || sign == "-")
    ensures InfLiteral(t, "Infinity"[k]) == Advance(t.(pb := sign + "Infinity"[..k+1], stPos := k + 1), 1)
    ensures "Infinity"[k] != NUL
  {
    hide Matches;
    var word := "Infinity";
    var pb := sign + word[..k+1];
    assert t.pb + [word[k]] == pb;
    assert (if pb[0] == '-' then pb[1..] else pb) == word[..k+1];
    PrefixMatches(word, k + 1, t.strict);
  }

  lemma PrefixMatches(word: string, n: nat, strict: bool)
    requires n <= |word|
    ensures Matches(word, word[..n], n, strict)
  {
  }

  lemma BooleanStep(t: Tok, word: string, k: nat)
    requires (word == "true" || word == "false") && k < |word| && t.pb == word[..k] && t.stPos == k
    ensures BooleanLiteral(t, word[k]) == Advance(t.(pb := word[..k+1], stPos := k + 1), 1) && word[k] != NUL
  {
    assert word[..k] + [word[k]] == word[..k+1];
    if word == "false" { assert word[..k+1][0] == 'f'; }
  }

  lemma NullStep(t: Tok, word: string, k: nat)
    requires (word == "null" || word == "NaN") && k < |word| && t.pb == word[..k] && t.stPos == k
    ensures NullLiteral(t, word[k]) == Advance(t.(pb := word[..k+1], stPos := k + 1), 1) && word[k] != NUL
  {
    assert word[..k] + [word[k]] == word[..k+1];
    if word == "NaN" && k > 0 { assert word[..k+1][1] == 'a'; }
  }

  lemma LiteralEnds(t: Tok, sign: string, word: string, c: char, rest: string)
    requires t.pb == sign + word && t.stPos == |word| && IsLiteral(word, Top(t).state)
    requires sign == "" || (sign == "-" && word == "Infinity")
    ensures Switch(t, Null, c, rest, 0) == Redo(Done(t.(pb := sign + word + [c]), LiteralValue(sign, word)), Null)
  {
    hide InfLiteral, NullLiteral, BooleanLiteral;
    if word == "Infinity" {
      InfEnds(t, sign, c);
    } else {
      assert "" + word == word;
      if Top(t).state == Boolean { BooleanEnds(t, word, c); } else { NullEnds(t, word, c); }
    }
  }

  lemma InfEnds(t: Tok, sign: string, c: char)
    requires t.pb == sign + "Infinity" && t.stPos == 8 && (sign == "" || sign == "-")
    ensures InfLiteral(t, c) == Redo(Done(t.(pb := sign + "Infinity" + [c]), Infinity(sign == "-")), Null)
  {
    var pb, word := sign + "Infinity" + [c], "Infinity";
    assert (if pb[0] == '-' then pb[1..] else pb) == word + [c];
    assert forall k :: 0 <= k < |word| ==> (word + [c])[k] == word[k];
  }

  lemma BooleanEnds(t: Tok, word: string, c: char)
    requires (word == "true" || word == "false") && t.pb == word && t.stPos == |word|
    ensures BooleanLiteral(t, c) == Redo(Done(t.(pb := word + [c]), Bool(word == "true")), Null)
  {
    assert forall k :: 0 <= k < |word| ==> (word + [c])[k] == word[k];
    if word == "false" { assert (word + [c])[0] == 'f'; }
  }

  lemma NullEnds(t: Tok, word: string, c: char)
    requires (word == "null" || word == "NaN") && t.pb == word && t.stPos == |word|
    ensures NullLiteral(t, c) == Redo(Done(t.(pb := word + [c]), if word == "null" then Null else NaN), Null)
  {
    assert forall k :: 0 <= k < |word| ==> (word + [c])[k] == word[k];
    if word == "NaN" { assert (word + [c])[1] == 'a'; }
  }

  function LiteralValue(sign: string, word: string): Json {
    if word == "true" then Bool(true) else if word == "false" then Bool(false)
    else if word == "NaN" then NaN else if word == "Infinity" then Infinity(sign == "-") else Null
  }

  lemma LiteralBegins(t: Tok, c: char)
    requires Fresh(t)
    ensures c == 'n' || c == 'N' ==>
      StartValue(Go(t, Start), c) == Redo(Go(t, NullOrNaN).(pb := "", stPos := 0), Null)
    ensures c == 't' || c == 'f' ==> StartValue(Go(t, Start), c) == Redo(Go(t, Boolean).(pb := "", stPos := 0), Null)
    ensures c == 'I' ==> StartValue(Go(t, Start), c) == Redo(Go(t, Inf).(pb := "", stPos := 0), Null)
  {
  }

  function LiteralState(word: string): St {
    if word == "Infinity" then Inf else if word == "true" || word == "false" then Boolean else NullOrNaN
  }

  predicate IsWord(word: string) {
    word == "null" || word == "true" || word == "false" || word == "NaN" || word == "Infinity"
  }

  lemma WordBegins(word: string, rest: string)
    requires IsWord(word)
    ensures word != "" && (word + rest)[0] == word[0] && !IsSpace(word[0]) && word[0] != '/' && word[0] != NUL
    ensures if word[0] == 'n' || word[0] == 'N' then LiteralState(word) == NullOrNaN
            else if word[0] == 't' || word[0] == 'f' then LiteralState(word) == Boolean
            else word[0] == 'I' && LiteralState(word) == Inf
    ensures IsLiteral(word, LiteralState(word))
  {
  }

  lemma LiteralOpens(t: Tok, word: string, rest: string)
    requires Fresh(t) && IsWord(word)
    ensures Run(t, 0, word + rest) == Run(Go(t, LiteralState(word)).(pb := "", stPos := 0), 0, word + rest)
  {
    hide Run, Fresh, IsWord, LiteralState, StartValue, IsLiteral;
    WordBegins(word, rest);
    LiteralBegins(t, word[0]);
    ValueBegins(t, Go(t, LiteralState(word)).(pb := "", stPos := 0), word + rest);
  }

  lemma LiteralBack(t: Tok, word: string, v: Json, rest: string) returns (t': Tok)
    requires Fresh(t) && rest != "" && Ends(rest[0]) && IsWord(word) && v == LiteralValue("", word)
    ensures Has(t, v, t') && Run(t, 0, word + rest) == More(Run(t', 0, rest), |word|) && t'.stPos > 0
  {
    hide Run, Fresh, Has, IsWord, LiteralState, LiteralValue, IsLiteral, Ends, Switch, Process, Wf;
    var st := LiteralState(word);
    WordBegins(word, rest);
    var u := Go(t, st).(pb := "", stPos := 0);
    Slices(word);
    LiteralOpens(t, word, rest);
    ReadLiteral(u, "", word, st, 0, rest);
    t' := LiteralIsRead(t, u.(pb := word, stPos := |word|), "", word, rest);
  }

  lemma Slices(word: string)
    ensures "" + word == word && word[0..] == word && "" + word[..0] == ""
  {
  }

  lemma LiteralIsRead(t: Tok, u: Tok, sign: string, word: string, rest: string) returns (t': Tok)
    requires Fresh(t) && u == Go(t, LiteralState(word)).(pb := sign + word, stPos := |word|, isDouble := u.isDouble)
    requires rest != "" && Ends(rest[0]) && IsWord(word)
    requires sign == "" || (sign == "-" && word == "Infinity")
    ensures Has(t, LiteralValue(sign, word), t') && Run(u, 0, rest) == Run(t', 0, rest) && t'.stPos == |word|
  {
    var v, e := LiteralValue(sign, word), u.(pb := sign + word + [rest[0]]);
    t' := Done(e, v);
    hide Process, Switch, Wf, Fresh, Run, Has;
    HasIt(t, u, v);
    HasIt(t, e, v);
    LiteralEnds(u, sign, word, rest[0], rest[1..]);
    ValueEnds(u, 0, v, t', rest);
  }

  /** The sign of -Infinity begins a number, and the letter behind it goes on with the state of Infinity, where st_pos
      is what it was. */
  lemma SignBack(t: Tok, rest: string) returns (u: Tok)
    requires Fresh(t)
    ensures u == Go(t, Inf).(pb := "-", isDouble := false)
    ensures Run(t, 0, ['-'] + (['I'] + rest)) == More(Run(u, 0, ['I'] + rest), 1)
  {
    hide *;
    var n := Go(t, Number).(pb := "", isDouble := false);
    u := Go(t, Inf).(pb := "-", isDouble := false);
    SignStates(t);
    NumberStarts(t, n, ['-'] + (['I'] + rest));
    ReadDigit(n, 0, '-', ['I'] + rest);
    SignTurns(t, n.(pb := "-"), rest);
    GoesOn(n.(pb := "-"), u, rest);
  }

  lemma SignStates(t: Tok)
    requires Fresh(t)
    ensures var n, u := Go(t, Number).(pb := "", isDouble := false), Go(t, Inf).(pb := "-", isDouble := false);
      && Top(t).state == Eatws && Top(n).state == Number && Wf(n.(pb := "-")) && Wf(u) && Top(u).state == Inf
      && WithDigit(n, '-') == n.(pb := "-") && IsNumberChar('-')
  {
    var n, u := Go(t, Number).(pb := "", isDouble := false), Go(t, Inf).(pb := "-", isDouble := false);
    assert "" + ['-'] == "-";
    HasIt(t, n.(pb := "-"), Null);
    HasIt(t, u, Null);
  }

  lemma SignTurns(t: Tok, s: Tok, rest: string)
    requires Top(t).state == Eatws && s == Go(t, Number).(pb := "-", isDouble := false)
    ensures Switch(s, Null, 'I', rest, 1) == Redo(Go(t, Inf).(pb := "-", isDouble := false), Null)
  {
  }

  lemma GoesOn(s: Tok, u: Tok, rest: string)
    requires Wf(s) && Wf(u) && Switch(s, Null, 'I', rest, 1) == Redo(u, Null) && Top(u).state == Inf
    ensures Run(s, 1, ['I'] + rest) == Run(u, 0, ['I'] + rest)
  {
    hide Switch, Wf;
    assert (['I'] + rest)[0] == 'I' && (['I'] + rest)[1..] == rest;
    assert Process(s, Null, 'I', rest, 1) == Process(u, Null, 'I', rest, 1);
    Ch.ProcessLength(u, Null, 'I', rest, 1, 0);
    SameRun(s, 1, u, 0, ['I'] + rest);
  }

  /** -Infinity is read if st_pos is 0, ... */
  lemma NegativeBack(t: Tok, rest: string) returns (t': Tok)
    requires Fresh(t) && t.stPos == 0 && rest != "" && Ends(rest[0])
    ensures Has(t, Infinity(true), t') && Run(t, 0, "-Infinity" + rest) == More(Run(t', 0, rest), 9) && t'.stPos > 0
  {
    hide Run, Switch, Fresh, Has;
    var word := "Infinity";
    assert word[0..] == word && "-" + word[..0] == "-";
    assert "-Infinity" + rest == ['-'] + (['I'] + ("nfinity" + rest)) && ['I'] + ("nfinity" + rest) == word + rest;
    var u := SignBack(t, "nfinity" + rest);
    ReadLiteral(u, "-", word, Inf, 0, rest);
    t' := LiteralIsRead(t, u.(pb := "-" + word, stPos := 8), "-", word, rest);
  }

  /** ... and an error if not. */
  lemma NegativeFails(t: Tok, rest: string)
    requires Fresh(t) && t.stPos > 0
    ensures Run(t, 0, "-Infinity" + rest).tok.err == ErrorUnexpected
  {
    hide Run, Switch, Fresh;
    assert "-Infinity" + rest == ['-'] + (['I'] + ("nfinity" + rest));
    var u := SignBack(t, "nfinity" + rest);
    Unexpected(u, "nfinity" + rest);
  }

  lemma OneLetter(u: Tok)
    requires u.pb == "-" && u.stPos > 0
    ensures var o := InfLiteral(u, 'I'); o.Out? && o.t.err == ErrorUnexpected
  {
    assert "-" + ['I'] == "-I" && "-I"[1..] == "I";
  }

  lemma Unexpected(u: Tok, rest: string)
    requires Top(u).state == Inf && u.pb == "-" && u.stPos > 0
    ensures Run(u, 0, ['I'] + rest).tok.err == ErrorUnexpected
  {
    OneLetter(u);
    assert Switch(u, Null, 'I', rest, 0) == InfLiteral(u, 'I');
    hide Switch, InfLiteral, Run;
    StepOut(u, 'I', rest);
  }

  lemma StepOut(t: Tok, c: char, rest: string)
    requires c != NUL && Switch(t, Null, c, rest, 0).Out? && Switch(t, Null, c, rest, 0).t.err == ErrorUnexpected
    ensures Run(t, 0, [c] + rest).tok.err == ErrorUnexpected
  {
    hide Switch;
    assert Process(t, Null, c, rest, 0) == Switch(t, Null, c, rest, 0);
    hide Process;
    assert ([c] + rest)[0] == c && ([c] + rest)[1..] == rest;
  }

  /** t' is t somewhere else in the same string or name: the part x of it has been read. */
  ghost predicate ReadOn(t: Tok, x: string, t': Tok) {
    && t'.depth == t.depth && |t'.stack| == |t.stack| && t'.stack == t.stack[t.depth := Top(t')]
    && Top(t').state == Top(t).state && Top(t').current == Top(t).current && Top(t').key == Top(t).key
    && t'.pb == t.pb + x && t'.quote == t.quote
    && t'.strict == t.strict && t'.err == t.err && t'.hi == t.hi
  }

  ghost predicate InQuotes(t: Tok) {
    (Top(t).state == String || Top(t).state == FieldName) && t.quote == '"' && t.hi == 0
  }

  /** A character that needs no escape */
  lemma PlainBack(t: Tok, c: char, rest: string)
    requires InQuotes(t) && c >= ' ' && c != '"' && c != '\\'
    ensures var t' := t.(pb := t.pb + [c]); ReadOn(t, [c], t') && Run(t, 0, [c] + rest) == More(Run(t', 0, rest), 1)
  {
    PlainStep(t, c, rest);
    hide Run, Switch;
    Step(t, 0, c, rest, t.(pb := t.pb + [c]));
  }

  lemma PlainStep(t: Tok, c: char, rest: string)
    requires InQuotes(t) && c != '"' && c != '\\'
    ensures Switch(t, Null, c, rest, 0) == Advance(t.(pb := t.pb + [c]), 1)
  {
  }

  /** The backslash */
  function Escaping(t: Tok): Tok
    requires InQuotes(t)
  {
    SetTop(t, Top(t).(state := StringEscape, saved := if Top(t).state == String then String else FieldName))
  }

  lemma BackslashBack(t: Tok, rest: string)
    requires InQuotes(t)
    ensures Run(t, 0, "\\" + rest) == More(Run(Escaping(t), 0, rest), 1)
  {
    Step(t, 0, '\\', rest, Escaping(t));
  }

  /** The characters with an escape of two characters, and what stands behind the backslash. */
  function ShortEscape(c: char): Option<char> {
    if c == 8 as char then Some('b')
    else if c == '\n' then Some('n')
    else if c == '\r' then Some('r')
    else if c == '\t' then Some('t')
    else if c == 12 as char then Some('f')
    else if c == '"' || c == '\\' || c == '/' then Some(c)
    else None
  }

  lemma ShortBack(t: Tok, c: char, rest: string) returns (t': Tok)
    requires InQuotes(t) && ShortEscape(c).Some?
    ensures ReadOn(t, [c], t') && Run(t, 0, Escaped(c) + rest) == More(Run(t', 0, rest), |Escaped(c)|)
    ensures t'.stPos == t.stPos
  {
    hide Run, Switch;
    var e := ShortEscape(c).value;
    var u := Escaping(t);
    t' := Go(u, Top(u).saved).(pb := u.pb + [c]);
    assert Escaped(c) + rest == "\\" + ([e] + rest);
    BackslashBack(t, [e] + rest);
    ShortStep(u, c, rest);
    Step(u, 0, e, rest, t');
  }

  lemma ShortStep(u: Tok, c: char, rest: string)
    requires Top(u).state == StringEscape && ShortEscape(c).Some?
    ensures Switch(u, Null, ShortEscape(c).value, rest, 0) == Advance(Go(u, Top(u).saved).(pb := u.pb + [c]), 1)
  {
  }

  lemma HexCharBack(n: nat)
    requires n < 16
    ensures U.Nibble(HexChar(n)) == n && IsHexChar(HexChar(n)) && HexChar(n) != NUL
  {
  }

  lemma ControlCode(c: char)
    requires c < ' '
    ensures var d := ['0', '0', HexChar(c as int / 16), HexChar(c as int % 16)]; U.IsHex(d) && U.HexValue(d) == c as int
  {
    hide U.Nibble, IsHexChar, HexChar;
    HexCharBack(0);
    HexCharBack(c as int / 16);
    HexCharBack(c as int % 16);
    Zero();
  }

  lemma Zero()
    ensures HexChar(0) == '0'
  {
  }

  lemma UnicodeStep(t: Tok, rest: string)
    requires Top(t).state == StringEscape
    ensures Switch(t, Null, 'u', rest, 0) == Advance(Go(t, EscapeUnicode).(ucs := 0, stPos := 0), 1)
  {
  }

  lemma OneByte(c: char)
    requires c < ' '
    ensures Utf8.Stands([c], c as nat)
  {
    Utf8.Number([c]);
  }

  /** The long escape of a control character */
  function UnicodeEscape(c: char): string
    requires c < ' '
  {
    "\\u00" + [HexChar(c as int / 16), HexChar(c as int % 16)]
  }

  lemma UnicodeBack(t: Tok, c: char, rest: string) returns (t': Tok)
    requires InQuotes(t) && c < ' '
    ensures ReadOn(t, [c], t') && Run(t, 0, UnicodeEscape(c) + rest) == More(Run(t', 0, rest), |UnicodeEscape(c)|)
    ensures t'.stPos > 0
  {
    hide Run, Switch, HexChar, U.IsHex, U.HexValue, Utf8.Stands;
    var d := ['0', '0', HexChar(c as int / 16), HexChar(c as int % 16)];
    assert UnicodeEscape(c) + rest == "\\" + (['u'] + (d + rest));
    var t1 := Escaping(t);
    var t2 := Go(t1, EscapeUnicode).(ucs := 0, stPos := 0);
    BackslashBack(t, ['u'] + (d + rest));
    UnicodeStep(t1, d + rest);
    Step(t1, 0, 'u', d + rest, t2);
    ControlCode(c);
    var text := U.CodeRead(t2, d, rest);
    OneByte(c);
    Utf8.OneForm([c], text, c as nat);
    t' := U.Behind(t2, c as int, [c]);
    assert t'.stack == t.stack[t.depth := Top(t')];
  }

  /** What json_escape_str writes for a character is read as that character. */
  lemma CharBack(t: Tok, c: char, rest: string) returns (t': Tok)
    requires InQuotes(t)
    ensures ReadOn(t, [c], t') && Run(t, 0, Escaped(c) + rest) == More(Run(t', 0, rest), |Escaped(c)|)
    ensures t'.stPos > 0 <==> t.stPos > 0 || IsLong(c)
  {
    hide Run;
    if ShortEscape(c).Some? {
      t' := ShortBack(t, c, rest);
    } else if c < ' ' {
      t' := UnicodeBack(t, c, rest);
    } else {
      PlainBack(t, c, rest);
      t' := t.(pb := t.pb + [c]);
    }
  }

  lemma {:induction false} EscapeBack(t: Tok, s: string, rest: string) returns (t': Tok)
    requires InQuotes(t)
    ensures ReadOn(t, s, t') && Run(t, 0, Escape(s) + rest) == More(Run(t', 0, rest), |Escape(s)|)
    ensures t'.stPos > 0 <==> t.stPos > 0 || HasLong(s)
    decreases |s|
  {
    hide Run, Escaped;
    if s == "" {
      t' := t;
      assert Escape(s) + rest == rest;
    } else {
      assert Escape(s) + rest == Escaped(s[0]) + (Escape(s[1..]) + rest);
      var u := CharBack(t, s[0], Escape(s[1..]) + rest);
      t' := EscapeBack(u, s[1..], rest);
      assert t.pb + s == t.pb + [s[0]] + s[1..];
    }
  }

  /** A string in quotes, as a value */
  lemma StringBack(t: Tok, s: string, rest: string) returns (t': Tok)
    requires Fresh(t)
    ensures Has(t, Str(s), t') && Run(t, 0, Quote(s) + rest) == More(Run(t', 0, rest), |Quote(s)|)
    ensures t'.stPos > 0 <==> t.stPos > 0 || HasLong(s)
  {
    hide Run, Fresh, Has, InQuotes, ReadOn, IsStart, Quote, Escape, HasLong;
    QuoteText(s, rest);
    var u := StringStarts(t, Escape(s) + ("\"" + rest));
    var u' := EscapeBack(u, s, "\"" + rest);
    t' := StringEnds(t, u, u', s, rest);
  }

  predicate IsStart(t: Tok, u: Tok) {
    u == Go(t, String).(pb := "", quote := '"')
  }

  lemma StringStarts(t: Tok, rest: string) returns (u: Tok)
    requires Fresh(t)
    ensures IsStart(t, u) && InQuotes(u) && u.stPos == t.stPos
    ensures Run(t, 0, "\"" + rest) == More(Run(u, 0, rest), 1)
  {
    u := Go(t, String).(pb := "", quote := '"');
    QuoteOpens(t, rest);
    hide Run, Wf;
  }

  lemma StringEnds(t: Tok, u: Tok, u': Tok, s: string, rest: string) returns (t': Tok)
    requires Fresh(t) && IsStart(t, u) && ReadOn(u, s, u')
    ensures Has(t, Str(s), t') && Run(u', 0, "\"" + rest) == More(Run(t', 0, rest), 1)
    ensures t'.stPos == u'.stPos
  {
    assert u'.pb == s;
    t' := Done(u', Str(s));
    StringClosed(t, u', s, rest);
    hide Run, Wf, Has;
  }

  lemma QuoteText(s: string, rest: string)
    ensures Quote(s) + rest == "\"" + (Escape(s) + ("\"" + rest)) && |Quote(s)| == |Escape(s)| + 2
  {
    hide Escape;
  }

  lemma QuoteOpens(t: Tok, rest: string)
    requires Fresh(t)
    ensures Run(t, 0, "\"" + rest) == More(Run(Go(t, String).(pb := "", quote := '"'), 0, rest), 1)
  {
    hide Wf;
    var u := Go(t, String).(pb := "", quote := '"');
    assert Switch(t, Null, '"', rest, 0) == Redo(Go(t, Start), Null);
    assert Switch(Go(t, Start), Null, '"', rest, 0) == Advance(u, 1);
    StepTwo(t, Go(t, Start), '"', rest, u);
  }

  /** A step that goes through the switch twice */
  lemma StepTwo(t: Tok, u: Tok, c: char, rest: string, t': Tok)
    requires c != NUL && Switch(t, Null, c, rest, 0) == Redo(u, Null) && Switch(u, Null, c, rest, 0) == Advance(t', 1)
    ensures Run(t, 0, [c] + rest) == More(Run(t', NumberLength(t', 0), rest), 1)
  {
    hide Switch;
    assert Process(t, Null, c, rest, 0) == Process(u, Null, c, rest, 0) == Advance(t', 1);
    hide Process;
    assert ([c] + rest)[0] == c && ([c] + rest)[1..] == rest;
  }

  lemma StringClosed(t: Tok, u: Tok, s: string, rest: string)
    requires Fresh(t) && u.depth == t.depth && u.stack == t.stack[t.depth := Top(u)] && Top(u).key == None
    requires Top(u).state == String && u.pb == s
      && u.quote == '"' && u.strict == t.strict && u.err == Success && u.hi == 0
    ensures Has(t, Str(s), Done(u, Str(s))) && Run(u, 0, "\"" + rest) == More(Run(Done(u, Str(s)), 0, rest), 1)
  {
    hide Run;
    HasIt(t, u, Str(s));
    Step(u, 0, '"', rest, Done(u, Str(s)));
  }

  lemma StartsPlain(v: Json, level: nat, f: Flags)
    requires Printable(v)
    ensures var x := Print(v, level, f); x != "" && !IsSpace(x[0]) && x[0] != '/' && x[0] != ']' && x[0] != NUL
  {
    if v.Int? { IntTextBack(v.n); }
  }

  /** An opening bracket */
  lemma BracketOpens(t: Tok, rest: string) returns (t': Tok)
    requires Fresh(t)
    ensures SameLevel(t, t') && Top(t') == Srec(Eatws, ArrayStart, Array([]), None) && t'.stPos == t.stPos
    ensures Run(t, 0, ['['] + rest) == More(Run(t', 0, rest), 1)
  {
    t' := SetTop(t, Srec(Eatws, ArrayStart, Array([]), None));
    assert Switch(t, Null, '[', rest, 0) == Redo(Go(t, Start), Null);
    assert Switch(Go(t, Start), Null, '[', rest, 0) == Advance(t', 1);
    hide Run, Switch;
    StepTwo(t, Go(t, Start), '[', rest, t');
  }

  lemma BraceOpens(t: Tok, rest: string) returns (t': Tok)
    requires Fresh(t)
    ensures SameLevel(t, t') && Top(t') == Srec(Eatws, FieldStart, Object([]), None) && t'.stPos == t.stPos
    ensures Run(t, 0, ['{'] + rest) == More(Run(t', 0, rest), 1)
  {
    t' := SetTop(t, Srec(Eatws, FieldStart, Object([]), None));
    assert Switch(t, Null, '{', rest, 0) == Redo(Go(t, Start), Null);
    assert Switch(Go(t, Start), Null, '{', rest, 0) == Advance(t', 1);
    hide Run, Switch;
    StepTwo(t, Go(t, Start), '{', rest, t');
  }

  /** The level for a value of an array, or of an object */
  ghost predicate Below(t: Tok, add: St, u: Tok) {
    && t.depth + 1 < |t.stack| && u.depth == t.depth + 1 && |u.stack| == |t.stack|
    && u.stack[..t.depth] == t.stack[..t.depth] && u.stack[t.depth] == Top(t).(state := add) && u.strict == t.strict
  }

  ghost predicate WaitsForItem(t: Tok) {
    AtRest(t) && Top(t).state == Eatws && (Top(t).saved == ArrayStart || Top(t).saved == ArrayAfterSep)
    && t.err == Success && t.hi == 0
  }

  lemma ItemOpens(t: Tok, s: string) returns (u: Tok)
    requires WaitsForItem(t) && t.depth + 1 < |t.stack|
    requires s != "" && !IsSpace(s[0]) && s[0] != '/' && s[0] != ']'
    ensures Fresh(u) && Below(t, ArrayAdd, u) && Run(t, 0, s) == Run(u, 0, s) && u.stPos == t.stPos
  {
    var c, rest, t1 := s[0], s[1..], Go(t, Top(t).saved);
    assert Switch(t, Null, c, rest, 0) == Redo(t1, Null);
    assert Switch(t1, Null, c, rest, 0) == Push(t1, ArrayAdd);
    u := Push(t1, ArrayAdd).t;
    assert u.stack[..t.depth] == t.stack[..t.depth];
    hide Switch, Run;
    assert Process(t, Null, c, rest, 0) == Process(t1, Null, c, rest, 0) == Process(u, Null, c, rest, 0);
    SameRun(t, 0, u, 0, s);
  }

  /** The level of a complete value has been left, and the value is where the level below can add it. */
  function Popped(u: Tok): Tok
    requires u.depth > 0
  {
    SetTop(Go(u, Finish), FRESH).(depth := u.depth - 1)
  }

  lemma LevelLeft(u: Tok, c: char, rest: string, v: Json)
    requires u.depth > 0 && Top(u) == Srec(Eatws, Finish, v, None) && !IsSpace(c) && c != '/'
    ensures Process(u, Null, c, rest, 0) == Process(Popped(u), v, c, rest, 0)
    ensures var p := Popped(u);
      p.depth == u.depth - 1 && |p.stack| == |u.stack| && p.stack[..u.depth] == u.stack[..u.depth]
  {
    assert Switch(u, Null, c, rest, 0) == Redo(Go(u, Finish), Null);
    assert Switch(Go(u, Finish), Null, c, rest, 0) == Redo(Popped(u), v);
    hide Switch;
    assert Process(u, Null, c, rest, 0) == Process(Go(u, Finish), Null, c, rest, 0);
  }

  /** The value is added, and the separator, or the bracket, read. */
  lemma ItemAdded(p: Tok, v: Json, c: char, rest: string, xs: seq<Json>, key: Option<string>, saved: Resumable)
    returns (q: Tok)
    requires Top(p) == Srec(ArrayAdd, saved, Array(xs), key) && (c == ',' || c == ']')
    ensures q == SetTop(p, Srec(Eatws, if c == ',' then ArrayAfterSep else Finish, Array(xs + [v]), key))
    ensures Process(p, v, c, rest, 0) == Advance(q, 1)
  {
    var p1 := SetTop(p, Srec(Eatws, ArraySep, Array(xs + [v]), key));
    var p2 := Go(p1, ArraySep);
    q := SetTop(p, Srec(Eatws, if c == ',' then ArrayAfterSep else Finish, Array(xs + [v]), key));
    assert Switch(p, v, c, rest, 0) == Redo(p1, Null);
    assert Switch(p1, Null, c, rest, 0) == Redo(p2, Null);
    assert Switch(p2, Null, c, rest, 0).t.stack == q.stack;
    assert Switch(p2, Null, c, rest, 0) == Advance(q, 1);
    hide Switch;
    assert Process(p, v, c, rest, 0) == Process(p1, Null, c, rest, 0) == Process(p2, Null, c, rest, 0);
  }

  lemma FieldAdded(p: Tok, v: Json, c: char, rest: string, fs: seq<Field>, key: string, saved: Resumable)
    returns (q: Tok)
    requires Top(p) == Srec(ObjectValueAdd, saved, Object(fs), Some(key)) && (c == ',' || c == '}')
    ensures q
        == SetTop(p, Srec(Eatws, if c == ',' then FieldStartAfterSep else Finish, Object(PutField(fs, key, v)), None))
    ensures Process(p, v, c, rest, 0) == Advance(q, 1)
  {
    hide PutField;
    var p1 := SetTop(p, Srec(Eatws, ObjectSep, Object(PutField(fs, key, v)), None));
    var p2 := Go(p1, ObjectSep);
    q := SetTop(p, Srec(Eatws, if c == ',' then FieldStartAfterSep else Finish, Object(PutField(fs, key, v)), None));
    assert Switch(p, v, c, rest, 0) == Redo(p1, Null);
    assert Switch(p1, Null, c, rest, 0) == Redo(p2, Null);
    assert Switch(p2, Null, c, rest, 0).t.stack == q.stack;
    assert Switch(p2, Null, c, rest, 0) == Advance(q, 1);
    hide Switch;
    assert Process(p, v, c, rest, 0) == Process(p1, Null, c, rest, 0) == Process(p2, Null, c, rest, 0);
  }

  lemma ItemCloses(t: Tok, u: Tok, v: Json, c: char, rest: string) returns (q: Tok)
    requires WaitsForItem(t) && Below(t, ArrayAdd, u) && Top(t).key == None && (c == ',' || c == ']')
    requires Top(u) == Srec(Eatws, Finish, v, None) && u.err == Success && u.hi == 0
    ensures SameLevel(t, q) && Top(t).current.Array? && q.stPos == u.stPos
    ensures Top(q) == Srec(Eatws, if c == ',' then ArrayAfterSep else Finish, Array(Top(t).current.items + [v]), None)
    ensures Run(u, 0, [c] + rest) == More(Run(q, 0, rest), 1)
  {
    LevelLeft(u, c, rest, v);
    assert Top(Popped(u)) == u.stack[..u.depth][t.depth];
    q := ItemAdded(Popped(u), v, c, rest, Top(t).current.items, None, Top(t).saved);
    assert Popped(u).stack[..t.depth] == u.stack[..u.depth][..t.depth] == t.stack[..t.depth];
    assert q.stack[..t.depth] == t.stack[..t.depth];
    LevelsBelow(t, q);
    hide Process, Wf;
    assert ([c] + rest)[0] == c && ([c] + rest)[1..] == rest;
  }

  lemma LevelsBelow(t: Tok, q: Tok)
    requires AtRest(t) && q.depth == t.depth && |q.stack| == |t.stack| && q.stack[..t.depth] == t.stack[..t.depth]
    requires LevelOk(Top(q)) && !IsAdd(Top(q).state)
    ensures AtRest(q)
  {
    assert forall i :: 0 <= i < t.depth ==> q.stack[i] == q.stack[..t.depth][i] == t.stack[i];
  }

  lemma BelowStays(t: Tok, add: St, u: Tok, u': Tok)
    requires Below(t, add, u) && SameLevel(u, u')
    ensures Below(t, add, u')
  {
    assert u'.stack[..t.depth] == u'.stack[..u.depth][..t.depth] && u.stack[..t.depth] == u.stack[..u.depth][..t.depth];
    assert u'.stack[t.depth] == u'.stack[..u.depth][t.depth];
  }

  ghost predicate WaitsForKey(t: Tok) {
    AtRest(t) && Top(t).state == Eatws && (Top(t).saved == FieldStart || Top(t).saved == FieldStartAfterSep)
    && t.err == Success && t.hi == 0
  }

  /** A key in quotes */
  lemma KeyBack(t: Tok, key: string, rest: string) returns (t': Tok)
    requires WaitsForKey(t) && NUL !in key
    ensures SameLevel(t, t') && Top(t') == Srec(Eatws, FieldEnd, Top(t).current, Some(key))
    ensures t'.stPos > 0 <==> t.stPos > 0 || HasLong(key)
    ensures Run(t, 0, Quote(key) + rest) == More(Run(t', 0, rest), |Quote(key)|)
  {
    hide Run, Switch, Wf, Escape, Quote, CString;
    KeyOpens(t, Escape(key) + ("\"" + rest));
    var u := Go(t, FieldName).(pb := "", quote := '"');
    QuoteText(key, rest);
    var u' := EscapeBack(u, key, "\"" + rest);
    assert u'.pb == key;
    WholeString(key);
    t' := KeyClosed(t, u', key, rest);
  }

  lemma KeyOpens(t: Tok, rest: string)
    requires WaitsForKey(t)
    ensures Run(t, 0, ['"'] + rest) == More(Run(Go(t, FieldName).(pb := "", quote := '"'), 0, rest), 1)
  {
    hide Wf, Run;
    var u := Go(t, FieldName).(pb := "", quote := '"');
    assert Switch(t, Null, '"', rest, 0) == Redo(Go(t, Top(t).saved), Null);
    assert Switch(Go(t, Top(t).saved), Null, '"', rest, 0) == Advance(u, 1);
    StepTwo(t, Go(t, Top(t).saved), '"', rest, u);
  }

  lemma KeyClosed(t: Tok, u: Tok, key: string, rest: string) returns (t': Tok)
    requires WaitsForKey(t) && u.depth == t.depth && u.stack == t.stack[t.depth := Top(u)]
    requires Top(u).state == FieldName && Top(u).current == Top(t).current && u.pb == key && u.quote == '"'
    requires u.strict == t.strict && u.err == Success && u.hi == 0
    ensures SameLevel(t, t') && Top(t') == Srec(Eatws, FieldEnd, Top(t).current, Some(CString(key)))
      && t'.stPos == u.stPos
    ensures Run(u, 0, "\"" + rest) == More(Run(t', 0, rest), 1)
  {
    hide Run, CString;
    t' := SetTop(u, Srec(Eatws, FieldEnd, Top(t).current, Some(CString(key))));
    LevelsBelow(t, t');
    Step(u, 0, '"', rest, t');
  }

  /** The colon behind the key */
  lemma ColonBack(t: Tok, rest: string) returns (t': Tok)
    requires AtRest(t) && Top(t).state == Eatws && Top(t).saved == FieldEnd && t.err == Success && t.hi == 0
    ensures SameLevel(t, t') && Top(t') == Top(t).(saved := ObjectValue) && t'.stPos == t.stPos
    ensures Run(t, 0, [':'] + rest) == More(Run(t', 0, rest), 1)
  {
    t' := SetTop(t, Top(t).(saved := ObjectValue));
    var u := Go(t, FieldEnd);
    assert Switch(t, Null, ':', rest, 0) == Redo(u, Null);
    assert Switch(u, Null, ':', rest, 0).t.stack == t'.stack;
    assert Switch(u, Null, ':', rest, 0) == Advance(t', 1);
    hide Run, Switch;
    StepTwo(t, u, ':', rest, t');
  }

  ghost predicate WaitsForValue(t: Tok) {
    AtRest(t) && Top(t).state == Eatws && Top(t).saved == ObjectValue && t.err == Success && t.hi == 0
  }

  lemma ValueOpens(t: Tok, s: string) returns (u: Tok)
    requires WaitsForValue(t) && t.depth + 1 < |t.stack| && s != "" && !IsSpace(s[0]) && s[0] != '/'
    ensures Fresh(u) && Below(t, ObjectValueAdd, u) && Run(t, 0, s) == Run(u, 0, s) && u.stPos == t.stPos
  {
    var c, rest, t1 := s[0], s[1..], Go(t, ObjectValue);
    assert Switch(t, Null, c, rest, 0) == Redo(t1, Null);
    assert Switch(t1, Null, c, rest, 0) == Push(t1, ObjectValueAdd);
    u := Push(t1, ObjectValueAdd).t;
    assert u.stack[..t.depth] == t.stack[..t.depth];
    hide Switch, Run;
    assert Process(t, Null, c, rest, 0) == Process(t1, Null, c, rest, 0) == Process(u, Null, c, rest, 0);
    SameRun(t, 0, u, 0, s);
  }

  /** A value of an object is complete, and goes to its key, be that new or not. */
  lemma FieldCloses(t: Tok, u: Tok, v: Json, c: char, rest: string) returns (q: Tok)
    requires WaitsForValue(t) && Below(t, ObjectValueAdd, u) && (c == ',' || c == '}')
    requires Top(u) == Srec(Eatws, Finish, v, None) && u.err == Success && u.hi == 0
    requires Top(t).current.Object? && Top(t).key.Some?
    ensures SameLevel(t, q) && q.stPos == u.stPos
    ensures Top(q) == Srec(Eatws, if c == ',' then FieldStartAfterSep else Finish,
                           Object(PutField(Top(t).current.fields, Top(t).key.value, v)), None)
    ensures Run(u, 0, [c] + rest) == More(Run(q, 0, rest), 1)
  {
    hide PutField;
    LevelLeft(u, c, rest, v);
    assert Top(Popped(u)) == u.stack[..u.depth][t.depth];
    q := FieldAdded(Popped(u), v, c, rest, Top(t).current.fields, Top(t).key.value, Top(t).saved);
    assert Popped(u).stack[..t.depth] == u.stack[..u.depth][..t.depth] == t.stack[..t.depth];
    assert q.stack[..t.depth] == t.stack[..t.depth];
    LevelsBelow(t, q);
    hide Process, Wf;
    assert ([c] + rest)[0] == c && ([c] + rest)[1..] == rest;
  }

  /** The white space and the bracket behind the last member are read; the value is complete. */
  lemma ClosingText(n: nat, level: nat, f: Flags, bracket: string, rest: string) returns (white: string)
    ensures Closing(n, level, f, bracket) + rest == white + (bracket + rest)
    ensures |Closing(n, level, f, bracket)| == |white| + |bracket| && forall c :: c in white ==> IsSpace(c)
    ensures n > 0 && bracket != "" && Ends(bracket[0]) ==> Ends((Closing(n, level, f, bracket) + rest)[0])
  {
    white := (if n > 0 then NewLine(f) else "") + Indent(level, f) + Space(f);
    if n > 0 && bracket != "" && white != "" { assert (white + (bracket + rest))[0] == white[0]; }
  }

  /** Leading white space */
  lemma LeadIsWhite(level: nat, f: Flags)
    ensures forall c :: c in Space(f) + Indent(level, f) ==> IsSpace(c)
    ensures forall c :: c in NewLine(f) ==> IsSpace(c)
    ensures forall c :: c in Space(f) ==> IsSpace(c)
  {
  }

  lemma SameWaits(t: Tok, q: Tok)
    requires SameLevel(t, q)
    ensures Top(q).state == Eatws && Top(q).saved == ArrayAfterSep ==> WaitsForItem(q)
    ensures Top(q).state == Eatws && Top(q).saved == FieldStartAfterSep ==> WaitsForKey(q)
    ensures |q.stack| - q.depth == |t.stack| - t.depth
  {
    hide Wf;
  }

  lemma SameTwice(t: Tok, w: Tok, q: Tok)
    requires SameLevel(t, w) && SameLevel(w, q)
    ensures SameLevel(t, q)
  {
    hide Wf;
  }

  lemma SameHas(t: Tok, q: Tok, v: Json, t': Tok)
    requires SameLevel(t, q) && Has(q, v, t')
    ensures Has(t, v, t')
  {
    hide Wf;
  }

  /** The text of a value, and what comes behind it, is read as that value and what comes behind it. */
  lemma {:induction false} ValueBack(t: Tok, v: Json, level: nat, f: Flags, rest: string) returns (t': Tok)
    requires Fresh(t) && Printable(v) && Nests(v, |t.stack| - t.depth) && rest != "" && Ends(rest[0])
    requires Reads(v, t.stPos > 0)
    ensures Has(t, v, t') && Run(t, 0, Print(v, level, f) + rest) == More(Run(t', 0, rest), |Print(v, level, f)|)
    ensures t'.stPos > 0 <==> t.stPos > 0 || Uses(v)
    decreases v, 1, 0
  {
    hide Run, Fresh, Has, HasPoint, PrintItems, PrintFields;
    match v
    case Null => t' := LiteralBack(t, "null", v, rest);
    case Bool(b) => t' := LiteralBack(t, if b then "true" else "false", v, rest);
    case Int(n) =>
      IntTextBack(n);
      t' := NumberBack(t, IntText(n), v, rest);
    case Double(text) =>
      PointFound(text);
      t' := NumberBack(t, text, v, rest);
    case NaN => t' := LiteralBack(t, "NaN", v, rest);
    case Infinity(negative) =>
      if negative {
        t' := NegativeBack(t, rest);
      } else {
        t' := LiteralBack(t, "Infinity", v, rest);
      }
    case Str(s) => t' := StringBack(t, s, rest);
    case Array(_) => t' := ArrayBack(t, v, level, f, rest);
    case Object(_) => t' := ObjectBack(t, v, level, f, rest);
  }

  lemma {:induction false} ArrayBack(t: Tok, v: Json, level: nat, f: Flags, rest: string) returns (t': Tok)
    requires Fresh(t) && v.Array? && Printable(v) && Nests(v, |t.stack| - t.depth) && rest != ""
    requires Reads(v, t.stPos > 0)
    ensures Has(t, v, t') && Run(t, 0, Print(v, level, f) + rest) == More(Run(t', 0, rest), |Print(v, level, f)|)
    ensures t'.stPos > 0 <==> t.stPos > 0 || Uses(v)
    decreases v, 0, |v.items| + 2
  {
    hide Run, Wf, Switch, Print, PrintItems, Nests, Printable, NewLine, Reads;
    var tail := PrintItems(v, 0, level, f) + rest;
    PrintOpens(v, level, f, rest);
    var u := BracketOpens(t, NewLine(f) + tail);
    LeadIsWhite(level, f);
    SkipWhite(u, NewLine(f), tail);
    assert v.items[..0] == [];
    UsedBefore(v, |v.items|, t.stPos > 0);
    if v.items == [] {
      t' := EmptyCloses(u, v, level, f, rest);
    } else {
      t' := ItemsBack(u, v, 0, level, f, rest, t.stPos > 0);
    }
  }

  /** The text of an array or object begins with its bracket. */
  lemma PrintOpens(v: Json, level: nat, f: Flags, rest: string)
    ensures v.Array? ==> Print(v, level, f) + rest == ['['] + (NewLine(f) + (PrintItems(v, 0, level, f) + rest))
    ensures v.Object? ==> Print(v, level, f) + rest == ['{'] + (NewLine(f) + (PrintFields(v, 0, level, f) + rest))
  {
    hide PrintItems, PrintFields, NewLine;
  }

  /** The closing bracket of an empty array or object */
  lemma EmptyCloses(t: Tok, v: Json, level: nat, f: Flags, rest: string) returns (t': Tok)
    requires AtRest(t) && t.err == Success && t.hi == 0
    requires (v == Array([]) && Top(t) == Srec(Eatws, ArrayStart, v, None)) || (v == Object([])
      && Top(t) == Srec(Eatws, FieldStart, v, None))
    ensures var x := if v.Array? then PrintItems(v, 0, level, f) else PrintFields(v, 0, level, f);
      Has(t, v, t') && Run(t, 0, x + rest) == More(Run(t', 0, rest), |x|) && t'.stPos == t.stPos
  {
    hide Run, Wf, Closing, AtRest;
    var bracket := if v.Array? then ']' else '}';
    var white := ClosingText(0, level, f, [bracket], rest);
    SkipWhite(t, white, [bracket] + rest);
    t' := NothingCloses(t, v, rest);
  }

  lemma NothingCloses(t: Tok, v: Json, rest: string) returns (t': Tok)
    requires AtRest(t) && t.err == Success && t.hi == 0
    requires (v == Array([]) && Top(t) == Srec(Eatws, ArrayStart, v, None)) || (v == Object([])
      && Top(t) == Srec(Eatws, FieldStart, v, None))
    ensures Has(t, v, t') && t'.stPos == t.stPos
    ensures Run(t, 0, [if v.Array? then ']' else '}'] + rest) == More(Run(t', 0, rest), 1)
  {
    var bracket := if v.Array? then ']' else '}';
    t' := SetTop(t, Top(t).(saved := Finish));
    LevelsBelow(t, t');
    var u := Go(t, Top(t).saved);
    assert Switch(t, Null, bracket, rest, 0) == Redo(u, Null);
    assert Switch(u, Null, bracket, rest, 0).t.stack == t'.stack;
    assert Switch(u, Null, bracket, rest, 0) == Advance(t', 1);
    hide Run, Switch, Wf;
    StepTwo(t, u, bracket, rest, t');
  }

  /** One item, up to what ends it */
  lemma {:induction false} ItemBack(t: Tok, v: Json, i: nat, level: nat, f: Flags, tail: string) returns (u: Tok)
    requires WaitsForItem(t) && v.Array? && i < |v.items| && Printable(v) && Nests(v, |t.stack| - t.depth)
    requires tail != "" && Ends(tail[0]) && Reads(v.items[i], t.stPos > 0)
    ensures u.stPos > 0 <==> t.stPos > 0 || Uses(v.items[i])
    ensures Below(t, ArrayAdd, u) && Top(u) == Srec(Eatws, Finish, v.items[i], None) && u.err == Success && u.hi == 0
    ensures var x := Space(f) + Indent(level, f) + Print(v.items[i], level, f);
      Run(t, 0, x + tail) == More(Run(u, 0, tail), |x|)
    decreases v, 0, 0
  {
    hide Run, Switch, Wf, Printable, Nests, Print, Uses, Reads;
    var lead, item := Space(f) + Indent(level, f), Print(v.items[i], level, f);
    ItemParts(v, i, |t.stack| - t.depth);
    LeadIsWhite(level, f);
    assert lead + item + tail == lead + (item + tail);
    SkipWhite(t, lead, item + tail);
    StartsPlain(v.items[i], level, f);
    var u0 := ItemOpens(t, item + tail);
    u := ValueBack(u0, v.items[i], level, f, tail);
    BelowStays(t, ArrayAdd, u0, u);
  }

  /** One item and the text behind it */
  lemma ItemsText(v: Json, i: nat, level: nat, f: Flags, rest: string)
    requires v.Array? && i < |v.items|
    ensures PrintItems(v, i, level, f) + rest == Space(f) + Indent(level + 1, f) + Print(v.items[i], level + 1, f)
      + if i + 1 < |v.items| then [','] + (NewLine(f) + (PrintItems(v, i + 1, level, f) + rest))
        else Closing(i + 1, level, f, "]") + rest
  {
    hide Print, Closing, Space, Indent, NewLine;
  }

  /** One item and the comma behind it */
  lemma {:induction false} NextItem(t: Tok, v: Json, i: nat, level: nat, f: Flags, more: string) returns (q: Tok)
    requires WaitsForItem(t) && v.Array? && i < |v.items| && Printable(v) && Nests(v, |t.stack| - t.depth)
    requires Top(t).current == Array(v.items[..i]) && Top(t).key == None && Reads(v.items[i], t.stPos > 0)
    ensures SameLevel(t, q) && WaitsForItem(q) && Top(q).current == Array(v.items[..i+1]) && Top(q).key == None
    ensures q.stPos > 0 <==> t.stPos > 0 || Uses(v.items[i])
    ensures var x := Space(f) + Indent(level, f) + Print(v.items[i], level, f) + ([','] + (NewLine(f) + more));
      Run(t, 0, x) == More(Run(q, 0, more), |x| - |more|)
    decreases v, 0, 1
  {
    hide Run, Switch, Wf, Printable, Nests, Print, Indent, Space, NewLine, Uses, Reads, SameLevel, WaitsForItem;
    LeadIsWhite(level, f);
    var u := ItemBack(t, v, i, level, f, [','] + (NewLine(f) + more));
    q := ItemCloses(t, u, v.items[i], ',', NewLine(f) + more);
    assert v.items[..i] + [v.items[i]] == v.items[..i+1];
    SkipWhite(q, NewLine(f), more);
    SameWaits(t, q);
  }

  /** The last item and the bracket behind it */
  lemma {:induction false} LastItem(t: Tok, v: Json, level: nat, f: Flags, rest: string) returns (t': Tok)
    requires WaitsForItem(t) && v.Array? && v.items != [] && Printable(v) && Nests(v, |t.stack| - t.depth)
    requires Top(t).current == Array(v.items[..|v.items|-1]) && Top(t).key == None
    requires Reads(v.items[|v.items|-1], t.stPos > 0)
    ensures Has(t, v, t') && (t'.stPos > 0 <==> t.stPos > 0 || Uses(v.items[|v.items|-1]))
    ensures var x := Space(f) + Indent(level + 1, f) + Print(v.items[|v.items|-1], level + 1, f)
                     + (Closing(|v.items|, level, f, "]") + rest);
      Run(t, 0, x) == More(Run(t', 0, rest), |x| - |rest|)
    decreases v, 0, 1
  {
    hide Run, Switch, Wf, Closing, Printable, Nests, Print, Below, Indent, Space, NewLine, Uses, Reads, SameLevel,
      WaitsForItem;
    var i := |v.items| - 1;
    var white := ClosingText(i + 1, level, f, "]", rest);
    var u := ItemBack(t, v, i, level + 1, f, white + ("]" + rest));
    SkipWhite(u, white, "]" + rest);
    t' := ItemCloses(t, u, v.items[i], ']', rest);
    assert v.items[..i] + [v.items[i]] == v.items;
  }

  /** The items from the i-th on, and the bracket */
  lemma {:induction false} ItemsBack(t: Tok, v: Json, i: nat, level: nat, f: Flags, rest: string, used: bool)
    returns (t': Tok)
    requires WaitsForItem(t) && v.Array? && i < |v.items| && Printable(v) && Nests(v, |t.stack| - t.depth)
    requires Reads(v, used) && (t.stPos > 0 <==> UsedItems(v, i, used))
    requires Top(t).current == Array(v.items[..i]) && Top(t).key == None
    ensures Has(t, v, t')
      && Run(t, 0, PrintItems(v, i, level, f) + rest) == More(Run(t', 0, rest), |PrintItems(v, i, level, f)|)
    ensures t'.stPos > 0 <==> UsedItems(v, |v.items|, used)
    decreases v, 0, |v.items| - i + 1
  {
    hide Run, Switch, Wf, Closing, Printable, Nests, Print, Below, PrintItems, Indent, Space, NewLine, Uses, Reads,
      UsedItems, SameLevel, Has, WaitsForItem, WaitsForKey;
    ItemReads(v, i, used);
    ItemsText(v, i, level, f, rest);
    if i + 1 == |v.items| {
      t' := LastItem(t, v, level, f, rest);
    } else {
      ItemReads(v, i + 1, used);
      var more := PrintItems(v, i + 1, level, f) + rest;
      var q := NextItem(t, v, i, level + 1, f, more);
      SameWaits(t, q);
      t' := ItemsBack(q, v, i + 1, level, f, rest, used);
      SameHas(t, q, v, t');
    }
  }

  lemma ItemReads(v: Json, i: nat, used: bool)
    requires v.Array? && i < |v.items|
    ensures Reads(v, used) ==> Reads(v.items[i], UsedItems(v, i, used))
    ensures UsedItems(v, i + 1, used) <==> UsedItems(v, i, used) || Uses(v.items[i])
  {
  }

  lemma ItemParts(v: Json, i: nat, d: nat)
    requires v.Array? && i < |v.items| && Printable(v) && Nests(v, d)
    ensures Printable(v.items[i]) && d > 1 && Nests(v.items[i], d - 1)
  {
  }

  lemma {:induction false} ObjectBack(t: Tok, v: Json, level: nat, f: Flags, rest: string) returns (t': Tok)
    requires Fresh(t) && v.Object? && Printable(v) && Nests(v, |t.stack| - t.depth) && rest != ""
    requires Reads(v, t.stPos > 0)
    ensures Has(t, v, t') && Run(t, 0, Print(v, level, f) + rest) == More(Run(t', 0, rest), |Print(v, level, f)|)
    ensures t'.stPos > 0 <==> t.stPos > 0 || Uses(v)
    decreases v, 0, |v.fields| + 2
  {
    hide Run, Wf, Switch, Print, PrintFields, Nests, Printable, NewLine, Reads;
    var tail := PrintFields(v, 0, level, f) + rest;
    PrintOpens(v, level, f, rest);
    var u := BraceOpens(t, NewLine(f) + tail);
    LeadIsWhite(level, f);
    SkipWhite(u, NewLine(f), tail);
    assert v.fields[..0] == [];
    UsedBefore(v, |v.fields|, t.stPos > 0);
    if v.fields == [] {
      t' := EmptyCloses(u, v, level, f, rest);
    } else {
      t' := FieldsBack(u, v, 0, level, f, rest, t.stPos > 0);
    }
  }

  lemma FieldReads(v: Json, i: nat, used: bool)
    requires v.Object? && i < |v.fields|
    ensures Reads(v, used) ==> Reads(v.fields[i].value, UsedFields(v, i, used) || HasLong(v.fields[i].key))
    ensures UsedFields(v, i + 1, used) <==>
      UsedFields(v, i, used) || HasLong(v.fields[i].key) || Uses(v.fields[i].value)
  {
  }

  lemma FieldParts(v: Json, i: nat, d: nat)
    requires v.Object? && i < |v.fields| && Printable(v) && Nests(v, d)
    ensures Printable(v.fields[i].value) && d > 1 && Nests(v.fields[i].value, d - 1) && NUL !in v.fields[i].key
    ensures forall g :: g in v.fields[..i] ==> g.key != v.fields[i].key
  {
  }

  lemma WholeString(s: string)
    requires NUL !in s
    ensures CString(s) == s
  {
  }

  lemma Regroup(lead: string, key: string, space: string, val: string, tail: string)
    ensures lead + key + ":" + space + val + tail == lead + (key + ([':'] + (space + (val + tail))))
  {
  }

  /** The text of one field, with its key */
  function FieldLead(g: Field, level: nat, f: Flags): string {
    Space(f) + Indent(level, f) + Quote(CString(g.key)) + ":" + Space(f) + Print(g.value, level, f)
  }

  /** One field and the text behind it */
  lemma FieldsText(v: Json, i: nat, level: nat, f: Flags, rest: string)
    requires v.Object? && i < |v.fields|
    ensures PrintFields(v, i, level, f) + rest
        == FieldLead(v.fields[i], level + 1, f)
             + if i + 1 < |v.fields| then [','] + (NewLine(f) + (PrintFields(v, i + 1, level, f) + rest))
               else Closing(i + 1, level, f, "}") + rest
  {
    hide Print, Closing, Quote, Space, Indent, NewLine;
  }

  /** One key and its value, up to what ends it */
  lemma {:induction false} FieldBack(t: Tok, v: Json, i: nat, level: nat, f: Flags, tail: string)
    returns (w: Tok, u: Tok)
    requires WaitsForKey(t) && v.Object? && i < |v.fields| && Printable(v) && Nests(v, |t.stack| - t.depth)
    requires Top(t).current == Object(v.fields[..i]) && tail != "" && Ends(tail[0])
    requires Reads(v.fields[i].value, t.stPos > 0 || HasLong(v.fields[i].key))
    ensures u.stPos > 0 <==> t.stPos > 0 || HasLong(v.fields[i].key) || Uses(v.fields[i].value)
    ensures SameLevel(t, w) && WaitsForValue(w) && Top(w).current == Top(t).current
      && Top(w).key == Some(v.fields[i].key)
    ensures Below(w, ObjectValueAdd, u) && Top(u) == Srec(Eatws, Finish, v.fields[i].value, None) && u.err == Success
      && u.hi == 0
    ensures var x := FieldLead(v.fields[i], level, f);
      Run(t, 0, x + tail) == More(Run(u, 0, tail), |x|)
    decreases v, 0, 0
  {
    hide Run, Switch, Wf, Printable, Nests, Print, Quote, Space, Indent, CString, Uses, Reads, HasLong;
    FieldParts(v, i, |t.stack| - t.depth);
    var lead, key, val := Space(f) + Indent(level, f), v.fields[i].key, Print(v.fields[i].value, level, f);
    WholeString(key);
    LeadIsWhite(level, f);
    Regroup(lead, Quote(key), Space(f), val, tail);
    w := KeyComesBack(t, lead, key, Space(f) + (val + tail));
    StartsPlain(v.fields[i].value, level, f);
    SkipWhite(w, Space(f), val + tail);
    var u0 := ValueOpens(w, val + tail);
    u := ValueBack(u0, v.fields[i].value, level, f, tail);
    BelowStays(w, ObjectValueAdd, u0, u);
  }

  /** White space, a key and the colon behind it */
  lemma KeyComesBack(t: Tok, lead: string, key: string, rest: string) returns (w: Tok)
    requires WaitsForKey(t) && NUL !in key && forall c :: c in lead ==> IsSpace(c)
    ensures SameLevel(t, w) && WaitsForValue(w) && Top(w).current == Top(t).current && Top(w).key == Some(key)
    ensures w.stPos > 0 <==> t.stPos > 0 || HasLong(key)
    ensures Run(t, 0, lead + (Quote(key) + ([':'] + rest))) == More(Run(w, 0, rest), |lead| + |Quote(key)| + 1)
  {
    hide Run, Switch, Wf, Quote;
    SkipWhite(t, lead, Quote(key) + ([':'] + rest));
    var k := KeyBack(t, key, [':'] + rest);
    w := ColonBack(k, rest);
  }

  /** One field and the comma behind it */
  lemma {:induction false} NextField(t: Tok, v: Json, i: nat, level: nat, f: Flags, more: string) returns (q: Tok)
    requires WaitsForKey(t) && v.Object? && i < |v.fields| && Printable(v) && Nests(v, |t.stack| - t.depth)
    requires Top(t).current == Object(v.fields[..i])
      && Reads(v.fields[i].value, t.stPos > 0 || HasLong(v.fields[i].key))
    ensures SameLevel(t, q) && WaitsForKey(q) && Top(q).current == Object(v.fields[..i+1]) && Top(q).key == None
    ensures q.stPos > 0 <==> t.stPos > 0 || HasLong(v.fields[i].key) || Uses(v.fields[i].value)
    ensures var x := FieldLead(v.fields[i], level, f) + ([','] + (NewLine(f) + more));
      Run(t, 0, x) == More(Run(q, 0, more), |x| - |more|)
    decreases v, 0, 1
  {
    hide Run, Switch, Wf, Printable, Nests, Print, Quote, CString, Indent, Space, NewLine, Uses, Reads, HasLong,
      SameLevel, WaitsForKey;
    LeadIsWhite(level, f);
    FieldParts(v, i, |t.stack| - t.depth);
    var w, u := FieldBack(t, v, i, level, f, [','] + (NewLine(f) + more));
    q := FieldCloses(w, u, v.fields[i].value, ',', NewLine(f) + more);
    PutNewField(v.fields[..i], v.fields[i].key, v.fields[i].value);
    assert v.fields[..i] + [Field(v.fields[i].key, v.fields[i].value)] == v.fields[..i+1];
    SkipWhite(q, NewLine(f), more);
    SameTwice(t, w, q);
    SameWaits(t, q);
  }

  /** The last field and the brace behind it */
  lemma {:induction false} LastField(t: Tok, v: Json, level: nat, f: Flags, rest: string) returns (t': Tok)
    requires WaitsForKey(t) && v.Object? && v.fields != [] && Printable(v) && Nests(v, |t.stack| - t.depth)
    requires Top(t).current == Object(v.fields[..|v.fields|-1])
    requires var g := v.fields[|v.fields|-1]; Reads(g.value, t.stPos > 0 || HasLong(g.key))
    ensures var g := v.fields[|v.fields|-1];
      Has(t, v, t') && (t'.stPos > 0 <==> t.stPos > 0 || HasLong(g.key) || Uses(g.value))
    ensures var x := FieldLead(v.fields[|v.fields|-1], level + 1, f) + (Closing(|v.fields|, level, f, "}") + rest);
      Run(t, 0, x) == More(Run(t', 0, rest), |x| - |rest|)
    decreases v, 0, 1
  {
    hide Run, Switch, Wf, Closing, Printable, Nests, Print, Quote, CString, Below, Indent, Space, NewLine, Uses, Reads,
      HasLong, FieldLead, SameLevel, WaitsForKey;
    var i := |v.fields| - 1;
    FieldParts(v, i, |t.stack| - t.depth);
    var white := ClosingText(i + 1, level, f, "}", rest);
    var w, u := FieldBack(t, v, i, level + 1, f, white + ("}" + rest));
    SkipWhite(u, white, "}" + rest);
    t' := FieldCloses(w, u, v.fields[i].value, '}', rest);
    PutNewField(v.fields[..i], v.fields[i].key, v.fields[i].value);
    SameTwice(t, w, t');
    assert v.fields[..i] + [Field(v.fields[i].key, v.fields[i].value)] == v.fields;
  }

  /** The fields from the i-th on, and the bracket */
  lemma {:induction false} FieldsBack(t: Tok, v: Json, i: nat, level: nat, f: Flags, rest: string, used: bool)
    returns (t': Tok)
    requires WaitsForKey(t) && v.Object? && i < |v.fields| && Printable(v) && Nests(v, |t.stack| - t.depth)
    requires Reads(v, used) && (t.stPos > 0 <==> UsedFields(v, i, used))
    requires Top(t).current == Object(v.fields[..i]) && Top(t).key == None
    ensures Has(t, v, t')
      && Run(t, 0, PrintFields(v, i, level, f) + rest) == More(Run(t', 0, rest), |PrintFields(v, i, level, f)|)
    ensures t'.stPos > 0 <==> UsedFields(v, |v.fields|, used)
    decreases v, 0, |v.fields| - i + 1
  {
    hide Run, Switch, Wf, Closing, Printable, Nests, Print, Quote, Below, PrintFields, Indent, Space, NewLine, Uses,
      Reads, UsedFields, HasLong, FieldLead, SameLevel, Has, WaitsForItem, WaitsForKey;
    FieldReads(v, i, used);
    FieldsText(v, i, level, f, rest);
    if i + 1 == |v.fields| {
      t' := LastField(t, v, level, f, rest);
    } else {
      FieldReads(v, i + 1, used);
      var more := PrintFields(v, i + 1, level, f) + rest;
      var q := NextField(t, v, i, level + 1, f, more);
      SameWaits(t, q);
      t' := FieldsBack(q, v, i + 1, level, f, rest, used);
      SameHas(t, q, v, t');
    }
  }

  // ---------- -Infinity behind something that uses st_pos

  /** The text of a value with a -Infinity that st_pos spoils gives an error, whatever comes behind it. */
  lemma {:induction false} ValueFails(t: Tok, v: Json, level: nat, f: Flags, rest: string)
    requires Fresh(t) && Printable(v) && Nests(v, |t.stack| - t.depth) && rest != "" && Ends(rest[0])
    requires !Reads(v, t.stPos > 0)
    ensures Run(t, 0, Print(v, level, f) + rest).tok.err == ErrorUnexpected
    decreases v, 1, 0
  {
    hide Run, Fresh, PrintItems, PrintFields;
    if v.Infinity? {
      NegativeFails(t, rest);
    } else if v.Array? {
      ArrayFails(t, v, level, f, rest);
    } else {
      ObjectFails(t, v, level, f, rest);
    }
  }

  lemma {:induction false} ArrayFails(t: Tok, v: Json, level: nat, f: Flags, rest: string)
    requires Fresh(t) && v.Array? && Printable(v) && Nests(v, |t.stack| - t.depth) && rest != ""
    requires !Reads(v, t.stPos > 0)
    ensures Run(t, 0, Print(v, level, f) + rest).tok.err == ErrorUnexpected
    decreases v, 0, |v.items| + 2
  {
    hide Run, Wf, Switch, Print, PrintItems, Nests, Printable, NewLine;
    var k :| 0 <= k < |v.items| && !Reads(v.items[k], UsedItems(v, k, t.stPos > 0));
    var tail := PrintItems(v, 0, level, f) + rest;
    PrintOpens(v, level, f, rest);
    var u := BracketOpens(t, NewLine(f) + tail);
    LeadIsWhite(level, f);
    SkipWhite(u, NewLine(f), tail);
    assert v.items[..0] == [];
    ItemsFail(u, v, 0, k, level, f, rest, t.stPos > 0);
  }

  /** The items from the i-th on, of which the k-th is spoiled */
  lemma {:induction false} ItemsFail(t: Tok, v: Json, i: nat, k: nat, level: nat, f: Flags, rest: string, used: bool)
    requires WaitsForItem(t) && v.Array? && i <= k < |v.items| && Printable(v) && Nests(v, |t.stack| - t.depth)
    requires Top(t).current == Array(v.items[..i]) && Top(t).key == None && (t.stPos > 0 <==> UsedItems(v, i, used))
    requires !Reads(v.items[k], UsedItems(v, k, used)) && rest != ""
    ensures Run(t, 0, PrintItems(v, i, level, f) + rest).tok.err == ErrorUnexpected
    decreases v, 0, |v.items| - i + 1
  {
    hide Run, Switch, Wf, Closing, Printable, Nests, Print, Below, PrintItems, Indent, Space, NewLine, Uses, Reads,
      UsedItems, SameLevel, Has, WaitsForItem, WaitsForKey;
    ItemsText(v, i, level, f, rest);
    ItemReads(v, i, used);
    LeadIsWhite(level + 1, f);
    var more := if i + 1 < |v.items| then PrintItems(v, i + 1, level, f) + rest else "";
    if !Reads(v.items[i], UsedItems(v, i, used)) {
      var white := ClosingText(i + 1, level, f, "]", rest);
      var tail := if i + 1 < |v.items| then [','] + (NewLine(f) + more) else Closing(i + 1, level, f, "]") + rest;
      ItemFails(t, v, i, level + 1, f, tail);
    } else {
      var q := NextItem(t, v, i, level + 1, f, more);
      SameWaits(t, q);
      ItemsFail(q, v, i + 1, k, level, f, rest, used);
    }
  }

  lemma {:induction false} ItemFails(t: Tok, v: Json, i: nat, level: nat, f: Flags, tail: string)
    requires WaitsForItem(t) && v.Array? && i < |v.items| && Printable(v) && Nests(v, |t.stack| - t.depth)
    requires tail != "" && Ends(tail[0]) && !Reads(v.items[i], t.stPos > 0)
    ensures Run(t, 0, Space(f) + Indent(level, f) + Print(v.items[i], level, f) + tail).tok.err == ErrorUnexpected
    decreases v, 0, 0
  {
    hide Run, Switch, Wf, Printable, Nests, Print, Reads;
    var lead, item := Space(f) + Indent(level, f), Print(v.items[i], level, f);
    ItemParts(v, i, |t.stack| - t.depth);
    LeadIsWhite(level, f);
    assert lead + item + tail == lead + (item + tail);
    SkipWhite(t, lead, item + tail);
    StartsPlain(v.items[i], level, f);
    var u0 := ItemOpens(t, item + tail);
    ValueFails(u0, v.items[i], level, f, tail);
  }

  lemma {:induction false} ObjectFails(t: Tok, v: Json, level: nat, f: Flags, rest: string)
    requires Fresh(t) && v.Object? && Printable(v) && Nests(v, |t.stack| - t.depth) && rest != ""
    requires !Reads(v, t.stPos > 0)
    ensures Run(t, 0, Print(v, level, f) + rest).tok.err == ErrorUnexpected
    decreases v, 0, |v.fields| + 2
  {
    hide Run, Wf, Switch, Print, PrintFields, Nests, Printable, NewLine;
    var k :| 0 <= k < |v.fields|
      && !Reads(v.fields[k].value, UsedFields(v, k, t.stPos > 0) || HasLong(v.fields[k].key));
    var tail := PrintFields(v, 0, level, f) + rest;
    PrintOpens(v, level, f, rest);
    var u := BraceOpens(t, NewLine(f) + tail);
    LeadIsWhite(level, f);
    SkipWhite(u, NewLine(f), tail);
    assert v.fields[..0] == [];
    FieldsFail(u, v, 0, k, level, f, rest, t.stPos > 0);
  }

  lemma {:induction false} FieldsFail(t: Tok, v: Json, i: nat, k: nat, level: nat, f: Flags, rest: string, used: bool)
    requires WaitsForKey(t) && v.Object? && i <= k < |v.fields| && Printable(v) && Nests(v, |t.stack| - t.depth)
    requires Top(t).current == Object(v.fields[..i]) && Top(t).key == None && (t.stPos > 0 <==> UsedFields(v, i, used))
    requires !Reads(v.fields[k].value, UsedFields(v, k, used) || HasLong(v.fields[k].key)) && rest != ""
    ensures Run(t, 0, PrintFields(v, i, level, f) + rest).tok.err == ErrorUnexpected
    decreases v, 0, |v.fields| - i + 1
  {
    hide Run, Switch, Wf, Closing, Printable, Nests, Print, Quote, Below, PrintFields, Indent, Space, NewLine, Uses,
      Reads, UsedFields, HasLong, FieldLead, SameLevel, Has, WaitsForItem, WaitsForKey;
    FieldsText(v, i, level, f, rest);
    FieldReads(v, i, used);
    FieldParts(v, i, |t.stack| - t.depth);
    LeadIsWhite(level + 1, f);
    var more := if i + 1 < |v.fields| then PrintFields(v, i + 1, level, f) + rest else "";
    if !Reads(v.fields[i].value, UsedFields(v, i, used) || HasLong(v.fields[i].key)) {
      var white := ClosingText(i + 1, level, f, "}", rest);
      var tail := if i + 1 < |v.fields| then [','] + (NewLine(f) + more) else Closing(i + 1, level, f, "}") + rest;
      FieldFails(t, v, i, level + 1, f, tail);
    } else {
      var q := NextField(t, v, i, level + 1, f, more);
      SameWaits(t, q);
      FieldsFail(q, v, i + 1, k, level, f, rest, used);
    }
  }

  lemma {:induction false} FieldFails(t: Tok, v: Json, i: nat, level: nat, f: Flags, tail: string)
    requires WaitsForKey(t) && v.Object? && i < |v.fields| && Printable(v) && Nests(v, |t.stack| - t.depth)
    requires tail != "" && Ends(tail[0]) && !Reads(v.fields[i].value, t.stPos > 0 || HasLong(v.fields[i].key))
    ensures Run(t, 0, FieldLead(v.fields[i], level, f) + tail).tok.err == ErrorUnexpected
    decreases v, 0, 0
  {
    hide Run, Switch, Wf, Printable, Nests, Print, Quote, Space, Indent, CString, Reads, HasLong;
    FieldParts(v, i, |t.stack| - t.depth);
    var lead, key, val := Space(f) + Indent(level, f), v.fields[i].key, Print(v.fields[i].value, level, f);
    WholeString(key);
    LeadIsWhite(level, f);
    Regroup(lead, Quote(key), Space(f), val, tail);
    var w := KeyComesBack(t, lead, key, Space(f) + (val + tail));
    StartsPlain(v.fields[i].value, level, f);
    SkipWhite(w, Space(f), val + tail);
    var u0 := ValueOpens(w, val + tail);
    ValueFails(u0, v.fields[i].value, level, f, tail);
  }

  /** json_tokener_parse of what json_object_to_json_string_ext wrote gives the same value, for every value that nests
      no deeper than max_depth, and all flags, strict or not; only a -Infinity behind a literal or a long escape is an
      error. */
  lemma RoundTrip(t: Tok, v: Json, f: Flags)
    requires t.depth == 0 && Top(t) == FRESH && Printable(v) && Nests(v, |t.stack|)
    ensures var r := Parse(t, Print(v, 0, f) + [NUL]).tok;
      if Reads(v, t.stPos > 0) then r.err == Success && Result(r) == v
      else r.err == ErrorUnexpected && Result(r) == Null
  {
    hide Print, Reads, Run;
    var u := Begin(t);
    assert Fresh(u);
    if Reads(v, t.stPos > 0) {
      var t' := ValueBack(u, v, 0, f, [NUL]);
      FinalNul(t', v);
    } else {
      ValueFails(u, v, 0, f, [NUL]);
    }
  }

  /** [true,-Infinity] cannot be read. */
  lemma NegativeIsLost()
    ensures var v := Array([Bool(true), Infinity(true)]); Printable(v) && Nests(v, 2) && !Reads(v, false)
  {
    var v := Array([Bool(true), Infinity(true)]);
    assert UsedItems(v, 1, false) && !Reads(v.items[1], UsedItems(v, 1, false));
  }

  lemma FinalNul(t: Tok, v: Json)
    requires t.depth == 0 && Top(t) == Srec(Eatws, Finish, v, None) && t.err == Success
    ensures var r := Run(t, 0, [NUL]); r.tok.err == Success && Top(r.tok).current == v && r.used == 0
  {
    var u := Go(t, Finish);
    assert Switch(t, Null, NUL, "", 0) == Redo(u, Null);
    assert Switch(u, Null, NUL, "", 0) == Out(u, 0);
    hide Switch;
    assert Process(t, Null, NUL, "", 0) == Process(u, Null, NUL, "", 0) == Out(u, 0);
    hide Process;
    assert [NUL][0] == NUL && [NUL][1..] == "";
  }
}