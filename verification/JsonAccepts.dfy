/** The parser reads every JSON text, and its value is the one that RFC 8259 gives it. */
module JsonAccepts {
  import opened JsonValue
  import opened JsonTokener
  import opened JsonLevels
  import opened JsonRoundTrip
  import G = JsonGrammar
  import U = JsonUnicode
  import Utf8

  // ---------- strings

  lemma FourHexIsHex(s: string)
    requires G.FourHex(s)
    ensures U.IsHex(s)
  {
  }

  lemma LetterBack(t: Tok, letter: char, rest: string) returns (t': Tok)
    requires InQuotes(t) && G.PieceOk(G.Short(letter))
    ensures var p := G.Short(letter);
      ReadOn(t, G.PieceMeans(p), t') && Run(t, 0, G.PieceText(p) + rest) == More(Run(t', 0, rest), 2)
  {
    hide Run, Switch;
    var c := G.PieceMeans(G.Short(letter))[0];
    assert G.PieceMeans(G.Short(letter)) == [c] && ShortEscape(c) == Some(letter);
    var u := Escaping(t);
    t' := Go(u, Top(u).saved).(pb := u.pb + [c]);
    assert G.PieceText(G.Short(letter)) + rest == "\\" + ([letter] + rest);
    BackslashBack(t, [letter] + rest);
    ShortStep(u, c, rest);
    Step(u, 0, letter, rest, t');
  }

  /** The beginning of an escape with digits */
  lemma EscapeOpens(t: Tok, rest: string) returns (u: Tok)
    requires InQuotes(t)
    ensures U.InEscape(u) && Top(u).saved == Top(t).state && u.pb == t.pb
    ensures u == SetTop(t, Top(t).(state := EscapeUnicode, saved := Top(t).state)).(ucs := 0, stPos := 0)
    ensures Run(t, 0, "\\u" + rest) == More(Run(u, 0, rest), 2)
  {
    hide Run, Switch;
    assert "\\u" + rest == "\\" + (['u'] + rest);
    var t1 := Escaping(t);
    u := Go(t1, EscapeUnicode).(ucs := 0, stPos := 0);
    assert u.stack == t.stack[t.depth := Top(u)];
    BackslashBack(t, ['u'] + rest);
    UnicodeStep(t1, rest);
    Step(t1, 0, 'u', rest, u);
  }

  lemma EscapeReadOn(t: Tok, u: Tok, code: nat, text: string)
    requires InQuotes(t)
    requires u == SetTop(t, Top(t).(state := EscapeUnicode, saved := Top(t).state)).(ucs := 0, stPos := 0)
    ensures ReadOn(t, text, U.Behind(u, code, text))
  {
  }

  lemma PieceBack(t: Tok, p: G.Piece, rest: string) returns (t': Tok)
    requires InQuotes(t) && G.PieceOk(p) && !G.LooksHalf(p)
    ensures ReadOn(t, G.PieceMeans(p), t')
    ensures Run(t, 0, G.PieceText(p) + rest) == More(Run(t', 0, rest), |G.PieceText(p)|)
  {
    match p
    case Plain(c) =>
      PlainBack(t, c, rest);
      t' := t.(pb := t.pb + [c]);
    case Short(letter) => t' := LetterBack(t, letter, rest);
    case Code(digits, means) => t' := CodeBack(t, digits, means, rest);
    case Pair(high, low, means) => t' := PairBack(t, high, low, means, rest);
  }

  lemma CodeBack(t: Tok, digits: string, means: string, rest: string) returns (t': Tok)
    requires InQuotes(t) && G.PieceOk(G.Code(digits, means))
    ensures ReadOn(t, means, t') && Run(t, 0, "\\u" + digits + rest) == More(Run(t', 0, rest), 6)
  {
    hide Run, Utf8.Stands, U.HexValue, U.IsHex, ReadOn, InQuotes;
    FourHexIsHex(digits);
    assert "\\u" + digits + rest == "\\u" + (digits + rest);
    var u := EscapeOpens(t, digits + rest);
    Utf8.OneForm(means, means, U.HexValue(digits));
    var text := U.CodeRead(u, digits, rest);
    Utf8.OneForm(means, text, U.HexValue(digits));
    t' := U.Behind(u, U.HexValue(digits), text);
    EscapeReadOn(t, u, U.HexValue(digits), text);
  }

  lemma PairBack(t: Tok, high: string, low: string, means: string, rest: string) returns (t': Tok)
    requires InQuotes(t) && G.PieceOk(G.Pair(high, low, means)) && !G.LooksHalf(G.Pair(high, low, means))
    ensures ReadOn(t, means, t')
    ensures Run(t, 0, "\\u" + high + "\\u" + low + rest) == More(Run(t', 0, rest), 12)
  {
    hide Run, Utf8.Stands, U.HexValue, U.IsHex, ReadOn, InQuotes, U.Joined, U.LooksHigh, U.LooksLow;
    FourHexIsHex(high);
    FourHexIsHex(low);
    assert "\\u" + high + "\\u" + low + rest == "\\u" + (high + ("\\u" + (low + rest)));
    var u := EscapeOpens(t, high + ("\\u" + (low + rest)));
    var text := U.PairRead(u, high, low, rest);
    var n := U.Joined(U.HexValue(high), U.HexValue(low));
    Utf8.OneForm(means, text, n);
    t' := U.Behind(u, n, text);
    EscapeReadOn(t, u, n, text);
  }

  lemma NothingRead(t: Tok)
    ensures ReadOn(t, "", t)
  {
  }

  lemma StillInQuotes(t: Tok, x: string, u: Tok)
    requires InQuotes(t) && ReadOn(t, x, u)
    ensures InQuotes(u)
  {
  }

  lemma ReadTwice(t: Tok, x: string, u: Tok, y: string, t': Tok)
    requires ReadOn(t, x, u) && ReadOn(u, y, t')
    ensures ReadOn(t, x + y, t')
  {
    assert t.pb + (x + y) == t.pb + x + y;
  }

  lemma {:induction false} PiecesBack(t: Tok, ps: seq<G.Piece>, rest: string) returns (t': Tok)
    requires InQuotes(t) && G.PiecesOk(ps) && G.NoneLooksHalf(ps)
    ensures ReadOn(t, G.PiecesMean(ps), t')
    ensures Run(t, 0, G.PiecesText(ps) + rest) == More(Run(t', 0, rest), |G.PiecesText(ps)|)
    decreases |ps|
  {
    hide Run, G.PieceText, G.PieceMeans, G.PieceOk, G.LooksHalf, ReadOn, InQuotes;
    if ps == [] {
      t' := t;
      NothingRead(t);
      assert G.PiecesText(ps) + rest == rest;
    } else {
      assert G.PiecesText(ps) + rest == G.PieceText(ps[0]) + (G.PiecesText(ps[1..]) + rest) && ps[0] in ps;
      var u := PieceBack(t, ps[0], G.PiecesText(ps[1..]) + rest);
      StillInQuotes(t, G.PieceMeans(ps[0]), u);
      t' := PiecesBack(u, ps[1..], rest);
      ReadTwice(t, G.PieceMeans(ps[0]), u, G.PiecesMean(ps[1..]), t');
    }
  }

  lemma StringParts(ps: seq<G.Piece>, rest: string)
    ensures G.StringText(ps) + rest == "\"" + (G.PiecesText(ps) + ("\"" + rest))
    ensures |G.StringText(ps)| == |G.PiecesText(ps)| + 2
  {
    hide G.PiecesText;
  }

  lemma StringIsRead(t: Tok, ps: seq<G.Piece>, rest: string) returns (t': Tok)
    requires Fresh(t) && G.PiecesOk(ps) && G.NoneLooksHalf(ps)
    ensures Has(t, Str(G.PiecesMean(ps)), t')
    ensures Run(t, 0, G.StringText(ps) + rest) == More(Run(t', 0, rest), |G.StringText(ps)|)
  {
    hide Run, Fresh, Has, ReadOn, InQuotes, IsStart, G.StringText, G.PiecesText, G.PiecesMean, G.PiecesOk,
      G.NoneLooksHalf;
    StringParts(ps, rest);
    var u := StringStarts(t, G.PiecesText(ps) + ("\"" + rest));
    var u' := PiecesBack(u, ps, "\"" + rest);
    t' := StringEnds(t, u, u', G.PiecesMean(ps), rest);
  }

  lemma KeyIsRead(t: Tok, ps: seq<G.Piece>, rest: string) returns (t': Tok)
    requires WaitsForKey(t) && G.PiecesOk(ps) && G.NoneLooksHalf(ps)
    ensures SameLevel(t, t') && Top(t') == Srec(Eatws, FieldEnd, Top(t).current, Some(CString(G.PiecesMean(ps))))
    ensures Run(t, 0, G.StringText(ps) + rest) == More(Run(t', 0, rest), |G.StringText(ps)|)
  {
    hide Run, Switch, Wf, CString, G.StringText, G.PiecesText, G.PiecesMean, G.PiecesOk, G.NoneLooksHalf;
    StringParts(ps, rest);
    KeyOpens(t, G.PiecesText(ps) + ("\"" + rest));
    var u := Go(t, FieldName).(pb := "", quote := '"');
    var u' := PiecesBack(u, ps, "\"" + rest);
    assert u'.pb == G.PiecesMean(ps);
    t' := KeyClosed(t, u', G.PiecesMean(ps), rest);
  }

  // ---------- numbers

  lemma DigitChars(s: string)
    requires forall c :: c in s ==> c in "0123456789"
    ensures forall c :: c in s ==> IsDigit(c)
  {
  }

  lemma {:induction false} DecimalIsValue(s: string)
    requires forall c :: c in s ==> c in "0123456789"
    ensures (forall c :: c in s ==> IsDigit(c)) && G.Decimal(s) == DigitValue(s)
    decreases |s|
  {
    if s != "" { DecimalIsValue(s[..|s|-1]); }
    DigitChars(s);
  }

  lemma NumeralChars(n: G.Numeral)
    requires G.NumeralOk(n)
    ensures var x := G.NumeralText(n);
      x != "" && (IsDigit(x[0]) || x[0] == '-') && forall c :: c in x ==> IsNumberChar(c)
  {
    DigitChars(n.whole);
    assert n.whole[0] in n.whole;
    FracChars(n);
    ExpChars(n);
  }

  lemma FracChars(n: G.Numeral)
    requires G.NumeralOk(n)
    ensures forall c :: c in n.frac ==> IsNumberChar(c)
  {
    if n.frac != "" {
      assert n.frac == [n.frac[0]] + n.frac[1..];
      DigitChars(n.frac[1..]);
    }
  }

  lemma ExpChars(n: G.Numeral)
    requires G.NumeralOk(n)
    ensures forall c :: c in n.exp ==> IsNumberChar(c)
  {
    if n.exp != "" {
      assert n.exp == [n.exp[0]] + n.exp[1..];
      if G.AreDigits(n.exp[1..]) {
        DigitChars(n.exp[1..]);
      } else {
        assert n.exp[1..] == [n.exp[1]] + n.exp[2..];
        DigitChars(n.exp[2..]);
      }
    }
  }

  /** Without fraction and exponent: a 64-bit integer */
  lemma WholeNumber(n: G.Numeral)
    requires G.NumeralOk(n) && n.frac == "" && n.exp == ""
    ensures var x, v := G.NumeralText(n), G.NumeralValue(n);
      !HasPoint(x) && ParseInt64(x) == Some(v.n) && (v.n == 0 || x[0] != '0')
  {
    hide HasPoint, DigitValue, LeadingDigits;
    var x := G.NumeralText(n);
    DecimalIsValue(n.whole);
    AllDigits(n.whole);
    assert n.whole[0] in n.whole;
    if n.minus {
      assert x == "-" + n.whole && x[1..] == n.whole;
      SignHasNoPoint(n.whole);
    } else {
      assert x == n.whole;
      if n.whole == "0" { Nought(); }
    }
  }

  lemma Nought()
    ensures (forall c :: c in "0" ==> IsDigit(c)) && DigitValue("0") == 0
  {
    assert "0"[..0] == "";
  }

  lemma BrokenNumber(n: G.Numeral)
    requires G.NumeralOk(n) && (n.frac != "" || n.exp != "")
    ensures HasPoint(G.NumeralText(n)) && DoubleParses(G.NumeralText(n))
  {
    hide HasPoint;
    var x := G.NumeralText(n);
    PointFound(x);
    DigitChars(n.whole);
    assert n.whole[0] in n.whole;
    var c := if n.frac != "" then n.frac[0] else n.exp[0];
    assert c in x;
    assert n.minus ==> x[1..] == n.whole + n.frac + n.exp;
  }

  lemma NumberIsRead(t: Tok, n: G.Numeral, rest: string) returns (t': Tok)
    requires Fresh(t) && G.NumeralOk(n) && rest != "" && Ends(rest[0])
    ensures Has(t, G.NumeralValue(n), t')
    ensures Run(t, 0, G.NumeralText(n) + rest) == More(Run(t', 0, rest), |G.NumeralText(n)|)
  {
    hide Run, Fresh, Has, HasPoint, Ends, G.NumeralText, G.Decimal, G.NumeralOk;
    NumeralChars(n);
    if n.frac == "" && n.exp == "" { WholeNumber(n); } else { BrokenNumber(n); }
    t' := NumberBack(t, G.NumeralText(n), G.NumeralValue(n), rest);
  }

  // ---------- values

  lemma WsIsSpace(s: string)
    requires G.IsWs(s)
    ensures forall c :: c in s ==> IsSpace(c)
  {
  }

  /** Behind white space, a character that ends a value: the white space ends it as well. */
  lemma WsEnds(s: string, rest: string)
    requires G.IsWs(s) && rest != "" && Ends(rest[0])
    ensures s + rest != "" && Ends((s + rest)[0])
  {
    WsIsSpace(s);
    if s != "" { assert (s + rest)[0] == s[0] && s[0] in s; }
  }

  lemma FirstChar(x: G.Text, rest: string)
    requires G.IsText(x)
    ensures var s := G.Written(x) + rest; s != "" && !IsSpace(s[0]) && s[0] != '/' && s[0] != ']'
  {
    hide G.WrittenItems, G.WrittenMembers, G.PiecesText, G.PieceOk;
    if x.Number? { NumeralChars(x.number); }
  }

  lemma WordIsRead(t: Tok, x: G.Text, rest: string) returns (t': Tok)
    requires Fresh(t) && G.IsText(x) && x.Word? && rest != "" && Ends(rest[0])
    ensures Has(t, G.Value(x), t') && Run(t, 0, x.word + rest) == More(Run(t', 0, rest), |x.word|)
  {
    hide Run, Fresh, Has;
    t' := LiteralBack(t, x.word, G.Value(x), rest);
  }

  /** The text of a value, whatever is behind it, is read as that value. */
  lemma {:induction false} ValueIsRead(t: Tok, x: G.Text, rest: string) returns (t': Tok)
    requires Fresh(t) && G.IsText(x) && G.Readable(x, |t.stack| - t.depth) && rest != "" && Ends(rest[0])
    ensures Has(t, G.Value(x), t') && Run(t, 0, G.Written(x) + rest) == More(Run(t', 0, rest), |G.Written(x)|)
    decreases x, 1
  {
    hide Run, Fresh, Has, Ends, G.NumeralText, G.NumeralOk, G.StringText, G.PiecesOk, G.NumeralValue, G.PiecesMean,
      G.WrittenItems, G.WrittenMembers, G.NoneLooksHalf;
    match x
    case Word(word) => t' := WordIsRead(t, x, rest);
    case Number(n) => t' := NumberIsRead(t, n, rest);
    case Quoted(ps) => t' := StringIsRead(t, ps, rest);
    case Nothing(inside, braces) => t' := NothingIsRead(t, inside, braces, rest);
    case Items(items) => t' := ArrayIsRead(t, x, rest);
    case Members(members) => t' := ObjectIsRead(t, x, rest);
  }

  lemma NothingIsRead(t: Tok, inside: string, braces: bool, rest: string) returns (t': Tok)
    requires Fresh(t) && G.IsWs(inside)
    ensures var x := G.Nothing(inside, braces);
      Has(t, G.Value(x), t') && Run(t, 0, G.Written(x) + rest) == More(Run(t', 0, rest), |G.Written(x)|)
  {
    hide Run, Wf, G.IsWs;
    WsIsSpace(inside);
    var close := if braces then ['}'] + rest else [']'] + rest;
    var v := if braces then Object([]) else Array([]);
    assert G.Written(G.Nothing(inside, braces)) + rest == [if braces then '{' else '['] + (inside + close);
    var u: Tok;
    if braces { u := BraceOpens(t, inside + close); } else { u := BracketOpens(t, inside + close); }
    SkipWhite(u, inside, close);
    t' := NothingCloses(u, v, rest);
  }

  lemma {:induction false} ArrayIsRead(t: Tok, x: G.Text, rest: string) returns (t': Tok)
    requires Fresh(t) && G.IsText(x) && x.Items? && G.Readable(x, |t.stack| - t.depth)
    ensures Has(t, G.Value(x), t') && Run(t, 0, G.Written(x) + rest) == More(Run(t', 0, rest), |G.Written(x)|)
    decreases x, 0
  {
    hide Run, Wf, G.WrittenItems, G.ItemWs, G.IsText, G.Readable;
    var items := x.items;
    ItemsOf(x, |t.stack| - t.depth);
    var all := G.WrittenItems(items) + ("]" + rest);
    assert G.Written(x) + rest == ['['] + all;
    var u := BracketOpens(t, all);
    t' := ItemsAreRead(u, items, [], rest);
    assert [] + G.ItemValues(items) == G.ItemValues(items);
    SameHas(t, u, G.Value(x), t');
  }

  ghost predicate ItemsOk(items: seq<G.Item>, d: int) {
    d > 0 && forall i :: 0 <= i < |items| ==>
      G.ItemWs(items[i]) && G.IsText(items[i].value) && G.Readable(items[i].value, d)
  }

  lemma ItemsOf(x: G.Text, d: nat)
    requires G.IsText(x) && x.Items? && G.Readable(x, d)
    ensures x.items != [] && ItemsOk(x.items, d - 1) && G.Value(x) == Array(G.ItemValues(x.items))
  {
    assert G.Readable(x.items[0].value, d - 1);
  }

  lemma FirstItem(items: seq<G.Item>, d: int)
    requires ItemsOk(items, d) && items != []
    ensures ItemsOk(items[1..], d) && G.ItemWs(items[0]) && G.IsText(items[0].value)
    ensures d > 0 && G.Readable(items[0].value, d)
    ensures G.ItemValues(items) == [G.Value(items[0].value)] + G.ItemValues(items[1..])
    ensures |items| == 1 ==> G.ItemValues(items) == [G.Value(items[0].value)]
  {
  }

  /** What is behind an item: a comma and the next ones, or the bracket */
  function Onward(items: seq<G.Item>, rest: string): string
    requires items != []
  {
    if |items| == 1 then "]" + rest else "," + (G.WrittenItems(items[1..]) + ("]" + rest))
  }

  lemma ItemsParts(items: seq<G.Item>, rest: string)
    requires items != []
    ensures G.WrittenItems(items) + ("]" + rest) == G.WrittenItem(items[0]) + Onward(items, rest)
    ensures |G.WrittenItems(items) + ("]" + rest)| == |G.WrittenItems(items)| + 1 + |rest|
  {
    hide G.WrittenItem, G.WrittenItems;
    var first, more, end := G.WrittenItem(items[0]), G.WrittenItems(items[1..]), "]" + rest;
    ItemsBegin(items);
    if |items| == 1 {
      Associate(first, "", end);
      assert "" + end == end;
    } else {
      Associate(first, "," + more, end);
      Associate(",", more, end);
    }
  }

  lemma Associate(a: string, b: string, c: string)
    ensures (a + b) + c == a + (b + c)
  {
  }

  lemma ItemsBegin(items: seq<G.Item>)
    requires items != []
    ensures G.WrittenItems(items)
         == G.WrittenItem(items[0]) + if |items| == 1 then "" else "," + G.WrittenItems(items[1..])
  {
    hide G.WrittenItem;
  }

  lemma OnwardEnds(items: seq<G.Item>, rest: string)
    requires items != []
    ensures var s := Onward(items, rest); s != "" && Ends(s[0])
    ensures var s := Onward(items, rest);
      s == [if |items| == 1 then ']' else ',']
             + if |items| == 1 then rest else G.WrittenItems(items[1..]) + ("]" + rest)
  {
    hide G.WrittenItems;
  }

  /** A value and the white space behind it */
  lemma {:induction false} ValueAndWs(t: Tok, i: G.Item, tail: string) returns (u: Tok)
    requires Fresh(t) && G.ItemWs(i) && G.IsText(i.value) && G.Readable(i.value, |t.stack| - t.depth)
    requires tail != "" && Ends(tail[0])
    ensures Has(t, G.Value(i.value), u)
    ensures var s := G.Written(i.value) + (i.after + tail); Run(t, 0, s) == More(Run(u, 0, tail), |s| - |tail|)
    decreases i, 0
  {
    hide Run, Fresh, Ends, SameLevel, G.IsWs, G.Written, G.IsText, G.Readable, G.Value;
    WsEnds(i.after, tail);
    u := ValueIsRead(t, i.value, i.after + tail);
    WsIsSpace(i.after);
    SkipWhite(u, i.after, tail);
  }

  /** An item of an array, up to what ends it */
  lemma {:induction false} ItemIsRead(t: Tok, i: G.Item, tail: string) returns (u: Tok)
    requires WaitsForItem(t) && t.depth + 1 < |t.stack|
    requires G.ItemWs(i) && G.IsText(i.value) && G.Readable(i.value, |t.stack| - t.depth - 1)
    requires tail != "" && Ends(tail[0])
    ensures Below(t, ArrayAdd, u) && Top(u) == Srec(Eatws, Finish, G.Value(i.value), None)
      && u.err == Success && u.hi == 0
    ensures Run(t, 0, G.WrittenItem(i) + tail) == More(Run(u, 0, tail), |G.WrittenItem(i)|)
    decreases i, 1
  {
    hide Run, Wf, Ends, G.IsWs, G.Written, G.IsText, G.Readable, G.Value, Fresh;
    var s := G.Written(i.value) + (i.after + tail);
    assert G.WrittenItem(i) + tail == i.before + s;
    WsIsSpace(i.before);
    SkipWhite(t, i.before, s);
    FirstChar(i.value, i.after + tail);
    var u0 := ItemOpens(t, s);
    u := ValueAndWs(u0, i, tail);
    BelowStays(t, ArrayAdd, u0, u);
  }

  /** The items to come, behind xs, and the bracket */
  lemma {:induction false} ItemsAreRead(t: Tok, items: seq<G.Item>, xs: seq<Json>, rest: string) returns (t': Tok)
    requires WaitsForItem(t) && Top(t).current == Array(xs) && Top(t).key == None
    requires items != [] && ItemsOk(items, |t.stack| - t.depth - 1)
    ensures Has(t, Array(xs + G.ItemValues(items)), t')
    ensures var s := G.WrittenItems(items); Run(t, 0, s + ("]" + rest)) == More(Run(t', 0, rest), |s| + 1)
    decreases items, 1
  {
    hide Run, Wf, G.WrittenItems, G.WrittenItem, G.ItemWs, G.IsText, G.Readable, G.Value, G.ItemValues, Below,
      SameLevel, WaitsForItem, Switch, ItemsOk;
    FirstItem(items, |t.stack| - t.depth - 1);
    var v, onward := G.Value(items[0].value), Onward(items, rest);
    ItemsParts(items, rest);
    OnwardEnds(items, rest);
    var u := ItemIsRead(t, items[0], onward);
    var q: Tok;
    if |items| == 1 {
      q := ItemCloses(t, u, v, ']', rest);
      assert xs + [v] == xs + G.ItemValues(items);
      t' := q;
    } else {
      q := ItemCloses(t, u, v, ',', G.WrittenItems(items[1..]) + ("]" + rest));
      SameWaits(t, q);
      t' := ItemsAreRead(q, items[1..], xs + [v], rest);
      assert xs + [v] + G.ItemValues(items[1..]) == xs + G.ItemValues(items);
      SameHas(t, q, Array(xs + G.ItemValues(items)), t');
    }
  }

  // ---------- objects

  lemma {:induction false} ObjectIsRead(t: Tok, x: G.Text, rest: string) returns (t': Tok)
    requires Fresh(t) && G.IsText(x) && x.Members? && G.Readable(x, |t.stack| - t.depth)
    ensures Has(t, G.Value(x), t') && Run(t, 0, G.Written(x) + rest) == More(Run(t', 0, rest), |G.Written(x)|)
    decreases x, 0
  {
    hide Run, Wf, G.WrittenMembers, G.IsText, G.Readable, G.MemberValues, MembersOk;
    var members := x.members;
    MembersOf(x, |t.stack| - t.depth);
    var all := G.WrittenMembers(members) + ("}" + rest);
    assert G.Written(x) + rest == ['{'] + all;
    var u := BraceOpens(t, all);
    t' := MembersAreRead(u, members, [], rest);
    SameHas(t, u, G.Value(x), t');
  }

  ghost predicate MemberOk(m: G.Member, d: int) {
    && d > 0 && G.IsWs(m.before) && G.PiecesOk(m.key) && G.IsWs(m.after) && G.ItemWs(m.item)
    && G.IsText(m.item.value) && G.NoneLooksHalf(m.key) && G.Readable(m.item.value, d)
  }

  ghost predicate MembersOk(members: seq<G.Member>, d: int) {
    d > 0 && forall i :: 0 <= i < |members| ==> MemberOk(members[i], d)
  }

  lemma MembersOf(x: G.Text, d: nat)
    requires G.IsText(x) && x.Members? && G.Readable(x, d)
    ensures x.members != [] && MembersOk(x.members, d - 1)
    ensures (forall i :: 0 <= i < |x.members| ==> G.IsText(x.members[i].item.value))
      && G.Value(x) == Object(G.MemberValues([], x.members))
  {
    hide G.PiecesOk, G.NoneLooksHalf, G.IsWs, G.ItemWs;
    assert G.Readable(x.members[0].item.value, d - 1);
  }

  lemma FirstMember(members: seq<G.Member>, d: int)
    requires MembersOk(members, d) && members != []
    ensures MembersOk(members[1..], d) && MemberOk(members[0], d) && d > 0
    ensures forall i :: 0 <= i < |members| ==> G.IsText(members[i].item.value)
  {
    hide G.PiecesOk, G.NoneLooksHalf, G.IsWs, G.ItemWs, G.IsText, G.Readable;
  }

  lemma FirstPut(fs: seq<Field>, members: seq<G.Member>)
    requires (forall i :: 0 <= i < |members| ==> G.IsText(members[i].item.value)) && members != []
    ensures var m := members[0];
      && (forall i :: 0 <= i < |members[1..]| ==> G.IsText(members[1..][i].item.value))
      && G.MemberValues(fs, members)
      == G.MemberValues(PutField(fs, CString(G.PiecesMean(m.key)), G.Value(m.item.value)), members[1..])
      && (|members| == 1 ==>
            G.MemberValues(fs, members) == PutField(fs, CString(G.PiecesMean(m.key)), G.Value(m.item.value)))
  {
  }

  function OnwardMembers(members: seq<G.Member>, rest: string): string
    requires members != []
  {
    if |members| == 1 then "}" + rest else "," + (G.WrittenMembers(members[1..]) + ("}" + rest))
  }

  lemma MembersParts(members: seq<G.Member>, rest: string)
    requires members != []
    ensures G.WrittenMembers(members) + ("}" + rest) == G.WrittenMember(members[0]) + OnwardMembers(members, rest)
    ensures |G.WrittenMembers(members) + ("}" + rest)| == |G.WrittenMembers(members)| + 1 + |rest|
  {
    hide G.WrittenMember, G.WrittenMembers;
    var first, more, end := G.WrittenMember(members[0]), G.WrittenMembers(members[1..]), "}" + rest;
    MembersBegin(members);
    if |members| == 1 {
      Associate(first, "", end);
      assert "" + end == end;
    } else {
      Associate(first, "," + more, end);
      Associate(",", more, end);
    }
  }

  lemma MembersBegin(members: seq<G.Member>)
    requires members != []
    ensures G.WrittenMembers(members)
         == G.WrittenMember(members[0]) + if |members| == 1 then "" else "," + G.WrittenMembers(members[1..])
  {
    hide G.WrittenMember;
  }

  lemma OnwardMembersEnds(members: seq<G.Member>, rest: string)
    requires members != []
    ensures var s := OnwardMembers(members, rest); s != "" && Ends(s[0])
    ensures var s := OnwardMembers(members, rest);
      s == [if |members| == 1 then '}' else ',']
             + if |members| == 1 then rest else G.WrittenMembers(members[1..]) + ("}" + rest)
  {
    hide G.WrittenMembers;
  }

  /** A member of an object, up to what ends it */
  lemma {:induction false} MemberIsRead(t: Tok, m: G.Member, tail: string) returns (w: Tok, u: Tok)
    requires WaitsForKey(t) && t.depth + 1 < |t.stack| && MemberOk(m, |t.stack| - t.depth - 1)
    requires tail != "" && Ends(tail[0])
    ensures SameLevel(t, w) && WaitsForValue(w) && Top(w).current == Top(t).current
      && Top(w).key == Some(CString(G.PiecesMean(m.key)))
    ensures Below(w, ObjectValueAdd, u) && Top(u) == Srec(Eatws, Finish, G.Value(m.item.value), None)
      && u.err == Success && u.hi == 0
    ensures Run(t, 0, G.WrittenMember(m) + tail) == More(Run(u, 0, tail), |G.WrittenMember(m)|)
    decreases m
  {
    hide Run, Wf, Ends, G.IsWs, G.Written, G.StringText, G.IsText, G.Readable, G.Value, Fresh, CString, G.PiecesMean,
      G.PiecesOk, G.NoneLooksHalf;
    var s := G.Written(m.item.value) + (m.item.after + tail);
    MemberParts(m, tail);
    w := KeyAndColon(t, m, m.item.before + s);
    WsIsSpace(m.item.before);
    SkipWhite(w, m.item.before, s);
    FirstChar(m.item.value, m.item.after + tail);
    var u0 := ValueOpens(w, s);
    u := ValueAndWs(u0, m.item, tail);
    BelowStays(w, ObjectValueAdd, u0, u);
  }

  lemma MemberParts(m: G.Member, tail: string)
    ensures G.WrittenMember(m) + tail
         == m.before + (G.StringText(m.key)
              + (m.after + (":" + (m.item.before + (G.Written(m.item.value) + (m.item.after + tail))))))
  {
    hide G.Written, G.StringText;
  }

  /** The white space, the key, and the colon */
  lemma KeyAndColon(t: Tok, m: G.Member, rest: string) returns (w: Tok)
    requires WaitsForKey(t) && G.IsWs(m.before) && G.PiecesOk(m.key) && G.NoneLooksHalf(m.key) && G.IsWs(m.after)
    ensures SameLevel(t, w) && WaitsForValue(w) && Top(w).current == Top(t).current
      && Top(w).key == Some(CString(G.PiecesMean(m.key)))
    ensures var s := m.before + (G.StringText(m.key) + (m.after + (":" + rest)));
      Run(t, 0, s) == More(Run(w, 0, rest), |s| - |rest|)
  {
    hide Run, Wf, G.IsWs, G.StringText, CString, G.PiecesMean, G.PiecesOk, G.NoneLooksHalf;
    WsIsSpace(m.before);
    WsIsSpace(m.after);
    SkipWhite(t, m.before, G.StringText(m.key) + (m.after + (":" + rest)));
    var k := KeyIsRead(t, m.key, m.after + (":" + rest));
    SkipWhite(k, m.after, ":" + rest);
    w := ColonBack(k, rest);
    SameTwice(t, k, w);
  }

  /** The members to come, behind the fields fs, and the brace */
  lemma {:induction false} MembersAreRead(t: Tok, members: seq<G.Member>, fs: seq<Field>, rest: string)
    returns (t': Tok)
    requires WaitsForKey(t) && Top(t).current == Object(fs)
    requires members != [] && MembersOk(members, |t.stack| - t.depth - 1)
    ensures (forall i :: 0 <= i < |members| ==> G.IsText(members[i].item.value))
      && Has(t, Object(G.MemberValues(fs, members)), t')
    ensures var s := G.WrittenMembers(members); Run(t, 0, s + ("}" + rest)) == More(Run(t', 0, rest), |s| + 1)
    decreases members
  {
    hide Run, Wf, G.WrittenMembers, G.WrittenMember, MemberOk, G.IsText, G.Value, G.MemberValues, Below, SameLevel,
      WaitsForKey, WaitsForValue, Switch, MembersOk, CString, G.PiecesMean, PutField;
    FirstMember(members, |t.stack| - t.depth - 1);
    FirstPut(fs, members);
    MembersParts(members, rest);
    OnwardMembersEnds(members, rest);
    var m, onward := members[0], OnwardMembers(members, rest);
    var w, u := MemberIsRead(t, m, onward);
    var v, more := G.Value(m.item.value), G.WrittenMembers(members[1..]) + ("}" + rest);
    var gs := PutField(fs, CString(G.PiecesMean(m.key)), v);
    if |members| == 1 {
      t' := FieldCloses(w, u, v, '}', rest);
      SameTwice(t, w, t');
    } else {
      var q := FieldCloses(w, u, v, ',', more);
      SameTwice(t, w, q);
      SameWaits(t, q);
      t' := MembersAreRead(q, members[1..], gs, rest);
      SameHas(t, q, Object(G.MemberValues(fs, members)), t');
    }
  }

  // ---------- whole texts

  /** Every JSON text, with white space around it, is read as its value, strict or not, if it nests no deeper than
      max_depth and has no pair that looks like half of one. */
  lemma EveryTextIsRead(t: Tok, x: G.Text, before: string, after: string)
    requires t.depth == 0 && Top(t) == FRESH && G.IsText(x) && G.Readable(x, |t.stack|)
    requires G.IsWs(before) && G.IsWs(after)
    ensures var s := before + G.Written(x) + after;
      var r := Parse(t, s + [NUL]);
      r.tok.err == Success && Result(r.tok) == G.Value(x) && r.used == |s|
  {
    hide G.Written, G.Value, G.IsText, G.Readable, Run, G.IsWs;
    var u := Begin(t);
    assert Fresh(u);
    WsIsSpace(before);
    WsIsSpace(after);
    WsEnds(after, [NUL]);
    assert before + G.Written(x) + after + [NUL] == before + (G.Written(x) + (after + [NUL]));
    SkipWhite(u, before, G.Written(x) + (after + [NUL]));
    var t' := ValueIsRead(u, x, after + [NUL]);
    SkipWhite(t', after, [NUL]);
    FinalNul(t', G.Value(x));
  }
}
