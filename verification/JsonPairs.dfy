/** Where the cut between two chunks falls within a pair of escapes: when that matters, and when not. */
module JsonPairs {
  import opened JsonValue
  import opened JsonTokener
  import opened JsonLevels
  import opened JsonChunks
  import U = JsonUnicode

  /** The same error after as much input, at the same place; and the same state, where there is no error. */
  ghost predicate Agree(o: Outcome, p: Outcome) {
    && o.used == p.used && o.tok.err == p.tok.err && o.tok.stack == p.tok.stack && o.tok.depth == p.tok.depth
    && (o.tok.err == Success || o.tok.err == Continue ==> o == p)
  }

  /** Whether a and b come in one chunk or two makes no difference, however much of b has come. */
  ghost predicate AgreesThrough(t: Tok, a: string, b: string) {
    forall n :: 0 <= n <= |b| ==> Agree(Parse(t, a + b[..n]), More(Parse(Parse(t, a).tok, b[..n]), |a|))
  }

  /** b goes on with the second half of the pair whose first half is followed by tail: with its backslash, its u, its
      first digit, or with the rest of its digits. */
  predicate Splits(tail: string, b: string)
    requires Within(tail)
  {
    if tail == "" then "\\u" <= b
    else if tail == "\\" then "u" <= b
    else if tail == "\\u" then b != "" && IsHexChar(b[0]) && b[0] != NUL
    else
      var e := tail[2..];
      |e| + |b| >= 4 && AllHex(b[..4-|e|]) && IsLowSurrogate(U.HexValue(e + b[..4-|e|]))
  }

  ghost predicate SplitsPair(t: Tok, a: string, b: string) {
    exists x, w, c, tail :: HighEnd(Begin(t), 0, a, x, w, c, tail) && Splits(tail, b)
  }

  // ---------- behind the first half

  /** The first half of a pair is replaced. */
  function Replaced(p: Tok): Tok
    requires Top(p).saved == String || Top(p).saved == FieldName
  {
    Go(p, Top(p).saved).(pb := p.pb + REPLACEMENT)
  }

  /** The last digit of a first half, with what is in sight behind it */
  lemma LastOfHigh(w: Tok, c: char, s: string)
    requires AtHigh(w, c) && AtRest(w) && c != NUL
    ensures var p := Code(w, c);
      && (Top(p).saved == String || Top(p).saved == FieldName) && p.hi == 0 && p.stPos == 4
      && Top(p).state == EscapeUnicode && p.err == w.err
      && UnicodeDigit(w, c, s) ==
           if s == "\\u" then Out(p.(pb := p.pb + REPLACEMENT, err := Continue), 3)
           else if "\\u" <= s then Advance(p.(hi := p.ucs, ucs := 0, stPos := 0), 3)
           else Advance(Replaced(p), 1)
  {
    hide Encode, IsHighSurrogate, IsLowSurrogate, DecodePair, HexDigit, IsHexChar, Wf, Paired, FourDigits;
    SavedString(w);
    var m := w.(ucs := (w.ucs + HexDigit(c)) % UINT, stPos := 4);
    PairedOnly(m);
    FourthOfHigh(m, s);
  }

  lemma PairedOnly(m: Tok)
    ensures Paired(m).stPos == m.stPos && Paired(m).err == m.err
  {
  }

  /** A high half has its four digits: what s goes on with decides. */
  lemma FourthOfHigh(m: Tok, s: string)
    requires Paired(m).ucs >= 0x800 && IsHighSurrogate(Paired(m).ucs)
      && (Top(m).saved == String || Top(m).saved == FieldName)
    ensures var p := Paired(m);
      FourDigits(m, s) == if s == "\\u" then Out(p.(pb := p.pb + REPLACEMENT, err := Continue), 3)
                          else if "\\u" <= s then Advance(p.(hi := p.ucs, ucs := 0, stPos := 0), 3)
                          else Advance(Replaced(p), 1)
  {
    hide Encode, IsHighSurrogate, IsLowSurrogate, DecodePair;
    if "\\u" <= s { assert s[..2] == "\\u" && s[0] == '\\' && s[1] == 'u'; }
    if |s| >= 2 && s[0] == '\\' && s[1] == 'u' { assert s[..2] == "\\u"; }
  }

  /** What is read behind the last digit of a first half */
  lemma BehindHigh(w: Tok, c: char, s: string)
    requires c != NUL && AtHigh(w, c) && AtRest(w)
    ensures var p := Code(w, c);
      && (Top(p).saved == String || Top(p).saved == FieldName) && p.hi == 0 && p.stPos == 4
      && Top(p).state == EscapeUnicode && p.err == w.err
      && Run(w, 0, [c] + s) ==
           if s == "\\u" then Outcome(p.(pb := p.pb + REPLACEMENT, err := Continue), 3)
           else if "\\u" <= s then More(Run(p.(hi := p.ucs, ucs := 0, stPos := 0), 0, s[2..]), 3)
           else More(Run(Replaced(p), 0, s), 1)
  {
    LastOfHigh(w, c, s);
    assert Process(w, Null, c, s, 0) == UnicodeDigit(w, c, s);
    hide Code, IsHighSurrogate, Wf, Run, UnicodeDigit, Process, Switch;
    RunOne(w, c, s);
    assert s[0..] == s;
    assert "\\u" <= s ==> |s| >= 2;
  }

  /** One turn of the loop */
  lemma RunOne(w: Tok, c: char, s: string)
    requires c != NUL
    ensures var next := Process(w, Null, c, s, 0);
      && (next.Out? ==> Run(w, 0, [c] + s) == Outcome(Judge(next.t, c), next.n))
      && (next.Advance? && 0 < next.n <= 1 + |s| ==>
            Run(w, 0, [c] + s) == More(Run(next.t, NumberLength(next.t, 0), s[next.n-1..]), next.n))
  {
    hide Process;
    var next := Process(w, Null, c, s, 0);
    assert ([c] + s)[0] == c && ([c] + s)[1..] == s;
    if next.Advance? && 0 < next.n <= 1 + |s| { assert ([c] + s)[next.n..] == s[next.n-1..]; }
  }

  // ---------- the second half, digit by digit

  /** One digit later */
  function Added(m: Tok, c: char): Tok {
    m.(ucs := (m.ucs + HexDigit(c) * Shift(m.stPos)) % UINT, stPos := m.stPos + 1)
  }

  /** Some digits later */
  function After(m: Tok, e: string): (r: Tok)
    ensures r.stPos == m.stPos + |e| && r.hi == m.hi && r.stack == m.stack && r.depth == m.depth && r.pb == m.pb
      && r.err == m.err
    decreases |e|
  {
    if e == "" then m else After(Added(m, e[0]), e[1..])
  }

  lemma DigitValue(m: Tok, c: char, s: string)
    requires IsHexChar(c) && m.stPos != 3
    ensures UnicodeDigit(m, c, s) == Advance(After(m, [c]), 1)
  {
    AddedDigit(m, c, s);
    hide Added, UnicodeDigit;
    assert [c][1..] == "" && After(Added(m, c), "") == Added(m, c);
  }

  lemma AddedDigit(m: Tok, c: char, s: string)
    requires IsHexChar(c) && m.stPos != 3
    ensures UnicodeDigit(m, c, s) == Advance(Added(m, c), 1)
  {
    hide FourDigits;
  }

  lemma OneDigit(m: Tok, c: char, s: string)
    requires Top(m).state == EscapeUnicode && IsHexChar(c) && c != NUL && m.stPos != 3
    ensures Run(m, 0, [c] + s) == More(Run(After(m, [c]), 0, s), 1)
  {
    hide Run, IsHexChar, UnicodeDigit, Process, Switch;
    SameStack(m, c);
    DigitValue(m, c, s);
    Digit(m, c, s);
    RunOne(m, c, s);
    assert s[0..] == s;
  }

  lemma SameStack(m: Tok, c: char)
    ensures var r := After(m, [c]); r.stack == m.stack && r.depth == m.depth && Top(r) == Top(m)
  {
  }

  lemma {:induction false} ReadDigits(m: Tok, e: string, s: string)
    requires Top(m).state == EscapeUnicode && AllHex(e) && m.stPos + |e| < 4
    ensures Run(m, 0, e + s) == More(Run(After(m, e), 0, s), |e|)
    decreases |e|
  {
    hide Run, HexDigit, Shift, IsHexChar;
    if e == "" {
      assert e + s == s;
    } else {
      assert e + s == [e[0]] + (e[1..] + s) && e[0] in e && [e[0]][1..] == "";
      assert AllHex(e[1..]);
      OneDigit(m, e[0], e[1..] + s);
      ReadDigits(After(m, [e[0]]), e[1..], s);
    }
  }

  /** s completes the second half of a pair. */
  predicate Completes(m: Tok, s: string) {
    m.stPos < 4 && |s| >= 4 - m.stPos && AllHex(s[..4 - m.stPos]) && IsLowSurrogate(After(m, s[..4 - m.stPos]).ucs)
  }

  /** The first half has been given up. */
  function GivenUp(m: Tok): Tok {
    m.(pb := m.pb + REPLACEMENT, hi := 0)
  }

  ghost predicate InSecond(m: Tok) {
    Top(m).state == EscapeUnicode && m.hi != 0 && m.stPos < 4 && m.err == Success && AtRest(m)
  }

  /** A NUL, if there is one, ends the input. */
  predicate NulLast(s: string) {
    forall i :: 0 <= i < |s| - 1 ==> s[i] != NUL
  }

  lemma Digit(m: Tok, c: char, rest: string)
    requires Top(m).state == EscapeUnicode
    ensures Process(m, Null, c, rest, 0) == UnicodeDigit(m, c, rest)
  {
    DigitGoesOn(m, c, rest);
    hide UnicodeDigit;
  }

  lemma DigitGoesOn(m: Tok, c: char, rest: string)
    ensures !UnicodeDigit(m, c, rest).Redo?
  {
    hide HexDigit, Encode, IsHighSurrogate, IsLowSurrogate, DecodePair, IsHexChar;
  }

  /** What is no digit is an error both ways. */
  lemma NoDigit(m: Tok, s: string)
    requires InSecond(m) && s != "" && !IsHexChar(s[0])
    ensures Agree(Run(m, 0, s), Run(GivenUp(m), 0, s))
  {
    hide Process, Switch, HexDigit, IsHexChar, FourDigits, Shift, Wf;
    Digit(m, s[0], s[1..]);
    Digit(GivenUp(m), s[0], s[1..]);
  }

  lemma NulDigit(m: Tok)
    requires InSecond(m)
    ensures var next := UnicodeDigit(m, NUL, "");
      next.Advance? && next.n == 1 && next.t.depth == m.depth && Judge(Flush(next.t), NUL).err == ErrorEof
    ensures var next := UnicodeDigit(m, NUL, "");
      next.t.stack == if m.stPos == 3 then Go(m, Top(m).saved).stack else m.stack
  {
    hide HexDigit, Encode, IsHighSurrogate, IsLowSurrogate, DecodePair, Wf, Shift;
    SavedString(m);
  }

  lemma NulDigitGivenUp(m: Tok)
    requires InSecond(m)
    ensures var next := UnicodeDigit(GivenUp(m), NUL, "");
      next.Advance? && next.n == 1 && next.t.depth == m.depth && Judge(Flush(next.t), NUL).err == ErrorEof
    ensures var next := UnicodeDigit(GivenUp(m), NUL, "");
      next.t.stack == if m.stPos == 3 then Go(m, Top(m).saved).stack else m.stack
  {
    hide HexDigit, Encode, IsHighSurrogate, IsLowSurrogate, DecodePair, Wf, Shift;
    SavedString(m);
  }

  lemma NulAgrees(m: Tok)
    requires InSecond(m)
    ensures Agree(Run(m, 0, [NUL]), Run(GivenUp(m), 0, [NUL]))
  {
    hide Process, Switch, UnicodeDigit, Wf;
    NulDigit(m);
    NulDigitGivenUp(m);
    Digit(m, NUL, "");
    Digit(GivenUp(m), NUL, "");
    assert [NUL][1..] == "";
  }

  /** When the second half turns out to be none, the first is given up then. */
  lemma NotLow(m: Tok, c: char, rest: string)
    requires InSecond(m) && m.stPos == 3 && IsHexChar(c) && c != NUL && !IsLowSurrogate(After(m, [c]).ucs)
    ensures UnicodeDigit(m, c, rest) == UnicodeDigit(GivenUp(m), c, rest)
  {
    hide HexDigit, Encode, IsHighSurrogate, IsLowSurrogate, Wf, IsHexChar, Paired;
    assert [c][1..] == "";
    NotPaired(m.(ucs := (m.ucs + HexDigit(c) * Shift(m.stPos)) % UINT, stPos := 4));
  }

  lemma NotPaired(m: Tok)
    requires m.hi != 0 && !IsLowSurrogate(m.ucs)
    ensures Paired(m) == Paired(GivenUp(m))
  {
    hide IsLowSurrogate, DecodePair;
  }

  lemma SameStep(m: Tok, q: Tok, s: string)
    requires s != "" && Process(m, Null, s[0], s[1..], 0) == Process(q, Null, s[0], s[1..], 0)
      && Top(m).state == Top(q).state == EscapeUnicode
    ensures Run(m, 0, s) == Run(q, 0, s)
  {
    hide Process;
  }

  lemma EncodeShort(u: nat)
    ensures |Encode(u)| <= 4 && (IsLowSurrogate(u) ==> Encode(u) == REPLACEMENT) && |REPLACEMENT| == 3
  {
    if IsLowSurrogate(u) { LowIsNotHigh(u); }
  }

  /** The second half is complete, and the input is at its end: one way has one character, the other two that replace
      it. */
  lemma LowPaired(m: Tok, c: char)
    requires InSecond(m) && m.stPos == 3 && IsHexChar(c) && c != NUL && IsLowSurrogate(After(m, [c]).ucs)
    ensures var o := UnicodeDigit(m, c, "");
      o.Advance? && o.n == 1 && o.t.hi == 0 && |o.t.pb| <= |m.pb| + 4 && Top(o.t).state == Top(m).saved
  {
    hide HexDigit, Wf, IsHexChar, Encode, IsLowSurrogate, IsHighSurrogate, DecodePair, Added, UnicodeDigit;
    LastAdded(m, c, "");
    EncodeShort(DecodePair(m.hi, After(m, [c]).ucs));
  }

  lemma LowAlone(m: Tok, c: char)
    requires InSecond(m) && m.stPos == 3 && IsHexChar(c) && c != NUL && IsLowSurrogate(After(m, [c]).ucs)
    ensures var p := UnicodeDigit(GivenUp(m), c, "");
      p.Advance? && p.n == 1 && p.t.hi == 0 && |p.t.pb| == |m.pb| + 6 && Top(p.t).state == Top(m).saved
  {
    hide HexDigit, Wf, IsHexChar, Encode, IsLowSurrogate, IsHighSurrogate, DecodePair, Added, UnicodeDigit;
    LastAdded(m, c, "");
    LastAdded(GivenUp(m), c, "");
    LowIsNotHigh(After(m, [c]).ucs);
    EncodeShort(After(m, [c]).ucs);
  }

  /** The last of four digits */
  lemma LastAdded(m: Tok, c: char, rest: string)
    requires m.stPos == 3 && IsHexChar(c) && c != NUL
    ensures var t := Added(m, c);
      && UnicodeDigit(m, c, rest) == FourDigits(t, rest) && After(m, [c]) == t && t.stack == m.stack
      && t.depth == m.depth && t.hi == m.hi && t.pb == m.pb && t.stPos == 4 && Added(GivenUp(m), c).ucs == t.ucs
  {
    hide FourDigits, HexDigit;
    assert [c][1..] == "";
  }

  lemma LowIsNotHigh(u: nat)
    requires IsLowSurrogate(u)
    ensures !IsHighSurrogate(u) && u >= 0x800
  {
  }

  lemma LowDisagrees(m: Tok, c: char)
    requires InSecond(m) && m.stPos == 3 && IsHexChar(c) && c != NUL && IsLowSurrogate(After(m, [c]).ucs)
    ensures !Agree(Run(m, 0, [c]), Run(GivenUp(m), 0, [c]))
  {
    hide Process, Switch, UnicodeDigit, Wf, IsLowSurrogate, After;
    SavedString(m);
    LowPaired(m, c);
    LowAlone(m, c);
    Digit(m, c, "");
    Digit(GivenUp(m), c, "");
    assert [c][1..] == "" && [c] + "" == [c];
    RunOne(m, c, "");
    RunOne(GivenUp(m), c, "");
  }

  /** Whether the first half is still pending, or was given up when the chunk ended: it makes a difference exactly if
      the second half is completed. */
  lemma {:induction false} DigitsAgree(m: Tok, s: string)
    requires InSecond(m) && NulLast(s)
    ensures !Completes(m, s) ==> Agree(Run(m, 0, s), Run(GivenUp(m), 0, s))
    ensures Completes(m, s) ==> !Agree(Run(m, 0, s[..4 - m.stPos]), Run(GivenUp(m), 0, s[..4 - m.stPos]))
    decreases |s|
  {
    hide Process, Switch, Wf, IsHexChar, HexDigit, Shift, IsLowSurrogate, UnicodeDigit, Run;
    var q := GivenUp(m);
    if s == "" {
      NothingMore(m);
    } else if !IsHexChar(s[0]) {
      NoDigit(m, s);
      assert |s| >= 4 - m.stPos ==> s[0] in s[..4 - m.stPos];
    } else if s[0] == NUL {
      assert s == [NUL];
      NulAgrees(m);
      assert |s| >= 4 - m.stPos ==> s[0] in s[..4 - m.stPos];
    } else if m.stPos == 3 {
      LastDigitOf(m, s);
    } else {
      var c, rest, m' := s[0], s[1..], After(m, [s[0]]);
      assert s == [c] + rest && [c][1..] == "";
      OneDigit(m, c, rest);
      OneDigit(q, c, rest);
      StillSecond(m, c);
      assert NulLast(rest);
      DigitsAgree(m', rest);
      CompletesOn(m, c, rest);
      if Completes(m, s) {
        var e := rest[..4 - m'.stPos];
        assert s[..4 - m.stPos] == [c] + e;
        OneDigit(m, c, e);
        OneDigit(q, c, e);
      }
    }
  }

  lemma NothingMore(m: Tok)
    requires InSecond(m)
    ensures Agree(Run(m, 0, ""), Run(GivenUp(m), 0, ""))
  {
    hide Wf;
  }

  lemma StillSecond(m: Tok, c: char)
    requires InSecond(m) && m.stPos < 3
    ensures InSecond(After(m, [c])) && GivenUp(After(m, [c])) == After(GivenUp(m), [c])
  {
    hide HexDigit, Shift;
    assert [c][1..] == "";
    SameWf(m, After(m, [c]));
  }

  lemma SameWf(m: Tok, m': Tok)
    requires AtRest(m) && m'.stack == m.stack && m'.depth == m.depth
    ensures AtRest(m')
  {
  }

  lemma CompletesOn(m: Tok, c: char, rest: string)
    requires m.stPos < 3 && IsHexChar(c) && c != NUL
    ensures Completes(m, [c] + rest) <==> Completes(After(m, [c]), rest)
  {
    hide HexDigit, Shift, IsHexChar, IsLowSurrogate, After, AllHex;
    var n := 4 - m.stPos;
    OneLater(m, c);
    if |rest| + 1 >= n {
      var e := rest[..n-1];
      assert ([c] + rest)[..n] == [c] + e;
      AfterCons(m, c, e);
      AllHexCons(c, e);
    }
  }

  lemma OneLater(m: Tok, c: char)
    ensures After(m, [c]).stPos == m.stPos + 1
  {
  }

  lemma AfterCons(m: Tok, c: char, e: string)
    ensures After(m, [c] + e) == After(After(m, [c]), e)
  {
    hide HexDigit, Shift;
    assert [c][1..] == "" && ([c] + e)[1..] == e && ([c] + e)[0] == c;
  }

  lemma AllHexCons(c: char, e: string)
    requires IsHexChar(c) && c != NUL
    ensures AllHex([c] + e) <==> AllHex(e)
  {
    hide IsHexChar;
    forall x | x in e ensures x in [c] + e {
    }
  }

  lemma LastDigitOf(m: Tok, s: string)
    requires InSecond(m) && m.stPos == 3 && s != "" && IsHexChar(s[0]) && s[0] != NUL
    ensures !Completes(m, s) ==> Agree(Run(m, 0, s), Run(GivenUp(m), 0, s))
    ensures Completes(m, s) ==> !Agree(Run(m, 0, s[..1]), Run(GivenUp(m), 0, s[..1]))
  {
    hide Process, Switch, Wf, IsHexChar, HexDigit, Shift, IsLowSurrogate, UnicodeDigit, Run, After;
    assert s[..1] == [s[0]];
    if IsLowSurrogate(After(m, [s[0]]).ucs) {
      LowDisagrees(m, s[0]);
    } else {
      NotLow(m, s[0], s[1..]);
      Digit(m, s[0], s[1..]);
      Digit(GivenUp(m), s[0], s[1..]);
      SameStep(m, GivenUp(m), s);
    }
  }

  // ---------- the four places of the cut

  /** One chunk and two, from the last digit of the first half on */
  ghost predicate AgreeAt(w: Tok, c: char, tail: string, b: string) {
    Agree(Run(w, 0, [c] + (tail + b)), More(Run(Begin(Run(w, 0, [c] + tail).tok), 0, b), 1 + |tail|))
  }

  ghost predicate Start(w: Tok, c: char) {
    c != NUL && AtHigh(w, c) && AtRest(w) && HiOk(w) && w.err == Success
  }

  /** In the string or name, with the first half replaced */
  lemma ReplacedFacts(w: Tok, c: char)
    requires Start(w, c)
    ensures var p := Code(w, c);
      && (Top(p).saved == String || Top(p).saved == FieldName) && p.hi == 0
      && var s := Replaced(p);
         s.err == Success && s.hi == 0 && s.quote != '\\' && (Top(s).state == String || Top(s).state == FieldName)
  {
    hide Wf, HexDigit, DecodePair, IsLowSurrogate, IsHighSurrogate, IsHexChar;
    SavedString(w);
  }

  function Backslashed(s: Tok): Tok {
    if Top(s).state == String then SetTop(s, Top(s).(state := StringEscape, saved := String))
    else SetTop(s, Top(s).(state := StringEscape, saved := FieldName))
  }

  lemma Backslash(s: Tok, b: string)
    requires (Top(s).state == String || Top(s).state == FieldName) && s.quote != '\\' && s.err == Success && s.hi == 0
    ensures Run(s, 0, "\\" + b) == More(Run(Backslashed(s), 0, b), 1)
    ensures Backslashed(s).hi == 0 && Backslashed(s).err == Success && Top(Backslashed(s)).state == StringEscape
  {
    assert Process(s, Null, '\\', b, 0) == Advance(Backslashed(s), 1);
    hide Process, Run, Backslashed;
    RunOne(s, '\\', b);
    assert b[0..] == b && "\\" + b == ['\\'] + b;
    StringEscapeNow(s);
  }

  lemma StringEscapeNow(s: Tok)
    ensures Top(Backslashed(s)).state == StringEscape
  {
  }

  /** The u: four digits are to come. */
  lemma TheU(e: Tok)
    requires Top(e).state == StringEscape && e.hi == 0
    ensures Run(e, 0, "u").tok.stPos == 0 && Run(e, 0, "u").tok.err == Continue && Run(e, 0, "u").used == 1
  {
    var u := Go(e, EscapeUnicode).(ucs := 0, stPos := 0);
    assert Process(e, Null, 'u', "", 0) == Advance(u, 1);
    assert Top(u).state == EscapeUnicode && Run(u, 0, "") == Outcome(AtEnd(u), 0) && AtEnd(u).stPos == 0
      && AtEnd(u).err == Continue;
    hide Process, Run;
    RunOne(e, 'u', "");
    assert "u" == ['u'] + "";
  }

  lemma EndsThere(s: Tok)
    requires s.err == Success && s.hi == 0
    ensures Run(s, 0, "") == Outcome(AtEnd(s), 0) && Begin(AtEnd(s)) == s
  {
  }

  lemma BehindLast(w: Tok, c: char, b: string)
    requires Start(w, c)
    ensures !("\\u" <= b) ==> AgreeAt(w, c, "", b)
    ensures !AgreeAt(w, c, "", "\\u")
  {
    hide Run, AtHigh, Wf, AtEnd, Begin, Code, Replaced;
    ReplacedFacts(w, c);
    var s := Replaced(Code(w, c));
    assert "" + b == b && "" + "\\u" == "\\u" && [c] + "" == [c];
    BehindHigh(w, c, "");
    BehindHigh(w, c, b);
    BehindHigh(w, c, "\\u");
    EndsThere(s);
    assert "\\u" == "\\" + "u";
    Backslash(s, "u");
    TheU(Backslashed(s));
  }

  lemma BehindBackslash(w: Tok, c: char, b: string)
    requires Start(w, c)
    ensures !("u" <= b) ==> AgreeAt(w, c, "\\", b)
    ensures !AgreeAt(w, c, "\\", "u")
  {
    hide Run, AtHigh, Wf, AtEnd, Begin, Code, Replaced, Backslashed;
    ReplacedFacts(w, c);
    var s := Replaced(Code(w, c));
    var e := Backslashed(s);
    assert "\\" + "" == "\\" && "\\" + "u" == "\\u";
    assert ("\\" + b)[1..] == b && ("\\u" <= "\\" + b ==> ("\\" + b)[1] == 'u' && b[..1] == "u");
    assert "u" <= b ==> b[0] == 'u';
    BehindHigh(w, c, "\\");
    BehindHigh(w, c, "\\" + b);
    BehindHigh(w, c, "\\u");
    Backslash(s, "");
    Backslash(s, b);
    EndsThere(e);
    TheU(e);
  }

  lemma NoDigitHere(m: Tok, s: string)
    requires Top(m).state == EscapeUnicode && m.err == Success && s != "" && !IsHexChar(s[0])
    ensures Run(m, 0, s) == Outcome(m.(err := ErrorString), 0)
  {
    hide Process, Switch, HexDigit, FourDigits, Shift;
    Digit(m, s[0], s[1..]);
  }

  lemma NulHere(m: Tok)
    requires Top(m).state == EscapeUnicode && m.err == Success && m.stPos != 3 && AtRest(m)
    ensures var o := Run(m, 0, [NUL]);
      o.tok.err == ErrorEof && o.tok.stack == m.stack && o.tok.depth == m.depth && o.used == 1
  {
    hide Process, Switch, UnicodeDigit, Wf;
    SavedString(m);
    DigitValue(m, NUL, "");
    Digit(m, NUL, "");
    SameStack(m, NUL);
    assert [NUL][1..] == "";
  }

  lemma DigitHere(m: Tok, d: char)
    requires Top(m).state == EscapeUnicode && m.err == Success && m.stPos != 3 && IsHexChar(d) && d != NUL
    ensures var o := Run(m, 0, [d]); o.tok.err == Continue && o.tok.stPos == m.stPos + 1
  {
    hide IsHexChar;
    OneDigit(m, d, "");
    SameStack(m, d);
    OneLater(m, d);
    assert [d] + "" == [d];
    var r := After(m, [d]);
    assert Run(r, 0, "") == Outcome(AtEnd(r), 0);
  }

  /** Where the second half has begun, with the first half pending, and given up */
  lemma SecondBegins(w: Tok, c: char)
    requires Start(w, c)
    ensures var p := Code(w, c);
      var m, q := p.(hi := p.ucs, ucs := 0, stPos := 0), p.(pb := p.pb + REPLACEMENT);
      && InSecond(m) && m.ucs == 0 && m.stPos == 0 && Top(q).state == EscapeUnicode && q.err == Success && q.stPos == 4
      && AtRest(q) && q.stack == m.stack && q.depth == m.depth
      && Begin(p.(pb := p.pb + REPLACEMENT, err := Continue)) == q
      && Run(q, 0, "") == Outcome(p.(pb := p.pb + REPLACEMENT, err := Continue), 0)
  {
    LastOfHigh(w, c, "");
    hide Wf, HexDigit, DecodePair, IsLowSurrogate, IsHighSurrogate, IsHexChar;
    var p := Code(w, c);
    SameWf(w, p);
    SameWf(w, p.(pb := p.pb + REPLACEMENT));
    SameWf(w, p.(hi := p.ucs, ucs := 0, stPos := 0));
  }

  lemma BehindU(w: Tok, c: char, b: string)
    requires Start(w, c) && NulLast(b)
    ensures b == "" || !IsHexChar(b[0]) || b[0] == NUL ==> AgreeAt(w, c, "\\u", b)
    ensures b != "" && IsHexChar(b[0]) && b[0] != NUL ==> !AgreeAt(w, c, "\\u", b[..1])
  {
    hide Run, AtHigh, Wf, AtEnd, Begin, Code, IsHexChar, InSecond;
    SecondBegins(w, c);
    var p := Code(w, c);
    var m, q := p.(hi := p.ucs, ucs := 0, stPos := 0), p.(pb := p.pb + REPLACEMENT);
    assert "\\u" + "" == "\\u" && ("\\u" + b)[2..] == b
      && ("\\u" + b[..if b == "" then 0 else 1])[2..] == b[..if b == "" then 0 else 1];
    BehindHigh(w, c, "\\u");
    BehindHigh(w, c, "\\u" + b);
    if b != "" {
      SecondState(m);
      assert b[..1] == [b[0]];
      BehindHigh(w, c, "\\u" + b[..1]);
      if !IsHexChar(b[0]) {
        NoDigitHere(m, b);
        NoDigitHere(q, b);
      } else if b[0] == NUL {
        assert b == [NUL];
        NulHere(m);
        NulHere(q);
      } else {
        DigitHere(m, b[0]);
        DigitHere(q, b[0]);
      }
    }
  }

  lemma SecondState(m: Tok)
    requires InSecond(m)
    ensures Top(m).state == EscapeUnicode && m.err == Success && AtRest(m) && m.hi != 0
  {
    hide Wf;
  }

  /** Some digits of the second half are in the first chunk. */
  lemma BehindDigits(w: Tok, c: char, e: string, b: string)
    requires Start(w, c) && NulLast(b) && 0 < |e| < 4 && AllHex(e)
    ensures var n := 4 - |e|;
      var low := |b| >= n && AllHex(b[..n]) && IsLowSurrogate(U.HexValue(e + b[..n]));
      (!low ==> AgreeAt(w, c, "\\u" + e, b)) && (low ==> !AgreeAt(w, c, "\\u" + e, b[..n]))
  {
    hide Run, AtHigh, Wf, AtEnd, Begin, Code, IsHexChar, InSecond, AllHex, IsLowSurrogate, Agree;
    SecondBegins(w, c);
    var p := Code(w, c);
    var m := p.(hi := p.ucs, ucs := 0, stPos := 0);
    SecondState(m);
    DigitsRead(w, c, e, b);
    var n := 4 - |e|;
    if |b| >= n {
      DigitsRead(w, c, e, b[..n]);
      HexIsAfter(m, e, b[..n]);
    }
    InSecondAfter(m, e);
    DigitsAgree(After(m, e), b);
    AgreeMore(Run(After(m, e), 0, b), Run(GivenUp(After(m, e)), 0, b), 3 + |e|);
    if |b| >= n { AgreeMore(Run(After(m, e), 0, b[..n]), Run(GivenUp(After(m, e)), 0, b[..n]), 3 + |e|); }
  }

  lemma AgreeMore(o: Outcome, p: Outcome, n: nat)
    ensures Agree(More(o, n), More(p, n)) <==> Agree(o, p)
  {
  }

  /** One chunk reads on with the first half pending, two with it given up. */
  lemma DigitsRead(w: Tok, c: char, e: string, b: string)
    requires Start(w, c) && 0 < |e| < 4 && AllHex(e)
    ensures var p := Code(w, c);
      var m := After(p.(hi := p.ucs, ucs := 0, stPos := 0), e);
      && Run(w, 0, [c] + (("\\u" + e) + b)) == More(Run(m, 0, b), 3 + |e|)
      && Run(Begin(Run(w, 0, [c] + ("\\u" + e)).tok), 0, b) == Run(GivenUp(m), 0, b)
  {
    hide Run, AtHigh, Wf, AtEnd, Begin, Code, IsHexChar, InSecond, AllHex;
    SecondBegins(w, c);
    var p := Code(w, c);
    var m0 := p.(hi := p.ucs, ucs := 0, stPos := 0);
    SecondState(m0);
    var m := After(m0, e);
    assert ("\\u" + e)[2..] == e && (("\\u" + e) + b)[2..] == e + b && e + "" == e;
    BehindHigh(w, c, "\\u" + e);
    BehindHigh(w, c, ("\\u" + e) + b);
    ReadDigits(m0, e, b);
    ReadDigits(m0, e, "");
    GivesUp(m);
  }

  lemma GivesUp(m: Tok)
    requires m.err == Success && m.hi != 0
    ensures Run(m, 0, "") == Outcome(AtEnd(m), 0) && Begin(AtEnd(m)) == GivenUp(m)
  {
  }

  lemma {:induction false} InSecondAfter(m: Tok, e: string)
    requires InSecond(m) && AllHex(e) && m.stPos + |e| < 4
    ensures InSecond(After(m, e))
    decreases |e|
  {
    hide Wf, IsHexChar;
    SameWf(m, After(m, e));
  }

  /** The number that four digits add up to */
  lemma HexIsAfter(m: Tok, e: string, f: string)
    requires m.ucs == 0 && m.stPos == 0 && |e| + |f| == 4 && AllHex(e)
    ensures AllHex(f) ==> After(After(m, e), f).ucs == U.HexValue(e + f)
  {
    hide IsHexChar, HexDigit;
    AfterConcat(m, e, f);
    if AllHex(f) {
      AllHexConcat(e, f);
      HexSum(m, e + f);
    }
  }

  lemma AllHexConcat(e: string, f: string)
    requires AllHex(e) && AllHex(f)
    ensures AllHex(e + f)
  {
    hide IsHexChar;
  }

  lemma {:induction false} AfterConcat(m: Tok, e: string, f: string)
    ensures After(m, e + f) == After(After(m, e), f)
    decreases |e|
  {
    hide Added;
    if e == "" {
      assert e + f == f;
    } else {
      assert (e + f)[0] == e[0] && (e + f)[1..] == e[1..] + f;
      AfterConcat(Added(m, e[0]), e[1..], f);
    }
  }

  lemma HexSum(m: Tok, d: string)
    requires m.ucs == 0 && m.stPos == 0 && |d| == 4 && AllHex(d)
    ensures After(m, d).ucs == U.HexValue(d)
  {
    hide IsHexChar, HexDigit, Added;
    assert U.IsHex(d);
    U.DigitsAreValue(d);
    assert d == [d[0], d[1], d[2], d[3]];
    FourAfter(m, d[0], d[1], d[2], d[3]);
    AddedUcs(m, d[0]);
    AddedUcs(Added(m, d[0]), d[1]);
    AddedUcs(Added(Added(m, d[0]), d[1]), d[2]);
    AddedUcs(Added(Added(Added(m, d[0]), d[1]), d[2]), d[3]);
  }

  lemma AddedUcs(m: Tok, c: char)
    requires m.stPos < 4 && m.ucs < 0x10000 && HexDigit(c) < 16
    ensures var shift := Shift(m.stPos);
      Added(m, c).ucs == m.ucs + HexDigit(c) * shift
    ensures Added(m, c).stPos == m.stPos + 1
  {
    hide HexDigit;
  }

  lemma FourAfter(m: Tok, a: char, b: char, c: char, d: char)
    ensures After(m, [a, b, c, d]) == Added(Added(Added(Added(m, a), b), c), d)
  {
    hide Added;
    assert [a, b, c, d][1..] == [b, c, d] && [b, c, d][1..] == [c, d] && [c, d][1..] == [d] && [d][1..] == "";
    assert After(Added(Added(Added(m, a), b), c), [d]) == Added(Added(Added(Added(m, a), b), c), d);
    assert After(Added(Added(m, a), b), [c, d]) == After(Added(Added(Added(m, a), b), c), [d]);
    assert After(Added(m, a), [b, c, d]) == After(Added(Added(m, a), b), [c, d]);
  }

  // ---------- the exact condition

  /** Where a cut can make a difference: the least of b that shows it */
  function Telling(tail: string, b: string): (n: nat)
    requires Within(tail)
    ensures Splits(tail, b) ==> n <= |b|
  {
    if tail == "" then 2 else if tail == "\\" || tail == "\\u" then 1 else 4 - |tail[2..]|
  }

  lemma Tails(tail: string)
    requires Within(tail)
    ensures tail == "" || tail == "\\" || tail == "\\u"
      || (tail == "\\u" + tail[2..] && 0 < |tail[2..]| < 4 && AllHex(tail[2..]))
  {
    if tail <= "\\u" && |tail| == 1 { assert tail == "\\u"[..1]; }
  }

  lemma PairAt(w: Tok, c: char, tail: string, b: string)
    requires Start(w, c) && Within(tail) && NulLast(b)
    ensures !Splits(tail, b) ==> AgreeAt(w, c, tail, b)
    ensures Splits(tail, b) ==> !AgreeAt(w, c, tail, b[..Telling(tail, b)])
  {
    hide AgreeAt, AllHex, IsHexChar, IsLowSurrogate, Start;
    Tails(tail);
    if tail == "" {
      BehindLast(w, c, b);
      if "\\u" <= b { assert b[..2] == "\\u"; }
    } else if tail == "\\" {
      BehindBackslash(w, c, b);
      if "u" <= b { assert b[..1] == "u"; }
    } else if tail == "\\u" {
      BehindU(w, c, b);
    } else {
      BehindDigits(w, c, tail[2..], b);
    }
  }

  /** Less of b splits the pair only if b does. */
  lemma SplitsPrefix(tail: string, b: string, n: nat)
    requires Within(tail) && n <= |b| && Splits(tail, b[..n])
    ensures Splits(tail, b)
  {
    hide IsHexChar, IsLowSurrogate;
    Tails(tail);
    if tail != "" && tail != "\\" && tail != "\\u" {
      var k := 4 - |tail[2..]|;
      assert b[..n][..k] == b[..k];
    }
  }

  lemma AgreeAtParse(t: Tok, a: string, x: string, w: Tok, c: char, tail: string, b: string)
    requires HighEnd(Begin(t), 0, a, x, w, c, tail)
    ensures Agree(Parse(t, a + b), More(Parse(Parse(t, a).tok, b), |a|)) <==> AgreeAt(w, c, tail, b)
  {
    hide Run, Begin, AtHigh, Wf, Within;
    assert a + "" == a && tail + "" == tail;
    assert Run(Begin(t), 0, a + b) == More(Run(w, 0, [c] + (tail + b)), |x|);
    assert Run(Begin(t), 0, a + "") == More(Run(w, 0, [c] + (tail + "")), |x|);
    AgreeMore(Run(w, 0, [c] + (tail + b)), More(Run(Begin(Run(w, 0, [c] + tail).tok), 0, b), 1 + |tail|), |x|);
  }

  lemma PairExactly(t: Tok, a: string, b: string, x: string, w: Tok, c: char, tail: string)
    requires HighEnd(Begin(t), 0, a, x, w, c, tail) && NulLast(b)
    ensures AgreesThrough(t, a, b) <==> !Splits(tail, b)
  {
    hide AtHigh, Wf, Run, Parse, Agree, AgreeAt, Begin, Splits;
    if Splits(tail, b) {
      var n := Telling(tail, b);
      PairAt(w, c, tail, b);
      AgreeAtParse(t, a, x, w, c, tail, b[..n]);
    } else {
      forall n | 0 <= n <= |b| ensures Agree(Parse(t, a + b[..n]), More(Parse(Parse(t, a).tok, b[..n]), |a|)) {
        if Splits(tail, b[..n]) { SplitsPrefix(tail, b, n); }
        assert NulLast(b[..n]);
        PairAt(w, c, tail, b[..n]);
        AgreeAtParse(t, a, x, w, c, tail, b[..n]);
      }
    }
  }

  /** When a chunk asks for more, and the cut behind it does not touch -Infinity, it makes no difference whether the
      input comes in one chunk or two, however much of the second has come, unless the cut is between the last digit of
      the first half of a pair of escapes and the last digit of the second, and the second chunk goes on with the second
      half: and then it does. */
  lemma ChunksExactly(t: Tok, a: string, b: string)
    requires AtRest(t) && t.quote != '\\' && Parse(t, a).tok.err == Continue && !CutsInfinity(t, a, b) && NulLast(b)
    ensures AgreesThrough(t, a, b) <==> !SplitsPair(t, a, b)
  {
    hide Wf, Parse, Agree, CutsInfinity, Run, Begin, HighEnd, Splits, AgreesThrough;
    if EndsInPair(Begin(t), 0, a) {
      var x, w, c, tail :| HighEnd(Begin(t), 0, a, x, w, c, tail);
      PairExactly(t, a, b, x, w, c, tail);
      if SplitsPair(t, a, b) {
        var x', w', c', tail' := Splitting(t, a, b);
        PairExactly(t, a, b, x', w', c', tail');
      } else {
        assert !Splits(tail, b) by { NotSplit(t, a, b, x, w, c, tail); }
      }
    } else {
      NoPair(t, a, b);
      NeverSplit(t, a, b);
    }
  }

  lemma Splitting(t: Tok, a: string, b: string) returns (x: string, w: Tok, c: char, tail: string)
    requires SplitsPair(t, a, b)
    ensures HighEnd(Begin(t), 0, a, x, w, c, tail) && Within(tail) && Splits(tail, b)
  {
    x, w, c, tail :| HighEnd(Begin(t), 0, a, x, w, c, tail) && Splits(tail, b);
  }

  lemma NotSplit(t: Tok, a: string, b: string, x: string, w: Tok, c: char, tail: string)
    requires HighEnd(Begin(t), 0, a, x, w, c, tail) && !SplitsPair(t, a, b)
    ensures Within(tail) && !Splits(tail, b)
  {
    hide Run, Begin, AtHigh, Wf, Within, Splits;
  }

  lemma NeverSplit(t: Tok, a: string, b: string)
    requires !EndsInPair(Begin(t), 0, a)
    ensures !SplitsPair(t, a, b)
  {
    hide HighEnd, Splits, Begin;
  }

  lemma NoPair(t: Tok, a: string, b: string)
    requires AtRest(t) && t.quote != '\\' && Parse(t, a).tok.err == Continue && !CutsInfinity(t, a, b)
      && !EndsInPair(Begin(t), 0, a)
    ensures AgreesThrough(t, a, b)
  {
    hide Wf, Run, Begin, EndsInPair, OpenNumber;
    forall n | 0 <= n <= |b| ensures Agree(Parse(t, a + b[..n]), More(Parse(Parse(t, a).tok, b[..n]), |a|)) {
      if CutsInfinity(t, a, b[..n]) { InfinityPrefix(t, a, b, n); }
      ChunksDoNotMatter(t, a, b[..n]);
    }
  }

  lemma InfinityPrefix(t: Tok, a: string, b: string, n: nat)
    requires n <= |b| && CutsInfinity(t, a, b[..n])
    ensures CutsInfinity(t, a, b)
  {
    hide Run, Begin, OpenNumber, Parse;
  }
}
