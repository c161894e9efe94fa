/** The escapes \uXXXX of json-c/json_tokener.c, alone and in pairs. */
module JsonUnicode {
  import opened JsonValue
  import opened JsonTokener
  import Utf8

  predicate IsHex(s: string) {
    |s| == 4 && forall c :: c in s ==> IsHexChar(c) && c != NUL
  }

  /** The value of a hexadecimal digit */
  function Nibble(c: char): nat {
    if '0' <= c <= '9' then c as nat - '0' as nat
    else if 'a' <= c <= 'f' then 10 + (c as nat - 'a' as nat)
    else if 'A' <= c <= 'F' then 10 + (c as nat - 'A' as nat)
    else 0
  }

  /** The number that four hexadecimal digits stand for. */
  function HexValue(s: string): nat
    requires |s| == 4
  {
    ((Nibble(s[0]) * 16 + Nibble(s[1])) * 16 + Nibble(s[2])) * 16 + Nibble(s[3])
  }

  lemma HexDigitIsNibble(c: char)
    requires IsHexChar(c) && c != NUL
    ensures HexDigit(c) == Nibble(c) < 16
  {
  }

  /** The sum of the four digits is the number. */
  lemma DigitsAreValue(d: string)
    requires IsHex(d)
    ensures HexDigit(d[0]) < 16 && HexDigit(d[1]) < 16 && HexDigit(d[2]) < 16 && HexDigit(d[3]) < 16
    ensures HexDigit(d[0]) * 0x1000 + HexDigit(d[1]) * 0x100 + HexDigit(d[2]) * 0x10 + HexDigit(d[3]) == HexValue(d)
    ensures HexValue(d) < 0x10000
  {
    hide HexDigit, Nibble, IsHexChar;
    HexDigitIsNibble(d[0]);
    HexDigitIsNibble(d[1]);
    HexDigitIsNibble(d[2]);
    HexDigitIsNibble(d[3]);
  }

  /** One step of the main loop. */
  lemma Step(t: Tok, len: nat, c: char, rest: string, t': Tok, n: nat)
    requires c != NUL && 0 < n <= 1 + |rest| && Switch(t, Null, c, rest, len) == Advance(t', n)
    ensures Run(t, len, [c] + rest) == More(Run(t', NumberLength(t', len), rest[n-1..]), n)
  {
    hide Switch;
    assert Process(t, Null, c, rest, len) == Advance(t', n);
    hide Process;
    assert ([c] + rest)[0] == c && ([c] + rest)[1..] == rest && ([c] + rest)[n..] == rest[n-1..];
  }

  lemma DigitSwitch(t: Tok, c: char, rest: string)
    requires Top(t).state == EscapeUnicode && t.stPos < 3 && IsHexChar(c) && c != NUL && t.ucs < 0x10000
    ensures Switch(t, Null, c, rest, 0)
        == Advance(t.(ucs := t.ucs + HexDigit(c) * Shift(t.stPos), stPos := t.stPos + 1), 1)
  {
    hide FourDigits, NulDigits, Process, Run, HexDigit;
    HexDigitIsNibble(c);
  }

  /** One of the first three digits */
  lemma DigitStep(t: Tok, c: char, rest: string)
    requires Top(t).state == EscapeUnicode && t.stPos < 3 && IsHexChar(c) && c != NUL && t.ucs < 0x10000
    ensures var t' := t.(ucs := t.ucs + HexDigit(c) * Shift(t.stPos), stPos := t.stPos + 1);
      Switch(t, Null, c, rest, 0) == Advance(t', 1) && Run(t, 0, [c] + rest) == More(Run(t', 0, rest), 1)
  {
    hide Run, HexDigit, IsHexChar, Switch;
    DigitSwitch(t, c, rest);
    Step(t, 0, c, rest, t.(ucs := t.ucs + HexDigit(c) * Shift(t.stPos), stPos := t.stPos + 1), 1);
    assert rest[0..] == rest;
  }

  /** Before the last digit */
  function ThreeDigits(t: Tok, d: string): Tok
    requires |d| == 4
  {
    t.(ucs := HexDigit(d[0]) * 0x1000 + HexDigit(d[1]) * 0x100 + HexDigit(d[2]) * 0x10, stPos := 3)
  }

  lemma FirstDigits(t: Tok, d: string, rest: string)
    requires Top(t).state == EscapeUnicode && t.stPos == 0 && t.ucs == 0 && IsHex(d)
    ensures Run(t, 0, d + rest) == More(Run(ThreeDigits(t, d), 0, [d[3]] + rest), 3)
  {
    hide Run, Switch, HexDigit, IsHexChar;
    var t1 := t.(ucs := HexDigit(d[0]) * 0x1000, stPos := 1);
    var t2 := t.(ucs := HexDigit(d[0]) * 0x1000 + HexDigit(d[1]) * 0x100, stPos := 2);
    DigitsAreValue(d);
    assert d + rest == [d[0]] + ([d[1]] + ([d[2]] + ([d[3]] + rest)));
    DigitStep(t, d[0], [d[1]] + ([d[2]] + ([d[3]] + rest)));
    DigitStep(t1, d[1], [d[2]] + ([d[3]] + rest));
    DigitStep(t2, d[2], [d[3]] + rest);
  }

  lemma LastDigit(t: Tok, d: string, rest: string)
    requires Top(t).state == EscapeUnicode && IsHex(d)
    ensures HexValue(d) < 0x10000
    ensures Switch(ThreeDigits(t, d), Null, d[3], rest, 0) == FourDigits(t.(ucs := HexValue(d), stPos := 4), rest)
  {
    hide FourDigits, HexDigit, HexValue;
    DigitsAreValue(d);
    assert d[3] in d;
  }

  /** Four digits that do not begin a pair. */
  lemma FourAlone(t: Tok, d: string, rest: string, t': Tok)
    requires Top(t).state == EscapeUnicode && t.stPos == 0 && t.ucs == 0 && IsHex(d)
    requires FourDigits(t.(ucs := HexValue(d), stPos := 4), rest) == Advance(t', 1) && Top(t').state != Number
    ensures Run(t, 0, d + rest) == More(Run(t', 0, rest), 4)
  {
    hide Run, Switch, FourDigits, HexDigit;
    FirstDigits(t, d, rest);
    LastDigit(t, d, rest);
    assert d[3] in d;
    Step(ThreeDigits(t, d), 0, d[3], rest, t', 1);
    assert rest[0..] == rest;
  }

  /** The state within an escape */
  ghost predicate InEscape(t: Tok) {
    Top(t).state == EscapeUnicode && t.stPos == 0 && t.ucs == 0 && t.hi == 0
    && (Top(t).saved == String || Top(t).saved == FieldName)
  }

  /** The check for surrogates looks at the last sixteen bits of a character only. */
  predicate LooksHigh(u: nat) {
    0xD800 <= u % 0x10000 < 0xDC00
  }

  predicate LooksLow(u: nat) {
    0xDC00 <= u % 0x10000 < 0xE000
  }

  lemma LooksLikeSurrogate(u: nat)
    ensures (IsHighSurrogate(u) <==> LooksHigh(u)) && (IsLowSurrogate(u) <==> LooksLow(u))
  {
    var a, b := u / 0x10000, u % 0x10000;
    assert u / 0x400 == a * 0x40 + b / 0x400;
    assert u / 0x400 % 0x40 == b / 0x400;
  }

  /** The character that a code is read as: U+FFFD replaces what looks like a surrogate. */
  function ReadAs(u: nat): nat {
    if LooksHigh(u) || LooksLow(u) then 0xFFFD else u
  }

  /** What is written for a code is the UTF-8 of the character that it is read as. */
  lemma Written(u: nat)
    requires u < 0x110000
    ensures Utf8.Stands(Encode(u), ReadAs(u))
  {
    hide Utf8.Gathered, Utf8.WellFormed, Utf8.FirstBits, LooksHigh, LooksLow;
    LooksLikeSurrogate(u);
    ReplacementStands();
    if u < 0x800 {
      ShortStands(u);
    } else if ReadAs(u) == u {
      if u < 0x10000 { ThreeStand(u); } else { FourStand(u); }
    }
  }

  lemma ReplacementStands()
    ensures Utf8.Stands(REPLACEMENT, 0xFFFD)
  {
    hide Utf8.Gathered;
    Utf8.Number(REPLACEMENT);
  }

  lemma ShortStands(u: nat)
    requires u < 0x800
    ensures !LooksHigh(u) && !LooksLow(u) && Utf8.Stands(if u < 0x80 then [u as char] else Utf8Two(u), u)
  {
    hide Utf8.Gathered;
    Utf8.Number(if u < 0x80 then [u as char] else Utf8Two(u));
  }

  lemma ThreeStand(u: nat)
    requires 0x800 <= u < 0x10000 && !LooksHigh(u) && !LooksLow(u)
    ensures Utf8.Stands(Utf8Three(u), u)
  {
    hide Utf8.Gathered;
    Utf8.Number(Utf8Three(u));
  }

  lemma FourStand(u: nat)
    requires 0x10000 <= u < 0x110000
    ensures Utf8.Stands(Utf8Four(u), u)
  {
    hide Utf8.Gathered;
    Utf8.Number(Utf8Four(u));
  }

  /** Behind an escape with the code u */
  function Behind(t: Tok, u: nat, text: string): Tok {
    Go(t, Top(t).saved).(ucs := u, stPos := 4, hi := 0, pb := t.pb + text)
  }

  lemma CodeEnds(t: Tok, u: nat, rest: string)
    requires InEscape(t) && u < 0x10000 && !(0xD800 <= u < 0xDC00 && "\\u" <= rest)
    ensures FourDigits(t.(ucs := u, stPos := 4), rest) == Advance(Behind(t, u, Encode(u)), 1)
  {
    hide LooksHigh, LooksLow, IsHighSurrogate, IsLowSurrogate, Utf8Three, Utf8Two;
    LooksLikeSurrogate(u);
    SmallLooks(u);
    if |rest| >= 2 && rest[0] == '\\' && rest[1] == 'u' { assert rest[..2] == "\\u"; }
  }

  lemma SmallLooks(u: nat)
    requires u < 0x10000
    ensures (LooksHigh(u) <==> 0xD800 <= u < 0xDC00) && (LooksLow(u) <==> 0xDC00 <= u < 0xE000)
  {
  }

  /** One escape, unless it is the first half of a pair with another escape behind it: it is read as the UTF-8 of its
      character, or as that of U+FFFD if it is half of a pair. */
  lemma CodeRead(t: Tok, d: string, rest: string) returns (text: string)
    requires InEscape(t) && IsHex(d) && !(0xD800 <= HexValue(d) < 0xDC00 && "\\u" <= rest)
    ensures Utf8.Stands(text, if 0xD800 <= HexValue(d) < 0xE000 then 0xFFFD else HexValue(d))
    ensures Run(t, 0, d + rest) == More(Run(Behind(t, HexValue(d), text), 0, rest), 4)
  {
    hide Run, Switch, FourDigits, HexDigit, Encode, HexValue, LooksHigh, LooksLow, Utf8.Stands;
    LastDigit(t, d, rest);
    SmallLooks(HexValue(d));
    CodeEnds(t, HexValue(d), rest);
    text := Encode(HexValue(d));
    Written(HexValue(d));
    FourAlone(t, d, rest, Behind(t, HexValue(d), text));
  }

  /** Four digits with another escape behind them, which they wait for. */
  lemma FourWait(t: Tok, d: string, rest: string, t': Tok)
    requires Top(t).state == EscapeUnicode && t.stPos == 0 && t.ucs == 0 && IsHex(d)
    requires FourDigits(t.(ucs := HexValue(d), stPos := 4), "\\u" + rest) == Advance(t', 3) && Top(t').state != Number
    ensures Run(t, 0, d + ("\\u" + rest)) == More(Run(t', 0, rest), 6)
  {
    hide Run, Switch, FourDigits, HexDigit;
    FirstDigits(t, d, "\\u" + rest);
    LastDigit(t, d, "\\u" + rest);
    assert d[3] in d;
    Step(ThreeDigits(t, d), 0, d[3], "\\u" + rest, t', 3);
    assert ("\\u" + rest)[2..] == rest;
  }

  /** Four digits with the beginning of another escape behind them, where the input ends */
  lemma FourStop(t: Tok, d: string, t': Tok)
    requires Top(t).state == EscapeUnicode && t.stPos == 0 && t.ucs == 0 && IsHex(d)
    requires FourDigits(t.(ucs := HexValue(d), stPos := 4), "\\u") == Out(t', 3)
      && t'.err == Continue && Top(t').state == EscapeUnicode
    ensures var o := Run(t, 0, d + "\\u"); o.tok == t' && o.used == 6
  {
    hide Switch, FourDigits, HexDigit, Run;
    FirstDigits(t, d, "\\u");
    LastDigit(t, d, "\\u");
    assert d[3] in d;
    StepOut(ThreeDigits(t, d), d[3], "\\u", t', 3);
  }

  lemma StepOut(t: Tok, c: char, rest: string, t': Tok, n: nat)
    requires c != NUL && Switch(t, Null, c, rest, 0) == Out(t', n) && Top(t').state != Finish
    ensures Run(t, 0, [c] + rest) == Outcome(t', n)
  {
    hide Switch;
    assert Process(t, Null, c, rest, 0) == Out(t', n);
    hide Process;
    assert ([c] + rest)[0] == c && ([c] + rest)[1..] == rest;
  }

  /** Within an escape, a high surrogate followed by another escape waits for it. */
  lemma HighRead(t: Tok, d: string, rest: string)
    requires InEscape(t) && IsHex(d) && IsHighSurrogate(HexValue(d)) && rest != ""
    ensures Run(t, 0, d + ("\\u" + rest)) == More(Run(t.(hi := HexValue(d)), 0, rest), 6)
  {
    hide Run, Switch, HexValue, HexDigit;
    LastDigit(t, d, "");
    HighWaits(t, HexValue(d), rest);
    FourWait(t, d, rest, t.(hi := HexValue(d)));
  }

  lemma HighWaits(t: Tok, h: nat, rest: string)
    requires InEscape(t) && h < 0x10000 && IsHighSurrogate(h) && rest != ""
    ensures FourDigits(t.(ucs := h, stPos := 4), "\\u" + rest) == Advance(t.(hi := h), 3)
  {
  }

  lemma PairIsCode(h: nat, l: nat)
    ensures 0x10000 <= DecodePair(h, l) < 0x110000
  {
  }

  /** The number of the character whose halves are h and l (RFC 8259, section 7) */
  function Joined(h: nat, l: nat): nat
    requires 0xD800 <= h < 0xDC00 && 0xDC00 <= l < 0xE000
  {
    0x10000 + (h - 0xD800) * 0x400 + (l - 0xDC00)
  }

  lemma PairIsJoined(h: nat, l: nat)
    requires 0xD800 <= h < 0xDC00 && 0xDC00 <= l < 0xE000
    ensures DecodePair(h, l) == Joined(h, l)
  {
  }

  /** The end of the second half, with rest behind it */
  lemma PairEnds(t: Tok, h: nat, l: nat, rest: string)
    requires InEscape(t) && h > 0 && 0xDC00 <= l < 0xE000
    ensures DecodePair(h, l) < 0x110000
    ensures var u, o := DecodePair(h, l), FourDigits(t.(hi := h, ucs := l, stPos := 4), rest);
      && (!(LooksHigh(u) && "\\u" <= rest) ==> o == Advance(Behind(t, u, Encode(u)), 1))
      && (LooksHigh(u) && "\\u" <= rest && |rest| > 2 ==> o == Advance(t.(hi := u), 3))
      && (LooksHigh(u) && rest == "\\u" ==>
            o == Out(t.(ucs := u, stPos := 4, pb := t.pb + Encode(u), err := Continue), 3))
  {
    hide LooksHigh, LooksLow, IsHighSurrogate, DecodePair, Utf8Four, Utf8Three, Utf8Two;
    var u := DecodePair(h, l);
    PairIsCode(h, l);
    LooksLikeSurrogate(u);
    assert IsLowSurrogate(l);
    if "\\u" <= rest { assert rest[..2] == "\\u" && rest[0] == '\\' && rest[1] == 'u'; }
    if |rest| >= 2 && rest[0] == '\\' && rest[1] == 'u' { assert rest[..2] == "\\u"; }
  }

  /** A low half is read while h is pending. If the character looks like a high surrogate and another escape is behind
      it, it becomes pending itself. */
  lemma SecondRead(t: Tok, h: nat, lo: string, rest: string) returns (text: string)
    requires InEscape(t) && h > 0 && IsHex(lo) && 0xDC00 <= HexValue(lo) < 0xE000
    ensures Utf8.Stands(text, ReadAs(DecodePair(h, HexValue(lo))))
    ensures var u, o := DecodePair(h, HexValue(lo)), Run(t.(hi := h), 0, lo + rest);
      && (!(LooksHigh(u) && "\\u" <= rest) ==> o == More(Run(Behind(t, u, text), 0, rest), 4))
      && (LooksHigh(u) && "\\u" <= rest && |rest| > 2 ==> o == More(Run(t.(hi := u), 0, rest[2..]), 6))
      && (LooksHigh(u) && rest == "\\u" ==> o.tok.err == Continue && o.tok.pb == t.pb + text)
  {
    hide Run, Switch, FourDigits, HexDigit, HexValue, Encode, DecodePair, IsHighSurrogate, IsLowSurrogate, LooksHigh,
      LooksLow, ReadAs, Utf8.Stands;
    var u, p := DecodePair(h, HexValue(lo)), t.(hi := h);
    PairEnds(t, h, HexValue(lo), rest);
    text := Encode(u);
    Written(u);
    if !(LooksHigh(u) && "\\u" <= rest) {
      FourAlone(p, lo, rest, Behind(t, u, text));
    } else if rest == "\\u" {
      FourStop(p, lo, t.(ucs := u, stPos := 4, pb := t.pb + text, err := Continue));
    } else {
      assert rest == "\\u" + rest[2..];
      FourWait(p, lo, rest[2..], t.(hi := u));
    }
  }

  /** Two escapes that are the halves of a pair, whatever comes behind them: they are read as the UTF-8 of the character
      they stand for, if and only if its last sixteen bits do not look like a surrogate. If they do, the character is
      replaced, or, if they look like a high one and another escape follows, joined with that. */
  lemma PairRead(t: Tok, hi: string, lo: string, rest: string) returns (text: string)
    requires InEscape(t) && IsHex(hi) && IsHex(lo) && 0xD800 <= HexValue(hi) < 0xDC00 && 0xDC00 <= HexValue(lo) < 0xE000
    ensures var u := Joined(HexValue(hi), HexValue(lo));
      Utf8.Stands(text, if LooksHigh(u) || LooksLow(u) then 0xFFFD else u)
    ensures var u, o := Joined(HexValue(hi), HexValue(lo)), Run(t, 0, hi + ("\\u" + (lo + rest)));
      && (!(LooksHigh(u) && "\\u" <= rest) ==> o == More(Run(Behind(t, u, text), 0, rest), 10))
      && (LooksHigh(u) && "\\u" <= rest && |rest| > 2 ==> o == More(Run(t.(hi := u), 0, rest[2..]), 12))
      && (LooksHigh(u) && rest == "\\u" ==> o.tok.err == Continue && o.tok.pb == t.pb + text)
  {
    hide Run, Switch, HexDigit, HexValue, Encode, DecodePair, IsHighSurrogate, IsLowSurrogate, LooksHigh, LooksLow,
      Utf8.Stands, Joined;
    var h := HexValue(hi);
    HighLooks(h);
    PairIsJoined(h, HexValue(lo));
    HighRead(t, hi, lo + rest);
    text := SecondRead(t, h, lo, rest);
  }

  /** A first half with another escape behind it that is no second half: the first is replaced, and the other is read
      as if it came alone. */
  lemma BrokenPair(t: Tok, hi: string, d: string, rest: string) returns (text: string)
    requires InEscape(t) && IsHex(hi) && IsHex(d) && 0xD800 <= HexValue(hi) < 0xDC00
      && !(0xDC00 <= HexValue(d) < 0xE000)
    ensures Utf8.Stands(text, 0xFFFD)
    ensures Run(t, 0, hi + ("\\u" + (d + rest))) == More(Run(t.(pb := t.pb + text), 0, d + rest), 6)
  {
    hide Run, Switch, Process, HexDigit, HexValue, IsHighSurrogate, FourDigits, Utf8.Stands;
    var h := HexValue(hi);
    text := REPLACEMENT;
    ReplacementStands();
    HighLooks(h);
    HighRead(t, hi, d + rest);
    var p, q := t.(hi := h), t.(pb := t.pb + text);
    FirstDigits(p, d, rest);
    FirstDigits(q, d, rest);
    LastDigit(p, d, rest);
    LastDigit(q, d, rest);
    GivenUpHigh(t, h, HexValue(d), rest);
    assert d[3] in d;
    SameSwitch(ThreeDigits(p, d), ThreeDigits(q, d), d[3], rest);
  }

  lemma GivenUpHigh(t: Tok, h: nat, u: nat, rest: string)
    requires InEscape(t) && h > 0 && u < 0x10000 && !(0xDC00 <= u < 0xE000)
    ensures FourDigits(t.(hi := h, ucs := u, stPos := 4), rest)
         == FourDigits(t.(pb := t.pb + REPLACEMENT, ucs := u, stPos := 4), rest)
    ensures !FourDigits(t.(hi := h, ucs := u, stPos := 4), rest).Redo?
  {
    hide LooksHigh, LooksLow, IsHighSurrogate, IsLowSurrogate, Encode;
    LooksLikeSurrogate(u);
    SmallLooks(u);
  }

  lemma SameSwitch(p: Tok, q: Tok, c: char, rest: string)
    requires Switch(p, Null, c, rest, 0) == Switch(q, Null, c, rest, 0) && !Switch(p, Null, c, rest, 0).Redo?
    ensures c != NUL ==> Run(p, 0, [c] + rest) == Run(q, 0, [c] + rest)
  {
    hide Switch;
    assert Process(p, Null, c, rest, 0) == Process(q, Null, c, rest, 0);
    hide Process;
    assert ([c] + rest)[0] == c && ([c] + rest)[1..] == rest;
  }

  lemma HighLooks(h: nat)
    requires 0xD800 <= h < 0xDC00
    ensures IsHighSurrogate(h)
  {
  }

  lemma TwoCodes()
    ensures HexValue("D836") == 0xD836 && HexValue("DC00") == 0xDC00 && IsHex("D836") && IsHex("DC00")
    ensures DecodePair(0xD836, 0xDC00) == 0x1D800 && LooksHigh(0x1D800)
    ensures DecodePair(0x1D800, 0xDC00) == 0x10000 && !LooksHigh(0x10000) && !LooksLow(0x10000)
  {
  }

  /** The pair of U+1D800 is replaced, ... */
  lemma SignWritingIsLost(t: Tok, rest: string) returns (text: string)
    requires InEscape(t) && !("\\u" <= rest)
    ensures Utf8.Stands(text, 0xFFFD)
    ensures Run(t, 0, "D836" + ("\\u" + ("DC00" + rest))) == More(Run(Behind(t, 0x1D800, text), 0, rest), 10)
  {
    hide HexValue, Run, DecodePair, IsHex, Utf8.Stands;
    TwoCodes();
    text := PairRead(t, "D836", "DC00", rest);
  }

  /** ... but with the escape of a low surrogate behind it, the three of them are read as U+10000, which none of them
      stands for. */
  lemma SignWritingIsJoined(t: Tok, rest: string) returns (text: string)
    requires InEscape(t)
    ensures Utf8.Stands(text, 0x10000)
    ensures Run(t, 0, "D836" + ("\\u" + ("DC00" + ("\\u" + ("DC00" + rest)))))
         == More(Run(Behind(t, 0x10000, text), 0, rest), 16)
  {
    hide HexValue, Run, DecodePair, IsHex, LooksHigh, LooksLow, Utf8.Stands;
    TwoCodes();
    var more := "\\u" + ("DC00" + rest);
    assert more[..2] == "\\u" && more[2..] == "DC00" + rest;
    text := PairRead(t, "D836", "DC00", more);
    text := SecondRead(t, 0x1D800, "DC00", rest);
  }

  lemma LowEnds(t: Tok, u: nat, rest: string)
    requires InEscape(t) && 0xDC00 <= u < 0xE000
    ensures FourDigits(t.(ucs := u, stPos := 4), rest) == Advance(Behind(t, u, REPLACEMENT), 1)
  {
  }

  lemma HighEnds(t: Tok, u: nat)
    requires InEscape(t) && 0xD800 <= u < 0xDC00
    ensures FourDigits(t.(ucs := u, stPos := 4), "") == Advance(Behind(t, u, REPLACEMENT), 1)
  {
  }

  /** A string that goes on with another escape */
  lemma EscapeRead(t: Tok, rest: string)
    requires Top(t).state == String && t.quote == '"'
    ensures var t' := SetTop(t, Top(t).(state := EscapeUnicode, saved := String)).(ucs := 0, stPos := 0);
      Run(t, 0, "\\u" + rest) == More(Run(t', 0, rest), 2)
  {
    hide Run;
    var t1 := SetTop(t, Top(t).(state := StringEscape, saved := String));
    var t2 := Go(t1, EscapeUnicode).(ucs := 0, stPos := 0);
    assert t2.stack == SetTop(t, Top(t).(state := EscapeUnicode, saved := String)).stack;
    assert "\\u" + rest == "\\" + ("u" + rest);
    Step(t, 0, '\\', "u" + rest, t1, 1);
    assert ("u" + rest)[0..] == "u" + rest && rest[0..] == rest;
    Step(t1, 0, 'u', rest, t2, 1);
  }

  ghost predicate InString(t: Tok) {
    InEscape(t) && Top(t).saved == String && t.quote == '"' && t.err == Success
  }

  /** A cut between the halves of a pair always matters, whatever comes behind them: two chunks read two replacement
      characters, while the whole input gives the character, or one replacement character. */
  lemma PairCutMatters(t: Tok, hi: string, lo: string, rest: string) returns (w: Tok, text: string)
    requires InString(t) && IsHex(hi) && IsHex(lo) && 0xD800 <= HexValue(hi) < 0xDC00 && 0xDC00 <= HexValue(lo) < 0xE000
    ensures Parse(t, hi).tok.err == Continue
    ensures Parse(Parse(t, hi).tok, "\\u" + (lo + rest)) == More(Run(w, 0, rest), 6)
    ensures Top(w).state == String && w.hi == 0 && w.pb == t.pb + REPLACEMENT + REPLACEMENT
    ensures var u := Joined(HexValue(hi), HexValue(lo));
      && Utf8.Stands(text, ReadAs(u)) && text != REPLACEMENT + REPLACEMENT
      && (!(LooksHigh(u) && "\\u" <= rest) ==>
            Parse(t, hi + ("\\u" + (lo + rest))) == More(Run(Behind(t, u, text), 0, rest), 10))
  {
    hide Run, Switch, FourDigits, HexDigit, HexValue, Encode, LooksHigh, LooksLow, DecodePair, Utf8.Stands, Joined;
    assert Begin(t) == t;
    text := PairRead(t, hi, lo, rest);
    StandsShort(text, ReadAs(Joined(HexValue(hi), HexValue(lo))));
    var v := FirstHalf(t, hi);
    var u := SetTop(v, Top(v).(state := EscapeUnicode, saved := String)).(ucs := 0, stPos := 0);
    EscapeRead(v, lo + rest);
    LastDigit(u, lo, rest);
    LowEnds(u, HexValue(lo), rest);
    w := Behind(u, HexValue(lo), REPLACEMENT);
    FourAlone(u, lo, rest, w);
  }

  lemma StandsShort(text: string, u: nat)
    requires Utf8.Stands(text, u)
    ensures |text| <= 4 && |REPLACEMENT| == 3
  {
  }

  lemma FirstHalf(t: Tok, hi: string) returns (w: Tok)
    requires InString(t) && IsHex(hi) && 0xD800 <= HexValue(hi) < 0xDC00
    ensures Run(t, 0, hi).tok.err == Continue && Begin(Run(t, 0, hi).tok) == w
    ensures Top(w).state == String && w.quote == '"' && w.pb == t.pb + REPLACEMENT && w.hi == 0
  {
    hide Switch, FourDigits, HexDigit, HexValue;
    FirstDigits(t, hi, "");
    LastDigit(t, hi, "");
    HighEnds(t, HexValue(hi));
    w := Behind(t, HexValue(hi), REPLACEMENT);
    assert hi[3] in hi;
    Step(ThreeDigits(t, hi), 0, hi[3], "", w, 1);
    assert hi + "" == hi;
  }
}