/** UTF-8 as RFC 3629 describes it. A byte is a character below 256. */
module Utf8 {
  predicate In(c: char, first: nat, last: nat) {
    first <= c as nat <= last
  }

  predicate Tail(c: char) {
    In(c, 0x80, 0xBF)
  }

  /** UTF8-char (section 4) */
  predicate WellFormed(s: string) {
    if |s| == 1 then In(s[0], 0, 0x7F)
    else if |s| == 2 then In(s[0], 0xC2, 0xDF) && Tail(s[1])
    else if |s| == 3 then
      && Tail(s[2])
      && (|| (In(s[0], 0xE0, 0xE0) && In(s[1], 0xA0, 0xBF)) || (In(s[0], 0xE1, 0xEC) && Tail(s[1]))
          || (In(s[0], 0xED, 0xED) && In(s[1], 0x80, 0x9F)) || (In(s[0], 0xEE, 0xEF) && Tail(s[1])))
    else
      && |s| == 4 && Tail(s[2]) && Tail(s[3])
      && (|| (In(s[0], 0xF0, 0xF0) && In(s[1], 0x90, 0xBF)) || (In(s[0], 0xF1, 0xF3) && Tail(s[1]))
          || (In(s[0], 0xF4, 0xF4) && In(s[1], 0x80, 0x8F)))
  }

  /** The bits of the first byte that belong to the number (section 3) */
  function FirstBits(s: string): nat
    requires WellFormed(s)
  {
    if |s| == 1 then s[0] as nat
    else if |s| == 2 then s[0] as nat - 0xC0
    else if |s| == 3 then s[0] as nat - 0xE0
    else s[0] as nat - 0xF0
  }

  /** Each further byte brings six bits more. */
  function Gathered(bits: nat, tails: string): nat
    requires forall c :: c in tails ==> Tail(c)
    decreases |tails|
  {
    if tails == "" then bits
    else
      assert Tail(tails[0]);
      Gathered(bits * 0x40 + (tails[0] as nat - 0x80), tails[1..])
  }

  /** The bytes s are the character with the number u. */
  predicate Stands(s: string, u: nat) {
    WellFormed(s) && Gathered(FirstBits(s), s[1..]) == u
  }

  /** The numbers of characters: those of surrogates belong to none. */
  predicate IsScalar(u: nat) {
    u < 0x110000 && !(0xD800 <= u < 0xE000)
  }

  lemma GatheredOne(bits: nat, a: char)
    requires Tail(a)
    ensures Gathered(bits, [a]) == bits * 0x40 + (a as nat - 0x80)
  {
    assert [a][1..] == "";
  }

  lemma GatheredTwo(bits: nat, a: char, b: char)
    requires Tail(a) && Tail(b)
    ensures Gathered(bits, [a, b]) == (bits * 0x40 + (a as nat - 0x80)) * 0x40 + (b as nat - 0x80)
  {
    assert [a, b][1..] == [b];
    GatheredOne(bits * 0x40 + (a as nat - 0x80), b);
  }

  lemma GatheredThree(bits: nat, a: char, b: char, c: char)
    requires Tail(a) && Tail(b) && Tail(c)
    ensures Gathered(bits, [a, b, c])
        == ((bits * 0x40 + (a as nat - 0x80)) * 0x40 + (b as nat - 0x80)) * 0x40 + (c as nat - 0x80)
  {
    assert [a, b, c][1..] == [b, c];
    GatheredTwo(bits * 0x40 + (a as nat - 0x80), b, c);
  }

  /** The number, byte by byte */
  lemma Number(s: string)
    requires WellFormed(s)
    ensures forall c :: c in s[1..] ==> Tail(c)
    ensures Gathered(FirstBits(s), s[1..]) ==
      if |s| == 1 then s[0] as nat
      else if |s| == 2 then (s[0] as nat - 0xC0) * 0x40 + (s[1] as nat - 0x80)
      else if |s| == 3 then ((s[0] as nat - 0xE0) * 0x40 + (s[1] as nat - 0x80)) * 0x40 + (s[2] as nat - 0x80)
      else (((s[0] as nat - 0xF0) * 0x40 + (s[1] as nat - 0x80)) * 0x40 + (s[2] as nat - 0x80)) * 0x40
           + (s[3] as nat - 0x80)
  {
    if |s| == 2 {
      assert s[1..] == [s[1]];
      GatheredOne(FirstBits(s), s[1]);
    } else if |s| == 3 {
      assert s[1..] == [s[1], s[2]];
      GatheredTwo(FirstBits(s), s[1], s[2]);
    } else if |s| == 4 {
      assert s[1..] == [s[1], s[2], s[3]];
      GatheredThree(FirstBits(s), s[1], s[2], s[3]);
    }
  }

  /** Well formed bytes stand for the number of a character, and no others stand for it. */
  lemma OneForm(s: string, s': string, u: nat)
    requires Stands(s, u)
    ensures IsScalar(u) && (Stands(s', u) ==> s == s')
  {
    hide Gathered;
    Number(s);
    if Stands(s', u) {
      Length(s, u);
      Length(s', u);
      SameBytes(s, s');
    }
  }

  /** As many bytes as the number needs */
  lemma Length(s: string, u: nat)
    requires Stands(s, u)
    ensures |s| == if u < 0x80 then 1 else if u < 0x800 then 2 else if u < 0x10000 then 3 else 4
  {
    hide Gathered;
    Number(s);
  }

  lemma SameBytes(s: string, s': string)
    requires WellFormed(s) && WellFormed(s') && |s| == |s'|
    requires Gathered(FirstBits(s), s[1..]) == Gathered(FirstBits(s'), s'[1..])
    ensures s == s'
  {
    hide Gathered;
    Number(s);
    Number(s');
  }
}
